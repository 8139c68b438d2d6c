/** What `analyze_dump` reports about a printed parse tree. */
module DumpProperties {
  import opened Tables
  import opened Utf8
  import opened Tokens
  import opened NodeDump
  import opened DumpReader
  import opened DumpCorrectness

  // ---------------------------------------------------------------------------------------------
  // Words
  // ---------------------------------------------------------------------------------------------

  /** A word followed by something else is recognised exactly. */
  lemma WordMatch(lead: char, w: string, after: string, word: string)
    requires Word(w) && Word(word) && after != "" && !WordChar(after[0])
    ensures StartsWith([lead] + (w + after), [lead] + (word + " ")) <==> w == word && after[0] == ' '
    ensures StartsWith([lead] + (w + after), [lead] + word) <==> StartsWith(w, word)
  {
    var t := [lead] + (w + after);
    forall i | 0 <= i < |w| ensures t[i + 1] == w[i] { }
    assert t[|w| + 1] == after[0];
    var a, b := [lead] + (word + " "), [lead] + word;
    forall i | 0 <= i < |word| ensures a[i + 1] == word[i] && b[i + 1] == word[i] && WordChar(b[i + 1]) { }
    assert a[|word| + 1] == ' ';
    if StartsWith(t, b) {
      assert |word| <= |w|;
      forall i | 0 <= i < |word| ensures w[i] == word[i] {
        assert t[i + 1] == b[i + 1];
      }
    }
    if StartsWith(w, word) {
      forall i | 0 <= i < |b| ensures t[i] == b[i] {
        assert i >= 1 ==> w[i - 1] == word[i - 1];
      }
    }
    if StartsWith(t, a) {
      assert forall i :: 0 <= i < |b| ==> b[i] == a[i];
      assert StartsWith(t, b);
      assert t[|word| + 1] == a[|word| + 1];
      assert |w| == |word|;
      assert w == word;
    }
  }

  lemma {:induction false} IdentRead(w: string, after: string)
    requires Word(w) && (after == "" || !WordChar(after[0]))
    ensures ReadIdent(w + after) == w
  {
    if w == "" {
      assert w + after == after;
    } else {
      assert (w + after)[1..] == w[1..] + after;
      IdentRead(w[1..], after);
    }
  }

  // ---------------------------------------------------------------------------------------------
  // Looking up a field
  // ---------------------------------------------------------------------------------------------

  function TokenField(fields: Fields, name: string): Option<string> {
    if fields.NoField? then None
    else if fields.name == name then (if fields.value.Token? then PlainName(fields.value.name) else None)
    else TokenField(fields.rest, name)
  }

  lemma {:induction false} FindBehind(s: string, tail: string, needle: string)
    requires needle != "" && forall i :: 0 <= i < |s| ==> !StartsWith((s + tail)[i..], needle)
    ensures Find(s + tail, needle).Some? <==> Find(tail, needle).Some?
    ensures Find(tail, needle).Some? ==> Find(s + tail, needle).value == |s| + Find(tail, needle).value
  {
    if s == "" {
      assert s + tail == tail;
    } else {
      var all := s + tail;
      assert all[0..] == all && all[1..] == s[1..] + tail;
      forall i | 0 <= i < |s| - 1 ensures !StartsWith((s[1..] + tail)[i..], needle) {
        assert all[i + 1..] == (s[1..] + tail)[i..];
      }
      FindBehind(s[1..], tail, needle);
    }
  }

  function Needle(name: string): string {
    ":" + (name + " ")
  }

  /** The first occurrence of `needle` has the given value behind it. */
  predicate Reads(t: string, needle: string, value: Option<string>) {
    var p := Find(t, needle);
    p.Some? && ReadToken(t[p.value + |needle|..]).0 == value
  }

  lemma FindShifted(s: string, after: string, needle: string, value: Option<string>)
    requires needle != "" && forall i :: 0 <= i < |s| ==> !StartsWith((s + after)[i..], needle)
    requires Reads(after, needle, value)
    ensures Reads(s + after, needle, value)
  {
    hide Find, ReadToken, StartsWith;
    FindBehind(s, after, needle);
    var p := Find(after, needle).value;
    assert Find(s + after, needle) == Some(|s| + p);
    SliceBehind(s, after, p + |needle|);
  }

  lemma SliceBehind(s: string, after: string, k: nat)
    requires k <= |after|
    ensures (s + after)[|s| + k..] == after[k..]
  {
  }

  /** The printed form of a field, before what follows it. */
  function Header(n: string, x: string): string {
    ":" + (n + (" " + x))
  }

  /** Inside a different field and its value, `name` is found in one place only: at the very end, if the
      value ends in a colon and that name. */
  lemma MatchInField(n: string, x: string, after: string, name: string, i: nat)
    requires Word(n) && Word(name) && n != name && SpacesHidden(x) && after != "" && after[0] == ' ' && i < |Header(n, x)|
    ensures StartsWith((Header(n, x) + after)[i..], Needle(name)) <==> EndsIn(x, ":" + name) && i == |Header(n, x)| - 1 - |name|
  {
    var s := Header(n, x);
    var here := (s + after)[i..];
    var needle := Needle(name);
    var head := |n| + 2;
    assert |s| == head + |x|;
    if i == 0 {
      assert here == ":" + (n + (" " + (x + after)));
      WordMatch(':', n, " " + (x + after), name);
    } else if i < head {
      assert here[0] == s[i] != ':';
    } else {
      MatchInValue(x, after, name, i - head);
      assert here == (x + after)[i - head..];
    }
  }

  lemma MatchInValue(x: string, after: string, name: string, m: nat)
    requires Word(name) && SpacesHidden(x) && after != "" && after[0] == ' ' && m < |x|
    ensures StartsWith((x + after)[m..], Needle(name)) <==> EndsIn(x, ":" + name) && m == |x| - 1 - |name|
  {
    var needle, k := Needle(name), 1 + |name|;
    assert needle[..k] == ":" + name && needle[k..] == " ";
    assert forall i :: 1 <= i < k ==> needle[i] == name[i - 1];
    LabelInText(needle, k, x, after, m);
  }

  lemma PassField(n: string, x: string, after: string, name: string, value: Option<string>)
    requires Word(n) && Word(name) && n != name && SpacesHidden(x) && !EndsIn(x, ":" + name)
    requires after != "" && after[0] == ' ' && Reads(after, Needle(name), value)
    ensures Reads(Header(n, x) + after, Needle(name), value)
  {
    hide Reads, StartsWith, EndsIn, SpacesHidden;
    var s := Header(n, x);
    forall i | 0 <= i < |s| ensures !StartsWith((s + after)[i..], Needle(name)) {
      MatchInField(n, x, after, name, i);
    }
    hide Header;
    FindShifted(s, after, Needle(name), value);
  }

  /** A value that ends in a colon and the name is taken for the field: what is read is the label of the
      next one. */
  lemma StopAtField(n: string, x: string, after: string, name: string)
    requires Word(n) && Word(name) && n != name && SpacesHidden(x) && EndsIn(x, ":" + name)
    requires after != "" && after[0] == ' '
    ensures Reads(Header(n, x) + after, Needle(name), ReadToken(after[1..]).0)
  {
    hide Reads, StartsWith, Find, ReadToken, SpacesHidden, Word;
    HeaderParts(n, x, ":" + name);
    var s := Header(n, x);
    var p := |s| - 1 - |name|;
    var front := s[..p];
    var back := (":" + name) + after;
    assert s + after == front + back;
    LabelRead(name, after);
    hide EndsIn, Header;
    forall i | 0 <= i < |front| ensures !StartsWith((front + back)[i..], Needle(name)) {
      MatchInField(n, x, after, name, i);
    }
    FindShifted(front, back, Needle(name), ReadToken(after[1..]).0);
  }

  lemma HeaderParts(n: string, x: string, suffix: string)
    requires EndsIn(x, suffix)
    ensures var s := Header(n, x); |suffix| <= |s| && s == s[..|s| - |suffix|] + suffix
  {
    var s := Header(n, x);
    assert s[|s| - |suffix|..] == x[|x| - |suffix|..];
  }

  lemma LabelRead(name: string, after: string)
    requires after != "" && after[0] == ' '
    ensures Reads((":" + name) + after, Needle(name), ReadToken(after[1..]).0)
  {
    hide ReadToken;
    var back := (":" + name) + after;
    assert back == Needle(name) + after[1..];
    assert StartsWith(back, Needle(name)) && back[|Needle(name)|..] == after[1..];
    assert Find(back, Needle(name)) == Some(0);
  }

  lemma AddSpace(u: string, name: string, value: Option<string>)
    requires Reads(u, Needle(name), value)
    ensures Reads(" " + u, Needle(name), value)
  {
    forall i | 0 <= i < 1 ensures !StartsWith((" " + u)[i..], Needle(name)) {
      assert (" " + u)[i..][0] == ' ';
    }
    hide Reads, StartsWith;
    FindShifted(" ", u, Needle(name), value);
  }

  /** Reading plain characters. */
  lemma {:induction false} ReadWord(w: string, rest: string)
    requires Word(w) && (rest == "" || Delimiter(rest[0]))
    ensures Read(w + rest).0 == w
  {
    if w == "" {
      assert w + rest == rest;
      ReadAtDelimiter(rest);
    } else {
      ReadWord(w[1..], rest);
      ReadPlain(w[0], w[1..] + rest);
      assert w + rest == [w[0]] + (w[1..] + rest);
    }
  }

  lemma ReadPlain(c: char, rest: string)
    requires WordChar(c) || c == ':'
    ensures Read([c] + rest) == Push(c, 1, Read(rest))
  {
    var t := [c] + rest;
    assert t[0] == c && c != '\\' && !Delimiter(c) && c as int < 0x80;
    assert DecodeFirst(t) == (c, 1);
    assert t[1..] == rest;
  }

  /** A field's label, read as a token. */
  lemma ReadLabel(w: string, rest: string)
    requires Word(w)
    ensures ReadToken(":" + (w + (" " + rest))).0 == Some(":" + w)
  {
    var t := w + (" " + rest);
    ReadWord(w, " " + rest);
    ReadPlain(':', t);
    assert ([':'] + t)[0] == ':';
  }

  /** The header and value of a field, whatever follows. */
  lemma FieldIsHeader(n: string, v: Val, after: string)
    ensures FieldOut(n, v, after) == Header(n, Out(v, "")) + after
  {
    OutAppend(v, after);
    hide Out;
  }

  /** Another field in front does not hide the one looked for, unless its value ends in the label. */
  lemma SkipField(n: string, v: Val, after: string, name: string, value: Option<string>)
    requires Word(n) && Word(name) && n != name && Valid(v) && Leaf(v) && !EndsIn(Out(v, ""), ":" + name)
    requires after != "" && after[0] == ' ' && Reads(after, Needle(name), value)
    ensures Reads(" " + FieldOut(n, v, after), Needle(name), value)
  {
    LeafSpaces(v);
    FieldIsHeader(n, v, after);
    hide Reads, Valid, EndsIn, SpacesHidden, Header;
    PassField(n, Out(v, ""), after, name, value);
    AddSpace(FieldOut(n, v, after), name, value);
  }

  lemma MistakeField(n: string, v: Val, next: string, u: Val, more: string, name: string)
    requires Word(n) && Word(name) && Word(next) && n != name && Valid(v) && Leaf(v) && EndsIn(Out(v, ""), ":" + name)
    ensures Reads(" " + FieldOut(n, v, " " + FieldOut(next, u, more)), Needle(name), Some(":" + next))
  {
    var after := " " + FieldOut(next, u, more);
    assert after[1..] == FieldOut(next, u, more);
    ReadLabel(next, Out(u, more));
    LeafSpaces(v);
    FieldIsHeader(n, v, after);
    hide Reads, Valid, EndsIn, SpacesHidden, Header, ReadToken;
    StopAtField(n, Out(v, ""), after, name);
    AddSpace(FieldOut(n, v, after), name, Some(":" + next));
  }

  lemma FindsAtStart(needle: string, x: string)
    ensures Find(needle + x, needle) == Some(0) && (needle + x)[|needle|..] == x
  {
    assert StartsWith(needle + x, needle);
  }

  lemma ThisField(name: string, v: Val, after: string)
    requires Valid(v) && v.Token? && Separated(after)
    ensures Reads(" " + FieldOut(name, v, after), Needle(name), PlainName(v.name))
  {
    hide ReadToken, Find, Valid;
    TokenReads(v, after);
    var u := FieldOut(name, v, after);
    assert u == Needle(name) + Out(v, after);
    FindsAtStart(Needle(name), Out(v, after));
    assert Reads(u, Needle(name), PlainName(v.name));
    hide Reads, FieldOut;
    AddSpace(u, name, PlainName(v.name));
  }

  lemma TokenReads(v: Val, after: string)
    requires Valid(v) && v.Token? && Separated(after)
    ensures ReadToken(Out(v, after)).0 == PlainName(v.name)
  {
    hide ReadToken;
    TokenRoundTrip(v.name, after);
  }

  /** What `field` reads: the node's own value, unless an earlier value ends in the label. */
  function ReadAs(fields: Fields, name: string): Option<string>
    requires Heads(fields, name)
  {
    if fields.name == name then PlainName(fields.value.name)
    else if EndsIn(Out(fields.value, ""), ":" + name) then assert Heads(fields.rest, name); Some(":" + fields.rest.name)
    else ReadAs(fields.rest, name)
  }

  /** No value before the field ends in its label. */
  predicate OwnFirst(fields: Fields, name: string)
    requires Heads(fields, name)
  {
    fields.name == name || (!EndsIn(Out(fields.value, ""), ":" + name) && OwnFirst(fields.rest, name))
  }

  lemma {:induction false} FindField(fields: Fields, tail: string, name: string)
    requires ValidFields(fields) && Heads(fields, name) && Word(name) && Separated(tail)
    ensures Reads(FieldsOut(fields, tail), Needle(name), ReadAs(fields, name))
    decreases fields
  {
    hide Reads, Out, Valid, EndsIn;
    var after := FieldsOut(fields.rest, tail);
    if fields.name == name {
      FieldsOutSeparated(fields.rest, tail);
      ThisField(name, fields.value, after);
    } else if EndsIn(Out(fields.value, ""), ":" + name) {
      var next := fields.rest;
      MistakeField(fields.name, fields.value, next.name, next.value, FieldsOut(next.rest, tail), name);
    } else {
      FindField(fields.rest, tail, name);
      hide FieldOut;
      SkipField(fields.name, fields.value, after, name, ReadAs(fields.rest, name));
    }
  }

  lemma DropSpace(u: string, name: string, value: Option<string>)
    requires Reads(" " + u, Needle(name), value)
    ensures FieldOf(u, name) == value
  {
    hide ReadToken, Find;
    FindBehindSpace(u, Needle(name));
    var r := Find(u, Needle(name));
    SliceBehind(" ", u, r.value + |Needle(name)|);
  }

  lemma FindBehindSpace(u: string, needle: string)
    requires needle != "" && needle[0] != ' '
    ensures Find(" " + u, needle) == if Find(u, needle).None? then None else Some(Find(u, needle).value + 1)
  {
    hide Find;
    var t := " " + u;
    assert t[1..] == u && t[0] == ' ';
    assert !StartsWith(t, needle);
    hide StartsWith;
    FindStep(t, needle);
  }

  // ---------------------------------------------------------------------------------------------
  // Relations
  // ---------------------------------------------------------------------------------------------

  /** The relation a range variable names. */
  function RelationOf(tag: string, fields: Fields): seq<Qualified> {
    if tag != "RANGEVAR" || TokenField(fields, "relname").None? then []
    else [Qualified(TokenField(fields, "schemaname"), TokenField(fields, "relname").value)]
  }

  /** The relation that is reported for it. */
  function ReportedOf(tag: string, fields: Fields): seq<Qualified> {
    if tag != "RANGEVAR" || !Heads(fields, "relname") || !Heads(fields, "schemaname") || ReadAs(fields, "relname").None? then []
    else [Qualified(ReadAs(fields, "schemaname"), ReadAs(fields, "relname").value)]
  }

  const RELATIONS: Probe<Qualified> := Probe(RANGEVAR, RelationAt, RelationOf, (name: string, v: Val) => [])

  const REPORTED: Probe<Qualified> := Probe(RANGEVAR, RelationAt, ReportedOf, (name: string, v: Val) => [])

  lemma SpaceBody(u: string)
    ensures (" " + u)[..BodyEnd(" " + u, 0, '{', '}')] == " " + u[..BodyEnd(u, 0, '{', '}')]
  {
    assert (" " + u)[1..] == u;
  }

  lemma RangeVarBody(fields: Fields, tail: string)
    requires ValidFields(fields) && fields.Field?
    ensures var u := FieldOut(fields.name, fields.value, FieldsOut(fields.rest, "}" + tail));
            u[..BodyEnd(u, 0, '{', '}')] == FieldOut(fields.name, fields.value, FieldsOut(fields.rest, ""))
  {
    hide Out, Valid, BodyEnd;
    var u := FieldOut(fields.name, fields.value, FieldsOut(fields.rest, "}" + tail));
    var u0 := FieldOut(fields.name, fields.value, FieldsOut(fields.rest, ""));
    FieldsBody(fields, tail);
    SpaceBody(u);
    hide FieldOut, FieldsOut;
    var body := u[..BodyEnd(u, 0, '{', '}')];
    assert (" " + u0)[1..] == u0 && (" " + body)[1..] == body;
  }

  /** `field` on the text of a node, for every node whose own field comes behind leaves only. */
  lemma FieldOfNode(fields: Fields, name: string)
    requires ValidFields(fields) && Heads(fields, name) && Word(name)
    ensures FieldOf(FieldOut(fields.name, fields.value, FieldsOut(fields.rest, "")), name) == ReadAs(fields, name)
  {
    hide Out, Valid, FieldOf, Reads;
    var u := FieldOut(fields.name, fields.value, FieldsOut(fields.rest, ""));
    FindField(fields, "", name);
    DropSpace(u, name, ReadAs(fields, name));
  }

  /** The label that is read in place of the value when the field is mistaken. */
  function Mistaken(fields: Fields, name: string): Option<string>
    requires Heads(fields, name)
  {
    if fields.name == name then None
    else if EndsIn(Out(fields.value, ""), ":" + name) then assert Heads(fields.rest, name); Some(":" + fields.rest.name)
    else Mistaken(fields.rest, name)
  }

  predicate StartsWithColon(value: Option<string>) {
    value.Some? && value.value != "" && value.value[0] == ':'
  }

  /** The exact condition: `field` gives the node's own value if and only if no earlier value ends in a
      colon and the field's name, or the value happens to be the label read instead. */
  lemma {:induction false} OwnValueExactly(fields: Fields, name: string)
    requires Heads(fields, name)
    ensures ReadAs(fields, name) == TokenField(fields, name)
            <==> OwnFirst(fields, name) || TokenField(fields, name) == Mistaken(fields, name)
    ensures !OwnFirst(fields, name) ==> ReadAs(fields, name) == Mistaken(fields, name) && StartsWithColon(ReadAs(fields, name))
    decreases fields
  {
    if fields.name != name {
      OwnValueExactly(fields.rest, name);
    }
  }

  lemma FieldNameLiterals()
    ensures Word("relname") && Word("schemaname")
  {
  }

  lemma RangeVarFields(fields: Fields)
    requires Valid(Sub("RANGEVAR", fields))
    ensures fields.Field?
    ensures var u := FieldOut(fields.name, fields.value, FieldsOut(fields.rest, ""));
            && Heads(fields, "relname") && Heads(fields, "schemaname")
            && FieldOf(u, "relname") == ReadAs(fields, "relname") && FieldOf(u, "schemaname") == ReadAs(fields, "schemaname")
  {
    assert Heads(fields, "relname") && Heads(fields, "schemaname") && ValidFields(fields) && fields.Field?;
    FieldNameLiterals();
    hide *;
    FieldOfNode(fields, "relname");
    FieldOfNode(fields, "schemaname");
  }

  lemma RangeVarRead(fields: Fields, tail: string)
    requires Valid(Sub("RANGEVAR", fields))
    ensures fields.Field?
    ensures RelationAt(FieldOut(fields.name, fields.value, FieldsOut(fields.rest, "}" + tail))) == ReportedOf("RANGEVAR", fields)
  {
    RangeVarFields(fields);
    RangeVarBody(fields, tail);
    hide FieldOut, FieldsOut, BodyEnd, FieldOf, ReadAs, Heads;
  }

  /** What follows a tag. */
  lemma AfterTag(fields: Fields, tail: string)
    ensures var after := FieldsOut(fields, "}" + tail);
            after != "" && !WordChar(after[0]) && (after[0] == ' ' <==> fields.Field?)
    ensures fields.Field? ==>
      FieldsOut(fields, "}" + tail)[1..] == FieldOut(fields.name, fields.value, FieldsOut(fields.rest, "}" + tail))
  {
    if fields.Field? {
      var u := FieldOut(fields.name, fields.value, FieldsOut(fields.rest, "}" + tail));
      assert (" " + u)[1..] == u;
    }
  }

  lemma RangeVarLiteral()
    ensures Word("RANGEVAR") && RANGEVAR == ['{'] + ("RANGEVAR" + " ") && |RANGEVAR| == 10 && |"RANGEVAR"| == 8
  {
  }

  lemma DropLead(lead: char, w: string, after: string)
    requires after != ""
    ensures ([lead] + (w + after))[|w| + 2..] == after[1..]
    ensures ([lead] + (w + after))[|w| + 1..] == after
  {
  }

  lemma RelationsHere(tag: string, fields: Fields, tail: string)
    requires Valid(Sub(tag, fields)) && Separated(tail)
    ensures ReportedOf(tag, fields) == Here(RANGEVAR, RelationAt, Out(Sub(tag, fields), tail))
  {
    var after := FieldsOut(fields, "}" + tail);
    var t := Out(Sub(tag, fields), tail);
    assert t == ['{'] + (tag + after);
    RangeVarLiteral();
    AfterTag(fields, tail);
    WordMatch('{', tag, after, "RANGEVAR");
    if tag == "RANGEVAR" {
      RangeVarRead(fields, tail);
      DropLead('{', tag, after);
      hide RelationAt, Valid, FieldsOut, Out, ReadAs, StartsWith, Word, FieldOut;
      assert t[|RANGEVAR|..] == after[1..];
    }
  }

  lemma ReportedPrecise()
    ensures Precise(REPORTED)
  {
    forall tag, fields, tail | Valid(Sub(tag, fields)) && Separated(tail)
      ensures REPORTED.node(tag, fields) == At(REPORTED, Out(Sub(tag, fields), tail))
    {
      RelationsHere(tag, fields, tail);
    }
    forall name, v, tail | GoodField(name, v) && Separated(tail)
      ensures REPORTED.field(name, v) == At(REPORTED, FieldOut(name, v, tail))
    {
      assert FieldOut(name, v, tail)[0] == ':' != RANGEVAR[0];
    }
  }

  // ---------------------------------------------------------------------------------------------
  // When what is reported is what is there
  // ---------------------------------------------------------------------------------------------

  /** No range variable of the tree is misread. */
  predicate Unmisled(v: Val) {
    match v
    case List(items) => UnmisledItems(items)
    case Sub(tag, fields) => NodeUnmisled(tag, fields) && UnmisledFields(fields)
    case _ => true
  }

  predicate NodeUnmisled(tag: string, fields: Fields) {
    tag == "RANGEVAR" ==>
      (Heads(fields, "relname") ==> OwnFirst(fields, "relname")) && (Heads(fields, "schemaname") ==> OwnFirst(fields, "schemaname"))
  }

  predicate UnmisledItems(items: Items) {
    items.Item? ==> Unmisled(items.value) && UnmisledItems(items.rest)
  }

  predicate UnmisledFields(fields: Fields) {
    fields.Field? ==> Unmisled(fields.value) && UnmisledFields(fields.rest)
  }

  /** Every range variable has a name, and no relation or schema has a name that starts with a colon. */
  predicate Named(v: Val) {
    match v
    case List(items) => NamedItems(items)
    case Sub(tag, fields) => (tag == "RANGEVAR" ==> NodeNamed(fields)) && NamedFields(fields)
    case _ => true
  }

  predicate NodeNamed(fields: Fields) {
    var name, schema := TokenField(fields, "relname"), TokenField(fields, "schemaname");
    name.Some? && !StartsWithColon(name) && !StartsWithColon(schema)
  }

  predicate NamedItems(items: Items) {
    items.Item? ==> Named(items.value) && NamedItems(items.rest)
  }

  predicate NamedFields(fields: Fields) {
    fields.Field? ==> Named(fields.value) && NamedFields(fields.rest)
  }

  /** What is reported for a range variable is what it names, exactly when it is not misread. */
  lemma NodeReport(tag: string, fields: Fields)
    requires Valid(Sub(tag, fields))
    ensures NodeUnmisled(tag, fields) ==> ReportedOf(tag, fields) == RelationOf(tag, fields)
    ensures tag == "RANGEVAR" && NodeNamed(fields) ==>
      && |ReportedOf(tag, fields)| == |RelationOf(tag, fields)|
      && (ReportedOf(tag, fields) == RelationOf(tag, fields) <==> NodeUnmisled(tag, fields))
  {
    if tag == "RANGEVAR" {
      assert Heads(fields, "relname") && Heads(fields, "schemaname");
      OwnValueExactly(fields, "relname");
      OwnValueExactly(fields, "schemaname");
      hide ReadAs, TokenField, OwnFirst, Heads, Mistaken;
    }
  }

  lemma Aligned<T>(a: seq<T>, b: seq<T>, c: seq<T>, d: seq<T>)
    requires |a| == |c|
    ensures a + b == c + d <==> a == c && b == d
  {
    if a + b == c + d {
      assert (a + b)[..|a|] == a && (c + d)[..|a|] == c;
      assert (a + b)[|a|..] == b && (c + d)[|a|..] == d;
    }
  }

  lemma {:induction false} FoldReport(v: Val)
    requires Valid(v)
    ensures Unmisled(v) ==> Fold(REPORTED, v) == Fold(RELATIONS, v)
    ensures Named(v) ==> |Fold(REPORTED, v)| == |Fold(RELATIONS, v)|
    ensures Named(v) ==> (Fold(REPORTED, v) == Fold(RELATIONS, v) <==> Unmisled(v))
    decreases v
  {
    match v
    case List(items) => FoldReportItems(items);
    case Sub(tag, fields) =>
      FoldReportFields(fields);
      NodeReport(tag, fields);
      hide ReportedOf, RelationOf, NodeUnmisled, NodeNamed, FoldFields;
      if Named(v) {
        Aligned(ReportedOf(tag, fields), FoldFields(REPORTED, fields), RelationOf(tag, fields), FoldFields(RELATIONS, fields));
      }
    case _ =>
  }

  lemma {:induction false} FoldReportItems(items: Items)
    requires ValidItems(items)
    ensures UnmisledItems(items) ==> FoldItems(REPORTED, items) == FoldItems(RELATIONS, items)
    ensures NamedItems(items) ==> |FoldItems(REPORTED, items)| == |FoldItems(RELATIONS, items)|
    ensures NamedItems(items) ==> (FoldItems(REPORTED, items) == FoldItems(RELATIONS, items) <==> UnmisledItems(items))
    decreases items
  {
    if items.Item? {
      FoldReport(items.value);
      FoldReportItems(items.rest);
      hide Fold, Unmisled, Named;
      if NamedItems(items) {
        Aligned(Fold(REPORTED, items.value), FoldItems(REPORTED, items.rest), Fold(RELATIONS, items.value), FoldItems(RELATIONS, items.rest));
      }
    }
  }

  lemma {:induction false} FoldReportFields(fields: Fields)
    requires ValidFields(fields)
    ensures UnmisledFields(fields) ==> FoldFields(REPORTED, fields) == FoldFields(RELATIONS, fields)
    ensures NamedFields(fields) ==> |FoldFields(REPORTED, fields)| == |FoldFields(RELATIONS, fields)|
    ensures NamedFields(fields) ==> (FoldFields(REPORTED, fields) == FoldFields(RELATIONS, fields) <==> UnmisledFields(fields))
    decreases fields
  {
    if fields.Field? {
      FoldReport(fields.value);
      FoldReportFields(fields.rest);
      hide Fold, Unmisled, Named;
      assert forall p: Probe<Qualified> :: p == REPORTED || p == RELATIONS ==>
        FoldFields(p, fields) == Fold(p, fields.value) + FoldFields(p, fields.rest);
      if NamedFields(fields) {
        Aligned(Fold(REPORTED, fields.value), FoldFields(REPORTED, fields.rest), Fold(RELATIONS, fields.value), FoldFields(RELATIONS, fields.rest));
      }
    }
  }

  // ---------------------------------------------------------------------------------------------
  // Common table expressions and functions
  // ---------------------------------------------------------------------------------------------

  function CteOf(name: string, v: Val): seq<string> {
    if name == "ctename" && v.Token? && v.name.Some? then [Plain(v.name.value)] else []
  }

  const CTES: Probe<string> := Probe(CTENAME, CteAt, (tag: string, fields: Fields) => [], CteOf)

  lemma FieldLiterals()
    ensures Word("ctename") && CTENAME == [':'] + ("ctename" + " ")
    ensures Word("funcname") && FUNCNAME == [':'] + ("funcname" + " ") + "("
    ensures Word("intoClause") && INTO == [':'] + ("intoClause" + " ") + "{"
  {
  }

  lemma CtesHere(name: string, v: Val, tail: string)
    requires GoodField(name, v) && Separated(tail)
    ensures CteOf(name, v) == Here(CTENAME, CteAt, FieldOut(name, v, tail))
  {
    FieldLiterals();
    var after := " " + Out(v, tail);
    WordMatch(':', name, after, "ctename");
    if name == "ctename" {
      TokenRoundTrip(v.name, tail);
      DropLead(':', name, after);
      hide ReadToken, StartsWith;
      assert FieldOut(name, v, tail)[|CTENAME|..] == Out(v, tail);
    }
  }

  lemma CtesPrecise()
    ensures Precise(CTES)
  {
    forall tag, fields, tail | Valid(Sub(tag, fields)) && Separated(tail)
      ensures CTES.node(tag, fields) == At(CTES, Out(Sub(tag, fields), tail))
    {
      assert Out(Sub(tag, fields), tail)[0] == '{' != CTENAME[0];
    }
    forall name, v, tail | GoodField(name, v) && Separated(tail)
      ensures CTES.field(name, v) == At(CTES, FieldOut(name, v, tail))
    {
      CtesHere(name, v, tail);
    }
  }

  /** The function a list of strings names: one string is its name, the last two are schema and name. */
  function Called(items: Items): seq<Qualified> {
    match items
    case NoItem => []
    case Item(Quoted(f), NoItem) => [Qualified(None, Plain(f))]
    case Item(Quoted(s), Item(Quoted(f), NoItem)) => [Qualified(Some(Plain(s)), Plain(f))]
    case Item(_, rest) => Called(rest)
  }

  lemma {:induction false} LastTwoAreCalled(items: Items)
    requires AllQuoted(items)
    ensures LastTwo(Strings(items)) == Called(items)
    ensures items.Item? ==> Strings(items) != []
  {
    if items.Item? {
      LastTwoAreCalled(items.rest);
      assert Strings(items) == [Plain(items.value.gs)] + Strings(items.rest);
      if items.rest.Item? {
        LastTwoAreCalled(items.rest.rest);
        assert Strings(items.rest) == [Plain(items.rest.value.gs)] + Strings(items.rest.rest);
      }
    }
  }

  function FunctionOf(name: string, v: Val): seq<Qualified> {
    if name == "funcname" && v.List? then Called(v.items) else []
  }

  const FUNCTIONS: Probe<Qualified> := Probe(FUNCNAME, FunctionAt, (tag: string, fields: Fields) => [], FunctionOf)

  /** A word, a space and one more character. */
  lemma WordMatchThen(w: string, after: string, word: string, c: char)
    requires Word(w) && Word(word)
    ensures StartsWith([':'] + (w + (" " + after)), [':'] + (word + " ") + [c]) <==> w == word && after != "" && after[0] == c
  {
    var t := [':'] + (w + (" " + after));
    var a := [':'] + (word + " ");
    WordMatch(':', w, " " + after, word);
    assert StartsWith(t, a + [c]) ==> StartsWith(t, a) by {
      forall i | 0 <= i < |a| ensures (a + [c])[i] == a[i] { }
    }
    assert (a + [c])[|a|] == c;
    if w == word {
      assert t == a + after;
      assert after != "" ==> t[|a|] == after[0];
      assert after != "" && after[0] == c ==> forall i :: 0 <= i < |a + [c]| ==> t[i] == (a + [c])[i];
    }
  }

  lemma FunctionsHere(name: string, v: Val, tail: string)
    requires GoodField(name, v) && Separated(tail)
    ensures FunctionOf(name, v) == Here(FUNCNAME, FunctionAt, FieldOut(name, v, tail))
  {
    FieldLiterals();
    WordMatchThen(name, Out(v, tail), "funcname", '(');
    if name == "funcname" && v.List? {
      var inner := ItemsOut(v.items, ")" + tail);
      assert FieldOut(name, v, tail)[|FUNCNAME|..] == inner;
      ItemsBody(v.items, tail);
      QuotedItems(v.items);
      LastTwoAreCalled(v.items);
    }
  }

  lemma FunctionsPrecise()
    ensures Precise(FUNCTIONS)
  {
    forall tag, fields, tail | Valid(Sub(tag, fields)) && Separated(tail)
      ensures FUNCTIONS.node(tag, fields) == At(FUNCTIONS, Out(Sub(tag, fields), tail))
    {
      assert Out(Sub(tag, fields), tail)[0] == '{' != FUNCNAME[0];
    }
    forall name, v, tail | GoodField(name, v) && Separated(tail)
      ensures FUNCTIONS.field(name, v) == At(FUNCTIONS, FieldOut(name, v, tail))
    {
      FunctionsHere(name, v, tail);
    }
  }

  // ---------------------------------------------------------------------------------------------
  // The report
  // ---------------------------------------------------------------------------------------------

  /** Unless a bare name ends in `{RANGEVAR`, what is reported is known exactly, whatever the string
      literals contain: one entry per range variable, in order. The list is the tree's own exactly when
      no range variable is misread. */
  lemma RelationsAreExact(v: Val)
    requires Valid(v) && v.List? && Calm(v, "{RANGEVAR", true)
    ensures Analyze(Print(v)).relations == Fold(REPORTED, v)
    ensures Unmisled(v) ==> Analyze(Print(v)).relations == Fold(RELATIONS, v)
    ensures Named(v) ==> (Analyze(Print(v)).relations == Fold(RELATIONS, v) <==> Unmisled(v))
  {
    ReportedPrecise();
    FoldReport(v);
    LabelledNeedles();
    hide Precise, Labelled, Valid, Unmisled, Named, Fold, Calm;
    FindsExactly(REPORTED, 9, v);
  }

  lemma ListParses(v: Val)
    requires v.List?
    ensures Print(v) != "" && Analyze(Print(v)).Parsed?
  {
  }

  lemma LabelledNeedles()
    ensures Labelled(RANGEVAR, 9) && RANGEVAR[..9] == "{RANGEVAR" && |RANGEVAR| == 10
    ensures Labelled(CTENAME, 8) && CTENAME[..8] == ":ctename" && |CTENAME| == 9
    ensures Labelled(FUNCNAME, 9) && FUNCNAME[..9] == ":funcname" && |FUNCNAME| == 11
  {
  }

  /** So are the common table expressions, unless a bare name ends in `:ctename`, and the functions,
      unless a bare name in a list ends in `:funcname`. */
  lemma NamesAreExact(v: Val)
    requires Valid(v) && v.List?
    ensures Calm(v, ":ctename", true) ==> Analyze(Print(v)).ctes == Fold(CTES, v)
    ensures Calm(v, ":funcname", false) ==> Analyze(Print(v)).functions == Fold(FUNCTIONS, v)
  {
    CtesPrecise();
    FunctionsPrecise();
    LabelledNeedles();
    hide Precise, Labelled, Calm, Valid, Fold;
    if Calm(v, ":ctename", true) {
      FindsExactly(CTES, 8, v);
    }
    if Calm(v, ":funcname", false) {
      FindsExactly(FUNCTIONS, 9, v);
    }
  }

  // ---------------------------------------------------------------------------------------------
  // Names with colons
  // ---------------------------------------------------------------------------------------------

  /** A plain name is printed as it is. */
  lemma {:induction false} PlainGlyphs(name: string)
    requires Word(name)
    ensures GlyphText(PrintedGlyphs(name, false)) == name
  {
    if name != "" {
      PlainGlyphs(name[1..]);
      var gs := PrintedGlyphs(name, false);
      assert gs[1..] == PrintedGlyphs(name[1..], false);
      assert name == [name[0]] + name[1..];
    }
  }

  /** And nothing else is printed like it. */
  lemma OnlyPlain(x: string, w: string)
    requires Word(w) && GlyphText(PrintedGlyphs(x, false)) == w
    ensures x == w
  {
    PrintedGlyphsOk(x, false);
    ReadGlyphs(PrintedGlyphs(x, false), "");
    ReadWord(w, "");
    assert w + "" == w;
  }

  /** How one character is printed: a colon or a brace is the last byte of its own printing and in no
      other. */
  lemma PrintedFirst(s: string, leading: bool, lead: char)
    requires s != "" && (lead == ':' || lead == '{')
    ensures var b, t := GlyphBytes(PrintedGlyphs(s, leading)[0]), GlyphText(PrintedGlyphs(s[1..], false));
            && GlyphText(PrintedGlyphs(s, leading)) == b + t && b != ""
            && (forall i :: 0 <= i < |b| && b[i] == lead ==> i == |b| - 1)
            && (s[0] == lead <==> b[|b| - 1] == lead)
  {
    hide EncodeChar;
    var gs := PrintedGlyphs(s, leading);
    assert gs[1..] == PrintedGlyphs(s[1..], false);
    GlyphShape(gs[0]);
    hide GlyphBytes;
    if !Ascii(s[0]) {
      assert !gs[0].escaped;
    }
  }

  /** A printed name ends in a colon or a brace and a word exactly when the name does. */
  lemma {:induction false} PrintedEndsIn(s: string, leading: bool, lead: char, w: string)
    requires Word(w) && (lead == ':' || lead == '{')
    ensures EndsIn(GlyphText(PrintedGlyphs(s, leading)), [lead] + w) <==> EndsIn(s, [lead] + w)
  {
    if s != "" {
      PrintedFirst(s, leading, lead);
      hide *;
      PrintedEndsIn(s[1..], false, lead, w);
      PlainExactly(s[1..], w);
      var b, t := GlyphBytes(PrintedGlyphs(s, leading)[0]), GlyphText(PrintedGlyphs(s[1..], false));
      EndsBehind(b, t, lead, w);
      EndsBehind([s[0]], s[1..], lead, w);
      assert s == [s[0]] + s[1..];
    }
  }

  lemma PlainExactly(x: string, w: string)
    requires Word(w)
    ensures GlyphText(PrintedGlyphs(x, false)) == w <==> x == w
  {
    if x == w {
      PlainGlyphs(w);
    } else if GlyphText(PrintedGlyphs(x, false)) == w {
      OnlyPlain(x, w);
    }
  }

  lemma EndsBehind(b: string, t: string, lead: char, w: string)
    requires b != "" && forall i :: 0 <= i < |b| && b[i] == lead ==> i == |b| - 1
    ensures EndsIn(b + t, [lead] + w) <==> EndsIn(t, [lead] + w) || (b[|b| - 1] == lead && t == w)
  {
    var all, suffix := b + t, [lead] + w;
    var k := |all| - |suffix|;
    if |t| >= |suffix| {
      assert all[k..] == t[|t| - |suffix|..];
    } else if k >= 0 && EndsIn(all, suffix) {
      assert all[k..][0] == b[k] == lead;
      assert all[k..] == [lead] + t && suffix[1..] == w && ([lead] + t)[1..] == t;
    }
  }

  /** A query of relation `rel` in schema `schema`, as a dump. */
  function Query(schema: string, rel: string): Val {
    List(Item(Sub("RANGEVAR", QueryFields(schema, rel)), NoItem))
  }

  function QueryFields(schema: string, rel: string): Fields {
    Field("schemaname", Token(Some(PrintedGlyphs(schema, true))),
    Field("relname", Token(Some(PrintedGlyphs(rel, true))), NoField))
  }

  lemma QueryIsValid(schema: string, rel: string)
    ensures Valid(Query(schema, rel))
    ensures RelationOf("RANGEVAR", QueryFields(schema, rel)) == [Qualified(Some(schema), rel)]
  {
    PrintedGlyphsOk(schema, true);
    PrintedGlyphsOk(rel, true);
    FieldNameLiterals();
    var fields := QueryFields(schema, rel);
    assert ValidFields(NoField) && Valid(fields.rest.value);
    assert ValidFields(fields.rest) && ValidFields(fields);
    assert Heads(fields, "relname") && Heads(fields, "schemaname");
    assert Word("RANGEVAR") && "RANGEVAR"[2] == 'N' && "RAWSTMT"[2] == 'W';
    assert Valid(Sub("RANGEVAR", fields));
    assert TokenField(fields, "schemaname") == Some(schema) && TokenField(fields, "relname") == Some(rel);
  }

  lemma QueryFold(p: Probe<Qualified>, schema: string, rel: string)
    requires p == RELATIONS || p == REPORTED
    ensures Fold(p, Query(schema, rel)) == p.node("RANGEVAR", QueryFields(schema, rel))
  {
    var fields := QueryFields(schema, rel);
    assert FoldFields(p, NoField) == [] && FoldItems(p, NoItem) == [];
    assert FoldFields(p, fields.rest) == [];
    assert FoldFields(p, fields) == [];
    assert Fold(p, Sub("RANGEVAR", fields)) == p.node("RANGEVAR", fields);
  }

  /** A token of a name ends in a label exactly when its glyphs do. */
  lemma TokenEndsIn(gs: seq<Glyph>, stem: string)
    requires stem != "" && stem[|stem| - 1] != '"'
    ensures EndsIn(Out(Token(Some(gs)), ""), stem) <==> EndsIn(GlyphText(gs), stem)
  {
    var x := Out(Token(Some(gs)), "");
    if gs == [] {
      assert x == "\"\"" && x[|x| - 1] == '"';
    } else {
      hide GlyphText, EndsIn;
      assert x == GlyphText(gs);
    }
  }

  lemma QueryReport(schema: string, rel: string)
    ensures ReportedOf("RANGEVAR", QueryFields(schema, rel))
            == [Qualified(Some(schema), if EndsIn(schema, ":relname") then ":relname" else rel)]
  {
    QueryIsValid(schema, rel);
    PrintedGlyphsOk(schema, true);
    PrintedGlyphsOk(rel, true);
    FieldNameLiterals();
    PrintedEndsIn(schema, true, ':', "relname");
    hide PrintedGlyphs, Plain, GlyphText, EndsIn, Escapes, DelimitersEscaped, LeadEscaped, Valid, Word;
    var fields := QueryFields(schema, rel);
    assert ":" + "relname" == ":relname";
    assert Heads(fields.rest, "relname");
    assert ReadAs(fields.rest, "relname") == Some(rel);
    TokenEndsIn(PrintedGlyphs(schema, true), ":relname");
  }

  /** Behind the schema there is no other. */
  lemma NoSchemaLeft(u: Val)
    requires Valid(u) && u.Token?
    ensures FieldOf(FieldOut("relname", u, ""), "schemaname") == None
  {
    hide Out, Valid, Find, StartsWith, Header, ReadToken;
    FieldNameLiterals();
    LeafSpaces(u);
    FieldIsHeader("relname", u, "");
    var s := Header("relname", Out(u, ""));
    assert s + "" == s;
    var p := Find(s, Needle("schemaname"));
    if p.Some? {
      Longer(s, p.value, Needle("schemaname"));
      MatchInField("relname", Out(u, ""), " ", "schemaname", p.value);
    }
  }

  lemma Longer(s: string, i: nat, needle: string)
    requires i + |needle| <= |s| && StartsWith(s[i..], needle)
    ensures StartsWith((s + " ")[i..], needle)
  {
  }

  /** From the middle of the node on, only the relation's name is left to be read. */
  lemma RestRead(schema: string, rel: string, tail: string)
    ensures RelationAt(FieldOut("relname", QueryFields(schema, rel).rest.value, "}" + tail)) == [Qualified(None, rel)]
  {
    QueryIsValid(schema, rel);
    PrintedGlyphsOk(rel, true);
    FieldNameLiterals();
    var rest := QueryFields(schema, rel).rest;
    QueryFieldsOk(schema, rel);
    assert rest.rest == NoField && Heads(rest, "relname") && ReadAs(rest, "relname") == Some(rel);
    hide PrintedGlyphs, Valid, ReadAs, Heads, Word;
    RangeVarBody(rest, tail);
    FieldOfNode(rest, "relname");
    NoSchemaLeft(rest.value);
    hide FieldOf, FieldOut, BodyEnd;
    assert FieldsOut(NoField, "") == "" && FieldsOut(NoField, "}" + tail) == "}" + tail;
  }

  lemma QueryFieldsOk(schema: string, rel: string)
    ensures var fields := QueryFields(schema, rel);
            && Valid(Sub("RANGEVAR", fields)) && ValidFields(fields) && ValidFields(fields.rest)
            && Valid(fields.value) && Valid(fields.rest.value)
            && Word("schemaname") && Word("relname")
  {
    QueryIsValid(schema, rel);
    hide PrintedGlyphs;
    assert Valid(Query(schema, rel).items.value);
  }

  /** The text of such a node behind its schema. */
  function AfterSchema(u: Val): string {
    " " + FieldOut("relname", u, "})")
  }

  /** What is found in a node of a schema and a relation. */
  lemma TwoFieldsFound(v: Val, u: Val)
    requires v.Token? && u.Token?
    requires Valid(Sub("RANGEVAR", Field("schemaname", v, Field("relname", u, NoField))))
    ensures |RANGEVAR| == 10
    ensures var fields := Field("schemaname", v, Field("relname", u, NoField));
            Found(REPORTED, Print(List(Item(Sub("RANGEVAR", fields), NoItem))))
            == ReportedOf("RANGEVAR", fields) + Echo(REPORTED, 9, Out(v, ""), AfterSchema(u))
  {
    hide Found, Precise, Labelled, Echo, RelationAt, ReportedOf, Valid, Word, Out, FieldsOut, FieldOut, ItemsOut;
    var fields := Field("schemaname", v, Field("relname", u, NoField));
    TwoFieldsValid(v, u);
    TwoFieldsText(v, u);
    ReportedPrecise();
    LabelledNeedles();
    ListExact(REPORTED, Item(Sub("RANGEVAR", fields), NoItem), "");
    NodeExact(REPORTED, "RANGEVAR", fields, ")");
    TokenFieldFound("schemaname", v, AfterSchema(u));
    TokenFieldFound("relname", u, "})");
    NoEcho(u);
    assert Found(REPORTED, AfterSchema(u)) == [];
  }

  lemma TokenFieldFound(name: string, v: Val, after: string)
    requires GoodField(name, v) && v.Token? && Separated(after)
    ensures |RANGEVAR| == 10
    ensures Found(REPORTED, " " + FieldOut(name, v, after)) == Echo(REPORTED, 9, Out(v, ""), after) + Found(REPORTED, after)
  {
    hide Found, Precise, Labelled, Echo, RelationAt, Out, FieldOut;
    ReportedPrecise();
    LabelledNeedles();
    FieldExact(REPORTED, name, v, after);
    TokenExact(REPORTED, 9, v, after);
  }

  lemma NoEcho(u: Val)
    ensures |RANGEVAR| == 10
    ensures Echo(REPORTED, 9, Out(u, ""), "})") == [] && Found(REPORTED, "})") == [] && Found(REPORTED, "") == []
  {
    hide EndsIn, RelationAt, Out;
    LabelledNeedles();
    SilentWithout(REPORTED, "})", "");
    assert RANGEVAR[9..] == " " && "})" + "" == "})";
  }

  lemma TwoFieldsValid(v: Val, u: Val)
    requires v.Token? && u.Token?
    requires Valid(Sub("RANGEVAR", Field("schemaname", v, Field("relname", u, NoField))))
    ensures GoodField("schemaname", v) && GoodField("relname", u)
  {
    var last := Field("relname", u, NoField);
    assert ValidFields(Field("schemaname", v, last)) && ValidFields(last);
  }

  lemma TwoFieldsText(v: Val, u: Val)
    ensures var fields := Field("schemaname", v, Field("relname", u, NoField));
            && FieldsOut(fields, "}" + ")") == " " + FieldOut("schemaname", v, AfterSchema(u))
            && ItemsOut(Item(Sub("RANGEVAR", fields), NoItem), ")" + "") == Out(Sub("RANGEVAR", fields), ")")
  {
    var last := Field("relname", u, NoField);
    assert FieldsOut(NoField, "}" + ")") == "})";
    assert FieldsOut(last, "}" + ")") == AfterSchema(u);
    assert ")" + "" == ")";
  }

  lemma SchemaEcho(schema: string, rel: string)
    ensures |RANGEVAR| == 10
    ensures Echo(REPORTED, 9, Out(QueryFields(schema, rel).value, ""), AfterSchema(QueryFields(schema, rel).rest.value))
            == if EndsIn(schema, "{RANGEVAR") then [Qualified(None, rel)] else []
  {
    RestRead(schema, rel, ")");
    LabelledNeedles();
    RangeVarLiteral();
    PrintedEndsIn(schema, true, '{', "RANGEVAR");
    assert "{RANGEVAR" == ['{'] + "RANGEVAR";
    TokenEndsIn(PrintedGlyphs(schema, true), "{RANGEVAR");
    hide EndsIn, RelationAt, PrintedGlyphs, Labelled, Word, FieldOut, Out;
    var u := QueryFields(schema, rel).rest.value;
    var after := AfterSchema(u);
    assert "}" + ")" == "})" && RANGEVAR[9..] == " ";
    assert StartsWith(after, " ") && after[1..] == FieldOut("relname", u, "})");
  }

  /** The query of one relation, for all names: a schema whose name ends in `:relname` is enough to be
      misled, and the relation is then reported as `:relname`; one whose name ends in `{RANGEVAR` has it
      reported a second time, without a schema. No other names mislead. */
  lemma ColonMisleads(schema: string, rel: string)
    ensures var v := Query(schema, rel);
            && Valid(v) && Fold(RELATIONS, v) == [Qualified(Some(schema), rel)]
            && Analyze(Print(v)).Parsed?
            && Analyze(Print(v)).relations
               == [Qualified(Some(schema), if EndsIn(schema, ":relname") then ":relname" else rel)]
                  + (if EndsIn(schema, "{RANGEVAR") then [Qualified(None, rel)] else [])
            && (Analyze(Print(v)).relations == Fold(RELATIONS, v)
                <==> (!EndsIn(schema, ":relname") || rel == ":relname") && !EndsIn(schema, "{RANGEVAR"))
  {
    hide Valid, Fold, RelationOf, ReportedOf, EndsIn, Echo, PrintedGlyphs, Collect, Out;
    ListParses(Query(schema, rel));
    QueryIsValid(schema, rel);
    QueryFieldsOk(schema, rel);
    QueryFold(RELATIONS, schema, rel);
    QueryReport(schema, rel);
    SchemaEcho(schema, rel);
    var fields := QueryFields(schema, rel);
    TwoFieldsFound(fields.value, fields.rest.value);
    OneOrTwo(Qualified(Some(schema), if EndsIn(schema, ":relname") then ":relname" else rel), Qualified(None, rel),
             EndsIn(schema, "{RANGEVAR"), Qualified(Some(schema), rel));
  }

  lemma OneOrTwo<T>(a: T, b: T, both: bool, c: T)
    ensures [a] + (if both then [b] else []) == [c] <==> !both && a == c
  {
    assert ([a] + (if both then [b] else []))[0] == a;
  }

  /** Relation `r` in schema `a:relname` is reported as `:relname`, and in schema `a{RANGEVAR` twice. */
  lemma MisledSample()
    ensures var v := Query("a:relname", "r");
            && Valid(v)
            && Analyze(Print(v)).Parsed?
            && Analyze(Print(v)).relations == [Qualified(Some("a:relname"), ":relname")]
            && Fold(RELATIONS, v) == [Qualified(Some("a:relname"), "r")]
    ensures var v := Query("a{RANGEVAR", "r");
            && Valid(v)
            && Analyze(Print(v)).Parsed?
            && Analyze(Print(v)).relations == [Qualified(Some("a{RANGEVAR"), "r"), Qualified(None, "r")]
            && Fold(RELATIONS, v) == [Qualified(Some("a{RANGEVAR"), "r")]
  {
    hide Valid, Query, Analyze, Fold, Print;
    assert "a:relname"[1..] == ":relname" && "a{RANGEVAR"[1..] == "{RANGEVAR";
    assert "a:relname"[0] != '{' && |"a:relname"| == |"{RANGEVAR"|;
    ColonMisleads("a:relname", "r");
    ColonMisleads("a{RANGEVAR", "r");
  }
}
