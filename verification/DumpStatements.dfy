/** How `analyze_dump` reads the statements of a printed parse tree: exactly, for every tree, and what
    a name or string that looks like one does to it. */
module DumpStatements {
  import opened Tables
  import opened Utf8
  import opened Tokens
  import opened NodeDump
  import opened DumpReader
  import opened DumpCorrectness
  import opened DumpProperties

  // ---------------------------------------------------------------------------------------------
  // Fields that hold a node
  // ---------------------------------------------------------------------------------------------

  function IdentAt(t: string): seq<string> {
    [ReadIdent(t)]
  }

  /** The search for fields `word` that hold a node. */
  function Opening(word: string): Probe<string> {
    Probe([':'] + (word + " ") + ['{'], IdentAt, (tag: string, fields: Fields) => [],
          (name: string, v: Val) => if name == word && v.Sub? then [v.tag] else [])
  }

  /** In a list, a bare name that ends in the label is taken for one if a node comes next. */
  function Label(v: Val, rest: Items, word: string): seq<string> {
    if v.Token? && EndsIn(Out(v, ""), [':'] + word) && rest.Item? && rest.value.Sub? then [rest.value.tag] else []
  }

  /** The tags of the nodes that are found behind `:word {`, in order. */
  function Opens(v: Val, word: string): seq<string> {
    match v
    case List(items) => OpensItems(items, word)
    case Sub(_, fields) => OpensFields(fields, word)
    case _ => []
  }

  function OpensItems(items: Items, word: string): seq<string> {
    if items.NoItem? then []
    else Opens(items.value, word) + (Label(items.value, items.rest, word) + OpensItems(items.rest, word))
  }

  function OpensFields(fields: Fields, word: string): seq<string> {
    if fields.NoField? then []
    else
      (if fields.name == word && fields.value.Sub? then [fields.value.tag] else [])
      + (Opens(fields.value, word) + OpensFields(fields.rest, word))
  }

  lemma OpeningHere(word: string, name: string, v: Val, tail: string)
    requires Word(word) && GoodField(name, v) && Separated(tail)
    ensures Opening(word).field(name, v) == At(Opening(word), FieldOut(name, v, tail))
  {
    WordMatchThen(name, Out(v, tail), word, '{');
    OutFirst(v, tail);
    if name == word && v.Sub? {
      var after := FieldsOut(v.fields, "}" + tail);
      AfterTag(v.fields, tail);
      IdentRead(v.tag, after);
      BehindLabel([':'] + (word + " ") + ['{'], name, v.tag + after);
      assert FieldOut(name, v, tail) == [':'] + (name + (" " + (['{'] + (v.tag + after))));
    }
  }

  lemma BehindLabel(needle: string, word: string, x: string)
    requires needle == [':'] + (word + " ") + ['{']
    ensures [':'] + (word + (" " + (['{'] + x))) == needle + x && (needle + x)[|needle|..] == x
  {
  }

  /** What a printed value starts with. */
  lemma OutFirst(v: Val, tail: string)
    requires Valid(v)
    ensures v.Sub? ==> Out(v, tail) != "" && Out(v, tail)[0] == '{'
    ensures !v.Sub? && (tail == "" || tail[0] != '{') ==> Out(v, tail) == "" || Out(v, tail)[0] != '{'
    ensures !v.Sub? && !v.Atom? ==> Out(v, tail) != "" && Out(v, tail)[0] != '{'
  {
    if v.Token? && v.name.Some? && v.name.value != [] {
      FirstByte(v.name.value, tail);
    }
  }

  lemma OpeningPrecise(word: string)
    requires Word(word)
    ensures Precise(Opening(word))
  {
    var p := Opening(word);
    forall tag, fields, tail | Valid(Sub(tag, fields)) && Separated(tail)
      ensures p.node(tag, fields) == At(p, Out(Sub(tag, fields), tail))
    {
      assert Out(Sub(tag, fields), tail)[0] == '{' != p.needle[0];
    }
    forall name, v, tail | GoodField(name, v) && Separated(tail)
      ensures p.field(name, v) == At(p, FieldOut(name, v, tail))
    {
      OpeningHere(word, name, v, tail);
    }
  }

  lemma OpeningLabelled(word: string)
    requires Word(word)
    ensures var needle, k := Opening(word).needle, |word| + 1;
            Labelled(needle, k) && needle[..k] == [':'] + word && needle[k..] == " {" && |needle| == k + 2
  {
    var needle := Opening(word).needle;
    assert forall i :: 1 <= i < |word| + 1 ==> needle[i] == word[i - 1];
  }

  lemma NextIsNode(rest: Items, tail: string)
    requires ValidItems(rest) && rest.Item? && tail != "" && tail[0] == ')'
    ensures StartsWith(" " + ItemsOut(rest, tail), " {") <==> rest.value.Sub?
    ensures rest.value.Sub? ==> ReadIdent((" " + ItemsOut(rest, tail))[2..]) == rest.value.tag
  {
    var v := rest.value;
    var after := if rest.rest.NoItem? then tail else " " + ItemsOut(rest.rest, tail);
    OutFirst(v, after);
    assert ItemsOut(rest, tail) == Out(v, after);
    assert Out(v, after) != "" ==> (" " + Out(v, after))[1] == Out(v, after)[0];
    if v.Sub? {
      AfterTag(v.fields, after);
      IdentRead(v.tag, FieldsOut(v.fields, "}" + after));
      assert (" " + Out(v, after))[2..] == v.tag + FieldsOut(v.fields, "}" + after);
    }
  }

  lemma EchoIsLabel(word: string, v: Val, rest: Items, tail: string)
    requires Word(word) && v.Token? && ValidItems(rest) && rest.Item? && tail != "" && tail[0] == ')'
    ensures |word| + 1 <= |Opening(word).needle|
    ensures Echo(Opening(word), |word| + 1, Out(v, ""), " " + ItemsOut(rest, tail)) == Label(v, rest, word)
  {
    OpeningLabelled(word);
    NextIsNode(rest, tail);
    hide Labelled, EndsIn, StartsWith, ItemsOut, Out, ValidItems, ReadIdent;
  }

  lemma {:induction false} OpensFound(word: string, v: Val, tail: string)
    requires Word(word) && Valid(v) && Separated(tail) && (v.Token? ==> !StartsWith(tail, " {"))
    ensures Found(Opening(word), Out(v, tail)) == Opens(v, word) + Found(Opening(word), tail)
    decreases v, 0
  {
    var p := Opening(word);
    OpeningLabelled(word);
    OpeningPrecise(word);
    hide Found, Precise, Labelled, Out, EndsIn;
    match v
    case Atom(_) => AtomExact(p, v, tail);
    case Token(_) => TokenExact(p, |word| + 1, v, tail);
    case Quoted(gs) =>
      QuotedOut(gs, tail);
      QuotedExact(p, |word| + 1, gs, tail);
    case List(items) =>
      OpensItemsFound(word, items, ")" + tail);
      ListExact(p, items, tail);
    case Sub(tag, fields) =>
      OpensFieldsFound(word, fields, "}" + tail);
      NodeExact(p, tag, fields, tail);
  }

  lemma {:induction false} OpensItemsFound(word: string, items: Items, tail: string)
    requires Word(word) && ValidItems(items) && tail != "" && tail[0] == ')'
    ensures Found(Opening(word), ItemsOut(items, tail)) == OpensItems(items, word) + Found(Opening(word), tail)
    decreases items
  {
    var p := Opening(word);
    OpeningLabelled(word);
    hide Found, Labelled, Out, EndsIn, Opens;
    match items
    case NoItem =>
    case Item(v, rest) =>
      if rest.NoItem? {
        OpensFound(word, v, tail);
      } else {
        OpensItemsFound(word, rest, tail);
        SilentWithout(p, " ", ItemsOut(rest, tail));
        OpensItemFound(word, v, rest, tail);
        Join(Opens(v, word), Label(v, rest, word), OpensItems(rest, word), Found(p, tail));
      }
  }

  lemma {:induction false} OpensItemFound(word: string, v: Val, rest: Items, tail: string)
    requires Word(word) && Valid(v) && ValidItems(rest) && rest.Item? && tail != "" && tail[0] == ')'
    ensures var after := " " + ItemsOut(rest, tail);
            Found(Opening(word), Out(v, after)) == Opens(v, word) + (Label(v, rest, word) + Found(Opening(word), after))
    decreases v, 1
  {
    var p := Opening(word);
    var after := " " + ItemsOut(rest, tail);
    hide Found, Out, EndsIn;
    if v.Token? {
      OpeningLabelled(word);
      TokenExact(p, |word| + 1, v, after);
      EchoIsLabel(word, v, rest, tail);
    } else {
      OpensFound(word, v, after);
    }
  }

  lemma {:induction false} OpensFieldsFound(word: string, fields: Fields, tail: string)
    requires Word(word) && ValidFields(fields) && (tail == "" || tail[0] == '}')
    ensures Found(Opening(word), FieldsOut(fields, tail)) == OpensFields(fields, word) + Found(Opening(word), tail)
    decreases fields
  {
    var p := Opening(word);
    OpeningPrecise(word);
    hide Found, Precise, Out, FieldOut, Valid, Opens;
    match fields
    case NoField =>
    case Field(name, v, rest) =>
      var after := FieldsOut(rest, tail);
      FieldsOutSeparated(rest, tail);
      NoNodeFollows(rest, tail);
      FieldExact(p, name, v, after);
      OpensFieldsFound(word, rest, tail);
      OpensFound(word, v, after);
      Join(p.field(name, v), Opens(v, word), OpensFields(rest, word), Found(p, tail));
  }

  lemma NoNodeFollows(fields: Fields, tail: string)
    requires tail == "" || tail[0] == '}'
    ensures !StartsWith(FieldsOut(fields, tail), " {")
  {
    if fields.Field? {
      assert (" " + FieldOut(fields.name, fields.value, FieldsOut(fields.rest, tail)))[1] == ':';
    }
  }

  // ---------------------------------------------------------------------------------------------
  // Tags inside names and strings
  // ---------------------------------------------------------------------------------------------

  /** A name or string goes on with a brace and the word. */
  predicate Mark(gs: seq<Glyph>, word: string) {
    gs != [] && gs[0].c == '{' && StartsWith(GlyphText(gs[1..]), word)
  }

  /** How often a name or string contains a brace and the word. */
  function Marks(gs: seq<Glyph>, word: string): nat {
    if gs == [] then 0 else (if Mark(gs, word) then 1 else 0) + Marks(gs[1..], word)
  }

  predicate Escaped(gs: seq<Glyph>) {
    Escapes(gs) && DelimitersEscaped(gs)
  }

  /** What ends a name or string is no part of a word. */
  predicate Ends(after: string) {
    after == "" || !WordChar(after[0])
  }

  lemma SameFirst(c: char, word: string, rest: string)
    ensures StartsWith([c] + rest, [c] + word) <==> StartsWith(rest, word)
    ensures ([c] + rest)[1..] == rest
  {
    var t, n := [c] + rest, [c] + word;
    assert forall i :: 0 <= i < |rest| ==> t[i + 1] == rest[i];
    assert forall i :: 0 <= i < |word| ==> n[i + 1] == word[i];
    if StartsWith(t, n) {
      forall i | 0 <= i < |word| ensures rest[i] == word[i] {
        assert t[i + 1] == n[i + 1];
      }
    }
    if StartsWith(rest, word) {
      forall i | 0 <= i < |n| ensures t[i] == n[i] {
        assert i >= 1 ==> rest[i - 1] == word[i - 1];
      }
    }
  }

  /** One printed character, when a brace and a word are looked for. */
  lemma GlyphFound<T>(p: Probe<T>, word: string, g: Glyph, rest: string)
    requires p.needle == ['{'] + word && Escaped([g])
    ensures Found(p, GlyphBytes(g) + rest)
            == (if g.c == '{' && StartsWith(rest, word) then p.entry(rest[|word|..]) else []) + Found(p, rest)
  {
    GlyphShape(g);
    assert g == [g][0];
    if g.c == '{' {
      assert GlyphBytes(g) + rest == ['\\'] + (['{'] + rest);
      FoundStep(p, '\\', ['{'] + rest);
      FoundStep(p, '{', rest);
      SameFirst('{', word, rest);
      assert StartsWith(rest, word) ==> (['{'] + rest)[|word| + 1..] == rest[|word|..];
    } else {
      SilentWithout(p, GlyphBytes(g), rest);
    }
  }

  lemma InsideWord(x: string, after: string, word: string)
    requires Word(word) && Ends(after)
    ensures StartsWith(x + after, word) <==> StartsWith(x, word)
  {
    if StartsWith(x + after, word) {
      assert after != "" ==> (x + after)[|x|] == after[0];
    }
  }

  /** A printed name that goes on with a word goes on with its characters. */
  lemma {:induction false} WordGlyphs(gs: seq<Glyph>, word: string)
    requires Escapes(gs) && Word(word) && StartsWith(GlyphText(gs), word)
    ensures |word| <= |gs| && GlyphText(gs) == word + GlyphText(gs[|word|..])
  {
    hide GlyphText, Escapes, Word, StartsWith;
    if word == "" {
      assert gs[0..] == gs;
    } else {
      WordFirst(gs, word);
      SameFirst(word[0], word[1..], GlyphText(gs[1..]));
      assert word == [word[0]] + word[1..];
      WordGlyphs(gs[1..], word[1..]);
      assert gs[1..][|word| - 1..] == gs[|word|..];
    }
  }

  lemma WordFirst(gs: seq<Glyph>, word: string)
    requires Escapes(gs) && Word(word) && StartsWith(GlyphText(gs), word) && word != ""
    ensures gs != [] && GlyphText(gs) == [word[0]] + GlyphText(gs[1..]) && Escapes(gs[1..]) && Word(word[1..])
  {
    assert GlyphText(gs)[0] == word[0] && WordChar(word[0]);
    GlyphShape(gs[0]);
    var b, t := GlyphBytes(gs[0]), GlyphText(gs[1..]);
    assert GlyphText(gs) == b + t && (b + t)[0] == b[0];
    assert b == [word[0]];
  }

  // ---------------------------------------------------------------------------------------------
  // Statements
  // ---------------------------------------------------------------------------------------------

  function StatementOf(tag: string, fields: Fields): seq<string> {
    if tag == "RAWSTMT" && fields.Field? && fields.value.Sub? then [fields.value.tag] else []
  }

  const STATEMENTS: Probe<string> := Probe(RAWSTMT, StatementAt, StatementOf, (name: string, v: Val) => [])

  lemma StatementLiterals()
    ensures Word("RAWSTMT") && RAWSTMT == ['{'] + "RAWSTMT" && |"RAWSTMT"| == 7
    ensures STMT == ":" + ("stmt" + (" " + "{")) && |STMT| == 7
  {
  }

  lemma FindStmt(x: string)
    ensures Find(" " + (STMT + x), STMT) == Some(1) && (" " + (STMT + x))[1 + |STMT|..] == x
  {
    var u := STMT + x;
    assert (" " + u)[1..] == u && (" " + u)[0] == ' ' != STMT[0];
    assert StartsWith(u, STMT) && !StartsWith(" " + u, STMT);
    assert Find(u, STMT) == Some(0);
    assert u[|STMT|..] == x;
    SliceBehind(" ", u, |STMT|);
  }

  lemma StmtField(v: Val, rest: string)
    requires v.Sub?
    ensures FieldOut("stmt", v, rest) == STMT + (v.tag + FieldsOut(v.fields, "}" + rest))
  {
    StatementLiterals();
    var x := v.tag + FieldsOut(v.fields, "}" + rest);
    assert FieldOut("stmt", v, rest) == ":" + ("stmt" + (" " + ("{" + x)));
    assert ":" + ("stmt" + (" " + ("{" + x))) == ":" + ("stmt" + (" " + "{")) + x;
  }

  lemma StatementRead(fields: Fields, tail: string)
    requires Valid(Sub("RAWSTMT", fields))
    ensures StatementAt(FieldsOut(fields, "}" + tail)) == StatementOf("RAWSTMT", fields)
  {
    assert StartsWith("RAWSTMT", "RAWSTMT");
    assert fields.Field? && fields.name == "stmt" && fields.value.Sub? && ValidFields(fields);
    assert Valid(fields.value) && Word(fields.value.tag);
    var v := fields.value;
    var rest := FieldsOut(fields.rest, "");
    var inner := FieldsOut(v.fields, "}" + rest);
    FieldsBody(fields, tail);
    StmtField(v, rest);
    AfterTag(v.fields, rest);
    assert FieldsOut(fields, "") == " " + (STMT + (v.tag + inner));
    hide Valid, FieldsOut, BodyEnd, Find;
    FindStmt(v.tag + inner);
    IdentRead(v.tag, inner);
  }

  lemma StatementsHere(tag: string, fields: Fields, tail: string)
    requires Valid(Sub(tag, fields)) && Separated(tail)
    ensures StatementOf(tag, fields) == Here(RAWSTMT, StatementAt, Out(Sub(tag, fields), tail))
  {
    var after := FieldsOut(fields, "}" + tail);
    var t := Out(Sub(tag, fields), tail);
    assert t == ['{'] + (tag + after);
    StatementLiterals();
    AfterTag(fields, tail);
    WordMatch('{', tag, after, "RAWSTMT");
    if tag == "RAWSTMT" {
      StatementRead(fields, tail);
      DropLead('{', tag, after);
      hide StatementAt, Valid, FieldsOut, Out;
      assert StartsWith(tag, "RAWSTMT");
      assert t[|RAWSTMT|..] == after;
    }
  }

  lemma StatementsPrecise()
    ensures Precise(STATEMENTS)
  {
    forall tag, fields, tail | Valid(Sub(tag, fields)) && Separated(tail)
      ensures STATEMENTS.node(tag, fields) == At(STATEMENTS, Out(Sub(tag, fields), tail))
    {
      StatementsHere(tag, fields, tail);
    }
    forall name, v, tail | GoodField(name, v) && Separated(tail)
      ensures STATEMENTS.field(name, v) == At(STATEMENTS, FieldOut(name, v, tail))
    {
      assert FieldOut(name, v, tail)[0] == ':' != RAWSTMT[0];
    }
  }


  // ---------------------------------------------------------------------------------------------
  // Statements inside names and strings
  // ---------------------------------------------------------------------------------------------

  const STMTS: Probe<string> := Opening("stmt")

  function Body(t: string): string {
    t[..BodyEnd(t, 0, '{', '}')]
  }

  function First(s: seq<string>): seq<string> {
    if s == [] then [] else [s[0]]
  }

  function Repeat(n: nat, s: seq<string>): seq<string> {
    if n == 0 then [] else s + Repeat(n - 1, s)
  }

  lemma StmtsNeedle()
    ensures STMTS.needle == STMT && Distinctive(STMT) && Word("stmt") && Word("RAWSTMT")
  {
  }

  /** A statement's tag is that of the first node held by a field `stmt` before the enclosing node
      ends. */
  lemma StatementAtFirst(t: string)
    ensures StatementAt(t) == First(Found(STMTS, Body(t)))
  {
    StmtsNeedle();
    hide BodyEnd, Find, Collect, Distinctive, ReadIdent;
    CollectNext(STMT, IdentAt, Body(t));
  }

  lemma BodyOfGlyphs(gs: seq<Glyph>, after: string)
    requires Escaped(gs)
    ensures Body(GlyphText(gs) + after) == GlyphText(gs) + Body(after)
  {
    GlyphsAreBalanced(gs, 0, '{', '}');
    DepthSkips(GlyphText(gs), 0, after, '{', '}');
    hide BodyEnd, GlyphText;
  }

  lemma EscapedRest(gs: seq<Glyph>, n: nat)
    requires Escaped(gs) && n <= |gs|
    ensures Escaped(gs[n..]) && (gs != [] ==> Escaped([gs[0]]))
  {
  }

  lemma {:induction false} NoBraceNoMarks(gs: seq<Glyph>, word: string)
    requires Escaped(gs) && '{' !in GlyphText(gs)
    ensures Marks(gs, word) == 0
  {
    if gs != [] {
      GlyphShape(gs[0]);
      assert GlyphText(gs) == GlyphBytes(gs[0]) + GlyphText(gs[1..]);
      var b := GlyphBytes(gs[0]);
      assert GlyphText(gs)[|b| - 1] == b[|b| - 1] != '{';
      EscapedRest(gs, 1);
      NoBraceNoMarks(gs[1..], word);
    }
  }

  /** What comes next is the same one character on, except at a label, and there nothing is left that
      could be taken for a statement. */
  lemma NextSame(gs: seq<Glyph>, b: string)
    requires Escaped(gs) && gs != []
    ensures Found(STMTS, GlyphText(gs) + b) == Found(STMTS, GlyphText(gs[1..]) + b) || Marks(gs[1..], "RAWSTMT") == 0
  {
    var g, x := gs[0], GlyphText(gs[1..]);
    GlyphShape(g);
    StmtsNeedle();
    EscapedRest(gs, 1);
    SpacesEscaped(gs[1..]);
    GlyphTextStep(gs, b);
    hide Collect, GlyphText, Marks;
    if g.c != ':' {
      SilentWithout(STMTS, GlyphBytes(g), x + b);
    } else {
      var lead := if g.escaped then "\\" else "";
      assert GlyphBytes(g) + (x + b) == lead + ([':'] + (x + b));
      SilentWithout(STMTS, lead, [':'] + (x + b));
      FoundStep(STMTS, ':', x + b);
      if StartsWith([':'] + (x + b), STMT) {
        LabelIsShort(x, b);
        NoBraceNoMarks(gs[1..], "RAWSTMT");
      }
    }
  }

  lemma LabelIsShort(x: string, b: string)
    requires SpacesHidden(x) && StartsWith([':'] + (x + b), STMT)
    ensures '{' !in x
  {
    var t := [':'] + (x + b);
    assert STMT == ":stmt {";
    assert forall i :: 0 <= i < |x| ==> t[i + 1] == x[i];
    assert t[5] == ' ' && t[4] == 't';
    assert |x| <= 4;
    forall i | 0 <= i < |x| ensures x[i] != '{' {
      assert t[i + 1] == STMT[i + 1];
    }
  }

  lemma MarkText(gs: seq<Glyph>, after: string)
    requires Escaped(gs) && Mark(gs, "RAWSTMT")
    ensures |gs| >= 8 && Escaped(gs[8..])
    ensures GlyphText(gs) + after == "\\{RAWSTMT" + (GlyphText(gs[8..]) + after)
    ensures GlyphText(gs[1..]) + after == "RAWSTMT" + (GlyphText(gs[8..]) + after)
  {
    StmtsNeedle();
    EscapedRest(gs, 1);
    WordGlyphs(gs[1..], "RAWSTMT");
    EscapedRest(gs, 8);
    GlyphShape(gs[0]);
    GlyphTextStep(gs, after);
    hide GlyphText, Escapes, DelimitersEscaped;
    assert |"RAWSTMT"| == 7 && gs[1..][7..] == gs[8..];
    assert GlyphBytes(gs[0]) == "\\{";
    Prepend(GlyphText(gs[8..]), after);
  }

  lemma Prepend(x: string, after: string)
    ensures ("RAWSTMT" + x) + after == "RAWSTMT" + (x + after)
    ensures "\\{" + ("RAWSTMT" + (x + after)) == "\\{RAWSTMT" + (x + after)
    ensures ("RAWSTMT" + (x + after))[7..] == x + after
  {
  }

  /** A mark is read as a statement: the next one. */
  lemma MarkRead(gs: seq<Glyph>, after: string)
    requires Escaped(gs) && Mark(gs, "RAWSTMT")
    ensures var t := GlyphText(gs[1..]) + after;
            |t| >= 7 && StatementAt(t[7..]) == First(Found(STMTS, GlyphText(gs) + Body(after)))
  {
    hide Collect, GlyphText, BodyEnd, StatementAt, Escaped, Mark, First, Body;
    MarkText(gs, after);
    MarkText(gs, Body(after));
    var x := GlyphText(gs[8..]);
    Prepend(x, after);
    BodyOfGlyphs(gs[8..], after);
    StatementAtFirst(x + after);
    StmtsNeedle();
    SilentWithout(STMTS, "\\{RAWSTMT", x + Body(after));
  }

  lemma {:induction false} GlyphsRead(gs: seq<Glyph>, after: string)
    requires Escaped(gs) && Ends(after)
    ensures Found(STATEMENTS, GlyphText(gs) + after)
            == Repeat(Marks(gs, "RAWSTMT"), First(Found(STMTS, GlyphText(gs) + Body(after)))) + Found(STATEMENTS, after)
  {
    hide Found, StatementAt, Body, First, Escaped, Ends, Repeat, GlyphBytes;
    if gs == [] {
      assert GlyphText(gs) + after == after;
      RepeatNothing(First(Found(STMTS, GlyphText(gs) + Body(after))));
    } else {
      EscapedRest(gs, 1);
      GlyphsRead(gs[1..], after);
      NextSame(gs, Body(after));
      GlyphRead(gs, after);
      var next := First(Found(STMTS, GlyphText(gs) + Body(after)));
      if Marks(gs[1..], "RAWSTMT") == 0 {
        RepeatNothing(next);
        RepeatNothing(First(Found(STMTS, GlyphText(gs[1..]) + Body(after))));
      }
      RepeatOnce(Mark(gs, "RAWSTMT"), Marks(gs[1..], "RAWSTMT"), next, Found(STATEMENTS, after));
    }
  }

  lemma GlyphRead(gs: seq<Glyph>, after: string)
    requires Escaped(gs) && gs != [] && Ends(after)
    ensures Found(STATEMENTS, GlyphText(gs) + after)
            == (if Mark(gs, "RAWSTMT") then First(Found(STMTS, GlyphText(gs) + Body(after))) else [])
               + Found(STATEMENTS, GlyphText(gs[1..]) + after)
  {
    hide Collect, StatementAt, Body, First, Escaped, Ends, GlyphBytes, GlyphText, StartsWith;
    StmtsNeedle();
    StatementLiterals();
    EscapedRest(gs, 0);
    GlyphTextStep(gs, after);
    InsideWord(GlyphText(gs[1..]), after, "RAWSTMT");
    if Mark(gs, "RAWSTMT") {
      MarkRead(gs, after);
    }
    GlyphFound(STATEMENTS, "RAWSTMT", gs[0], GlyphText(gs[1..]) + after);
  }

  lemma RepeatNothing(s: seq<string>)
    ensures Repeat(0, s) == []
  {
  }

  lemma RepeatOnce(mark: bool, n: nat, s: seq<string>, more: seq<string>)
    ensures (if mark then s else []) + (Repeat(n, s) + more) == Repeat((if mark then 1 else 0) + n, s) + more
  {
    if mark {
      assert Repeat(1 + n, s) == s + Repeat(n, s);
    }
  }

  function MarksOf(v: Val, word: string): nat {
    match v
    case Token(name) => if name.Some? then Marks(name.value, word) else 0
    case Quoted(gs) => Marks(gs, word)
    case _ => 0
  }

  predicate NameOrString(v: Val) {
    v.Token? || v.Quoted?
  }

  /** A leaf is read as many statements as it has marks, all the same: the next one. */
  lemma LeafRead(v: Val, tail: string)
    requires Valid(v) && NameOrString(v) && Separated(tail)
    ensures Found(STATEMENTS, Out(v, tail))
            == Repeat(MarksOf(v, "RAWSTMT"), First(Found(STMTS, Out(v, Body(tail))))) + Found(STATEMENTS, tail)
  {
    hide Collect, GlyphText, StatementAt, BodyEnd, First, Repeat;
    if v.Quoted? {
      QuotedRead(v.gs, tail);
    } else if v.name.Some? && v.name.value != [] {
      GlyphsRead(v.name.value, tail);
    } else {
      SilentWithout(STATEMENTS, TokenText(v.name), tail);
      RepeatNothing(First(Found(STMTS, Out(v, Body(tail)))));
      assert [] + Found(STATEMENTS, tail) == Found(STATEMENTS, tail);
    }
  }

  lemma QuotedRead(gs: seq<Glyph>, tail: string)
    requires Escaped(gs) && QuotedOk(gs)
    ensures Found(STATEMENTS, Out(Quoted(gs), tail))
            == Repeat(Marks(gs, "RAWSTMT"), First(Found(STMTS, Out(Quoted(gs), Body(tail))))) + Found(STATEMENTS, tail)
  {
    hide Collect, GlyphText, StatementAt, First, Repeat;
    QuoteOut(gs, tail);
    QuoteOut(gs, Body(tail));
    var x := GlyphText(gs);
    SilentWithout(STATEMENTS, "\"", x + ("\"" + tail));
    SilentWithout(STATEMENTS, "\"", tail);
    StmtsNeedle();
    SilentWithout(STMTS, "\"", x + ("\"" + Body(tail)));
    assert ("\"" + tail)[1..] == tail;
    assert Body("\"" + tail) == "\"" + Body(tail);
    hide BodyEnd;
    GlyphsRead(gs, "\"" + tail);
  }

  lemma QuoteOut(gs: seq<Glyph>, tail: string)
    ensures Out(Quoted(gs), tail) == "\"" + (GlyphText(gs) + ("\"" + tail))
  {
  }

  /** The statements that are reported for a value, when `next` are the tags behind `:stmt {` from its end
      to the end of the enclosing node: those of the tree, and for each mark the first tag that comes
      next. */
  function Reported(v: Val, next: seq<string>): seq<string> {
    match v
    case Atom(_) => []
    case Token(_) => Repeat(MarksOf(v, "RAWSTMT"), First(next))
    case Quoted(_) => Repeat(MarksOf(v, "RAWSTMT"), First(next))
    case List(items) => ReportedItems(items, next)
    case Sub(tag, fields) => StatementOf(tag, fields) + ReportedFields(fields)
  }

  function ReportedItems(items: Items, next: seq<string>): seq<string> {
    if items.NoItem? then []
    else Reported(items.value, NextItem(items, next)) + ReportedItems(items.rest, next)
  }

  function ReportedFields(fields: Fields): seq<string> {
    if fields.NoField? then []
    else Reported(fields.value, OpensFields(fields.rest, "stmt")) + ReportedFields(fields.rest)
  }

  /** What comes next after the first item of a list. */
  function NextItem(items: Items, next: seq<string>): seq<string>
    requires items.Item?
  {
    Label(items.value, items.rest, "stmt") + (OpensItems(items.rest, "stmt") + next)
  }

  lemma BodyAfter(c: char, t: string)
    requires c != '{' && c != '}' && c != '\\'
    ensures Body([c] + t) == [c] + Body(t)
  {
    assert ([c] + t)[1..] == t;
  }

  lemma BodyOfItems(items: Items, tail: string)
    requires ValidItems(items)
    ensures Body(ItemsOut(items, tail)) == ItemsOut(items, Body(tail))
  {
    hide BodyEnd;
    SkipItems(items, tail, 0, '{', '}');
    ItemsOutAppend(items, tail);
    ItemsOutAppend(items, Body(tail));
  }

  lemma {:induction false} ReadValue(v: Val, tail: string, next: seq<string>)
    requires Valid(v) && Separated(tail) && next == Found(STMTS, Body(tail)) && (v.Token? ==> !StartsWith(tail, " {"))
    ensures Found(STATEMENTS, Out(v, tail)) == Reported(v, next) + Found(STATEMENTS, tail)
    decreases v, 0
  {
    StatementsPrecise();
    hide Found, Precise, Out, BodyEnd, MarksOf, First, Repeat, StatementOf, StatementAt;
    match v
    case Atom(_) => AtomExact(STATEMENTS, v, tail);
    case Token(_) => TextRead(v, tail);
    case Quoted(_) => TextRead(v, tail);
    case List(items) =>
      ListExact(STATEMENTS, items, tail);
      BodyAfter(')', tail);
      StmtsNeedle();
      SilentWithout(STMTS, ")", Body(tail));
      ReadItems(items, ")" + tail, next);
    case Sub(tag, fields) =>
      NodeExact(STATEMENTS, tag, fields, tail);
      ReadFields(fields, tail);
      Reassociate(StatementOf(tag, fields), ReportedFields(fields), Found(STATEMENTS, tail));
  }

  lemma TextRead(v: Val, tail: string)
    requires Valid(v) && NameOrString(v) && Separated(tail) && (v.Token? ==> !StartsWith(tail, " {"))
    ensures Found(STATEMENTS, Out(v, tail))
            == Repeat(MarksOf(v, "RAWSTMT"), First(Found(STMTS, Body(tail)))) + Found(STATEMENTS, tail)
  {
    StmtsNeedle();
    BodyStart(tail);
    hide Found, Out, First, Repeat, MarksOf, Valid;
    LeafRead(v, tail);
    OpensFound("stmt", v, Body(tail));
  }

  lemma BodyStart(tail: string)
    requires Separated(tail)
    ensures Separated(Body(tail)) && (StartsWith(Body(tail), " {") ==> StartsWith(tail, " {"))
    ensures tail != "" && tail[0] == ')' ==> Body(tail) != "" && Body(tail)[0] == ')'
  {
  }

  lemma {:induction false} ReadItems(items: Items, tail: string, next: seq<string>)
    requires ValidItems(items) && tail != "" && tail[0] == ')' && next == Found(STMTS, Body(tail))
    ensures Found(STATEMENTS, ItemsOut(items, tail)) == ReportedItems(items, next) + Found(STATEMENTS, tail)
    decreases items
  {
    hide Found, Out, BodyEnd, Reported, NextItem, StatementAt;
    match items
    case NoItem =>
    case Item(v, rest) =>
      if rest.NoItem? {
        LastItem(items, next);
        ReadValue(v, tail, next);
      } else {
        ReadItems(rest, tail, next);
        SilentWithout(STATEMENTS, " ", ItemsOut(rest, tail));
        ReadItem(v, rest, tail, next);
        Reassociate(Reported(v, NextItem(items, next)), ReportedItems(rest, next), Found(STATEMENTS, tail));
      }
  }

  lemma LastItem(items: Items, next: seq<string>)
    requires items.Item? && items.rest.NoItem?
    ensures NextItem(items, next) == next
  {
  }

  lemma {:induction false} ReadItem(v: Val, rest: Items, tail: string, next: seq<string>)
    requires Valid(v) && ValidItems(rest) && rest.Item? && tail != "" && tail[0] == ')' && next == Found(STMTS, Body(tail))
    ensures var after := " " + ItemsOut(rest, tail);
            Found(STATEMENTS, Out(v, after)) == Reported(v, NextItem(Item(v, rest), next)) + Found(STATEMENTS, after)
    decreases v, 1
  {
    var after := " " + ItemsOut(rest, tail);
    StmtsNeedle();
    BodyStart(tail);
    BodyAfter(' ', ItemsOut(rest, tail));
    BodyOfItems(rest, tail);
    hide Found, Out, BodyEnd, First, Repeat, MarksOf, StatementAt;
    SilentWithout(STMTS, " ", ItemsOut(rest, Body(tail)));
    OpensItemsFound("stmt", rest, Body(tail));
    if v.Token? {
      LeafRead(v, after);
      OpensItemFound("stmt", v, rest, Body(tail));
    } else {
      ReadValue(v, after, OpensItems(rest, "stmt") + next);
    }
  }

  lemma {:induction false} ReadFields(fields: Fields, tail: string)
    requires ValidFields(fields)
    ensures Found(STATEMENTS, FieldsOut(fields, "}" + tail)) == ReportedFields(fields) + Found(STATEMENTS, "}" + tail)
    decreases fields
  {
    StatementsPrecise();
    hide Found, Precise, Out, FieldOut, Reported, Valid, StatementOf, StatementAt;
    match fields
    case NoField =>
    case Field(name, v, rest) =>
      var after := FieldsOut(rest, "}" + tail);
      FieldsOutSeparated(rest, "}" + tail);
      NoNodeFollows(rest, "}" + tail);
      FieldExact(STATEMENTS, name, v, after);
      ReadFields(rest, tail);
      NextField(rest, tail);
      ReadValue(v, after, OpensFields(rest, "stmt"));
      Reassociate(Reported(v, OpensFields(rest, "stmt")), ReportedFields(rest), Found(STATEMENTS, "}" + tail));
  }

  lemma NextField(fields: Fields, tail: string)
    requires ValidFields(fields)
    ensures OpensFields(fields, "stmt") == Found(STMTS, Body(FieldsOut(fields, "}" + tail)))
  {
    StmtsNeedle();
    FieldsBody(fields, tail);
    OpensFieldsFound("stmt", fields, "");
  }

  // ---------------------------------------------------------------------------------------------
  // When what is reported is what the tree says
  // ---------------------------------------------------------------------------------------------

  /** No mark has a statement to come before its node ends. */
  predicate Unmarked(v: Val, next: seq<string>) {
    match v
    case Atom(_) => true
    case Token(_) => MarksOf(v, "RAWSTMT") == 0 || next == []
    case Quoted(_) => MarksOf(v, "RAWSTMT") == 0 || next == []
    case List(items) => UnmarkedItems(items, next)
    case Sub(_, fields) => UnmarkedFields(fields)
  }

  predicate UnmarkedItems(items: Items, next: seq<string>) {
    items.Item? ==> Unmarked(items.value, NextItem(items, next)) && UnmarkedItems(items.rest, next)
  }

  predicate UnmarkedFields(fields: Fields) {
    fields.Field? ==> Unmarked(fields.value, OpensFields(fields.rest, "stmt")) && UnmarkedFields(fields.rest)
  }

  lemma {:induction false} RepeatLength(n: nat, s: seq<string>)
    ensures |Repeat(n, s)| == n * |s|
  {
    if n > 0 {
      RepeatLength(n - 1, s);
      assert (n - 1) * |s| + |s| == n * |s|;
    }
  }

  lemma MarksReported(n: nat, next: seq<string>)
    ensures Repeat(n, First(next)) == [] <==> n == 0 || next == []
  {
    RepeatLength(n, First(next));
    if n > 0 && next != [] {
      assert |First(next)| == 1;
    }
  }

  /** What is reported is never less than what the tree says, and no more exactly when it is unmarked. */
  lemma {:induction false} ReportedExactly(v: Val, next: seq<string>)
    ensures |Reported(v, next)| >= |Fold(STATEMENTS, v)|
    ensures Reported(v, next) == Fold(STATEMENTS, v) <==> Unmarked(v, next)
    ensures |Reported(v, next)| == |Fold(STATEMENTS, v)| <==> Unmarked(v, next)
    decreases v
  {
    hide Repeat, First, MarksOf, StatementOf, StatementAt;
    match v
    case Atom(_) =>
    case Token(_) => MarksReported(MarksOf(v, "RAWSTMT"), next);
    case Quoted(_) => MarksReported(MarksOf(v, "RAWSTMT"), next);
    case List(items) => ReportedItemsExactly(items, next);
    case Sub(tag, fields) =>
      ReportedFieldsExactly(fields);
      Aligned(StatementOf(tag, fields), ReportedFields(fields), StatementOf(tag, fields), FoldFields(STATEMENTS, fields));
  }

  lemma {:induction false} ReportedItemsExactly(items: Items, next: seq<string>)
    ensures |ReportedItems(items, next)| >= |FoldItems(STATEMENTS, items)|
    ensures ReportedItems(items, next) == FoldItems(STATEMENTS, items) <==> UnmarkedItems(items, next)
    ensures |ReportedItems(items, next)| == |FoldItems(STATEMENTS, items)| <==> UnmarkedItems(items, next)
    decreases items
  {
    hide Reported, Unmarked, Fold, NextItem;
    if items.Item? {
      ReportedExactly(items.value, NextItem(items, next));
      ReportedItemsExactly(items.rest, next);
    }
  }

  lemma {:induction false} ReportedFieldsExactly(fields: Fields)
    ensures |ReportedFields(fields)| >= |FoldFields(STATEMENTS, fields)|
    ensures ReportedFields(fields) == FoldFields(STATEMENTS, fields) <==> UnmarkedFields(fields)
    ensures |ReportedFields(fields)| == |FoldFields(STATEMENTS, fields)| <==> UnmarkedFields(fields)
    decreases fields
  {
    hide Reported, Unmarked, Fold, OpensFields;
    if fields.Field? {
      ReportedExactly(fields.value, OpensFields(fields.rest, "stmt"));
      ReportedFieldsExactly(fields.rest);
      StatementsInFields(fields);
    }
  }

  lemma StatementsInFields(fields: Fields)
    requires fields.Field?
    ensures FoldFields(STATEMENTS, fields) == Fold(STATEMENTS, fields.value) + FoldFields(STATEMENTS, fields.rest)
  {
    hide Fold;
    assert STATEMENTS.field(fields.name, fields.value) == [];
  }

  /** For every tree, whatever its names and strings: the number of statements is right if and only if no
      mark inside one of them has a statement to come before its node ends, and then the tree is reported
      as a select if and only if it is exactly one. */
  lemma StatementsAreExact(v: Val)
    requires Valid(v) && v.List?
    ensures Analyze(Print(v)).Parsed?
    ensures Analyze(Print(v)).statements == |Reported(v, [])|
    ensures Analyze(Print(v)).statements == |Fold(STATEMENTS, v)| <==> Unmarked(v, [])
    ensures Unmarked(v, []) ==> (Analyze(Print(v)).select <==> Fold(STATEMENTS, v) == ["SELECTSTMT"])
  {
    ListParses(v);
    hide Valid, Out, Reported, Unmarked, Fold, StatementAt;
    assert Found(STMTS, Body("")) == [];
    ReadValue(v, "", []);
    ReportedExactly(v, []);
    assert Found(STATEMENTS, "") == [];
  }

  /** What the parser hands over: a list of statements that hold no others. */
  predicate Script(items: Items) {
    items.Item? ==>
      && items.value.Sub? && items.value.tag == "RAWSTMT" && OneStatement(items.value.fields)
      && Script(items.rest)
  }

  predicate OneStatement(fields: Fields) {
    && fields.Field? && fields.name == "stmt" && fields.value.Sub?
    && Opens(fields.value, "stmt") == [] && OpensFields(fields.rest, "stmt") == []
  }

  function Tags(items: Items): seq<string>
    requires Script(items)
  {
    if items.NoItem? then [] else [items.value.fields.value.tag] + Tags(items.rest)
  }

  lemma {:induction false} NothingOpens(v: Val, next: seq<string>)
    requires Valid(v) && Opens(v, "stmt") == [] && next == []
    ensures Unmarked(v, next) && Fold(STATEMENTS, v) == []
    decreases v
  {
    hide MarksOf;
    match v
    case List(items) => NothingOpensItems(items, next);
    case Sub(tag, fields) =>
      assert StartsWith("RAWSTMT", "RAWSTMT");
      NothingOpensFields(fields);
    case _ =>
  }

  lemma {:induction false} NothingOpensItems(items: Items, next: seq<string>)
    requires ValidItems(items) && OpensItems(items, "stmt") == [] && next == []
    ensures UnmarkedItems(items, next) && FoldItems(STATEMENTS, items) == []
    decreases items
  {
    hide Label;
    if items.Item? {
      NothingOpens(items.value, []);
      NothingOpensItems(items.rest, next);
    }
  }

  lemma {:induction false} NothingOpensFields(fields: Fields)
    requires ValidFields(fields) && OpensFields(fields, "stmt") == []
    ensures UnmarkedFields(fields) && FoldFields(STATEMENTS, fields) == []
    decreases fields
  {
    if fields.Field? {
      NothingOpens(fields.value, []);
      NothingOpensFields(fields.rest);
    }
  }

  lemma {:induction false} ScriptTags(items: Items)
    requires ValidItems(items) && Script(items)
    ensures UnmarkedItems(items, []) && FoldItems(STATEMENTS, items) == Tags(items)
    decreases items
  {
    hide StatementOf;
    if items.Item? {
      ScriptItem(items.value.fields);
      ScriptTags(items.rest);
    }
  }

  lemma ScriptItem(fields: Fields)
    requires Valid(Sub("RAWSTMT", fields)) && OneStatement(fields)
    ensures UnmarkedFields(fields) && Fold(STATEMENTS, Sub("RAWSTMT", fields)) == [fields.value.tag]
  {
    NothingOpens(fields.value, []);
    NothingOpensFields(fields.rest);
    StatementsInFields(fields);
  }

  /** However such a script is written, whatever its names and string literals contain, its statements
      are counted exactly, and it is reported as a select if and only if it is exactly one. */
  lemma ScriptsAreExact(items: Items)
    requires ValidItems(items) && Script(items)
    ensures Analyze(Print(List(items))).Parsed?
    ensures Analyze(Print(List(items))).statements == |Tags(items)|
    ensures Analyze(Print(List(items))).select <==> Tags(items) == ["SELECTSTMT"]
  {
    assert Valid(List(items));
    ScriptTags(items);
    hide Valid, Print, Analyze;
    StatementsAreExact(List(items));
  }
}
