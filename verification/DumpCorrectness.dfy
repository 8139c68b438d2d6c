/** The dump reader against the tree that was printed: what a fold over the tree collects, the search
    of its text finds. */
module DumpCorrectness {
  import opened Tables
  import opened Utf8
  import opened Tokens
  import opened NodeDump
  import opened DumpReader

  // ---------------------------------------------------------------------------------------------
  // Subsequences
  // ---------------------------------------------------------------------------------------------

  ghost predicate IsSub<T(!new)>(a: seq<T>, b: seq<T>) {
    a == [] || (b != [] && ((a[0] == b[0] && IsSub(a[1..], b[1..])) || IsSub(a, b[1..])))
  }

  lemma {:induction false} SubPrepend<T(!new)>(junk: seq<T>, a: seq<T>, b: seq<T>)
    requires IsSub(a, b)
    ensures IsSub(a, junk + b)
  {
    if junk == [] {
      assert junk + b == b;
    } else {
      SubPrepend(junk[1..], a, b);
      assert (junk + b)[1..] == junk[1..] + b;
    }
  }

  lemma {:induction false} SubConcat<T(!new)>(x: seq<T>, y: seq<T>, a: seq<T>, b: seq<T>)
    requires IsSub(x, y) && IsSub(a, b)
    ensures IsSub(x + a, y + b)
    decreases |y|
  {
    if x == [] {
      assert x + a == a;
      SubPrepend(y, a, b);
    } else {
      assert (y + b)[1..] == y[1..] + b && (x + a)[1..] == x[1..] + a;
      if x[0] == y[0] && IsSub(x[1..], y[1..]) {
        SubConcat(x[1..], y[1..], a, b);
      } else {
        SubConcat(x, y[1..], a, b);
      }
    }
  }

  lemma {:induction false} SubLength<T(!new)>(a: seq<T>, b: seq<T>)
    requires IsSub(a, b)
    ensures |a| <= |b| && (|a| == |b| ==> a == b) && (forall x :: x in a ==> x in b)
    decreases |b|
  {
    if a != [] {
      if a[0] == b[0] && IsSub(a[1..], b[1..]) {
        SubLength(a[1..], b[1..]);
        assert a == [a[0]] + a[1..] && b == [b[0]] + b[1..];
      } else {
        SubLength(a, b[1..]);
      }
    }
  }

  lemma {:induction false} SubSame<T(!new)>(a: seq<T>)
    ensures IsSub(a, a)
  {
    if a != [] {
      SubSame(a[1..]);
    }
  }

  // ---------------------------------------------------------------------------------------------
  // Searches and folds
  // ---------------------------------------------------------------------------------------------

  /** A search for `needle`, and what it should find at a node and at a field. */
  datatype Probe<!T> = Probe(
    needle: string,
    entry: string -> seq<T>,
    node: (string, Fields) -> seq<T>,
    field: (string, Val) -> seq<T>)

  function Fold<T>(p: Probe<T>, v: Val): seq<T> {
    match v
    case List(items) => FoldItems(p, items)
    case Sub(tag, fields) => p.node(tag, fields) + FoldFields(p, fields)
    case _ => []
  }

  function FoldItems<T>(p: Probe<T>, items: Items): seq<T> {
    if items.NoItem? then [] else Fold(p, items.value) + FoldItems(p, items.rest)
  }

  function FoldFields<T>(p: Probe<T>, fields: Fields): seq<T> {
    if fields.NoField? then []
    else p.field(fields.name, fields.value) + (Fold(p, fields.value) + FoldFields(p, fields.rest))
  }

  function Found<T>(p: Probe<T>, t: string): seq<T> {
    Collect(p.needle, p.entry, t)
  }

  function At<T>(p: Probe<T>, t: string): seq<T> {
    Here(p.needle, p.entry, t)
  }

  ghost predicate GoodField(name: string, v: Val) {
    Word(name) && FieldShape(name, v) && Valid(v)
  }

  /** The search finds at least what it should, wherever a node or a field is printed. */
  ghost predicate Finds<T(!new)>(p: Probe<T>) {
    && (forall tag, fields, tail :: Valid(Sub(tag, fields)) && Separated(tail) ==>
          IsSub(p.node(tag, fields), At(p, Out(Sub(tag, fields), tail))))
    && (forall name, v, tail :: GoodField(name, v) && Separated(tail) ==>
          IsSub(p.field(name, v), At(p, FieldOut(name, v, tail))))
  }

  lemma FoundStep<T>(p: Probe<T>, c: char, rest: string)
    ensures Found(p, [c] + rest) == At(p, [c] + rest) + Found(p, rest)
  {
    assert ([c] + rest)[1..] == rest;
  }

  lemma {:induction false} FoundBehind<T(!new)>(p: Probe<T>, s: string, tail: string, more: seq<T>)
    requires IsSub(more, Found(p, tail))
    ensures IsSub(more, Found(p, s + tail))
  {
    if s == "" {
      assert s + tail == tail;
    } else {
      FoundBehind(p, s[1..], tail, more);
      assert s + tail == [s[0]] + (s[1..] + tail);
      FoundStep(p, s[0], s[1..] + tail);
      SubPrepend(At(p, s + tail), more, Found(p, s[1..] + tail));
    }
  }

  lemma {:induction false} FoldFound<T(!new)>(p: Probe<T>, v: Val, tail: string, more: seq<T>)
    requires Finds(p) && Valid(v) && Separated(tail) && IsSub(more, Found(p, tail))
    ensures IsSub(Fold(p, v) + more, Found(p, Out(v, tail)))
    decreases v
  {
    hide IsSub, Collect, Here, Finds, Out;
    match v
    case Atom(_) => LeafFound(p, v, tail, more);
    case Token(_) => LeafFound(p, v, tail, more);
    case Quoted(_) => LeafFound(p, v, tail, more);
    case List(items) =>
      FoundBehind(p, ")", tail, more);
      FoldItemsFound(p, items, ")" + tail, more);
      ListFound(p, items, tail, FoldItems(p, items) + more);
    case Sub(tag, fields) =>
      FoundBehind(p, "}", tail, more);
      FoldFieldsFound(p, fields, "}" + tail, more);
      NodeAndFieldsFound(p, tag, fields, tail, FoldFields(p, fields) + more);
      Reassociate(p.node(tag, fields), FoldFields(p, fields), more);
  }

  lemma Reassociate<T>(a: seq<T>, b: seq<T>, c: seq<T>)
    ensures a + b + c == a + (b + c)
  {
  }

  lemma LeafFound<T(!new)>(p: Probe<T>, v: Val, tail: string, more: seq<T>)
    requires !v.List? && !v.Sub? && IsSub(more, Found(p, tail))
    ensures IsSub(Fold(p, v) + more, Found(p, Out(v, tail)))
  {
    hide IsSub, Collect, Here;
    assert [] + more == more;
    match v
    case Atom(text) => FoundBehind(p, text, tail, more);
    case Token(name) => FoundBehind(p, TokenText(name), tail, more);
    case Quoted(gs) => FoundBehind(p, QuotedText(gs), tail, more);
  }

  lemma ListFound<T(!new)>(p: Probe<T>, items: Items, tail: string, more: seq<T>)
    requires IsSub(more, Found(p, ItemsOut(items, ")" + tail)))
    ensures IsSub(more, Found(p, Out(List(items), tail)))
  {
    hide IsSub, Collect, ItemsOut;
    FoundBehind(p, "(", ItemsOut(items, ")" + tail), more);
  }

  lemma NodeAndFieldsFound<T(!new)>(p: Probe<T>, tag: string, fields: Fields, tail: string, more: seq<T>)
    requires Finds(p) && Valid(Sub(tag, fields)) && Separated(tail) && IsSub(more, Found(p, FieldsOut(fields, "}" + tail)))
    ensures IsSub(p.node(tag, fields) + more, Found(p, Out(Sub(tag, fields), tail)))
  {
    hide IsSub, Collect, Here, Finds, FieldsOut, Valid;
    FoundBehind(p, tag, FieldsOut(fields, "}" + tail), more);
    FoundStep(p, '{', tag + FieldsOut(fields, "}" + tail));
    NodeFound(p, tag, fields, tail);
    SubConcat(p.node(tag, fields), At(p, Out(Sub(tag, fields), tail)), more, Found(p, tag + FieldsOut(fields, "}" + tail)));
  }

  lemma NodeFound<T(!new)>(p: Probe<T>, tag: string, fields: Fields, tail: string)
    requires Finds(p) && Valid(Sub(tag, fields)) && Separated(tail)
    ensures IsSub(p.node(tag, fields), At(p, Out(Sub(tag, fields), tail)))
  {
  }

  lemma FieldFound<T(!new)>(p: Probe<T>, name: string, v: Val, tail: string)
    requires Finds(p) && GoodField(name, v) && Separated(tail)
    ensures IsSub(p.field(name, v), At(p, FieldOut(name, v, tail)))
  {
  }

  lemma {:induction false} FoldItemsFound<T(!new)>(p: Probe<T>, items: Items, tail: string, more: seq<T>)
    requires Finds(p) && ValidItems(items) && Separated(tail) && IsSub(more, Found(p, tail))
    ensures IsSub(FoldItems(p, items) + more, Found(p, ItemsOut(items, tail)))
    decreases items
  {
    hide IsSub, Collect, Here, Finds;
    match items
    case NoItem => assert [] + more == more;
    case Item(v, rest) =>
      if rest.NoItem? {
        FoldFound(p, v, tail, more);
        assert Fold(p, v) + [] + more == Fold(p, v) + more;
      } else {
        FoldItemsFound(p, rest, tail, more);
        FoundBehind(p, " ", ItemsOut(rest, tail), FoldItems(p, rest) + more);
        FoldFound(p, v, " " + ItemsOut(rest, tail), FoldItems(p, rest) + more);
        assert Fold(p, v) + FoldItems(p, rest) + more == Fold(p, v) + (FoldItems(p, rest) + more);
      }
  }

  lemma {:induction false} FoldFieldsFound<T(!new)>(p: Probe<T>, fields: Fields, tail: string, more: seq<T>)
    requires Finds(p) && ValidFields(fields) && Separated(tail) && IsSub(more, Found(p, tail))
    ensures IsSub(FoldFields(p, fields) + more, Found(p, FieldsOut(fields, tail)))
    decreases fields
  {
    hide IsSub, Collect, Here, Finds, Out, FieldOut, Valid;
    match fields
    case NoField => assert [] + more == more;
    case Field(name, v, rest) =>
      var after := FieldsOut(rest, tail);
      FieldsOutSeparated(rest, tail);
      FoldFieldsFound(p, rest, tail, more);
      FoldFound(p, v, after, FoldFields(p, rest) + more);
      OneFieldFound(p, name, v, after, Fold(p, v) + (FoldFields(p, rest) + more));
      Reassociate(Fold(p, v), FoldFields(p, rest), more);
      Reassociate(p.field(name, v), Fold(p, v) + FoldFields(p, rest), more);
  }

  lemma OneFieldFound<T(!new)>(p: Probe<T>, name: string, v: Val, after: string, below: seq<T>)
    requires Finds(p) && GoodField(name, v) && Separated(after) && IsSub(below, Found(p, Out(v, after)))
    ensures IsSub(p.field(name, v) + below, Found(p, " " + FieldOut(name, v, after)))
  {
    hide IsSub, Collect, Here, Finds, Out, GoodField;
    FoundBehind(p, " ", Out(v, after), below);
    FoundBehind(p, name, " " + Out(v, after), below);
    FoundStep(p, ':', name + (" " + Out(v, after)));
    FieldFound(p, name, v, after);
    SubConcat(p.field(name, v), At(p, FieldOut(name, v, after)), below, Found(p, name + (" " + Out(v, after))));
    FoundBehind(p, " ", FieldOut(name, v, after), p.field(name, v) + below);
  }

  /** The search of a printed tree finds, in order, all that the fold collects. */
  lemma FindsAll<T(!new)>(p: Probe<T>, v: Val)
    requires Finds(p) && Valid(v)
    ensures IsSub(Fold(p, v), Found(p, Print(v)))
  {
    FoldFound(p, v, "", []);
    assert Fold(p, v) + [] == Fold(p, v);
  }

  // ---------------------------------------------------------------------------------------------
  // And nothing else
  // ---------------------------------------------------------------------------------------------

  /** The search finds exactly what it should at every node and field. */
  ghost predicate Precise<T(!new)>(p: Probe<T>) {
    && p.needle != ""
    && (p.needle[0] == '{' || p.needle[0] == ':')
    && (forall tag, fields, tail :: Valid(Sub(tag, fields)) && Separated(tail) ==>
          p.node(tag, fields) == At(p, Out(Sub(tag, fields), tail)))
    && (forall name, v, tail :: GoodField(name, v) && Separated(tail) ==>
          p.field(name, v) == At(p, FieldOut(name, v, tail)))
  }

  predicate EndsIn(x: string, suffix: string) {
    |suffix| <= |x| && x[|x| - |suffix|..] == suffix
  }

  predicate SpacesHidden(x: string) {
    forall i :: 0 <= i < |x| && x[i] == ' ' ==> i >= 1 && x[i - 1] == '\\'
  }

  /** The search string is a label, a brace or colon and a word, of length `k`, then a space and perhaps
      more. */
  predicate Labelled(needle: string, k: nat) {
    && 1 <= k < |needle| && needle[k] == ' '
    && (needle[0] == '{' || needle[0] == ':')
    && (forall i :: 1 <= i < k ==> WordChar(needle[i]))
    && (k + 1 < |needle| ==> needle[k + 1] != ':')
  }

  /** A label can only be found in a bare name if it is at the very end: it is never found in a list
      whose bare names do not end in it, nor, if the label alone is looked for, in a node whose do not. */
  predicate Calm(v: Val, stem: string, alone: bool) {
    match v
    case Token(_) => !EndsIn(Out(v, ""), stem)
    case List(items) => CalmItems(items, stem, alone)
    case Sub(_, fields) => CalmFields(fields, stem, alone)
    case _ => true
  }

  predicate CalmItems(items: Items, stem: string, alone: bool) {
    items.Item? ==> Calm(items.value, stem, alone) && CalmItems(items.rest, stem, alone)
  }

  predicate CalmFields(fields: Fields, stem: string, alone: bool) {
    fields.Field? ==>
      (Calm(fields.value, stem, alone) || (!alone && fields.value.Token?)) && CalmFields(fields.rest, stem, alone)
  }

  lemma {:induction false} SilentText<T>(p: Probe<T>, s: string, tail: string)
    requires forall i :: 0 <= i < |s| ==> !StartsWith((s + tail)[i..], p.needle)
    ensures Found(p, s + tail) == Found(p, tail)
  {
    if s == "" {
      assert s + tail == tail;
    } else {
      var rest := s[1..] + tail;
      assert s + tail == [s[0]] + rest;
      forall i | 0 <= i < |s| - 1 ensures !StartsWith(rest[i..], p.needle) {
        assert (s + tail)[i + 1..] == rest[i..];
      }
      SilentText(p, s[1..], tail);
      assert (s + tail)[0..] == s + tail;
      FoundStep(p, s[0], rest);
    }
  }

  /** Text without the first character of the search string. */
  lemma SilentWithout<T>(p: Probe<T>, s: string, tail: string)
    requires p.needle != "" && forall i :: 0 <= i < |s| ==> s[i] != p.needle[0]
    ensures Found(p, s + tail) == Found(p, tail)
  {
    forall i | 0 <= i < |s| ensures !StartsWith((s + tail)[i..], p.needle) {
      assert (s + tail)[i..][0] == s[i];
    }
    SilentText(p, s, tail);
  }

  /** In a printed string every space is escaped. */
  lemma {:induction false} SpacesEscaped(gs: seq<Glyph>)
    requires Escapes(gs) && DelimitersEscaped(gs)
    ensures SpacesHidden(GlyphText(gs))
  {
    if gs != [] {
      SpacesEscaped(gs[1..]);
      var t, rest, b := GlyphText(gs), GlyphText(gs[1..]), GlyphBytes(gs[0]);
      GlyphShape(gs[0]);
      assert t == b + rest;
      forall i | 0 <= i < |t| && t[i] == ' ' ensures i >= 1 && t[i - 1] == '\\' {
        var j := i - |b|;
        if j >= 0 {
          assert t[i] == rest[j];
          assert t[i - 1] == rest[j - 1];
        } else {
          assert t[i] == b[i];
          assert Delimiter(gs[0].c);
        }
      }
    }
  }

  /** In the text of a leaf every space is escaped. */
  lemma LeafSpaces(v: Val)
    requires Valid(v) && Leaf(v)
    ensures SpacesHidden(Out(v, ""))
  {
    if v.Token? && v.name.Some? {
      SpacesEscaped(v.name.value);
      assert GlyphText(v.name.value) + "" == GlyphText(v.name.value);
    }
  }

  /** A labelled search string is found in such a text in one place only: at the very end, if the text
      ends in the label and what follows goes on with the rest. */
  lemma LabelInText(needle: string, k: nat, x: string, after: string, m: nat)
    requires Labelled(needle, k) && SpacesHidden(x) && Separated(after) && m < |x|
    ensures StartsWith((x + after)[m..], needle)
            <==> m + k == |x| && EndsIn(x, needle[..k]) && StartsWith(after, needle[k..])
  {
    var here := (x + after)[m..];
    var stem, ending := needle[..k], needle[k..];
    if m + k == |x| {
      assert here == x[m..] + after && needle == stem + ending;
      PrefixParts(x[m..], after, stem, ending);
    } else if m + k < |x| {
      assert |here| > k && here[k] == x[m + k] && here[k - 1] == x[m + k - 1];
    } else {
      assert after != "" ==> here[|x| - m] == after[0];
    }
  }

  lemma PrefixParts(x: string, after: string, stem: string, ending: string)
    requires |x| == |stem|
    ensures StartsWith(x + after, stem + ending) <==> x == stem && StartsWith(after, ending)
  {
    var t, needle := x + after, stem + ending;
    if StartsWith(t, needle) {
      forall i | 0 <= i < |x| ensures x[i] == stem[i] {
        assert t[i] == needle[i];
      }
      forall i | 0 <= i < |ending| ensures after[i] == ending[i] {
        assert t[|x| + i] == needle[|x| + i];
      }
    }
  }

  /** What is found at the end of such a text. */
  function Echo<T>(p: Probe<T>, k: nat, x: string, after: string): seq<T>
    requires k <= |p.needle|
  {
    if EndsIn(x, p.needle[..k]) && StartsWith(after, p.needle[k..]) then p.entry(after[|p.needle| - k..]) else []
  }

  lemma FoundAfterLabel<T>(p: Probe<T>, k: nat, x: string, after: string)
    requires Labelled(p.needle, k) && SpacesHidden(x) && Separated(after)
    ensures Found(p, x + after) == Echo(p, k, x, after) + Found(p, after)
  {
    forall i | 0 <= i < |x| ensures StartsWith((x + after)[i..], p.needle)
            <==> i + k == |x| && EndsIn(x, p.needle[..k]) && StartsWith(after, p.needle[k..])
    {
      LabelInText(p.needle, k, x, after, i);
    }
    hide Labelled, SpacesHidden;
    if EndsIn(x, p.needle[..k]) && StartsWith(after, p.needle[k..]) {
      EchoFound(p, k, x, after);
    } else {
      SilentText(p, x, after);
    }
  }

  lemma EchoFound<T>(p: Probe<T>, k: nat, x: string, after: string)
    requires 1 <= k <= |p.needle| && k <= |x| && StartsWith(after, p.needle[k..])
    requires forall i :: 0 <= i < |x| ==> (StartsWith((x + after)[i..], p.needle) <==> i + k == |x|)
    ensures Found(p, x + after) == p.entry(after[|p.needle| - k..]) + Found(p, after)
  {
    assert |p.needle| - k <= |after|;
    hide Collect, StartsWith;
    var n := |x| - k;
    var front, back := x[..n], x[n + 1..];
    var rest := back + after;
    assert x + after == front + ([x[n]] + rest);
    forall i | 0 <= i < n ensures !StartsWith((front + ([x[n]] + rest))[i..], p.needle) { }
    SilentText(p, front, [x[n]] + rest);
    assert (x + after)[n..] == [x[n]] + rest;
    assert ([x[n]] + rest)[|p.needle|..] == after[|p.needle| - k..];
    FoundStep(p, x[n], rest);
    forall i | 0 <= i < |back| ensures !StartsWith((back + after)[i..], p.needle) {
      assert (x + after)[n + 1 + i..] == (back + after)[i..];
    }
    SilentText(p, back, after);
  }

  /** A labelled search string does not occur in a quoted string, nor across its end. */
  lemma QuoteSilent<T>(p: Probe<T>, k: nat, g: string, tail: string)
    requires Labelled(p.needle, k) && SpacesHidden(g)
    ensures Found(p, g + ("\"" + tail)) == Found(p, tail)
  {
    var s := g + "\"";
    var all := g + ("\"" + tail);
    assert all == s + tail;
    forall i | 0 <= i < |s| ensures !StartsWith(all[i..], p.needle) {
      if i + k < |g| {
        assert all[i..][k] == g[i + k] && all[i..][k - 1] == g[i + k - 1];
      } else {
        assert all[i..][|g| - i] == '"';
      }
    }
    SilentText(p, s, tail);
  }

  lemma QuotedExact<T>(p: Probe<T>, k: nat, gs: seq<Glyph>, tail: string)
    requires Labelled(p.needle, k) && QuotedOk(gs) && DelimitersEscaped(gs)
    ensures Found(p, QuotedText(gs) + tail) == Found(p, tail)
  {
    SpacesEscaped(gs);
    assert QuotedText(gs) + tail == "\"" + (GlyphText(gs) + ("\"" + tail));
    SilentWithout(p, "\"", GlyphText(gs) + ("\"" + tail));
    QuoteSilent(p, k, GlyphText(gs), tail);
  }

  lemma TokenExact<T>(p: Probe<T>, k: nat, v: Val, tail: string)
    requires Labelled(p.needle, k) && Valid(v) && Leaf(v) && Separated(tail)
    ensures Found(p, Out(v, tail)) == Echo(p, k, Out(v, ""), tail) + Found(p, tail)
  {
    LeafSpaces(v);
    OutAppend(v, tail);
    FoundAfterLabel(p, k, Out(v, ""), tail);
  }

  lemma AtomExact<T>(p: Probe<T>, v: Val, tail: string)
    requires p.needle != "" && (p.needle[0] == '{' || p.needle[0] == ':') && Valid(v) && v.Atom?
    ensures Found(p, Out(v, tail)) == Found(p, tail)
  {
    SilentWithout(p, v.text, tail);
  }

  lemma {:induction false} FoldExact<T(!new)>(p: Probe<T>, k: nat, v: Val, tail: string)
    requires Precise(p) && Labelled(p.needle, k) && Valid(v) && Separated(tail)
    requires Calm(v, p.needle[..k], k + 1 == |p.needle|)
    ensures Found(p, Out(v, tail)) == Fold(p, v) + Found(p, tail)
    decreases v
  {
    assert p.needle != "" && (p.needle[0] == '{' || p.needle[0] == ':');
    hide Collect, Here, Labelled, Precise, Out, EndsIn;
    match v
    case Atom(_) => AtomExact(p, v, tail);
    case Token(_) => TokenExact(p, k, v, tail);
    case Quoted(gs) =>
      QuotedExact(p, k, gs, tail);
      assert Out(v, tail) == QuotedText(gs) + tail by { QuotedOut(gs, tail); }
    case List(items) =>
      FoldItemsExact(p, k, items, ")" + tail);
      ListExact(p, items, tail);
    case Sub(tag, fields) =>
      FoldFieldsExact(p, k, fields, "}" + tail);
      NodeExact(p, tag, fields, tail);
      Reassociate(p.node(tag, fields), FoldFields(p, fields), Found(p, tail));
  }

  lemma QuotedOut(gs: seq<Glyph>, tail: string)
    ensures Out(Quoted(gs), tail) == QuotedText(gs) + tail
  {
  }

  lemma ListExact<T(!new)>(p: Probe<T>, items: Items, tail: string)
    requires Precise(p)
    ensures Found(p, ")" + tail) == Found(p, tail)
    ensures Found(p, Out(List(items), tail)) == Found(p, ItemsOut(items, ")" + tail))
  {
    assert p.needle[0] == '{' || p.needle[0] == ':';
    hide Collect, Precise, ItemsOut;
    SilentWithout(p, ")", tail);
    SilentWithout(p, "(", ItemsOut(items, ")" + tail));
  }

  lemma NodeExact<T(!new)>(p: Probe<T>, tag: string, fields: Fields, tail: string)
    requires Precise(p) && Valid(Sub(tag, fields)) && Separated(tail)
    ensures Found(p, "}" + tail) == Found(p, tail)
    ensures Found(p, Out(Sub(tag, fields), tail)) == p.node(tag, fields) + Found(p, FieldsOut(fields, "}" + tail))
  {
    assert p.node(tag, fields) == At(p, Out(Sub(tag, fields), tail));
    assert p.needle[0] == '{' || p.needle[0] == ':';
    hide Collect, Here, Precise, FieldsOut;
    SilentWithout(p, "}", tail);
    SilentWithout(p, tag, FieldsOut(fields, "}" + tail));
    FoundStep(p, '{', tag + FieldsOut(fields, "}" + tail));
  }

  lemma {:induction false} FoldItemsExact<T(!new)>(p: Probe<T>, k: nat, items: Items, tail: string)
    requires Precise(p) && Labelled(p.needle, k) && ValidItems(items) && Separated(tail)
    requires CalmItems(items, p.needle[..k], k + 1 == |p.needle|)
    ensures Found(p, ItemsOut(items, tail)) == FoldItems(p, items) + Found(p, tail)
    decreases items
  {
    assert p.needle[0] == '{' || p.needle[0] == ':';
    hide Collect, Here, Labelled, Precise, EndsIn;
    match items
    case NoItem =>
    case Item(v, rest) =>
      if rest.NoItem? {
        FoldExact(p, k, v, tail);
      } else {
        FoldItemsExact(p, k, rest, tail);
        SilentWithout(p, " ", ItemsOut(rest, tail));
        FoldExact(p, k, v, " " + ItemsOut(rest, tail));
      }
  }

  lemma FieldExact<T(!new)>(p: Probe<T>, name: string, v: Val, after: string)
    requires Precise(p) && GoodField(name, v) && Separated(after)
    ensures Found(p, " " + FieldOut(name, v, after)) == p.field(name, v) + Found(p, Out(v, after))
  {
    assert At(p, FieldOut(name, v, after)) == p.field(name, v);
    assert p.needle[0] == '{' || p.needle[0] == ':';
    hide Collect, Here, Precise, Out, Valid;
    SilentWithout(p, " ", Out(v, after));
    SilentWithout(p, name, " " + Out(v, after));
    FoundStep(p, ':', name + (" " + Out(v, after)));
    SilentWithout(p, " ", FieldOut(name, v, after));
  }

  /** A field is followed by another one or by the end of its node. */
  lemma FieldFollows(fields: Fields, tail: string)
    requires tail != "" && tail[0] == '}'
    ensures var after := FieldsOut(fields, tail);
            after != "" && (after[0] == '}' || (|after| > 1 && after[0] == ' ' && after[1] == ':'))
  {
    if fields.Field? {
      assert (" " + FieldOut(fields.name, fields.value, FieldsOut(fields.rest, tail)))[1] == ':';
    }
  }

  lemma FieldValueExact<T(!new)>(p: Probe<T>, k: nat, v: Val, after: string)
    requires Precise(p) && Labelled(p.needle, k) && k + 1 < |p.needle| && Valid(v) && v.Token?
    requires after != "" && (after[0] == '}' || (|after| > 1 && after[0] == ' ' && after[1] == ':'))
    ensures Found(p, Out(v, after)) == Fold(p, v) + Found(p, after)
  {
    TokenExact(p, k, v, after);
    var ending := p.needle[k..];
    assert ending[0] == ' ' && ending[1] == p.needle[k + 1] != ':';
  }

  lemma {:induction false} FoldFieldsExact<T(!new)>(p: Probe<T>, k: nat, fields: Fields, tail: string)
    requires Precise(p) && Labelled(p.needle, k) && ValidFields(fields) && tail != "" && tail[0] == '}'
    requires CalmFields(fields, p.needle[..k], k + 1 == |p.needle|)
    ensures Found(p, FieldsOut(fields, tail)) == FoldFields(p, fields) + Found(p, tail)
    decreases fields
  {
    hide Found, Precise, Out, FieldOut, Valid, EndsIn, Calm, Fold;
    match fields
    case NoField =>
    case Field(name, v, rest) =>
      var after := FieldsOut(rest, tail);
      FieldsOutSeparated(rest, tail);
      FieldFollows(rest, tail);
      FieldExact(p, name, v, after);
      FoldFieldsExact(p, k, rest, tail);
      if Calm(v, p.needle[..k], k + 1 == |p.needle|) {
        FoldExact(p, k, v, after);
      } else {
        FieldValueExact(p, k, v, after);
      }
      Join(p.field(name, v), Fold(p, v), FoldFields(p, rest), Found(p, tail));
  }

  lemma Join<T>(a: seq<T>, b: seq<T>, c: seq<T>, d: seq<T>)
    ensures a + (b + (c + d)) == a + (b + c) + d
  {
  }

  /** The search of a printed tree finds exactly what the fold collects, whatever the strings in it, unless
      a bare name can be taken for the label. */
  lemma FindsExactly<T(!new)>(p: Probe<T>, k: nat, v: Val)
    requires Precise(p) && Labelled(p.needle, k) && Valid(v) && Calm(v, p.needle[..k], k + 1 == |p.needle|)
    ensures Found(p, Print(v)) == Fold(p, v)
  {
    FoldExact(p, k, v, "");
  }

  lemma PreciseFinds<T(!new)>(p: Probe<T>)
    requires Precise(p)
    ensures Finds(p)
  {
    forall tag, fields, tail | Valid(Sub(tag, fields)) && Separated(tail)
      ensures IsSub(p.node(tag, fields), At(p, Out(Sub(tag, fields), tail)))
    {
      SubSame(p.node(tag, fields));
    }
    forall name, v, tail | GoodField(name, v) && Separated(tail)
      ensures IsSub(p.field(name, v), At(p, FieldOut(name, v, tail)))
    {
      SubSame(p.field(name, v));
    }
  }
}
