/** Parse trees and the text `nodeToString` prints for them, in the shapes the dump reader relies on:
    `{TAG :field value ...}`, `(value value)`, `<>` for null, bare tokens for names and quoted strings
    for literals and the parts of a qualified function name. */
module NodeDump {
  import opened Tables
  import opened Utf8
  import opened Tokens

  datatype Val =
    | Atom(text: string)
    | Token(name: Option<seq<Glyph>>)
    | Quoted(gs: seq<Glyph>)
    | List(items: Items)
    | Sub(tag: string, fields: Fields)

  datatype Items = NoItem | Item(value: Val, rest: Items)

  datatype Fields = NoField | Field(name: string, value: Val, rest: Fields)

  // ---------------------------------------------------------------------------------------------
  // Printing, in front of whatever follows
  // ---------------------------------------------------------------------------------------------

  function Out(v: Val, tail: string): string
    decreases v, 0
  {
    match v
    case Atom(text) => text + tail
    case Token(name) => TokenText(name) + tail
    case Quoted(gs) => QuotedText(gs) + tail
    case List(items) => "(" + ItemsOut(items, ")" + tail)
    case Sub(tag, fields) => "{" + (tag + FieldsOut(fields, "}" + tail))
  }

  function ItemsOut(items: Items, tail: string): string
    decreases items, 0
  {
    match items
    case NoItem => tail
    case Item(v, rest) => Out(v, if rest.NoItem? then tail else " " + ItemsOut(rest, tail))
  }

  function FieldsOut(fields: Fields, tail: string): string
    decreases fields, 0
  {
    match fields
    case NoField => tail
    case Field(name, v, rest) => " " + FieldOut(name, v, FieldsOut(rest, tail))
  }

  function FieldOut(name: string, v: Val, tail: string): string
    decreases v, 1
  {
    ":" + (name + (" " + Out(v, tail)))
  }

  function Print(v: Val): string {
    Out(v, "")
  }

  // ---------------------------------------------------------------------------------------------
  // Well-formed trees
  // ---------------------------------------------------------------------------------------------

  predicate WordChar(c: char) {
    '0' <= c <= '9' || 'A' <= c <= 'Z' || 'a' <= c <= 'z' || c == '_'
  }

  /** Tags and field names. */
  predicate Word(s: string) {
    forall i :: 0 <= i < |s| ==> WordChar(s[i])
  }

  /** Numbers, booleans and one-letter codes. */
  predicate AtomOk(s: string) {
    forall i :: 0 <= i < |s| ==> Ascii(s[i]) && !Delimiter(s[i]) && s[i] != '\\' && s[i] != '"' && s[i] != ':'
  }

  predicate Leaf(v: Val) {
    v.Atom? || v.Token?
  }

  /** Before the token field `name` there are only leaves. */
  predicate Heads(fields: Fields, name: string) {
    fields.Field? &&
    if fields.name == name then fields.value.Token? else Leaf(fields.value) && Heads(fields.rest, name)
  }

  predicate AllQuoted(items: Items) {
    items.Item? ==> items.value.Quoted? && AllQuoted(items.rest)
  }

  predicate FieldShape(name: string, v: Val) {
    && (name == "ctename" ==> v.Token?)
    && (name == "funcname" ==> v == Token(None) || (v.List? && AllQuoted(v.items)))
  }

  predicate NodeShape(tag: string, fields: Fields) {
    && (tag == "RANGEVAR" ==> Heads(fields, "relname") && Heads(fields, "schemaname"))
    && (StartsWith(tag, "RAWSTMT") ==> tag == "RAWSTMT" && fields.Field? && fields.name == "stmt" && fields.value.Sub?)
  }

  predicate Valid(v: Val) {
    match v
    case Atom(text) => AtomOk(text)
    case Token(name) => TokenOk(name)
    case Quoted(gs) => QuotedOk(gs) && DelimitersEscaped(gs)
    case List(items) => ValidItems(items)
    case Sub(tag, fields) => Word(tag) && ValidFields(fields) && NodeShape(tag, fields)
  }

  predicate ValidItems(items: Items) {
    items.Item? ==> Valid(items.value) && ValidItems(items.rest)
  }

  predicate ValidFields(fields: Fields) {
    fields.Field? ==>
      Word(fields.name) && FieldShape(fields.name, fields.value) && Valid(fields.value) && ValidFields(fields.rest)
  }

  // ---------------------------------------------------------------------------------------------
  // What follows a value
  // ---------------------------------------------------------------------------------------------

  /** A value is followed by a space, the end of its list or node, or nothing. */
  predicate Separated(tail: string) {
    tail == "" || tail[0] == ' ' || tail[0] == ')' || tail[0] == '}'
  }

  lemma FieldsOutSeparated(fields: Fields, tail: string)
    requires Separated(tail)
    ensures Separated(FieldsOut(fields, tail))
  {
  }

  /** The text after a value does not matter to how the value is printed. */
  lemma {:induction false} OutAppend(v: Val, tail: string)
    ensures Out(v, tail) == Out(v, "") + tail
    decreases v
  {
    match v
    case Atom(text) =>
    case Token(name) =>
    case Quoted(gs) =>
    case List(items) =>
      ItemsOutAppend(items, ")" + tail);
      ItemsOutAppend(items, ")" + "");
    case Sub(tag, fields) =>
      FieldsOutAppend(fields, "}" + tail);
      FieldsOutAppend(fields, "}" + "");
  }

  lemma {:induction false} ItemsOutAppend(items: Items, tail: string)
    ensures ItemsOut(items, tail) == ItemsOut(items, "") + tail
    decreases items
  {
    match items
    case NoItem =>
    case Item(v, rest) =>
      if rest.NoItem? {
        OutAppend(v, tail);
      } else {
        ItemsOutAppend(rest, tail);
        OutAppend(v, " " + ItemsOut(rest, tail));
        OutAppend(v, " " + ItemsOut(rest, ""));
      }
  }

  lemma {:induction false} FieldsOutAppend(fields: Fields, tail: string)
    ensures FieldsOut(fields, tail) == FieldsOut(fields, "") + tail
    decreases fields
  {
    match fields
    case NoField =>
    case Field(name, v, rest) =>
      FieldsOutAppend(rest, tail);
      OutAppend(v, FieldsOut(rest, tail));
      OutAppend(v, FieldsOut(rest, ""));
  }

  // ---------------------------------------------------------------------------------------------
  // Brackets
  // ---------------------------------------------------------------------------------------------

  predicate Brackets(open: char, close: char) {
    (open == '{' && close == '}') || (open == '(' && close == ')')
  }

  /** From `text`, which ends in `tail`, the end of the body is where it is from `tail` on. */
  predicate Skips(text: string, tail: string, depth: nat, open: char, close: char) {
    BodyEnd(text, depth, open, close) + |tail| == |text| + BodyEnd(tail, depth, open, close)
  }

  lemma SkipFlat(t: string, tail: string, depth: nat, open: char, close: char)
    requires forall i :: 0 <= i < |t| ==> t[i] != '\\' && t[i] != open && t[i] != close
    ensures Skips(t + tail, tail, depth, open, close)
  {
    FlatDepth(t, depth, open, close);
    DepthSkips(t, depth, tail, open, close);
  }

  lemma SkipLeaf(v: Val, tail: string, depth: nat, open: char, close: char)
    requires Valid(v) && !v.List? && !v.Sub? && Brackets(open, close)
    ensures Skips(Out(v, tail), tail, depth, open, close)
  {
    match v
    case Atom(text) => SkipFlat(text, tail, depth, open, close);
    case Token(name) =>
      if name.Some? && name.value != [] {
        GlyphsAreBalanced(name.value, depth, open, close);
        DepthSkips(GlyphText(name.value), depth, tail, open, close);
      } else {
        SkipFlat(TokenText(name), tail, depth, open, close);
      }
    case Quoted(gs) =>
      GlyphsAreBalanced(gs, depth, open, close);
      assert QuotedText(gs) + tail == "\"" + (GlyphText(gs) + ("\"" + tail));
      SkipFlat("\"", GlyphText(gs) + ("\"" + tail), depth, open, close);
      DepthSkips(GlyphText(gs), depth, "\"" + tail, open, close);
      SkipFlat("\"", tail, depth, open, close);
  }

  /** An opening bracket of either kind, some text, and its closing bracket. */
  lemma SkipBracket(b: char, inner: string, e: char, tail: string, depth: nat, open: char, close: char)
    requires Brackets(open, close) && Brackets(b, e)
    requires forall d: nat :: Skips(inner, [e] + tail, d, open, close)
    ensures Skips([b] + inner, tail, depth, open, close)
  {
    assert ([b] + inner)[1..] == inner;
    assert ([e] + tail)[1..] == tail;
    if b == open {
      assert Skips(inner, [e] + tail, depth + 1, open, close);
    } else {
      assert Skips(inner, [e] + tail, depth, open, close);
    }
  }

  lemma {:induction false} SkipOut(v: Val, tail: string, depth: nat, open: char, close: char)
    requires Valid(v) && Brackets(open, close)
    ensures Skips(Out(v, tail), tail, depth, open, close)
    decreases v
  {
    hide BodyEnd;
    match v
    case Atom(_) => SkipLeaf(v, tail, depth, open, close);
    case Token(_) => SkipLeaf(v, tail, depth, open, close);
    case Quoted(_) => SkipLeaf(v, tail, depth, open, close);
    case List(items) =>
      forall d: nat ensures Skips(ItemsOut(items, ")" + tail), ")" + tail, d, open, close) {
        SkipItems(items, ")" + tail, d, open, close);
      }
      SkipBracket('(', ItemsOut(items, ")" + tail), ')', tail, depth, open, close);
    case Sub(tag, fields) =>
      var inner := tag + FieldsOut(fields, "}" + tail);
      forall d: nat ensures Skips(inner, "}" + tail, d, open, close) {
        SkipFlat(tag, FieldsOut(fields, "}" + tail), d, open, close);
        SkipFields(fields, "}" + tail, d, open, close);
      }
      SkipBracket('{', inner, '}', tail, depth, open, close);
  }

  lemma {:induction false} SkipItems(items: Items, tail: string, depth: nat, open: char, close: char)
    requires ValidItems(items) && Brackets(open, close)
    ensures Skips(ItemsOut(items, tail), tail, depth, open, close)
    decreases items
  {
    hide BodyEnd;
    match items
    case NoItem =>
    case Item(v, rest) =>
      if rest.NoItem? {
        SkipOut(v, tail, depth, open, close);
      } else {
        SkipOut(v, " " + ItemsOut(rest, tail), depth, open, close);
        SkipFlat(" ", ItemsOut(rest, tail), depth, open, close);
        SkipItems(rest, tail, depth, open, close);
      }
  }

  lemma {:induction false} SkipFields(fields: Fields, tail: string, depth: nat, open: char, close: char)
    requires ValidFields(fields) && Brackets(open, close)
    ensures Skips(FieldsOut(fields, tail), tail, depth, open, close)
    decreases fields
  {
    hide BodyEnd;
    match fields
    case NoField =>
    case Field(name, v, rest) =>
      var after := Out(v, FieldsOut(rest, tail));
      var head := " :" + name + " ";
      assert FieldsOut(fields, tail) == head + after;
      SkipFlat(head, after, depth, open, close);
      SkipOut(v, FieldsOut(rest, tail), depth, open, close);
      SkipFields(rest, tail, depth, open, close);
  }

  /** `node_body` of a node's fields is exactly those fields. */
  lemma FieldsBody(fields: Fields, tail: string)
    requires ValidFields(fields)
    ensures var t := FieldsOut(fields, "}" + tail);
            t[..BodyEnd(t, 0, '{', '}')] == FieldsOut(fields, "")
  {
    var t := FieldsOut(fields, "}" + tail);
    FieldsOutAppend(fields, "}" + tail);
    SkipFields(fields, "}" + tail, 0, '{', '}');
    assert t[..|FieldsOut(fields, "")|] == FieldsOut(fields, "");
  }

  /** `paren_body` of a list's items is exactly those items. */
  lemma ItemsBody(items: Items, tail: string)
    requires ValidItems(items)
    ensures var t := ItemsOut(items, ")" + tail);
            t[..BodyEnd(t, 0, '(', ')')] == ItemsOut(items, "")
  {
    var t := ItemsOut(items, ")" + tail);
    ItemsOutAppend(items, ")" + tail);
    SkipItems(items, ")" + tail, 0, '(', ')');
    assert t[..|ItemsOut(items, "")|] == ItemsOut(items, "");
  }

  function Strings(items: Items): seq<string> {
    if items.NoItem? then []
    else (if items.value.Quoted? then [Plain(items.value.gs)] else []) + Strings(items.rest)
  }

  /** `quoted_strings` of a list of strings is those strings. */
  lemma {:induction false} QuotedItems(items: Items)
    requires ValidItems(items) && AllQuoted(items)
    ensures QuotedAll(ItemsOut(items, "")) == Strings(items)
    decreases items
  {
    match items
    case NoItem =>
    case Item(v, rest) =>
      QuotedItems(rest);
      var after := if rest.NoItem? then "" else " " + ItemsOut(rest, "");
      QuotedRoundTrip(v.gs, after);
      if !rest.NoItem? {
        assert after[1..] == ItemsOut(rest, "");
      }
  }
}
