/** The small readers of a parse-tree dump: one token, the text up to a closing bracket, the quoted
    strings of a list. They work on the encoded bytes of the dump. */
module Tokens {
  import opened Tables
  import opened Utf8

  // ---------------------------------------------------------------------------------------------
  // Printed names
  // ---------------------------------------------------------------------------------------------

  /** A character as a printer writes it: with or without a backslash in front. */
  datatype Glyph = Glyph(c: char, escaped: bool)

  function GlyphBytes(g: Glyph): string {
    (if g.escaped then "\\" else "") + EncodeChar(g.c)
  }

  function GlyphText(gs: seq<Glyph>): string {
    if gs == [] then "" else GlyphBytes(gs[0]) + GlyphText(gs[1..])
  }

  lemma GlyphShape(g: Glyph)
    ensures GlyphBytes(g) != ""
    ensures g.escaped && Ascii(g.c) ==> GlyphBytes(g) == ['\\', g.c]
    ensures !g.escaped ==> GlyphBytes(g) == EncodeChar(g.c)
    ensures GlyphBytes(g)[0] == if g.escaped then '\\' else EncodeChar(g.c)[0]
  {
  }

  lemma AfterPrefix(a: string, b: string)
    requires a != ""
    ensures (a + b)[|a|..] == b && (a + b)[0] == a[0] && (|a| > 1 ==> (a + b)[1] == a[1])
  {
  }

  function Plain(gs: seq<Glyph>): string {
    if gs == [] then "" else [gs[0].c] + Plain(gs[1..])
  }

  /** `is_ascii_whitespace` and the four brackets. */
  predicate Delimiter(c: char) {
    c == ' ' || c == '\t' || c == '\n' || c == '\U{000C}' || c == '\r' || c == '{' || c == '}' || c == '(' || c == ')'
  }

  /** Backslashes are escaped, and only ASCII characters are. */
  predicate Escapes(gs: seq<Glyph>) {
    forall i :: 0 <= i < |gs| ==> (gs[i].c == '\\' ==> gs[i].escaped) && (gs[i].escaped ==> Ascii(gs[i].c))
  }

  predicate DelimitersEscaped(gs: seq<Glyph>) {
    forall i :: 0 <= i < |gs| && Delimiter(gs[i].c) ==> gs[i].escaped
  }

  /** A first character that would look like a null or an empty token is escaped. */
  predicate LeadEscaped(gs: seq<Glyph>) {
    gs != [] && (gs[0].c == '<' || gs[0].c == '"') ==> gs[0].escaped
  }

  predicate TokenOk(name: Option<seq<Glyph>>) {
    name.Some? ==> Escapes(name.value) && DelimitersEscaped(name.value) && LeadEscaped(name.value)
  }

  function TokenText(name: Option<seq<Glyph>>): string {
    if name.None? then "<>" else if name.value == [] then "\"\"" else GlyphText(name.value)
  }

  function PlainName(name: Option<seq<Glyph>>): Option<string> {
    if name.None? then None else Some(Plain(name.value))
  }

  // ---------------------------------------------------------------------------------------------
  // read_token
  // ---------------------------------------------------------------------------------------------

  /** What is read from here to the first delimiter that is not escaped, and how many bytes that is. */
  function Read(t: string): (r: (string, nat))
    ensures r.1 <= |t|
  {
    if t == "" then ("", 0)
    else if t[0] == '\\' then
      if |t| > 1 then Push(t[1], 2, Read(t[2..])) else ("", 1)
    else if Delimiter(t[0]) then ("", 0)
    else
      var (c, n) := DecodeFirst(t);
      Push(c, n, Read(t[n..]))
  }

  function Push(c: char, n: nat, r: (string, nat)): (string, nat) {
    ([c] + r.0, n + r.1)
  }

  predicate StartsWith(t: string, needle: string) {
    |needle| <= |t| && forall i :: 0 <= i < |needle| ==> t[i] == needle[i]
  }

  function ReadToken(t: string): (Option<string>, nat) {
    if StartsWith(t, "<>") then (None, 2)
    else if StartsWith(t, "\"\"") then (Some(""), 2)
    else var r := Read(t); (Some(r.0), r.1)
  }

  method ReadTokenBytes(t: string) returns (name: Option<string>, n: nat)
    ensures name == ReadToken(t).0 && n == ReadToken(t).1
  {
    if StartsWith(t, "<>") {
      return None, 2;
    }
    if StartsWith(t, "\"\"") {
      return Some(""), 2;
    }
    var out;
    out, n := ReadToDelimiter(t);
    name := Some(out);
  }

  /** The loop of `read_token`. */
  method ReadToDelimiter(t: string) returns (out: string, n: nat)
    ensures out == Read(t).0 && n == Read(t).1
  {
    out := "";
    var i := 0;
    Begin(t);
    hide *;
    while i < |t| && (t[i] == '\\' || !Delimiter(t[i]))
      invariant i <= |t|
      invariant Read(t) == Resume(out, i, Read(t[i..]))
    {
      if t[i] == '\\' {
        out, i := ReadEscape(t, i, out);
      } else {
        ReadStep(t, i);
        PushMoves(out, i, DecodeFirst(t[i..]).0, DecodeFirst(t[i..]).1, Read(t[i + DecodeFirst(t[i..]).1..]));
        if Ascii(t[i]) {
          out, i := out + [t[i]], i + 1;
        } else {
          var (c, k) := DecodeFirst(t[i..]);
          out, i := out + [c], i + k;
        }
      }
    }
    ReadAtEnd(t, i);
    End(out, i);
    n := i;
  }

  /** A backslash stands for the byte after it; at the very end it stands for nothing. */
  method ReadEscape(t: string, i: nat, out: string) returns (more: string, j: nat)
    requires i < |t| && t[i] == '\\'
    ensures i < j <= |t| && Resume(out, i, Read(t[i..])) == Resume(more, j, Read(t[j..]))
  {
    ReadStep(t, i);
    hide *;
    if i + 1 < |t| {
      PushMoves(out, i, t[i + 1], 2, Read(t[i + 2..]));
      more, j := out + [t[i + 1]], i + 2;
    } else {
      SkipMoves(out, i, 1);
      more, j := out, i + 1;
    }
  }

  lemma ReadAtEnd(t: string, i: nat)
    requires i <= |t| && (i < |t| ==> t[i] != '\\' && Delimiter(t[i]))
    ensures Read(t[i..]) == ("", 0)
  {
  }

  /** What has been read so far, followed by what is still to be read. */
  function Resume(out: string, i: nat, r: (string, nat)): (string, nat) {
    (out + r.0, i + r.1)
  }

  lemma Begin(t: string)
    ensures Read(t) == Resume("", 0, Read(t[0..]))
  {
    assert t[0..] == t;
    assert "" + Read(t).0 == Read(t).0;
  }

  lemma PushMoves(out: string, i: nat, c: char, k: nat, r: (string, nat))
    ensures Resume(out, i, Push(c, k, r)) == Resume(out + [c], i + k, r)
  {
    assert out + ([c] + r.0) == out + [c] + r.0;
  }

  lemma SkipMoves(out: string, i: nat, k: nat)
    ensures Resume(out, i, ("", k)) == Resume(out, i + k, ("", 0))
  {
  }

  lemma End(out: string, i: nat)
    ensures Resume(out, i, ("", 0)) == (out, i)
  {
    assert out + "" == out;
  }

  /** One round of the reading loop. */
  lemma ReadStep(t: string, i: nat)
    requires i < |t|
    ensures t[i] == '\\' && i + 1 < |t| ==> Read(t[i..]) == Push(t[i + 1], 2, Read(t[i + 2..]))
    ensures t[i] == '\\' && i + 1 == |t| ==> Read(t[i..]) == ("", 1) && Read(t[i + 1..]) == ("", 0)
    ensures t[i] != '\\' && !Delimiter(t[i]) ==>
      var (c, k) := DecodeFirst(t[i..]);
      (Ascii(t[i]) ==> c == t[i] && k == 1) && Read(t[i..]) == Push(c, k, Read(t[i + k..]))
  {
    var here := t[i..];
    assert |here| > 1 ==> here[2..] == t[i + 2..];
    assert t[|t|..] == "";
    var k := DecodeFirst(here).1;
    assert here[k..] == t[i + k..];
  }

  lemma ReadAtDelimiter(tail: string)
    requires tail == "" || Delimiter(tail[0])
    ensures Read(tail) == ("", 0)
  {
  }

  lemma ReadGlyph(g: Glyph, rest: string)
    requires (g.c == '\\' ==> g.escaped) && (g.escaped ==> Ascii(g.c)) && (Delimiter(g.c) ==> g.escaped)
    ensures Read(GlyphBytes(g) + rest) == Push(g.c, |GlyphBytes(g)|, Read(rest))
  {
    GlyphShape(g);
    hide GlyphBytes;
    AfterPrefix(GlyphBytes(g), rest);
    if !g.escaped {
      DecodeEncoded(g.c, rest);
      hide DecodeFirst, EncodeChar;
    }
  }

  lemma GlyphTextStep(gs: seq<Glyph>, tail: string)
    requires gs != []
    ensures GlyphText(gs) + tail == GlyphBytes(gs[0]) + (GlyphText(gs[1..]) + tail)
    ensures |GlyphText(gs)| == |GlyphBytes(gs[0])| + |GlyphText(gs[1..])|
  {
    TextOnce(gs);
    hide GlyphBytes, GlyphText;
    Associates(GlyphBytes(gs[0]), GlyphText(gs[1..]), tail);
  }

  lemma TextOnce(gs: seq<Glyph>)
    requires gs != []
    ensures GlyphText(gs) == GlyphBytes(gs[0]) + GlyphText(gs[1..])
  {
    hide GlyphBytes;
  }

  lemma Associates(a: string, b: string, c: string)
    ensures a + b + c == a + (b + c)
  {
  }

  /** Reading inverts printing, and takes exactly the printed length. */
  lemma {:induction false} ReadGlyphs(gs: seq<Glyph>, tail: string)
    requires Escapes(gs) && DelimitersEscaped(gs) && (tail == "" || Delimiter(tail[0]))
    ensures var r := Read(GlyphText(gs) + tail); r.0 == Plain(gs) && r.1 == |GlyphText(gs)|
  {
    if gs == [] {
      assert GlyphText(gs) + tail == tail;
      ReadAtDelimiter(tail);
    } else {
      ReadGlyphs(gs[1..], tail);
      GlyphTextStep(gs, tail);
      ReadGlyph(gs[0], GlyphText(gs[1..]) + tail);
    }
  }

  lemma {:induction false} PlainLength(gs: seq<Glyph>)
    ensures |Plain(gs)| == |gs|
  {
    if gs != [] {
      PlainLength(gs[1..]);
    }
  }

  lemma {:induction false} ReadStopsShort(gs: seq<Glyph>, tail: string)
    requires Escapes(gs) && !DelimitersEscaped(gs)
    ensures |Read(GlyphText(gs) + tail).0| < |gs|
  {
    GlyphTextStep(gs, tail);
    GlyphShape(gs[0]);
    hide GlyphBytes, GlyphText;
    if Delimiter(gs[0].c) && !gs[0].escaped {
      AfterPrefix(GlyphBytes(gs[0]), GlyphText(gs[1..]) + tail);
    } else {
      hide Read;
      ReadStopsShort(gs[1..], tail);
      ReadGlyph(gs[0], GlyphText(gs[1..]) + tail);
    }
  }

  /** The exact condition: a printed name is read back if and only if the printer escaped every
      delimiter in it. */
  lemma ReadBackExactlyWhenEscaped(gs: seq<Glyph>, tail: string)
    requires Escapes(gs) && (tail == "" || Delimiter(tail[0]))
    ensures Read(GlyphText(gs) + tail).0 == Plain(gs) <==> DelimitersEscaped(gs)
  {
    if DelimitersEscaped(gs) {
      ReadGlyphs(gs, tail);
    } else {
      ReadStopsShort(gs, tail);
      PlainLength(gs);
    }
  }

  /** The first byte of a printed name. */
  lemma FirstByte(gs: seq<Glyph>, tail: string)
    requires gs != []
    ensures GlyphText(gs) + tail != ""
    ensures (GlyphText(gs) + tail)[0] == if gs[0].escaped then '\\' else EncodeChar(gs[0].c)[0]
  {
    GlyphTextStep(gs, tail);
    GlyphShape(gs[0]);
    hide GlyphBytes;
    AfterPrefix(GlyphBytes(gs[0]), GlyphText(gs[1..]) + tail);
  }

  lemma TokenRoundTrip(name: Option<seq<Glyph>>, tail: string)
    requires TokenOk(name) && (tail == "" || Delimiter(tail[0]))
    ensures var r := ReadToken(TokenText(name) + tail); r.0 == PlainName(name) && r.1 == |TokenText(name)|
  {
    var t := TokenText(name) + tail;
    if name.Some? && name.value == [] {
      assert t[0] == '"' && t[1] == '"';
    } else if name.Some? {
      FirstByte(name.value, tail);
      ReadGlyphs(name.value, tail);
      assert t[0] != '<' && t[0] != '"';
      assert Read(t).0 == Plain(name.value);
    }
  }

  /** A printer as the reader expects it: every delimiter and backslash is escaped, and so is a leading
      `<`, `"` or digit. */
  function PrintedGlyphs(s: string, leading: bool): seq<Glyph> {
    if s == "" then []
    else
      var c := s[0];
      [Glyph(c, Delimiter(c) || c == '\\' || (leading && (c == '<' || c == '"' || '0' <= c <= '9')))]
      + PrintedGlyphs(s[1..], false)
  }

  lemma {:induction false} PrintedGlyphsOk(s: string, leading: bool)
    ensures var gs := PrintedGlyphs(s, leading);
            && |gs| == |s| && Plain(gs) == s && Escapes(gs) && DelimitersEscaped(gs)
            && (leading ==> LeadEscaped(gs))
  {
    if s != "" {
      PrintedGlyphsOk(s[1..], false);
      var gs, more := PrintedGlyphs(s, leading), PrintedGlyphs(s[1..], false);
      assert gs[1..] == more;
      assert forall i :: 1 <= i < |gs| ==> gs[i] == more[i - 1];
    }
  }

  function PrintToken(s: Option<string>): string {
    TokenText(if s.None? then None else Some(PrintedGlyphs(s.value, true)))
  }

  /** Null, empty and every other string survive printing and reading. */
  lemma PrintedTokenIsReadBack(s: Option<string>, tail: string)
    requires tail == "" || Delimiter(tail[0])
    ensures var r := ReadToken(PrintToken(s) + tail); r.0 == s && r.1 == |PrintToken(s)|
  {
    if s.Some? {
      PrintedGlyphsOk(s.value, true);
    }
    TokenRoundTrip(if s.None? then None else Some(PrintedGlyphs(s.value, true)), tail);
  }

  // ---------------------------------------------------------------------------------------------
  // node_body and paren_body
  // ---------------------------------------------------------------------------------------------

  /** The position of the closing bracket that was not opened here, or the end. */
  function BodyEnd(t: string, depth: nat, open: char, close: char): (n: nat)
    ensures n <= |t|
  {
    if t == "" then 0
    else if t[0] == '\\' then if |t| > 1 then 2 + BodyEnd(t[2..], depth, open, close) else 1
    else if t[0] == open then 1 + BodyEnd(t[1..], depth + 1, open, close)
    else if t[0] == close then if depth == 0 then 0 else 1 + BodyEnd(t[1..], depth - 1, open, close)
    else 1 + BodyEnd(t[1..], depth, open, close)
  }

  method BracketBody(t: string, open: char, close: char) returns (body: string)
    ensures body == t[..BodyEnd(t, 0, open, close)]
  {
    var depth: nat, i := 0, 0;
    assert t[0..] == t;
    while i < |t|
      invariant i <= |t|
      invariant BodyEnd(t, 0, open, close) == i + BodyEnd(t[i..], depth, open, close)
    {
      ghost var here := t[i..];
      assert |here| > 1 ==> here[2..] == t[i + 2..];
      assert here[1..] == t[i + 1..];
      if t[i] == '\\' {
        if i + 1 == |t| {
          return t;
        }
        i := i + 1;
      } else if t[i] == open {
        depth := depth + 1;
      } else if t[i] == close {
        if depth == 0 {
          return t[..i];
        }
        depth := depth - 1;
      }
      i := i + 1;
    }
    body := t;
  }

  method NodeBody(t: string) returns (body: string)
    ensures body == t[..BodyEnd(t, 0, '{', '}')]
  {
    body := BracketBody(t, '{', '}');
  }

  method ParenBody(t: string) returns (body: string)
    ensures body == t[..BodyEnd(t, 0, '(', ')')]
  {
    body := BracketBody(t, '(', ')');
  }

  /** How deep the brackets are after `t`; `None` when it closes one it did not open, or ends in the
      middle of an escape. */
  function Depth(t: string, depth: nat, open: char, close: char): Option<nat> {
    if t == "" then Some(depth)
    else if t[0] == '\\' then if |t| > 1 then Depth(t[2..], depth, open, close) else None
    else if t[0] == open then Depth(t[1..], depth + 1, open, close)
    else if t[0] == close then if depth == 0 then None else Depth(t[1..], depth - 1, open, close)
    else Depth(t[1..], depth, open, close)
  }

  predicate Balanced(t: string, open: char, close: char) {
    Depth(t, 0, open, close) == Some(0)
  }

  /** The reader stops right after `t`, at the bracket that follows it, exactly when `t` is balanced. */
  lemma {:induction false} EndsAfter(t: string, depth: nat, rest: string, open: char, close: char)
    requires open != close && open != '\\' && close != '\\'
    ensures BodyEnd(t + [close] + rest, depth, open, close) == |t| <==> Depth(t, depth, open, close) == Some(0)
  {
    var all := t + [close] + rest;
    if t == "" {
      assert all[0] == close;
    } else {
      assert all[0] == t[0] && all[1..] == t[1..] + [close] + rest;
      if t[0] == '\\' {
        if |t| > 1 {
          assert all[2..] == t[2..] + [close] + rest;
          EndsAfter(t[2..], depth, rest, open, close);
        }
      } else if t[0] == open {
        EndsAfter(t[1..], depth + 1, rest, open, close);
      } else if t[0] == close {
        if depth > 0 { EndsAfter(t[1..], depth - 1, rest, open, close); }
      } else {
        EndsAfter(t[1..], depth, rest, open, close);
      }
    }
  }

  lemma BodyIsExactlyBalanced(t: string, rest: string, open: char, close: char)
    requires open != close && open != '\\' && close != '\\'
    ensures (t + [close] + rest)[..BodyEnd(t + [close] + rest, 0, open, close)] == t <==> Balanced(t, open, close)
  {
    EndsAfter(t, 0, rest, open, close);
    var all := t + [close] + rest;
    assert all[..|t|] == t;
  }

  /** Balanced text is passed over, at any depth. */
  lemma {:induction false} DepthSkips(t: string, depth: nat, tail: string, open: char, close: char)
    requires Depth(t, depth, open, close).Some?
    ensures BodyEnd(t + tail, depth, open, close) == |t| + BodyEnd(tail, Depth(t, depth, open, close).value, open, close)
  {
    var all := t + tail;
    if t == "" {
      assert all == tail;
    } else {
      assert all[0] == t[0] && all[1..] == t[1..] + tail;
      if t[0] == '\\' {
        assert all[2..] == t[2..] + tail;
        DepthSkips(t[2..], depth, tail, open, close);
      } else if t[0] == open {
        DepthSkips(t[1..], depth + 1, tail, open, close);
      } else if t[0] == close {
        DepthSkips(t[1..], depth - 1, tail, open, close);
      } else {
        DepthSkips(t[1..], depth, tail, open, close);
      }
    }
  }

  /** So are printed names, whose brackets are all escaped. */
  lemma {:induction false} GlyphsAreBalanced(gs: seq<Glyph>, depth: nat, open: char, close: char)
    requires Escapes(gs) && DelimitersEscaped(gs) && Delimiter(open) && Delimiter(close)
    ensures Depth(GlyphText(gs), depth, open, close) == Some(depth)
  {
    if gs != [] {
      GlyphsAreBalanced(gs[1..], depth, open, close);
      GlyphIsBalanced(gs[0], depth, open, close);
      hide Depth, GlyphBytes;
      DepthConcat(GlyphBytes(gs[0]), GlyphText(gs[1..]), depth, open, close);
    }
  }

  lemma GlyphIsBalanced(g: Glyph, depth: nat, open: char, close: char)
    requires (g.c == '\\' ==> g.escaped) && (g.escaped ==> Ascii(g.c)) && (Delimiter(g.c) ==> g.escaped)
    requires Delimiter(open) && Delimiter(close)
    ensures Depth(GlyphBytes(g), depth, open, close) == Some(depth)
  {
    GlyphShape(g);
    if g.escaped {
      assert ['\\', g.c][2..] == "";
    } else {
      FlatDepth(EncodeChar(g.c), depth, open, close);
    }
  }

  lemma {:induction false} FlatDepth(t: string, depth: nat, open: char, close: char)
    requires forall i :: 0 <= i < |t| ==> t[i] != '\\' && t[i] != open && t[i] != close
    ensures Depth(t, depth, open, close) == Some(depth)
  {
    if t != "" {
      FlatDepth(t[1..], depth, open, close);
    }
  }

  lemma {:induction false} DepthConcat(a: string, b: string, depth: nat, open: char, close: char)
    requires Depth(a, depth, open, close).Some?
    ensures Depth(a + b, depth, open, close) == Depth(b, Depth(a, depth, open, close).value, open, close)
  {
    if a == "" {
      assert a + b == b;
    } else {
      assert (a + b)[0] == a[0] && (a + b)[1..] == a[1..] + b;
      if a[0] == '\\' {
        assert (a + b)[2..] == a[2..] + b;
        DepthConcat(a[2..], b, depth, open, close);
      } else if a[0] == open {
        DepthConcat(a[1..], b, depth + 1, open, close);
      } else if a[0] == close {
        DepthConcat(a[1..], b, depth - 1, open, close);
      } else {
        DepthConcat(a[1..], b, depth, open, close);
      }
    }
  }

  // ---------------------------------------------------------------------------------------------
  // quoted_strings
  // ---------------------------------------------------------------------------------------------

  /** What is read from here to the closing quote, and how many bytes that is with the quote. */
  function QuotedItem(t: string): (r: (string, nat))
    ensures r.1 <= |t|
  {
    if t == "" then ("", 0)
    else if t[0] == '"' then ("", 1)
    else if t[0] == '\\' && |t| > 1 then Push(t[1], 2, QuotedItem(t[2..]))
    else
      var (c, n) := DecodeFirst(t);
      Push(c, n, QuotedItem(t[n..]))
  }

  function QuotedAll(t: string): seq<string>
    decreases |t|
  {
    if t == "" then []
    else if t[0] != '"' then QuotedAll(t[1..])
    else
      var r := QuotedItem(t[1..]);
      [r.0] + QuotedAll(t[1 + r.1..])
  }

  /** The inner loop of `quoted_strings`. */
  method ReadQuotedItem(t: string) returns (out: string, n: nat)
    ensures out == QuotedItem(t).0 && n == QuotedItem(t).1
  {
    out := "";
    var i := 0;
    BeginItem(t);
    hide QuotedItem, DecodeFirst, Resume, Push;
    while i < |t| && t[i] != '"'
      invariant i <= |t|
      invariant QuotedItem(t) == Resume(out, i, QuotedItem(t[i..]))
    {
      ItemStep(t, i);
      if t[i] == '\\' && i + 1 < |t| {
        PushMoves(out, i, t[i + 1], 2, QuotedItem(t[i + 2..]));
        out := out + [t[i + 1]];
        i := i + 2;
      } else {
        PushMoves(out, i, DecodeFirst(t[i..]).0, DecodeFirst(t[i..]).1, QuotedItem(t[i + DecodeFirst(t[i..]).1..]));
        if Ascii(t[i]) {
          out := out + [t[i]];
          i := i + 1;
        } else {
          var (c, k) := DecodeFirst(t[i..]);
          out := out + [c];
          i := i + k;
        }
      }
    }
    ItemEnd(t, i);
    if i < |t| {
      SkipMoves(out, i, 1);
      i := i + 1;
    }
    End(out, i);
    n := i;
  }

  lemma BeginItem(t: string)
    ensures QuotedItem(t) == Resume("", 0, QuotedItem(t[0..]))
  {
    assert t[0..] == t;
    assert "" + QuotedItem(t).0 == QuotedItem(t).0;
  }

  lemma ItemEnd(t: string, i: nat)
    requires i <= |t| && (i < |t| ==> t[i] == '"')
    ensures QuotedItem(t[i..]) == ("", if i < |t| then 1 else 0)
  {
  }

  lemma ItemStep(t: string, i: nat)
    requires i < |t| && t[i] != '"'
    ensures t[i] == '\\' && i + 1 < |t| ==> QuotedItem(t[i..]) == Push(t[i + 1], 2, QuotedItem(t[i + 2..]))
    ensures !(t[i] == '\\' && i + 1 < |t|) ==>
      var (c, k) := DecodeFirst(t[i..]);
      (Ascii(t[i]) ==> c == t[i] && k == 1) && QuotedItem(t[i..]) == Push(c, k, QuotedItem(t[i + k..]))
  {
    var here := t[i..];
    assert |here| > 1 ==> here[2..] == t[i + 2..];
    var k := DecodeFirst(here).1;
    assert here[k..] == t[i + k..];
  }

  method QuotedStrings(t: string) returns (items: seq<string>)
    ensures items == QuotedAll(t)
  {
    items := [];
    var i := 0;
    assert t[0..] == t;
    while i < |t|
      invariant i <= |t|
      invariant QuotedAll(t) == items + QuotedAll(t[i..])
    {
      ghost var here := t[i..];
      assert here[1..] == t[i + 1..];
      if t[i] != '"' {
        i := i + 1;
      } else {
        var s, n := ReadQuotedItem(t[i + 1..]);
        assert here[1 + n..] == t[i + 1 + n..];
        items := items + [s];
        i := i + 1 + n;
      }
    }
    assert t[i..] == "";
  }

  predicate QuotesEscaped(gs: seq<Glyph>) {
    forall i :: 0 <= i < |gs| && gs[i].c == '"' ==> gs[i].escaped
  }

  predicate QuotedOk(gs: seq<Glyph>) {
    Escapes(gs) && QuotesEscaped(gs)
  }

  function QuotedText(gs: seq<Glyph>): string {
    "\"" + GlyphText(gs) + "\""
  }

  lemma ItemGlyph(g: Glyph, rest: string)
    requires (g.c == '\\' ==> g.escaped) && (g.escaped ==> Ascii(g.c)) && (g.c == '"' ==> g.escaped)
    ensures QuotedItem(GlyphBytes(g) + rest) == Push(g.c, |GlyphBytes(g)|, QuotedItem(rest))
  {
    GlyphShape(g);
    hide GlyphBytes;
    AfterPrefix(GlyphBytes(g), rest);
    if !g.escaped {
      DecodeEncoded(g.c, rest);
      hide DecodeFirst, EncodeChar;
    }
  }

  lemma {:induction false} ItemGlyphs(gs: seq<Glyph>, rest: string)
    requires QuotedOk(gs)
    ensures var r := QuotedItem(GlyphText(gs) + ("\"" + rest)); r.0 == Plain(gs) && r.1 == |GlyphText(gs)| + 1
  {
    if gs == [] {
      assert GlyphText(gs) + ("\"" + rest) == "\"" + rest;
    } else {
      ItemGlyphs(gs[1..], rest);
      GlyphTextStep(gs, "\"" + rest);
      ItemGlyph(gs[0], GlyphText(gs[1..]) + ("\"" + rest));
    }
  }

  /** A printed string is read back as the first item, and the rest is read after it. */
  lemma QuotedRoundTrip(gs: seq<Glyph>, rest: string)
    requires QuotedOk(gs)
    ensures QuotedAll(QuotedText(gs) + rest) == [Plain(gs)] + QuotedAll(rest)
  {
    var t := QuotedText(gs) + rest;
    ItemGlyphs(gs, rest);
    assert t[0] == '"' && t[1..] == GlyphText(gs) + ("\"" + rest);
    assert t[1 + (|GlyphText(gs)| + 1)..] == rest;
  }
}
