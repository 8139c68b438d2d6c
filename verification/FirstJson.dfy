/** `extract_first_json`: finding the JSON object in what a model answered.

    Whether a piece of text is JSON, and which value it denotes, is the cast's business: it is a
    parameter. The grammar below is that of RFC 8259 read loosely (numbers and escapes are taken as
    any text of the right alphabet), so what is proved of every text of the grammar holds of every
    JSON text. */
module FirstJson {
  import opened Tables

  type Cast<!V> = string -> Option<V>

  // ---------------------------------------------------------------------------------------------
  // JSON texts
  // ---------------------------------------------------------------------------------------------

  /** A character of a string, section 7: itself, or a backslash and what it escapes. The digits of a
      `\uXXXX` count as characters of their own. */
  datatype Ch = Plain(c: char) | Escaped(c: char)

  datatype Value =
    | Object(lead: string, members: Members)
    | Array(lead: string, elements: Elements)
    | Str(chars: seq<Ch>)
    | Bare(text: string)

  datatype Members =
    | NoMember
    | Member(before: string, key: seq<Ch>, colon0: string, colon1: string, value: Value, after: string, rest: Members)

  datatype Elements =
    | NoElement
    | Element(before: string, value: Value, after: string, rest: Elements)

  predicate Blank(s: string) {
    forall i :: 0 <= i < |s| ==> s[i] == ' ' || s[i] == '\t' || s[i] == '\n' || s[i] == '\r'
  }

  /** Numbers and the three literal names. */
  predicate BareWord(s: string) {
    forall i :: 0 <= i < |s| ==> s[i] != '"' && s[i] != '{' && s[i] != '}'
  }

  predicate ValidChars(cs: seq<Ch>) {
    forall i :: 0 <= i < |cs| ==> cs[i].Plain? ==> cs[i].c != '"' && cs[i].c != '\\'
  }

  predicate Valid(v: Value) {
    match v
    case Object(lead, ms) => Blank(lead) && ValidMembers(ms)
    case Array(lead, es) => Blank(lead) && ValidElements(es)
    case Str(cs) => ValidChars(cs)
    case Bare(t) => BareWord(t)
  }

  predicate ValidMembers(ms: Members) {
    match ms
    case NoMember => true
    case Member(a, k, b, c, v, d, rest) =>
      Blank(a) && ValidChars(k) && Blank(b) && Blank(c) && Valid(v) && Blank(d) && ValidMembers(rest)
  }

  predicate ValidElements(es: Elements) {
    match es
    case NoElement => true
    case Element(a, v, b, rest) => Blank(a) && Valid(v) && Blank(b) && ValidElements(rest)
  }

  function CharsText(cs: seq<Ch>): string {
    if cs == [] then ""
    else (if cs[0].Plain? then [cs[0].c] else ['\\', cs[0].c]) + CharsText(cs[1..])
  }

  function Quoted(cs: seq<Ch>): string {
    "\"" + (CharsText(cs) + "\"")
  }

  function Text(v: Value): string {
    match v
    case Object(lead, ms) => "{" + (lead + MembersText(ms)) + "}"
    case Array(lead, es) => "[" + (lead + ElementsText(es)) + "]"
    case Str(cs) => Quoted(cs)
    case Bare(t) => t
  }

  function MembersText(ms: Members): string {
    match ms
    case NoMember => ""
    case Member(a, k, b, c, v, d, rest) =>
      a + (Quoted(k) + ((b + ":" + c) + (Text(v) + ((if rest.NoMember? then d else d + ",") + MembersText(rest)))))
  }

  function ElementsText(es: Elements): string {
    match es
    case NoElement => ""
    case Element(a, v, b, rest) =>
      a + (Text(v) + ((if rest.NoElement? then b else b + ",") + ElementsText(rest)))
  }

  // ---------------------------------------------------------------------------------------------
  // The scan
  // ---------------------------------------------------------------------------------------------

  /** How many characters lead to the brace that closes an object open to depth `depth`; `inStr` and
      `esc` say whether the text starts inside a string, and there after a backslash. */
  function Close(s: string, depth: nat, inStr: bool, esc: bool): (r: Option<nat>)
    ensures r.Some? ==> 0 < r.value <= |s| && s[r.value - 1] == '}'
  {
    if s == "" then None
    else
      var c := s[0];
      if inStr then
        var out := !esc && c == '"';
        Plus(1, Close(s[1..], depth, !out, !esc && c == '\\'))
      else if c == '"' then Plus(1, Close(s[1..], depth, true, false))
      else if c == '{' then Plus(1, Close(s[1..], depth + 1, false, false))
      else if c == '}' then
        if depth <= 1 then Some(1) else Plus(1, Close(s[1..], depth - 1, false, false))
      else Plus(1, Close(s[1..], depth, false, false))
  }

  function Plus(n: nat, r: Option<nat>): Option<nat> {
    if r.Some? then Some(n + r.value) else None
  }

  /** The first balanced candidate the cast accepts; a rejected one is skipped as a whole. */
  function Scan<V>(s: string, cast: Cast<V>): Option<V>
    decreases |s|
  {
    if s == "" then None
    else if s[0] != '{' then Scan(s[1..], cast)
    else
      var n := Close(s[1..], 1, false, false);
      if n.None? then None
      else
        var r := cast(s[..1 + n.value]);
        if r.Some? then r else Scan(s[1 + n.value..], cast)
  }

  /** `btrim`: spaces only. */
  function TrimLeft(s: string): string {
    if s != "" && s[0] == ' ' then TrimLeft(s[1..]) else s
  }

  function TrimRight(s: string): string {
    if s != "" && s[|s| - 1] == ' ' then TrimRight(s[..|s| - 1]) else s
  }

  function Trim(s: string): string {
    TrimRight(TrimLeft(s))
  }

  function FastPath<V>(s: string, cast: Cast<V>): Option<V> {
    var t := Trim(s);
    if t != "" && t[0] == '{' then cast(t) else None
  }

  function Extract<V>(text: Option<string>, cast: Cast<V>): Option<V> {
    if text.None? || Trim(text.value) == "" then None
    else
      var fast := FastPath(text.value, cast);
      if fast.Some? then fast else Scan(text.value, cast)
  }

  method ExtractFirstJson<V>(text: Option<string>, cast: Cast<V>) returns (r: Option<V>)
    ensures r == Extract(text, cast)
  {
    if text.None? || Trim(text.value) == "" {
      return None;
    }
    var t := Trim(text.value);
    if t[0] == '{' {
      r := cast(t);
      if r.Some? {
        return;
      }
    }
    r := ScanText(text.value, cast);
  }

  /** The loop of the source, one character at a time; `start` is the position of the candidate's
      opening brace counted from 1, and 0 when there is none. */
  method ScanText<V>(s: string, cast: Cast<V>) returns (r: Option<V>)
    ensures r == Scan(s, cast)
  {
    var i: nat, start: nat, depth: nat, inStr, esc := 0, 0, 0, false, false;
    RestStarts(s, cast, depth);
    hide *;
    while i < |s|
      invariant start <= i <= |s|
      invariant start > 0 ==> depth >= 1
      invariant esc ==> inStr
      invariant Scan(s, cast) == Rest(s, cast, start, i, depth, inStr, esc)
    {
      if start == 0 {
        RestBegins(s, cast, i, depth, inStr, esc);
        if s[i] == '{' {
          start, depth, inStr, esc := i + 1, 1, false, false;
        }
      } else {
        depth, inStr, esc := InCandidate(s, cast, start, i, depth, inStr, esc);
        if depth == 0 {
          r := cast(s[start - 1..i + 1]);
          if r.Some? {
            return;
          }
          start := 0;
        }
      }
      i := i + 1;
    }
    EndOfText(s, cast, start, depth, inStr, esc);
    r := None;
  }

  /** One character inside a candidate; depth 0 means that it has just been closed. */
  method InCandidate<V>(s: string, cast: Cast<V>, start: nat, i: nat, depth: nat, inStr: bool, esc: bool)
    returns (depth1: nat, inStr1: bool, esc1: bool)
    requires 0 < start <= i < |s| && depth >= 1 && (esc ==> inStr)
    ensures esc1 ==> inStr1
    ensures depth1 > 0 ==> Rest(s, cast, start, i, depth, inStr, esc) == Rest(s, cast, start, i + 1, depth1, inStr1, esc1)
    ensures depth1 == 0 ==>
      var r := cast(s[start - 1..i + 1]);
      Rest(s, cast, start, i, depth, inStr, esc) == if r.Some? then r else Rest(s, cast, 0, i + 1, depth1, inStr1, esc1)
  {
    hide *;
    depth1, inStr1, esc1 := depth, inStr, esc;
    var ch := s[i];
    if inStr {
      RestInString(s, cast, start, i, depth, esc);
      if esc {
        esc1 := false;
      } else if ch == '\\' {
        esc1 := true;
      } else if ch == '"' {
        inStr1 := false;
      }
    } else if ch == '"' {
      RestQuote(s, cast, start, i, depth);
      inStr1 := true;
    } else if ch == '{' {
      RestOpen(s, cast, start, i, depth);
      depth1 := depth + 1;
    } else if ch == '}' {
      RestClose(s, cast, start, i, depth);
      depth1 := depth - 1;
    } else {
      RestOther(s, cast, start, i, depth);
    }
  }

  /** What the scan will find from position `i` on, when it is in the given state there. */
  function Rest<V>(s: string, cast: Cast<V>, start: nat, i: nat, depth: nat, inStr: bool, esc: bool): Option<V>
    requires start <= i <= |s|
  {
    if start == 0 then Scan(s[i..], cast)
    else
      var n := Close(s[i..], depth, inStr, esc);
      if n.None? then None
      else
        var r := cast(s[start - 1..i + n.value]);
        if r.Some? then r else Scan(s[i + n.value..], cast)
  }

  lemma RestStarts<V>(s: string, cast: Cast<V>, depth: nat)
    ensures Rest(s, cast, 0, 0, depth, false, false) == Scan(s, cast)
  {
    assert s[0..] == s;
  }

  lemma EndOfText<V>(s: string, cast: Cast<V>, start: nat, depth: nat, inStr: bool, esc: bool)
    requires start <= |s|
    ensures Rest(s, cast, start, |s|, depth, inStr, esc) == None
  {
    assert s[|s|..] == "";
  }

  lemma RestBegins<V>(s: string, cast: Cast<V>, i: nat, depth: nat, inStr: bool, esc: bool)
    requires i < |s|
    ensures s[i] == '{' ==> Rest(s, cast, 0, i, depth, inStr, esc) == Rest(s, cast, i + 1, i + 1, 1, false, false)
    ensures s[i] != '{' ==> Rest(s, cast, 0, i, depth, inStr, esc) == Rest(s, cast, 0, i + 1, depth, inStr, esc)
  {
    hide Scan, Close;
    ScanStep(s, cast, i);
  }

  lemma RestAdvances<V>(s: string, cast: Cast<V>, start: nat, i: nat, depth: nat, inStr: bool, esc: bool,
                        depth1: nat, inStr1: bool, esc1: bool)
    requires 0 < start <= i < |s|
    requires Close(s[i..], depth, inStr, esc) == Plus(1, Close(s[i + 1..], depth1, inStr1, esc1))
    ensures Rest(s, cast, start, i, depth, inStr, esc) == Rest(s, cast, start, i + 1, depth1, inStr1, esc1)
  {
    hide Scan, Close;
    var n := Close(s[i + 1..], depth1, inStr1, esc1);
    if n.Some? {
      assert i + (1 + n.value) == i + 1 + n.value;
    }
  }

  lemma RestInString<V>(s: string, cast: Cast<V>, start: nat, i: nat, depth: nat, esc: bool)
    requires 0 < start <= i < |s| && depth >= 1
    ensures Rest(s, cast, start, i, depth, true, esc) == Rest(s, cast, start, i + 1, depth, esc || s[i] != '"', !esc && s[i] == '\\')
  {
    hide Scan, Close, Rest;
    CloseStep(s, i, depth, true, esc);
    RestAdvances(s, cast, start, i, depth, true, esc, depth, esc || s[i] != '"', !esc && s[i] == '\\');
  }

  lemma RestQuote<V>(s: string, cast: Cast<V>, start: nat, i: nat, depth: nat)
    requires 0 < start <= i < |s| && depth >= 1 && s[i] == '"'
    ensures Rest(s, cast, start, i, depth, false, false) == Rest(s, cast, start, i + 1, depth, true, false)
  {
    hide Scan, Close, Rest;
    CloseStep(s, i, depth, false, false);
    RestAdvances(s, cast, start, i, depth, false, false, depth, true, false);
  }

  lemma RestOpen<V>(s: string, cast: Cast<V>, start: nat, i: nat, depth: nat)
    requires 0 < start <= i < |s| && depth >= 1 && s[i] == '{'
    ensures Rest(s, cast, start, i, depth, false, false) == Rest(s, cast, start, i + 1, depth + 1, false, false)
  {
    hide Scan, Close, Rest;
    CloseStep(s, i, depth, false, false);
    RestAdvances(s, cast, start, i, depth, false, false, depth + 1, false, false);
  }

  lemma RestOther<V>(s: string, cast: Cast<V>, start: nat, i: nat, depth: nat)
    requires 0 < start <= i < |s| && depth >= 1 && s[i] != '"' && s[i] != '{' && s[i] != '}'
    ensures Rest(s, cast, start, i, depth, false, false) == Rest(s, cast, start, i + 1, depth, false, false)
  {
    hide Scan, Close, Rest;
    CloseStep(s, i, depth, false, false);
    RestAdvances(s, cast, start, i, depth, false, false, depth, false, false);
  }

  lemma RestClose<V>(s: string, cast: Cast<V>, start: nat, i: nat, depth: nat)
    requires 0 < start <= i < |s| && depth >= 1 && s[i] == '}'
    ensures depth > 1 ==> Rest(s, cast, start, i, depth, false, false) == Rest(s, cast, start, i + 1, depth - 1, false, false)
    ensures depth == 1 ==>
      var r := cast(s[start - 1..i + 1]);
      Rest(s, cast, start, i, depth, false, false) == if r.Some? then r else Rest(s, cast, 0, i + 1, 0, false, false)
  {
    hide Scan, Close;
    CloseStep(s, i, depth, false, false);
    if depth > 1 {
      hide Rest;
      RestAdvances(s, cast, start, i, depth, false, false, depth - 1, false, false);
    }
  }

  lemma CloseStep(s: string, i: nat, depth: nat, inStr: bool, esc: bool)
    requires i < |s| && depth >= 1
    ensures Close(s[i..], depth, inStr, esc) ==
      if inStr then Plus(1, Close(s[i + 1..], depth, esc || s[i] != '"', !esc && s[i] == '\\'))
      else if s[i] == '"' then Plus(1, Close(s[i + 1..], depth, true, false))
      else if s[i] == '{' then Plus(1, Close(s[i + 1..], depth + 1, false, false))
      else if s[i] == '}' then (if depth == 1 then Some(1) else Plus(1, Close(s[i + 1..], depth - 1, false, false)))
      else Plus(1, Close(s[i + 1..], depth, false, false))
  {
    assert s[i..][1..] == s[i + 1..] && s[i..][0] == s[i];
  }

  lemma ScanStep<V>(s: string, cast: Cast<V>, i: nat)
    requires i < |s|
    ensures s[i] != '{' ==> Scan(s[i..], cast) == Scan(s[i + 1..], cast)
    ensures s[i] == '{' ==> Scan(s[i..], cast) == Rest(s, cast, i + 1, i + 1, 1, false, false)
  {
    var t := s[i..];
    assert t[1..] == s[i + 1..] && t[0] == s[i];
    var n := Close(t[1..], 1, false, false);
    if n.Some? {
      assert t[..1 + n.value] == s[i..i + 1 + n.value];
      assert t[1 + n.value..] == s[i + 1 + n.value..];
    }
  }

  // ---------------------------------------------------------------------------------------------
  // A printed value does not disturb the scan
  // ---------------------------------------------------------------------------------------------

  /** Text that the scan passes over inside an object, ending in the state it began in. */
  ghost predicate Transparent(t: string) {
    forall rest: string, depth: nat :: depth >= 1 ==>
      Close(t + rest, depth, false, false) == Plus(|t|, Close(rest, depth, false, false))
  }

  lemma TransparentConcat(a: string, b: string)
    requires Transparent(a) && Transparent(b)
    ensures Transparent(a + b)
  {
    forall rest: string, depth: nat | depth >= 1
      ensures Close(a + b + rest, depth, false, false) == Plus(|a + b|, Close(rest, depth, false, false))
    {
      hide Close;
      assert a + b + rest == a + (b + rest);
    }
  }

  lemma {:induction false} BareIsTransparent(t: string)
    requires BareWord(t)
    ensures Transparent(t)
  {
    if t == "" {
      forall rest: string ensures t + rest == rest { }
    } else {
      BareIsTransparent(t[1..]);
      forall rest: string ensures (t + rest)[1..] == t[1..] + rest && (t + rest)[0] == t[0] { }
    }
  }

  lemma StringStep(c: char, s: string, depth: nat, esc: bool)
    ensures Close([c] + s, depth, true, esc) == Plus(1, Close(s, depth, esc || c != '"', !esc && c == '\\'))
  {
    assert ([c] + s)[1..] == s;
  }

  lemma {:induction false} SkipChars(cs: seq<Ch>, rest: string, depth: nat)
    requires ValidChars(cs)
    ensures Close(CharsText(cs) + rest, depth, true, false) == Plus(|CharsText(cs)|, Close(rest, depth, true, false))
  {
    hide Close;
    var t := CharsText(cs);
    if cs == [] {
      assert t + rest == rest;
    } else {
      var after := CharsText(cs[1..]) + rest;
      SkipChars(cs[1..], rest, depth);
      if cs[0].Plain? {
        assert t + rest == [cs[0].c] + after;
        StringStep(cs[0].c, after, depth, false);
      } else {
        assert t + rest == ['\\'] + ([cs[0].c] + after);
        StringStep('\\', [cs[0].c] + after, depth, false);
        StringStep(cs[0].c, after, depth, true);
      }
    }
  }

  lemma OpenQuote(rest: string, depth: nat)
    ensures Close("\"" + rest, depth, false, false) == Plus(1, Close(rest, depth, true, false))
  {
    assert ("\"" + rest)[1..] == rest;
  }

  lemma QuotedSplit(cs: seq<Ch>, rest: string)
    ensures Quoted(cs) + rest == "\"" + (CharsText(cs) + ("\"" + rest))
  {
    hide CharsText;
  }

  lemma SkipQuoted(cs: seq<Ch>, rest: string, depth: nat)
    requires ValidChars(cs)
    ensures Close(Quoted(cs) + rest, depth, false, false) == Plus(|Quoted(cs)|, Close(rest, depth, false, false))
  {
    hide Close, CharsText;
    QuotedSplit(cs, rest);
    OpenQuote(CharsText(cs) + ("\"" + rest), depth);
    SkipChars(cs, "\"" + rest, depth);
    StringStep('"', rest, depth, false);
  }

  lemma QuotedIsTransparent(cs: seq<Ch>)
    requires ValidChars(cs)
    ensures Transparent(Quoted(cs))
  {
    hide Close, Quoted;
    forall rest: string, depth: nat | depth >= 1
      ensures Close(Quoted(cs) + rest, depth, false, false) == Plus(|Quoted(cs)|, Close(rest, depth, false, false))
    {
      SkipQuoted(cs, rest, depth);
    }
  }

  /** A transparent body between braces leaves the depth one lower than after the opening brace. */
  lemma BodyCloses(body: string, rest: string, depth: nat)
    requires Transparent(body) && depth >= 1
    ensures Close(body + "}" + rest, depth, false, false) ==
            Plus(|body|, if depth == 1 then Some(1) else Plus(1, Close(rest, depth - 1, false, false)))
  {
    assert body + "}" + rest == body + ("}" + rest);
    assert ("}" + rest)[0] == '}' && ("}" + rest)[1..] == rest;
  }

  lemma OpenBrace(rest: string, depth: nat)
    ensures Close("{" + rest, depth, false, false) == Plus(1, Close(rest, depth + 1, false, false))
  {
    assert ("{" + rest)[0] == '{' && ("{" + rest)[1..] == rest;
  }

  lemma SkipBraces(body: string, rest: string, depth: nat)
    requires Transparent(body) && depth >= 1
    ensures Close("{" + body + "}" + rest, depth, false, false) == Plus(|body| + 2, Close(rest, depth, false, false))
  {
    hide Close, Transparent;
    assert "{" + body + "}" + rest == "{" + (body + "}" + rest);
    OpenBrace(body + "}" + rest, depth);
    BodyCloses(body, rest, depth + 1);
  }

  lemma BracesAreTransparent(body: string)
    requires Transparent(body)
    ensures Transparent("{" + body + "}")
  {
    forall rest: string, depth: nat | depth >= 1
      ensures Close("{" + body + "}" + rest, depth, false, false) == Plus(|"{" + body + "}"|, Close(rest, depth, false, false))
    {
      hide Close, Transparent;
      SkipBraces(body, rest, depth);
    }
  }

  lemma BlankIsBare(s: string)
    requires Blank(s)
    ensures BareWord(s) && BareWord(s + ",")
  {
  }

  lemma {:induction false} ValueIsTransparent(v: Value)
    requires Valid(v)
    ensures Transparent(Text(v))
    decreases v
  {
    hide Transparent;
    match v
    case Bare(t) => BareIsTransparent(t);
    case Str(cs) => QuotedIsTransparent(cs);
    case Object(lead, ms) =>
      BodyIsTransparent(lead, ms);
      BracesAreTransparent(lead + MembersText(ms));
    case Array(lead, es) =>
      BlankIsBare(lead);
      BareIsTransparent(lead);
      ElementsAreTransparent(es);
      TransparentConcat(lead, ElementsText(es));
      BareIsTransparent("[");
      BareIsTransparent("]");
      TransparentConcat("[", lead + ElementsText(es));
      TransparentConcat("[" + (lead + ElementsText(es)), "]");
  }

  lemma {:induction false} BodyIsTransparent(lead: string, ms: Members)
    requires Blank(lead) && ValidMembers(ms)
    ensures Transparent(lead + MembersText(ms))
    decreases ms, 1
  {
    hide Transparent;
    BlankIsBare(lead);
    BareIsTransparent(lead);
    MembersAreTransparent(ms);
    TransparentConcat(lead, MembersText(ms));
  }

  lemma {:induction false} MembersAreTransparent(ms: Members)
    requires ValidMembers(ms)
    ensures Transparent(MembersText(ms))
    decreases ms, 0
  {
    hide Transparent;
    match ms
    case NoMember => BareIsTransparent("");
    case Member(a, k, b, c, v, d, more) =>
      var end := if more.NoMember? then d else d + ",";
      BlankIsBare(a);
      BlankIsBare(b);
      BlankIsBare(c);
      BlankIsBare(d);
      BareIsTransparent(a);
      QuotedIsTransparent(k);
      BareIsTransparent(b + ":" + c);
      ValueIsTransparent(v);
      BareIsTransparent(end);
      MembersAreTransparent(more);
      TransparentConcat(end, MembersText(more));
      TransparentConcat(Text(v), end + MembersText(more));
      TransparentConcat(b + ":" + c, Text(v) + (end + MembersText(more)));
      TransparentConcat(Quoted(k), (b + ":" + c) + (Text(v) + (end + MembersText(more))));
      TransparentConcat(a, Quoted(k) + ((b + ":" + c) + (Text(v) + (end + MembersText(more)))));
  }

  lemma {:induction false} ElementsAreTransparent(es: Elements)
    requires ValidElements(es)
    ensures Transparent(ElementsText(es))
    decreases es
  {
    hide Transparent;
    match es
    case NoElement => BareIsTransparent("");
    case Element(a, v, b, more) =>
      var end := if more.NoElement? then b else b + ",";
      BlankIsBare(a);
      BlankIsBare(b);
      BareIsTransparent(a);
      ValueIsTransparent(v);
      BareIsTransparent(end);
      ElementsAreTransparent(more);
      TransparentConcat(end, ElementsText(more));
      TransparentConcat(Text(v), end + ElementsText(more));
      TransparentConcat(a, Text(v) + (end + ElementsText(more)));
  }

  /** The brace that closes a printed object is its last character, whatever comes after it. */
  lemma ObjectCloses(o: Value, tail: string)
    requires o.Object? && Valid(o)
    ensures |Text(o)| >= 2 && Text(o)[0] == '{'
    ensures Close((Text(o) + tail)[1..], 1, false, false) == Some(|Text(o)| - 1)
  {
    var body := o.lead + MembersText(o.members);
    BodyIsTransparent(o.lead, o.members);
    BodyCloses(body, tail, 1);
    assert (Text(o) + tail)[1..] == body + "}" + tail;
  }

  // ---------------------------------------------------------------------------------------------
  // What is extracted
  // ---------------------------------------------------------------------------------------------

  /** What the cast must promise: an accepted text that starts with a brace is a printed object and
      white space, and white space after an object does not change its value. */
  ghost predicate JsonCast<V(!new)>(cast: Cast<V>) {
    AcceptsOnlyJson(cast) && IgnoresTrailingSpace(cast)
  }

  ghost predicate AcceptsOnlyJson<V(!new)>(cast: Cast<V>) {
    forall s :: cast(s).Some? && s != "" && s[0] == '{' ==> exists o, ws :: PrintedAs(s, o, ws)
  }

  ghost predicate IgnoresTrailingSpace<V(!new)>(cast: Cast<V>) {
    forall s, o, ws :: PrintedAs(s, o, ws) ==> cast(s) == cast(Text(o))
  }

  lemma AcceptedIsPrinted<V(!new)>(t: string, cast: Cast<V>) returns (o: Value, ws: string)
    requires AcceptsOnlyJson(cast) && cast(t).Some? && t != "" && t[0] == '{'
    ensures PrintedAs(t, o, ws)
  {
    o, ws :| PrintedAs(t, o, ws);
  }

  predicate PrintedAs(s: string, o: Value, ws: string) {
    o.Object? && Valid(o) && Blank(ws) && s == Text(o) + ws
  }

  /** Text the scan comes out of with nothing in hand: every candidate in it is closed and rejected, and
      it ends outside of one. Text without an opening brace is idle. */
  predicate Idle<V>(s: string, cast: Cast<V>)
    decreases |s|
  {
    s == "" ||
    if s[0] != '{' then Idle(s[1..], cast)
    else
      var n := Close(s[1..], 1, false, false);
      n.Some? && cast(s[..1 + n.value]).None? && Idle(s[1 + n.value..], cast)
  }

  /** Where the piece that the scan returns begins. */
  function Place<V>(s: string, cast: Cast<V>): (r: Option<nat>)
    ensures r.Some? ==> r.value < |s|
    decreases |s|
  {
    if s == "" then None
    else if s[0] != '{' then Plus(1, Place(s[1..], cast))
    else
      var n := Close(s[1..], 1, false, false);
      if n.None? then None
      else if cast(s[..1 + n.value]).Some? then Some(0)
      else Plus(1 + n.value, Place(s[1 + n.value..], cast))
  }

  lemma {:induction false} BraceFreeIsIdle<V>(s: string, cast: Cast<V>)
    requires '{' !in s
    ensures Idle(s, cast)
  {
    if s != "" {
      assert s[0] in s;
      BraceFreeIsIdle(s[1..], cast);
    }
  }

  /** A brace that closes within `s` is found whatever follows, and otherwise none is found within `s`. */
  lemma {:induction false} CloseIsLocal(s: string, rest: string, depth: nat, inStr: bool, esc: bool)
    ensures Close(s, depth, inStr, esc).Some? ==> Close(s + rest, depth, inStr, esc) == Close(s, depth, inStr, esc)
    ensures Close(s, depth, inStr, esc).None? && Close(s + rest, depth, inStr, esc).Some? ==>
      Close(s + rest, depth, inStr, esc).value > |s|
  {
    var all := s + rest;
    if s == "" {
      assert all == rest;
    } else {
      assert all[0] == s[0] && all[1..] == s[1..] + rest;
      if inStr {
        CloseIsLocal(s[1..], rest, depth, !(!esc && s[0] == '"'), !esc && s[0] == '\\');
      } else if s[0] == '"' {
        CloseIsLocal(s[1..], rest, depth, true, false);
      } else if s[0] == '{' {
        CloseIsLocal(s[1..], rest, depth + 1, false, false);
      } else if s[0] == '}' {
        if depth > 1 { CloseIsLocal(s[1..], rest, depth - 1, false, false); }
      } else {
        CloseIsLocal(s[1..], rest, depth, false, false);
      }
    }
  }

  lemma Split(junk: string, rest: string, k: nat)
    requires k <= |junk|
    ensures (junk + rest)[..k] == junk[..k] && (junk + rest)[k..] == junk[k..] + rest
  {
  }

  /** The scan goes on behind idle text as if it were not there. */
  lemma {:induction false} ScanSkipsIdle<V>(junk: string, rest: string, cast: Cast<V>)
    requires Idle(junk, cast)
    ensures Scan(junk + rest, cast) == Scan(rest, cast)
    decreases |junk|
  {
    if junk == "" {
      assert junk + rest == rest;
    } else {
      Split(junk, rest, 1);
      assert (junk + rest)[0] == junk[0];
      if junk[0] != '{' {
        ScanSkipsIdle(junk[1..], rest, cast);
      } else {
        CloseIsLocal(junk[1..], rest, 1, false, false);
        var k := 1 + Close(junk[1..], 1, false, false).value;
        hide Close;
        Split(junk, rest, k);
        ScanSkipsIdle(junk[k..], rest, cast);
      }
    }
  }

  lemma ScanFindsObject<V>(junk: string, o: Value, tail: string, cast: Cast<V>)
    requires Idle(junk, cast) && o.Object? && Valid(o)
    ensures cast(Text(o)).Some? ==> Scan(junk + (Text(o) + tail), cast) == cast(Text(o))
    ensures cast(Text(o)).None? ==> Scan(junk + (Text(o) + tail), cast) == Scan(tail, cast)
  {
    var s := Text(o) + tail;
    ObjectCloses(o, tail);
    hide Close, Text, Idle;
    ScanSkipsIdle(junk, s, cast);
    assert s[..|Text(o)|] == Text(o) && s[|Text(o)|..] == tail;
  }

  lemma ObjectIsInPlace<V>(o: Value, tail: string, cast: Cast<V>)
    requires o.Object? && Valid(o) && cast(Text(o)).Some?
    ensures Place(Text(o) + tail, cast) == Some(0)
  {
    var s := Text(o) + tail;
    ObjectCloses(o, tail);
    hide Close, Text;
    assert s[..|Text(o)|] == Text(o);
  }

  /** The exact condition: an object the cast accepts is the piece returned if and only if the text in
      front of it is idle. */
  lemma {:induction false} FoundExactlyBehindIdle<V>(junk: string, o: Value, tail: string, cast: Cast<V>)
    requires o.Object? && Valid(o) && cast(Text(o)).Some?
    ensures Place(junk + (Text(o) + tail), cast) == Some(|junk|) <==> Idle(junk, cast)
    decreases |junk|
  {
    var rest := Text(o) + tail;
    var s := junk + rest;
    if junk == "" {
      assert s == rest;
      ObjectIsInPlace(o, tail, cast);
    } else {
      hide Text, Valid;
      Split(junk, rest, 1);
      assert s[0] == junk[0];
      if junk[0] != '{' {
        FoundExactlyBehindIdle(junk[1..], o, tail, cast);
      } else {
        CloseIsLocal(junk[1..], rest, 1, false, false);
        hide Close;
        var n := Close(junk[1..], 1, false, false);
        if n.Some? {
          Split(junk, rest, 1 + n.value);
          FoundExactlyBehindIdle(junk[1 + n.value..], o, tail, cast);
        }
      }
    }
  }

  /** Trimming removes spaces at both ends and nothing else. */
  lemma {:induction false} TrimLeftSplits(s: string) returns (a: string)
    ensures s == a + TrimLeft(s) && (forall i :: 0 <= i < |a| ==> a[i] == ' ')
    ensures TrimLeft(s) != "" ==> TrimLeft(s)[0] != ' '
  {
    if s != "" && s[0] == ' ' {
      a := TrimLeftSplits(s[1..]);
      a := [' '] + a;
    } else {
      a := "";
    }
  }

  lemma {:induction false} TrimRightSplits(s: string) returns (b: string)
    ensures s == TrimRight(s) + b && (forall i :: 0 <= i < |b| ==> b[i] == ' ')
    ensures TrimRight(s) != "" ==> s != "" && TrimRight(s)[0] == s[0]
  {
    if s != "" && s[|s| - 1] == ' ' {
      b := TrimRightSplits(s[..|s| - 1]);
      assert s == s[..|s| - 1] + [' '];
      b := b + [' '];
    } else {
      b := "";
    }
  }

  lemma TrimSplits(s: string) returns (a: string, b: string)
    ensures s == a + (Trim(s) + b) && (forall i :: 0 <= i < |a| ==> a[i] == ' ')
  {
    a := TrimLeftSplits(s);
    b := TrimRightSplits(TrimLeft(s));
  }

  /** The whole-text fast path never disagrees with the scan. */
  lemma FastPathAgrees<V(!new)>(s: string, cast: Cast<V>)
    requires JsonCast(cast) && FastPath(s, cast).Some?
    ensures Scan(s, cast) == FastPath(s, cast)
  {
    hide Scan, Trim, Text, Valid, AcceptsOnlyJson, Idle;
    var t := Trim(s);
    var a, b := TrimSplits(s);
    assert '{' !in a;
    BraceFreeIsIdle(a, cast);
    var o, ws := AcceptedIsPrinted(t, cast);
    assert cast(t) == cast(Text(o));
    assert (Text(o) + ws) + b == Text(o) + (ws + b);
    ScanFindsObject(a, o, ws + b, cast);
  }

  /** So on every text that is not blank the extraction is the scan. */
  lemma ExtractIsScan<V(!new)>(s: string, cast: Cast<V>)
    requires JsonCast(cast)
    ensures Extract(Some(s), cast) == Scan(s, cast)
  {
    if Trim(s) == "" {
      var a, b := TrimSplits(s);
      BlankScan(s, a, b, cast);
    } else if FastPath(s, cast).Some? {
      FastPathAgrees(s, cast);
    }
  }

  lemma BlankScan<V>(s: string, a: string, b: string, cast: Cast<V>)
    requires Trim(s) == "" && s == a + ("" + b) && (forall i :: 0 <= i < |a| ==> a[i] == ' ')
    ensures Scan(s, cast) == None
  {
    var t := TrimLeft(s);
    var c := TrimLeftSplits(s);
    var d := TrimRightSplits(t);
    assert '{' !in s;
    BraceFreeIsIdle(s, cast);
    ScanSkipsIdle(s, "", cast);
    assert s + "" == s;
  }

  /** Any printed object the cast accepts is found behind any idle text, in particular any text without
      an opening brace, and before any tail. */
  lemma ExtractFindsObject<V(!new)>(junk: string, o: Value, tail: string, cast: Cast<V>)
    requires JsonCast(cast) && (Idle(junk, cast) || '{' !in junk) && o.Object? && Valid(o) && cast(Text(o)).Some?
    ensures Extract(Some(junk + Text(o) + tail), cast) == cast(Text(o))
  {
    hide Extract, Scan, Text, Valid, JsonCast;
    if '{' !in junk {
      BraceFreeIsIdle(junk, cast);
    }
    assert junk + Text(o) + tail == junk + (Text(o) + tail);
    ScanFindsObject(junk, o, tail, cast);
    ExtractIsScan(junk + Text(o) + tail, cast);
  }

  /** Where the candidate that opens at `k` ends. */
  function CandidateEnd(s: string, k: nat): (r: Option<nat>)
    requires k < |s|
    ensures r.Some? ==> k + 1 < r.value <= |s| && s[r.value - 1] == '}'
  {
    var n := Close(s[k + 1..], 1, false, false);
    if n.None? then None else Some(k + 1 + n.value)
  }

  /** At position `k` of the text, the scan and the place of what it returns. */
  lemma AtOther<V>(s: string, cast: Cast<V>, k: nat)
    requires k < |s| && s[k] != '{'
    ensures Scan(s[k..], cast) == Scan(s[k + 1..], cast) && Place(s[k..], cast) == Plus(1, Place(s[k + 1..], cast))
  {
    assert s[k..][1..] == s[k + 1..];
  }

  lemma AtUnclosed<V>(s: string, cast: Cast<V>, k: nat)
    requires k < |s| && s[k] == '{' && CandidateEnd(s, k).None?
    ensures Scan(s[k..], cast) == None
  {
    hide Close;
    assert s[k..][1..] == s[k + 1..];
  }

  lemma CandidateSlices(s: string, k: nat)
    requires k < |s| && CandidateEnd(s, k).Some?
    ensures var t, e := s[k..], CandidateEnd(s, k).value;
            && Close(t[1..], 1, false, false) == Some(e - k - 1)
            && t[..e - k] == s[k..e] && t[e - k..] == s[e..]
  {
    hide Close;
    assert s[k..][1..] == s[k + 1..];
  }

  lemma AtAccepted<V>(s: string, cast: Cast<V>, k: nat)
    requires k < |s| && s[k] == '{' && CandidateEnd(s, k).Some? && cast(s[k..CandidateEnd(s, k).value]).Some?
    ensures Scan(s[k..], cast) == cast(s[k..CandidateEnd(s, k).value]) && Place(s[k..], cast) == Some(0)
  {
    CandidateSlices(s, k);
    hide Close, CandidateEnd;
    assert s[k..][0] == '{';
  }

  lemma AtRejected<V>(s: string, cast: Cast<V>, k: nat)
    requires k < |s| && s[k] == '{' && CandidateEnd(s, k).Some? && cast(s[k..CandidateEnd(s, k).value]).None?
    ensures var e := CandidateEnd(s, k).value;
            Scan(s[k..], cast) == Scan(s[e..], cast) && Place(s[k..], cast) == Plus(e - k, Place(s[e..], cast))
  {
    CandidateSlices(s, k);
    hide Close, CandidateEnd;
    assert s[k..][0] == '{';
  }

  lemma {:induction false} PieceFrom<V>(s: string, cast: Cast<V>, k: nat) returns (i: nat, j: nat)
    requires k <= |s| && Scan(s[k..], cast).Some?
    ensures k <= i < j <= |s| && s[i] == '{' && s[j - 1] == '}' && cast(s[i..j]) == Scan(s[k..], cast)
    ensures Place(s[k..], cast) == Some(i - k)
    decreases |s| - k
  {
    hide Scan, Place, Close, CandidateEnd;
    if k == |s| {
      ScanOfNothing(cast);
      assert false;
    } else if s[k] != '{' {
      AtOther(s, cast, k);
      i, j := PieceFrom(s, cast, k + 1);
    } else {
      var e := CandidateEnd(s, k);
      if e.None? {
        AtUnclosed(s, cast, k);
        assert false;
      } else if cast(s[k..e.value]).Some? {
        AtAccepted(s, cast, k);
        i, j := k, e.value;
      } else {
        AtRejected(s, cast, k);
        i, j := PieceFrom(s, cast, e.value);
      }
    }
  }

  lemma ScanOfNothing<V>(cast: Cast<V>)
    ensures Scan("", cast) == None
  {
  }

  /** Nothing is invented: what the scan returns is the cast of a piece of the text that starts with an
      opening and ends with a closing brace. */
  lemma ScanReturnsAPiece<V>(s: string, cast: Cast<V>) returns (i: nat, j: nat)
    requires Scan(s, cast).Some?
    ensures i < j <= |s| && s[i] == '{' && s[j - 1] == '}' && cast(s[i..j]) == Scan(s, cast)
    ensures Place(s, cast) == Some(i)
  {
    assert s[0..] == s;
    hide Scan, Place;
    i, j := PieceFrom(s, cast, 0);
  }

  /** Text in which a brace opened before it is never closed. */
  lemma NeverClosed(lead: string, v: Value)
    requires Blank(lead) && Valid(v)
    ensures Close(lead + Text(v), 1, false, false) == None
  {
    BlankIsBare(lead);
    BareIsTransparent(lead);
    ValueIsTransparent(v);
    hide Close, Text, Valid;
    TransparentConcat(lead, Text(v));
    var t := lead + Text(v);
    assert t + "" == t;
    NothingCloses();
    assert Close(t + "", 1, false, false) == Plus(|t|, Close("", 1, false, false));
  }

  lemma NothingCloses()
    ensures Close("", 1, false, false) == None
  {
  }

  /** The limit of the scan: behind an opening brace that is never closed, any object is hidden, though
      the cast would accept it. */
  lemma UnclosedBraceHides<V(!new)>(junk: string, lead: string, o: Value, cast: Cast<V>)
    requires JsonCast(cast) && Idle(junk, cast) && Blank(lead) && o.Object? && Valid(o)
    ensures Extract(Some(junk + ("{" + (lead + Text(o)))), cast) == None
    ensures cast(Text(o)).Some? ==> !Idle(junk + ("{" + lead), cast)
  {
    hide Text, Valid, JsonCast, Extract, Blank, Idle, Scan;
    var t := "{" + (lead + Text(o));
    UnclosedScan(lead, o, cast);
    ScanSkipsIdle(junk, t, cast);
    ExtractIsScan(junk + t, cast);
    if cast(Text(o)).Some? && Idle(junk + ("{" + lead), cast) {
      ScanFindsObject(junk + ("{" + lead), o, "", cast);
      Regroup(junk, lead, Text(o));
    }
  }

  lemma UnclosedScan<V>(lead: string, o: Value, cast: Cast<V>)
    requires Blank(lead) && Valid(o)
    ensures Scan("{" + (lead + Text(o)), cast) == None
  {
    NeverClosed(lead, o);
    hide Text, Valid, Close;
    assert ("{" + (lead + Text(o)))[1..] == lead + Text(o);
  }

  lemma Regroup(junk: string, lead: string, text: string)
    ensures junk + ("{" + lead) + (text + "") == junk + ("{" + (lead + text))
  {
  }

  const SAMPLE := Object("", Member("", [Plain('a')], "", "", Bare("1"), "", NoMember))

  /** For example in `{ {"a":1}`. */
  lemma HiddenSample<V(!new)>(cast: Cast<V>)
    requires JsonCast(cast)
    ensures Text(SAMPLE) == "{\"a\":1}" && Extract(Some("{ {\"a\":1}"), cast) == None
  {
    SampleText();
    assert Valid(SAMPLE) && Blank(" ") && Idle("", cast);
    hide Text, Valid, JsonCast, Extract, Idle;
    UnclosedBraceHides("", " ", SAMPLE, cast);
    assert "" + ("{" + (" " + "{\"a\":1}")) == "{ {\"a\":1}";
  }

  lemma SampleText()
    ensures Text(SAMPLE) == "{\"a\":1}"
  {
    assert CharsText([Plain('a')]) == "a" by { assert [Plain('a')][1..] == []; }
    assert Quoted([Plain('a')]) == "\"a\"";
  }
}
