/** `dollar_quote`: wrapping a function body so that the SQL lexer gives back exactly that body. */
module DollarQuote {
  import opened Tables

  predicate At(s: string, i: nat, t: string) {
    i + |t| <= |s| && forall k :: 0 <= k < |t| ==> s[i + k] == t[k]
  }

  /** `str::contains` */
  predicate Contains(s: string, t: string) {
    exists i: nat :: i <= |s| && At(s, i, t)
  }

  function Delimiter(tag: string): string {
    "$" + tag + "$"
  }

  // ---------------------------------------------------------------------------------------------
  // The lexer
  // ---------------------------------------------------------------------------------------------

  /** `dolq_start` and `dolq_cont` of PostgreSQL's scanner. */
  predicate TagStart(c: char) {
    'A' <= c <= 'Z' || 'a' <= c <= 'z' || c == '_' || c as int >= 0x80
  }

  predicate TagChar(c: char) {
    TagStart(c) || '0' <= c <= '9'
  }

  predicate ValidTag(tag: string) {
    (tag != "" ==> TagStart(tag[0])) && forall i :: 0 <= i < |tag| ==> TagChar(tag[i])
  }

  function RunLength(s: string): (n: nat)
    ensures n <= |s| && (forall i :: 0 <= i < n ==> TagChar(s[i])) && (n < |s| ==> !TagChar(s[n]))
  {
    if s == "" || !TagChar(s[0]) then 0 else 1 + RunLength(s[1..])
  }

  /** The tag, possibly empty, that starts right after a dollar sign. */
  function TagLength(s: string): (n: nat)
    ensures n <= RunLength(s)
  {
    if s != "" && TagStart(s[0]) then RunLength(s) else 0
  }

  /** Where the quoted text ends: at a delimiter equal to the opening one. Another delimiter is passed
      over up to its closing dollar sign, which may open the next. */
  function EndOfQuote(s: string, tag: string): (r: Option<nat>)
    ensures r.Some? ==> r.value <= |s|
    decreases |s|
  {
    if s == "" then None
    else if s[0] != '$' then Shift(1, EndOfQuote(s[1..], tag))
    else
      var n := TagLength(s[1..]);
      if n + 1 < |s| && s[n + 1] == '$' && s[1..n + 1] == tag then Some(0)
      else Shift(n + 1, EndOfQuote(s[n + 1..], tag))
  }

  function Shift(n: nat, r: Option<nat>): Option<nat> {
    if r.Some? then Some(n + r.value) else None
  }

  /** What the lexer reads from a text that opens with `$tag$`: the quoted text and what follows. */
  function ReadQuoted(s: string, tag: string): Option<(string, string)>
    requires At(s, 0, Delimiter(tag))
  {
    var open := |tag| + 2;
    var n := EndOfQuote(s[open..], tag);
    if n.None? || open + n.value + open > |s| then None
    else Some((s[open..open + n.value], s[open + n.value + open..]))
  }

  // ---------------------------------------------------------------------------------------------
  // The tag
  // ---------------------------------------------------------------------------------------------

  function Longer(tag: string, n: nat): string {
    if n == 0 then tag else Longer(tag, n - 1) + "x"
  }

  /** `stamp` is the clock reading in hexadecimal. The loop ends because a delimiter longer than the
      body cannot occur in it; the tag is the first that does not. */
  method Quote(body: string, stamp: string) returns (tag: string, quoted: string)
    requires forall i :: 0 <= i < |stamp| ==> '0' <= stamp[i] <= '9' || 'a' <= stamp[i] <= 'f'
    ensures !Contains(body, Delimiter(tag)) && ValidTag(tag)
    ensures exists n: nat :: tag == Longer("body_" + stamp, n) &&
                             forall k: nat :: k < n ==> Contains(body, Delimiter(Longer("body_" + stamp, k)))
    ensures quoted == Delimiter(tag) + "\n" + body + "\n" + Delimiter(tag)
  {
    tag := "body_" + stamp;
    ghost var n: nat := 0;
    while Contains(body, Delimiter(tag))
      invariant ValidTag(tag)
      invariant tag == Longer("body_" + stamp, n)
      invariant forall k: nat :: k < n ==> Contains(body, Delimiter(Longer("body_" + stamp, k)))
      decreases |body| - |tag|
    {
      tag := tag + "x";
      n := n + 1;
    }
    quoted := Delimiter(tag) + "\n" + body + "\n" + Delimiter(tag);
  }

  // ---------------------------------------------------------------------------------------------
  // The lexer stops at the first occurrence
  // ---------------------------------------------------------------------------------------------

  /** A delimiter that starts here is exactly what the lexer tries here. */
  lemma TagLengthOfDelimiter(s: string, tag: string)
    requires ValidTag(tag) && At(s, 0, Delimiter(tag))
    ensures TagLength(s[1..]) == |tag| && s[|tag| + 1] == '$' && s[1..|tag| + 1] == tag
  {
    var d := Delimiter(tag);
    forall i | 0 <= i < |tag| ensures s[i + 1] == tag[i] {
      assert s[0 + (i + 1)] == d[i + 1];
    }
    assert s[0 + (|tag| + 1)] == d[|tag| + 1] == '$';
    assert s[1..][|tag|] == '$' && !TagChar('$');
    forall i | 0 <= i < |tag| ensures TagChar(s[1..][i]) {
      assert TagChar(tag[i]);
    }
    assert tag != "" ==> s[1..][0] == tag[0];
  }

  lemma ShiftAt(s: string, step: nat, i: nat, d: string)
    requires step <= |s|
    ensures At(s[step..], i, d) <==> At(s, step + i, d)
  {
    forall m | 0 <= m < |s| - step ensures s[step..][m] == s[step + m] { }
  }

  /** No delimiter starts on one of the characters the lexer passes over. */
  lemma NothingSkipped(s: string, tag: string, step: nat, j: nat)
    requires ValidTag(tag) && s != "" && j < step
    requires step == if s[0] == '$' then TagLength(s[1..]) + 1 else 1
    requires !(s[0] == '$' && step < |s| && s[step] == '$' && s[1..step] == tag)
    ensures !At(s, j, Delimiter(tag))
  {
    var d := Delimiter(tag);
    assert d[0] == '$';
    if j == 0 {
      if At(s, 0, d) {
        assert s[0 + 0] == d[0];
        TagLengthOfDelimiter(s, tag);
      }
    } else {
      assert s[1..][j - 1] == s[j + 0] && TagChar(s[j]) && s[j + 0] != d[0];
    }
  }

  lemma {:induction false} EndIsFirst(s: string, tag: string)
    requires ValidTag(tag)
    ensures match EndOfQuote(s, tag)
            case None => forall j: nat :: !At(s, j, Delimiter(tag))
            case Some(i) => At(s, i, Delimiter(tag)) && forall j: nat :: j < i ==> !At(s, j, Delimiter(tag))
    decreases |s|
  {
    var d := Delimiter(tag);
    if s != "" {
      var n := TagLength(s[1..]);
      var step := if s[0] == '$' then n + 1 else 1;
      if s[0] == '$' && n + 1 < |s| && s[n + 1] == '$' && s[1..n + 1] == tag {
        forall k | 0 <= k < |d| ensures s[0 + k] == d[k] {
          if 1 <= k <= n { assert s[1..n + 1][k - 1] == s[k]; }
        }
      } else {
        EndIsFirst(s[step..], tag);
        hide EndOfQuote;
        forall j: nat | j < step ensures !At(s, j, d) {
          NothingSkipped(s, tag, step, j);
        }
        forall i: nat ensures At(s[step..], i, d) <==> At(s, step + i, d) {
          ShiftAt(s, step, i, d);
        }
        Reindex(s, step, d);
      }
    }
  }

  /** Occurrences from `step` on, told by their position in the whole text. */
  lemma Reindex(s: string, step: nat, d: string)
    requires step <= |s|
    ensures forall j: nat :: j >= step ==> (At(s, j, d) <==> At(s[step..], j - step, d))
  {
    forall j: nat | j >= step ensures At(s, j, d) <==> At(s[step..], j - step, d) {
      ShiftAt(s, step, j - step, d);
    }
  }

  /** In `newline body newline $tag$ tail` the closing delimiter is the first one. */
  lemma FirstIsLast(body: string, tag: string, tail: string)
    requires ValidTag(tag) && !Contains(body, Delimiter(tag))
    ensures var s := "\n" + body + "\n" + Delimiter(tag) + tail;
            At(s, |body| + 2, Delimiter(tag)) && forall j: nat :: j < |body| + 2 ==> !At(s, j, Delimiter(tag))
  {
    var d := Delimiter(tag);
    var s := "\n" + body + "\n" + d + tail;
    forall k | 0 <= k < |d| ensures d[k] != '\n' { }
    forall j: nat | j < |body| + 2 ensures !At(s, j, d) {
      if j == 0 {
        assert s[0 + 0] == '\n' != d[0];
      } else if j + |d| <= |body| + 1 {
        assert !At(body, j - 1, d);
        var k :| 0 <= k < |d| && body[j - 1 + k] != d[k];
        assert s[j + k] == body[j - 1 + k];
      } else {
        var k := |body| + 1 - j;
        assert s[j + k] == '\n' != d[k];
      }
    }
  }

  /** The lexer recovers newline, body, newline verbatim, whatever the body contains and whatever
      follows the quoted text. */
  lemma QuoteRoundTrip(body: string, tag: string, tail: string)
    requires ValidTag(tag) && !Contains(body, Delimiter(tag))
    ensures var s := Delimiter(tag) + "\n" + body + "\n" + Delimiter(tag) + tail;
            At(s, 0, Delimiter(tag)) && ReadQuoted(s, tag) == Some(("\n" + body + "\n", tail))
  {
    var d := Delimiter(tag);
    var inner := "\n" + body + "\n" + d + tail;
    var s := d + "\n" + body + "\n" + d + tail;
    assert s[|d|..] == inner;
    FirstIsLast(body, tag, tail);
    EndIsFirst(inner, tag);
    hide EndOfQuote, At;
    assert EndOfQuote(inner, tag) == Some(|body| + 2) by {
      EndIsAt(inner, tag, |body| + 2);
    }
    assert s[|d|..|d| + (|body| + 2)] == "\n" + body + "\n";
    assert s[|d| + (|body| + 2) + |d|..] == tail;
  }

  lemma EndIsAt(s: string, tag: string, i: nat)
    requires ValidTag(tag) && At(s, i, Delimiter(tag)) && forall j: nat :: j < i ==> !At(s, j, Delimiter(tag))
    ensures EndOfQuote(s, tag) == Some(i)
  {
    EndIsFirst(s, tag);
  }
}
