/** `analyze_dump`: what a statement touches, read off the text of its parse tree by searching it for
    a few fixed strings. */
module DumpReader {
  import opened Tables
  import opened Tokens
  import opened NodeDump

  const RAWSTMT := "{RAWSTMT"
  const STMT := ":stmt {"
  const RANGEVAR := "{RANGEVAR "
  const CTENAME := ":ctename "
  const FUNCNAME := ":funcname ("
  const INTO := ":intoClause {"
  const INSERT := "{INSERTSTMT"
  const UPDATE := "{UPDATESTMT"
  const DELETE := "{DELETESTMT"
  const MERGE := "{MERGESTMT"

  datatype Qualified = Qualified(schema: Option<string>, name: string)

  datatype Report =
    | Unparseable
    | Parsed(statements: nat, select: bool, writes: bool,
             relations: seq<Qualified>, functions: seq<Qualified>, ctes: seq<string>)

  // ---------------------------------------------------------------------------------------------
  // Searching
  // ---------------------------------------------------------------------------------------------

  /** `str::find` */
  function Find(t: string, needle: string): (r: Option<nat>)
    ensures r.Some? ==> r.value + |needle| <= |t| && StartsWith(t[r.value..], needle)
  {
    if StartsWith(t, needle) then assert t[0..] == t; Some(0)
    else if t == "" then None
    else
      var r := Find(t[1..], needle);
      if r.None? then None
      else
        assert t[1..][r.value..] == t[r.value + 1..];
        Some(r.value + 1)
  }

  function FieldOf(body: string, name: string): Option<string> {
    var needle := ":" + (name + " ");
    var p := Find(body, needle);
    if p.None? then None else ReadToken(body[p.value + |needle|..]).0
  }

  function ReadIdent(t: string): string {
    if t == "" || !WordChar(t[0]) then "" else [t[0]] + ReadIdent(t[1..])
  }

  /** Everything found behind the occurrences of `needle`, in order. */
  function Collect<T>(needle: string, entry: string -> seq<T>, t: string): seq<T> {
    if t == "" then [] else Here(needle, entry, t) + Collect(needle, entry, t[1..])
  }

  function Here<T>(needle: string, entry: string -> seq<T>, t: string): seq<T> {
    if StartsWith(t, needle) then entry(t[|needle|..]) else []
  }

  /** A statement's tag, from the text after `{RAWSTMT`. */
  function StatementAt(t: string): seq<string> {
    var body := t[..BodyEnd(t, 0, '{', '}')];
    var q := Find(body, STMT);
    if q.None? then [] else [ReadIdent(body[q.value + |STMT|..])]
  }

  function RelationAt(t: string): seq<Qualified> {
    var body := t[..BodyEnd(t, 0, '{', '}')];
    var name := FieldOf(body, "relname");
    if name.None? then [] else [Qualified(FieldOf(body, "schemaname"), name.value)]
  }

  function CteAt(t: string): seq<string> {
    var name := ReadToken(t).0;
    if name.None? then [] else [name.value]
  }

  function FunctionAt(t: string): seq<Qualified> {
    LastTwo(QuotedAll(t[..BodyEnd(t, 0, '(', ')')]))
  }

  /** The last part is the name and the one before it, if any, the schema. */
  function LastTwo(parts: seq<string>): seq<Qualified> {
    var n := |parts|;
    if n == 0 then [] else [Qualified(if n == 1 then None else Some(parts[n - 2]), parts[n - 1])]
  }

  function Present(t: string): seq<bool> {
    [true]
  }

  predicate Contains(t: string, needle: string) {
    Find(t, needle).Some?
  }

  predicate Writes(dump: string) {
    || Contains(dump, INTO)
    || Contains(dump, INSERT) || Contains(dump, UPDATE) || Contains(dump, DELETE) || Contains(dump, MERGE)
  }

  function Analyze(dump: string): Report {
    if dump == "" then Unparseable
    else
      var kinds := Collect(RAWSTMT, StatementAt, dump);
      Parsed(|kinds|, kinds == ["SELECTSTMT"], Writes(dump),
             Collect(RANGEVAR, RelationAt, dump), Collect(FUNCNAME, FunctionAt, dump), Collect(CTENAME, CteAt, dump))
  }

  // ---------------------------------------------------------------------------------------------
  // The loops
  // ---------------------------------------------------------------------------------------------

  /** An occurrence cannot start inside another one. */
  predicate Distinctive(needle: string) {
    needle != "" && forall i :: 1 <= i < |needle| ==> needle[i] != needle[0]
  }

  lemma NeedlesAreDistinctive()
    ensures Distinctive(RAWSTMT) && Distinctive(RANGEVAR) && Distinctive(CTENAME) && Distinctive(FUNCNAME)
  {
  }

  lemma CollectMiss<T>(needle: string, entry: string -> seq<T>, t: string)
    requires t != "" && !StartsWith(t, needle)
    ensures Collect(needle, entry, t) == Collect(needle, entry, t[1..])
  {
  }

  lemma CollectEmpty<T>(needle: string, entry: string -> seq<T>)
    ensures Collect(needle, entry, "") == []
  {
  }

  lemma SliceOf(t: string, i: nat, k: nat)
    requires i <= |t| && k <= |t| - i
    ensures t[i..][k..] == t[i + k..]
  {
  }

  lemma CollectHit<T>(needle: string, entry: string -> seq<T>, t: string)
    requires Distinctive(needle) && StartsWith(t, needle)
    ensures Collect(needle, entry, t) == entry(t[|needle|..]) + Collect(needle, entry, t[|needle|..])
  {
    CollectInside(needle, entry, t, 1);
  }

  lemma {:induction false} CollectInside<T>(needle: string, entry: string -> seq<T>, t: string, i: nat)
    requires Distinctive(needle) && StartsWith(t, needle) && 1 <= i <= |needle|
    ensures Collect(needle, entry, t[i..]) == Collect(needle, entry, t[|needle|..])
    decreases |needle| - i
  {
    if i < |needle| {
      assert t[i..][0] == needle[i] && t[i..][1..] == t[i + 1..];
      CollectInside(needle, entry, t, i + 1);
    }
  }

  /** What is collected at an occurrence that ends at `k`, and behind it. */
  function Behind<T>(needle: string, entry: string -> seq<T>, t: string, k: nat): seq<T>
    requires k <= |t|
  {
    entry(t[k..]) + Collect(needle, entry, t[k..])
  }

  lemma BehindSlice<T>(needle: string, entry: string -> seq<T>, t: string, i: nat, k: nat)
    requires i <= |t| && k <= |t| - i
    ensures Behind(needle, entry, t[i..], k) == Behind(needle, entry, t, i + k)
  {
    SliceOf(t, i, k);
  }

  /** Jumping from one occurrence to behind it misses nothing. */
  lemma {:induction false} CollectNext<T>(needle: string, entry: string -> seq<T>, t: string)
    requires Distinctive(needle)
    ensures Find(t, needle).None? ==> Collect(needle, entry, t) == []
    ensures Find(t, needle).Some? ==> Collect(needle, entry, t) == Behind(needle, entry, t, Find(t, needle).value + |needle|)
  {
    hide Collect, Find, StartsWith;
    assert needle != "";
    FindStep(t, needle);
    if StartsWith(t, needle) {
      CollectHit(needle, entry, t);
    } else if t == "" {
      CollectEmpty(needle, entry);
    } else {
      hide Distinctive, Behind;
      CollectNext(needle, entry, t[1..]);
      CollectMiss(needle, entry, t);
      var r := Find(t[1..], needle);
      if r.Some? {
        BehindSlice(needle, entry, t, 1, r.value + |needle|);
      }
    }
  }

  lemma FindStep(t: string, needle: string)
    requires needle != ""
    ensures StartsWith(t, needle) ==> Find(t, needle) == Some(0)
    ensures !StartsWith(t, needle) && t == "" ==> Find(t, needle) == None
    ensures !StartsWith(t, needle) && t != "" ==>
      Find(t, needle) == if Find(t[1..], needle).None? then None else Some(Find(t[1..], needle).value + 1)
  {
  }

  /** The same, from an index on. */
  lemma CollectFrom<T>(needle: string, entry: string -> seq<T>, t: string, i: nat, found: seq<T>)
    requires Distinctive(needle) && i <= |t| && Collect(needle, entry, t) == found + Collect(needle, entry, t[i..])
    ensures match Find(t[i..], needle)
            case None => Collect(needle, entry, t) == found
            case Some(p) =>
              var j := i + p + |needle|;
              j <= |t| && Collect(needle, entry, t) == found + entry(t[j..]) + Collect(needle, entry, t[j..])
  {
    hide *;
    CollectNext(needle, entry, t[i..]);
    match Find(t[i..], needle)
    case None =>
    case Some(p) =>
      BehindSlice(needle, entry, t, i, p + |needle|);
      BehindFound(needle, entry, t, i + p + |needle|, found);
  }

  lemma BehindFound<T>(needle: string, entry: string -> seq<T>, t: string, j: nat, found: seq<T>)
    requires j <= |t|
    ensures found + Behind(needle, entry, t, j) == found + entry(t[j..]) + Collect(needle, entry, t[j..])
  {
    hide Collect;
  }

  lemma CollectWhole<T>(needle: string, entry: string -> seq<T>, t: string)
    ensures Collect(needle, entry, t) == [] + Collect(needle, entry, t[0..])
  {
    assert t[0..] == t;
  }

  method ReadStatement(t: string) returns (tags: seq<string>)
    ensures tags == StatementAt(t)
  {
    var body := NodeBody(t);
    var q := Find(body, STMT);
    tags := [];
    if q.Some? {
      tags := [ReadIdent(body[q.value + |STMT|..])];
    }
  }

  method StatementTags(dump: string) returns (kinds: seq<string>)
    ensures kinds == Collect(RAWSTMT, StatementAt, dump)
  {
    kinds := [];
    var idx := 0;
    CollectWhole(RAWSTMT, StatementAt, dump);
    NeedlesAreDistinctive();
    hide *;
    while true
      invariant idx <= |dump|
      invariant Collect(RAWSTMT, StatementAt, dump) == kinds + Collect(RAWSTMT, StatementAt, dump[idx..])
      decreases |dump| - idx
    {
      CollectFrom(RAWSTMT, StatementAt, dump, idx, kinds);
      var p := Find(dump[idx..], RAWSTMT);
      if p.None? {
        break;
      }
      var start := idx + p.value + |RAWSTMT|;
      var tags := ReadStatement(dump[start..]);
      kinds := kinds + tags;
      idx := start;
    }
  }

  method ReadField(body: string, name: string) returns (value: Option<string>)
    ensures value == FieldOf(body, name)
  {
    var needle := ":" + (name + " ");
    var p := Find(body, needle);
    if p.None? {
      return None;
    }
    var n;
    value, n := ReadTokenBytes(body[p.value + |needle|..]);
  }

  method ReadRelation(t: string) returns (found: seq<Qualified>)
    ensures found == RelationAt(t)
  {
    var body := NodeBody(t);
    var name := ReadField(body, "relname");
    found := [];
    if name.Some? {
      var schema := ReadField(body, "schemaname");
      found := [Qualified(schema, name.value)];
    }
  }

  method Relations(dump: string) returns (relations: seq<Qualified>)
    ensures relations == Collect(RANGEVAR, RelationAt, dump)
  {
    relations := [];
    var idx := 0;
    CollectWhole(RANGEVAR, RelationAt, dump);
    NeedlesAreDistinctive();
    hide *;
    while true
      invariant idx <= |dump|
      invariant Collect(RANGEVAR, RelationAt, dump) == relations + Collect(RANGEVAR, RelationAt, dump[idx..])
      decreases |dump| - idx
    {
      CollectFrom(RANGEVAR, RelationAt, dump, idx, relations);
      var p := Find(dump[idx..], RANGEVAR);
      if p.None? {
        break;
      }
      var start := idx + p.value + |RANGEVAR|;
      var found := ReadRelation(dump[start..]);
      relations := relations + found;
      idx := start;
    }
  }

  method ReadCte(t: string) returns (found: seq<string>)
    ensures found == CteAt(t)
  {
    var name, n := ReadTokenBytes(t);
    found := [];
    if name.Some? {
      found := [name.value];
    }
  }

  method CteNames(dump: string) returns (ctes: seq<string>)
    ensures ctes == Collect(CTENAME, CteAt, dump)
  {
    ctes := [];
    var idx := 0;
    CollectWhole(CTENAME, CteAt, dump);
    NeedlesAreDistinctive();
    hide *;
    while true
      invariant idx <= |dump|
      invariant Collect(CTENAME, CteAt, dump) == ctes + Collect(CTENAME, CteAt, dump[idx..])
      decreases |dump| - idx
    {
      CollectFrom(CTENAME, CteAt, dump, idx, ctes);
      var p := Find(dump[idx..], CTENAME);
      if p.None? {
        break;
      }
      var start := idx + p.value + |CTENAME|;
      var found := ReadCte(dump[start..]);
      ctes := ctes + found;
      idx := start;
    }
  }

  method ReadFunction(t: string) returns (found: seq<Qualified>)
    ensures found == FunctionAt(t)
  {
    var body := ParenBody(t);
    var parts := QuotedStrings(body);
    found := [];
    if |parts| > 0 {
      var schema := None;
      if |parts| > 1 {
        schema := Some(parts[|parts| - 2]);
      }
      found := [Qualified(schema, parts[|parts| - 1])];
    }
  }

  method FunctionNames(dump: string) returns (functions: seq<Qualified>)
    ensures functions == Collect(FUNCNAME, FunctionAt, dump)
  {
    functions := [];
    var idx := 0;
    CollectWhole(FUNCNAME, FunctionAt, dump);
    NeedlesAreDistinctive();
    hide *;
    while true
      invariant idx <= |dump|
      invariant Collect(FUNCNAME, FunctionAt, dump) == functions + Collect(FUNCNAME, FunctionAt, dump[idx..])
      decreases |dump| - idx
    {
      CollectFrom(FUNCNAME, FunctionAt, dump, idx, functions);
      var p := Find(dump[idx..], FUNCNAME);
      if p.None? {
        break;
      }
      var start := idx + p.value + |FUNCNAME|;
      var found := ReadFunction(dump[start..]);
      functions := functions + found;
      idx := start;
    }
  }

  method AnalyzeDump(dump: string) returns (r: Report)
    ensures r == Analyze(dump)
  {
    if dump == "" {
      return Unparseable;
    }
    var kinds := StatementTags(dump);
    var relations := Relations(dump);
    var ctes := CteNames(dump);
    var functions := FunctionNames(dump);
    r := Parsed(|kinds|, |kinds| == 1 && kinds[0] == "SELECTSTMT", Writes(dump), relations, functions, ctes);
  }
}
