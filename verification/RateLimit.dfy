/** The dashboard's per-address rate limits: two sliding windows whose lists are pruned as they are
    used. Times are in seconds on a clock that never goes back. */
module RateLimit {
  import opened Tables

  type Address = nat

  const GENERAL_LIMIT := 120
  const GENERAL_WINDOW := 60
  const AUTH_FAIL_LIMIT := 20
  const AUTH_FAIL_WINDOW := 300

  datatype Hit = Hit(ip: Address, time: int)

  /** The entries that `retain` keeps: those younger than the window. */
  function Recent(times: seq<int>, now: int, window: int): seq<int> {
    if times == [] then []
    else
      var n := |times| - 1;
      var older := Recent(times[..n], now, window);
      if now - times[n] < window then older + [times[n]] else older
  }

  /** The whole history of one address. */
  function TimesOf(history: seq<Hit>, ip: Address): seq<int> {
    if history == [] then []
    else
      var n := |history| - 1;
      var older := TimesOf(history[..n], ip);
      if history[n].ip == ip then older + [history[n].time] else older
  }

  /** The decision a limiter makes that never forgets anything. */
  predicate Allowed(history: seq<Hit>, ip: Address, now: int, window: int, limit: nat) {
    |Recent(TimesOf(history, ip), now, window)| < limit
  }

  function Admit(history: seq<Hit>, ip: Address, now: int, window: int, limit: nat): seq<Hit> {
    if Allowed(history, ip, now, window, limit) then history + [Hit(ip, now)] else history
  }

  // ---------------------------------------------------------------------------------------------
  // Pruning
  // ---------------------------------------------------------------------------------------------

  lemma {:induction false} RecentConcat(a: seq<int>, b: seq<int>, now: int, window: int)
    ensures Recent(a + b, now, window) == Recent(a, now, window) + Recent(b, now, window)
  {
    if b == [] {
      assert a + b == a;
    } else {
      var n := |b| - 1;
      assert (a + b)[..|a + b| - 1] == a + b[..n];
      RecentConcat(a, b[..n], now, window);
    }
  }

  lemma RecentOne(t: int, now: int, window: int)
    ensures Recent([t], now, window) == if now - t < window then [t] else []
  {
    assert [t][..0] == [];
  }

  /** What was pruned earlier would be pruned now. */
  lemma {:induction false} RecentOfRecent(times: seq<int>, before: int, now: int, window: int)
    requires before <= now
    ensures Recent(Recent(times, before, window), now, window) == Recent(times, now, window)
  {
    if times != [] {
      var n := |times| - 1;
      RecentOfRecent(times[..n], before, now, window);
      if before - times[n] < window {
        RecentConcat(Recent(times[..n], before, window), [times[n]], now, window);
        RecentOne(times[n], now, window);
      }
    }
  }

  lemma TimesOfAppend(history: seq<Hit>, hit: Hit, ip: Address)
    ensures TimesOf(history + [hit], ip) == if hit.ip == ip then TimesOf(history, ip) + [hit.time] else TimesOf(history, ip)
  {
    assert (history + [hit])[..|history|] == history;
  }

  // ---------------------------------------------------------------------------------------------
  // No window holds more than the limit
  // ---------------------------------------------------------------------------------------------

  /** Every hit was admitted on what came before it. */
  ghost predicate Admitted(history: seq<Hit>, window: int, limit: nat) {
    && (forall i, j :: 0 <= i < j < |history| ==> history[i].time <= history[j].time)
    && (forall k :: 0 <= k < |history| ==> Allowed(history[..k], history[k].ip, history[k].time, window, limit))
  }

  lemma AdmitKeeps(history: seq<Hit>, ip: Address, now: int, window: int, limit: nat)
    requires Admitted(history, window, limit) && forall i :: 0 <= i < |history| ==> history[i].time <= now
    ensures Admitted(Admit(history, ip, now, window, limit), window, limit)
  {
    var next := history + [Hit(ip, now)];
    assert next[..|history|] == history;
    forall k | 0 <= k < |history| ensures next[..k] == history[..k] { }
  }

  /** Hits of one address in the half-open interval that starts at `from`. */
  function Within(ip: Address, from: int, window: int): Hit -> bool {
    (h: Hit) => h.ip == ip && from <= h.time < from + window
  }

  /** Seen from a time inside the interval, all its earlier hits are still recent. */
  lemma {:induction false} WithinIsRecent(history: seq<Hit>, ip: Address, from: int, window: int, now: int)
    requires from <= now < from + window
    ensures Count(history, Within(ip, from, window)) <= |Recent(TimesOf(history, ip), now, window)|
  {
    if history != [] {
      var n := |history| - 1;
      WithinIsRecent(history[..n], ip, from, window, now);
      if history[n].ip == ip {
        RecentConcat(TimesOf(history[..n], ip), [history[n].time], now, window);
        RecentOne(history[n].time, now, window);
      }
    }
  }

  lemma AdmittedPrefix(history: seq<Hit>, n: nat, window: int, limit: nat)
    requires Admitted(history, window, limit) && n <= |history|
    ensures Admitted(history[..n], window, limit)
  {
    hide Allowed;
    forall k | 0 <= k < n ensures history[..n][..k] == history[..k] { }
  }

  /** However a burst is placed, no interval of the window's length holds more than `limit` hits of one
      address. */
  lemma {:induction false} WindowBound(history: seq<Hit>, ip: Address, from: int, window: int, limit: nat)
    requires Admitted(history, window, limit)
    ensures Count(history, Within(ip, from, window)) <= limit
  {
    if history != [] {
      var n := |history| - 1;
      var last := history[n];
      AdmittedPrefix(history, n, window, limit);
      assert Allowed(history[..n], last.ip, last.time, window, limit);
      hide Admitted;
      WindowBound(history[..n], ip, from, window, limit);
      if Within(ip, from, window)(last) {
        WithinIsRecent(history[..n], ip, from, window, last.time);
      }
    }
  }

  // ---------------------------------------------------------------------------------------------
  // The shared state
  // ---------------------------------------------------------------------------------------------

  /** A table of pruned lists stands for a history: each list is the address's history as it was pruned
      when the address was last looked up, and an address without a list has nothing recent. */
  ghost predicate Stands(table: map<Address, seq<int>>, pruned: map<Address, int>, history: seq<Hit>, clock: int, window: int) {
    && table.Keys == pruned.Keys
    && (forall ip :: ip in table ==> pruned[ip] <= clock && table[ip] == Recent(TimesOf(history, ip), pruned[ip], window))
    && (forall ip :: ip !in table ==> Recent(TimesOf(history, ip), clock, window) == [])
  }

  /** Later, looking an address up gives the same as pruning its whole history. */
  lemma LookUp(table: map<Address, seq<int>>, pruned: map<Address, int>, history: seq<Hit>, clock: int, window: int, ip: Address, now: int)
    requires Stands(table, pruned, history, clock, window) && clock <= now
    ensures Recent(if ip in table then table[ip] else [], now, window) == Recent(TimesOf(history, ip), now, window)
  {
    RecentOfRecent(TimesOf(history, ip), if ip in table then pruned[ip] else clock, now, window);
  }

  method Retain(times: seq<int>, now: int, window: int) returns (kept: seq<int>)
    ensures kept == Recent(times, now, window)
  {
    kept := [];
    var i := 0;
    while i < |times|
      invariant i <= |times| && kept == Recent(times[..i], now, window)
    {
      assert times[..i + 1][..i] == times[..i];
      if now - times[i] < window {
        kept := kept + [times[i]];
      }
      i := i + 1;
    }
    assert times[..i] == times;
  }

  /** `map.retain(|_, v| !v.is_empty())` */
  function NonEmpty(table: map<Address, seq<int>>): (kept: map<Address, seq<int>>)
    ensures forall a :: a in kept <==> a in table && table[a] != []
    ensures forall a :: a in kept ==> kept[a] == table[a]
  {
    map a | a in table && table[a] != [] :: table[a]
  }

  ghost function PrunedOf(table: map<Address, seq<int>>, pruned: map<Address, int>): (kept: map<Address, int>)
    ensures forall a :: a in kept <==> a in pruned && a in NonEmpty(table)
    ensures forall a :: a in kept ==> kept[a] == pruned[a]
  {
    map a | a in pruned && a in NonEmpty(table) :: pruned[a]
  }

  /** Exactly the addresses that were ever accepted have a list, and no list is empty. */
  ghost predicate Listed(table: map<Address, seq<int>>, history: seq<Hit>) {
    && (forall a :: a in table <==> TimesOf(history, a) != [])
    && (forall a :: a in table ==> table[a] != [])
  }

  /** Then dropping empty lists drops nothing. */
  lemma NothingToDrop(table: map<Address, seq<int>>)
    requires forall a :: a in table ==> table[a] != []
    ensures NonEmpty(table) == table
  {
  }

  lemma ListedAccept(table: map<Address, seq<int>>, history: seq<Hit>, ip: Address, now: int, hits: seq<int>)
    requires Listed(table, history)
    ensures Listed(table[ip := hits + [now]], history + [Hit(ip, now)])
  {
    forall a ensures TimesOf(history + [Hit(ip, now)], a) == if a == ip then TimesOf(history, a) + [now] else TimesOf(history, a) {
      TimesOfAppend(history, Hit(ip, now), a);
    }
    hide TimesOf;
  }

  /** An address that is turned away has hits, so it was accepted before. */
  lemma ListedReject(table: map<Address, seq<int>>, history: seq<Hit>, ip: Address, now: int, window: int)
    requires Listed(table, history) && Recent(TimesOf(history, ip), now, window) != []
    ensures ip in table && Listed(table[ip := Recent(TimesOf(history, ip), now, window)], history)
  {
  }

  class RateWindows {
    var general: map<Address, seq<int>>
    var authFail: map<Address, seq<int>>

    /** History: everything ever admitted, every failed login, when each list was last pruned, and the
        latest clock reading. */
    ghost var accepted: seq<Hit>
    ghost var failures: seq<Hit>
    ghost var generalPruned: map<Address, int>
    ghost var authPruned: map<Address, int>
    ghost var clock: int

    ghost predicate Valid()
      reads this
    {
      && Stands(general, generalPruned, accepted, clock, GENERAL_WINDOW)
      && Stands(authFail, authPruned, failures, clock, AUTH_FAIL_WINDOW)
      && Listed(general, accepted)
      && Admitted(accepted, GENERAL_WINDOW, GENERAL_LIMIT)
      && (forall i :: 0 <= i < |accepted| ==> accepted[i].time <= clock)
    }

    constructor ()
      ensures Valid() && accepted == [] && failures == [] && general == map[] && authFail == map[] && clock == 0
    {
      general, authFail := map[], map[];
      accepted, failures, generalPruned, authPruned, clock := [], [], map[], map[], 0;
    }

    /** `rate_limited`: true means the request is rejected. The decision is the one the full history
        gives. */
    method RateLimited(ip: Address, now: int) returns (rejected: bool)
      requires Valid() && clock <= now
      modifies this
      ensures Valid() && clock == now
      ensures rejected == !Allowed(old(accepted), ip, now, GENERAL_WINDOW, GENERAL_LIMIT)
      ensures accepted == Admit(old(accepted), ip, now, GENERAL_WINDOW, GENERAL_LIMIT)
      ensures failures == old(failures)
      ensures general.Keys == old(general).Keys + {ip}
      ensures forall a :: a in old(general) && a != ip ==> general[a] == old(general)[a]
      ensures !rejected ==> general[ip] == Recent(TimesOf(old(accepted), ip), now, GENERAL_WINDOW) + [now]
    {
      hide Stands, Listed, Recent, TimesOf, Admitted, PrunedOf, NonEmpty;
      LookUp(general, generalPruned, accepted, clock, GENERAL_WINDOW, ip, now);
      AdmitKeeps(accepted, ip, now, GENERAL_WINDOW, GENERAL_LIMIT);
      Later(authFail, authPruned, failures, clock, AUTH_FAIL_WINDOW, now);
      var hits := Retain(if ip in general then general[ip] else [], now, GENERAL_WINDOW);
      if |hits| >= GENERAL_LIMIT {
        PruneOne(general, generalPruned, accepted, clock, GENERAL_WINDOW, ip, now);
        ListedReject(general, accepted, ip, now, GENERAL_WINDOW);
        general := general[ip := hits];
        generalPruned := generalPruned[ip := now];
        rejected := true;
      } else {
        Accepting(general, generalPruned, accepted, clock, GENERAL_WINDOW, ip, now);
        general := general[ip := hits + [now]];
        generalPruned := PrunedOf(general, generalPruned[ip := now]);
        accepted := accepted + [Hit(ip, now)];
        general := NonEmpty(general);
        rejected := false;
      }
      clock := now;
    }

    /** The lockout counts every failed login of the last five minutes, whether or not its list has been
        pruned since. */
    method AuthFailuresExceeded(ip: Address, now: int) returns (exceeded: bool)
      requires Valid() && clock <= now
      modifies this
      ensures Valid() && clock == now && accepted == old(accepted) && failures == old(failures)
      ensures exceeded <==> |Recent(TimesOf(failures, ip), now, AUTH_FAIL_WINDOW)| >= AUTH_FAIL_LIMIT
    {
      LookUp(authFail, authPruned, failures, clock, AUTH_FAIL_WINDOW, ip, now);
      Later(general, generalPruned, accepted, clock, GENERAL_WINDOW, now);
      PruneOne(authFail, authPruned, failures, clock, AUTH_FAIL_WINDOW, ip, now);
      var hits := Retain(if ip in authFail then authFail[ip] else [], now, AUTH_FAIL_WINDOW);
      authFail := authFail[ip := hits];
      authPruned := authPruned[ip := now];
      clock := now;
      exceeded := |hits| >= AUTH_FAIL_LIMIT;
    }

    /** Every listed address has a recent hit exactly when every address ever accepted has one: nothing
        else takes an address off the list. */
    lemma ListIsRecentExactly()
      requires Valid()
      ensures (forall a :: a in general ==> Recent(general[a], clock, GENERAL_WINDOW) != [])
              <==> (forall a :: TimesOf(accepted, a) != [] ==> Recent(TimesOf(accepted, a), clock, GENERAL_WINDOW) != [])
    {
      forall a | a in general
        ensures Recent(general[a], clock, GENERAL_WINDOW) == Recent(TimesOf(accepted, a), clock, GENERAL_WINDOW)
      {
        LookUp(general, generalPruned, accepted, clock, GENERAL_WINDOW, a, clock);
      }
      if a :| a in general && Recent(general[a], clock, GENERAL_WINDOW) == [] {
        assert TimesOf(accepted, a) != [] && Recent(TimesOf(accepted, a), clock, GENERAL_WINDOW) == [];
      }
      if a :| TimesOf(accepted, a) != [] && Recent(TimesOf(accepted, a), clock, GENERAL_WINDOW) == [] {
        assert a in general && Recent(general[a], clock, GENERAL_WINDOW) == [];
      }
    }

    /** No interval of one minute, wherever it starts, has more than 120 accepted requests of one
        address. */
    lemma NoBurst(ip: Address, from: int)
      requires Valid()
      ensures Count(accepted, Within(ip, from, GENERAL_WINDOW)) <= GENERAL_LIMIT
    {
      WindowBound(accepted, ip, from, GENERAL_WINDOW, GENERAL_LIMIT);
    }

    method RecordAuthFailure(ip: Address, now: int)
      requires Valid() && clock <= now
      modifies this
      ensures Valid() && clock == now && accepted == old(accepted)
      ensures failures == old(failures) + [Hit(ip, now)]
    {
      hide Stands, Recent, TimesOf, Admitted;
      Later(general, generalPruned, accepted, clock, GENERAL_WINDOW, now);
      Later(authFail, authPruned, failures, clock, AUTH_FAIL_WINDOW, now);
      EnterOne(authFail, authPruned, failures, now, AUTH_FAIL_WINDOW, ip);
      if ip !in authFail {
        authFail := authFail[ip := []];
        authPruned := authPruned[ip := now];
      }
      PushOne(authFail, authPruned, failures, now, AUTH_FAIL_WINDOW, ip);
      authFail := authFail[ip := authFail[ip] + [now]];
      failures := failures + [Hit(ip, now)];
      clock := now;
    }
  }

  lemma Later(table: map<Address, seq<int>>, pruned: map<Address, int>, history: seq<Hit>, clock: int, window: int, now: int)
    requires Stands(table, pruned, history, clock, window) && clock <= now
    ensures Stands(table, pruned, history, now, window)
  {
    forall ip | ip !in table ensures Recent(TimesOf(history, ip), now, window) == [] {
      RecentOfRecent(TimesOf(history, ip), clock, now, window);
    }
  }

  lemma PruneOne(table: map<Address, seq<int>>, pruned: map<Address, int>, history: seq<Hit>, clock: int, window: int, ip: Address, now: int)
    requires Stands(table, pruned, history, clock, window) && clock <= now
    ensures Stands(table[ip := Recent(if ip in table then table[ip] else [], now, window)], pruned[ip := now], history, now, window)
  {
    LookUp(table, pruned, history, clock, window, ip, now);
    Later(table, pruned, history, clock, window, now);
  }

  lemma EnterOne(table: map<Address, seq<int>>, pruned: map<Address, int>, history: seq<Hit>, now: int, window: int, ip: Address)
    requires Stands(table, pruned, history, now, window)
    ensures ip !in table ==> Stands(table[ip := []], pruned[ip := now], history, now, window)
  {
  }

  lemma PushOne(table: map<Address, seq<int>>, pruned: map<Address, int>, history: seq<Hit>, now: int, window: int, ip: Address)
    requires Stands(table, pruned, history, now, window) && ip in table && window > 0
    ensures Stands(table[ip := table[ip] + [now]], pruned, history + [Hit(ip, now)], now, window)
  {
    hide Recent, TimesOf;
    var next := history + [Hit(ip, now)];
    forall a ensures TimesOf(next, a) == if a == ip then TimesOf(history, a) + [now] else TimesOf(history, a) {
      TimesOfAppend(history, Hit(ip, now), a);
    }
    RecentConcat(TimesOf(history, ip), [now], pruned[ip], window);
    RecentOne(now, pruned[ip], window);
    var pushed := table[ip := table[ip] + [now]];
    forall a | a in pushed ensures pushed[a] == Recent(TimesOf(next, a), pruned[a], window) { }
  }

  lemma DropEmpty(table: map<Address, seq<int>>, pruned: map<Address, int>, history: seq<Hit>, now: int, window: int)
    requires Stands(table, pruned, history, now, window)
    ensures Stands(NonEmpty(table), PrunedOf(table, pruned), history, now, window)
  {
    forall ip | ip in table && table[ip] == [] ensures Recent(TimesOf(history, ip), now, window) == [] {
      RecentOfRecent(TimesOf(history, ip), pruned[ip], now, window);
    }
  }

  lemma AcceptOne(table: map<Address, seq<int>>, pruned: map<Address, int>, history: seq<Hit>, clock: int, window: int, ip: Address, now: int)
    requires Stands(table, pruned, history, clock, window) && clock <= now && window > 0
    ensures var hits := Recent(if ip in table then table[ip] else [], now, window);
            var pushed := table[ip := hits + [now]];
            Stands(NonEmpty(pushed), PrunedOf(pushed, pruned[ip := now]), history + [Hit(ip, now)], now, window)
  {
    hide Stands, Recent, TimesOf, NonEmpty, PrunedOf;
    var hits := Recent(if ip in table then table[ip] else [], now, window);
    PruneOne(table, pruned, history, clock, window, ip, now);
    PushOne(table[ip := hits], pruned[ip := now], history, now, window, ip);
    assert table[ip := hits][ip := hits + [now]] == table[ip := hits + [now]];
    DropEmpty(table[ip := hits + [now]], pruned[ip := now], history + [Hit(ip, now)], now, window);
  }

  lemma Accepting(table: map<Address, seq<int>>, pruned: map<Address, int>, history: seq<Hit>, clock: int, window: int, ip: Address, now: int)
    requires Stands(table, pruned, history, clock, window) && Listed(table, history) && clock <= now && window > 0
    ensures var hits := Recent(if ip in table then table[ip] else [], now, window);
            var pushed := table[ip := hits + [now]];
            && NonEmpty(pushed) == pushed
            && Stands(pushed, PrunedOf(pushed, pruned[ip := now]), history + [Hit(ip, now)], now, window)
            && Listed(pushed, history + [Hit(ip, now)])
  {
    hide Stands, Recent, TimesOf, PrunedOf, NonEmpty;
    var hits := Recent(if ip in table then table[ip] else [], now, window);
    AcceptOne(table, pruned, history, clock, window, ip, now);
    ListedAccept(table, history, ip, now, hits);
    NothingToDrop(table[ip := hits + [now]]);
  }

  /** Only empty lists are dropped, and only the caller's own list is pruned, so an address that never
      comes back keeps its list after everything in it has left the window. */
  method StaleAddressKeepsItsList() returns (w: RateWindows)
    ensures fresh(w) && w.Valid()
    ensures 1 in w.general && Recent(w.general[1], w.clock, GENERAL_WINDOW) == []
  {
    w := new RateWindows();
    var first := w.RateLimited(1, 0);
    assert w.general[1] == [0] && w.accepted == [Hit(1, 0)];
    var second := w.RateLimited(2, 1000);
    assert [Hit(1, 0)][..0] == [];
    assert w.general[1] == [0];
    RecentOne(0, 1000, GENERAL_WINDOW);
  }
}
