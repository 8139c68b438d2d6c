/** The runtime worker's HTTP side: one loop that claims calls and harvests results, and a pool of
    threads it talks to over two channels. The pool may move at any point between two steps of the
    loop; what it does there is an input. */
module Worker {
  import opened Transactions

  const HTTP_THREADS := 4
  const CAPACITY := HTTP_THREADS * 2
  const PUMP_BUSY := 150
  const PUMP_IDLE_MIN := 500
  const PUMP_IDLE_MAX := 4000

  /** The queue a call was claimed from, and to which its result goes back. */
  datatype Source = OutboundCalls | OauthCalls | EmbeddingCalls | ProviderProbes

  datatype Job = Job(id: nat, source: Source)

  /** A pool thread takes the next job off the channel, or sends the result of the one it has. */
  datatype PoolStep = Take | Finish(thread: nat)

  /** A claimed row: `valid` when its id is a well-formed one, `sendFails` when the job channel is
      closed by then. */
  datatype Claim = Claim(id: nat, valid: bool, sendFails: bool)

  type Schedule = nat -> seq<PoolStep>

  /** The first claim whose job cannot be sent because the channel is closed, or the end. */
  function FirstClosed(claims: seq<Claim>): (n: nat)
    ensures n <= |claims| && (n < |claims| ==> claims[n].valid && claims[n].sendFails)
    ensures forall i :: 0 <= i < n ==> !(claims[i].valid && claims[i].sendFails)
  {
    if claims == [] || (claims[0].valid && claims[0].sendFails) then 0 else 1 + FirstClosed(claims[1..])
  }

  /** The jobs of the well-formed ones among the given claims, in order. */
  function JobsOf(claims: seq<Claim>, source: Source): seq<Job> {
    if claims == [] then []
    else
      var n := |claims| - 1;
      JobsOf(claims[..n], source) + (if claims[n].valid then [Job(claims[n].id, source)] else [])
  }

  /** The jobs that are `available` to a stage and sent by it: at most as many claims as there is room for
      are taken, ill-formed ones are passed over, and the first closed channel ends the stage. */
  function StageJobs(available: seq<Claim>, source: Source, inFlight: nat): seq<Job> {
    if inFlight >= CAPACITY then []
    else
      var limit := ClaimLimit(CAPACITY - inFlight);
      var claimed := if |available| <= limit then available else available[..limit];
      JobsOf(claimed[..FirstClosed(claimed)], source)
  }

  function AllJobs(available: Source -> seq<Claim>, inFlight: nat): seq<Job> {
    var a := StageJobs(available(OutboundCalls), OutboundCalls, inFlight);
    var b := StageJobs(available(OauthCalls), OauthCalls, inFlight + |a|);
    var c := StageJobs(available(EmbeddingCalls), EmbeddingCalls, inFlight + |a| + |b|);
    var d := StageJobs(available(ProviderProbes), ProviderProbes, inFlight + |a| + |b| + |c|);
    a + b + c + d
  }

  lemma NoJobs(claims: seq<Claim>, source: Source)
    ensures JobsOf(claims[..0], source) == []
  {
  }

  lemma NextJob(claims: seq<Claim>, i: nat, source: Source)
    requires i <= FirstClosed(claims) && i < |claims| && !(claims[i].valid && claims[i].sendFails)
    ensures i + 1 <= FirstClosed(claims)
    ensures JobsOf(claims[..i + 1], source) == JobsOf(claims[..i], source) + (if claims[i].valid then [Job(claims[i].id, source)] else [])
  {
    assert claims[..i + 1][..i] == claims[..i];
  }

  lemma AllJobsSum(available: Source -> seq<Claim>, inFlight: nat, sent: multiset<Job>)
    ensures var a := StageJobs(available(OutboundCalls), OutboundCalls, inFlight);
            var b := StageJobs(available(OauthCalls), OauthCalls, inFlight + |a|);
            var c := StageJobs(available(EmbeddingCalls), EmbeddingCalls, inFlight + |a| + |b|);
            var d := StageJobs(available(ProviderProbes), ProviderProbes, inFlight + |a| + |b| + |c|);
            && sent + multiset(a) + multiset(b) + multiset(c) + multiset(d) == sent + multiset(AllJobs(available, inFlight))
            && |AllJobs(available, inFlight)| == |a| + |b| + |c| + |d|
  {
    hide StageJobs;
  }

  /** Each well-formed claim taken before the channel is closed is sent, from its own source, and nothing
      else. */
  lemma {:induction false} JobsAreTheClaims(claims: seq<Claim>, source: Source, job: Job)
    ensures job in JobsOf(claims, source) <==> job.source == source && exists i :: 0 <= i < |claims| && claims[i].valid && claims[i].id == job.id
  {
    if claims != [] {
      var n := |claims| - 1;
      JobsAreTheClaims(claims[..n], source, job);
      if i :| 0 <= i < n && claims[..n][i].valid && claims[..n][i].id == job.id {
        assert claims[i].valid && claims[i].id == job.id;
      }
      if i :| 0 <= i < |claims| && claims[i].valid && claims[i].id == job.id && i < n {
        assert claims[..n][i] == claims[i];
      }
    }
  }

  function SaturatingSub(a: nat, b: nat): nat {
    if a >= b then a - b else 0
  }

  class Loop {
    /** The job channel, the jobs on threads and the result channel. */
    var jobs: seq<Job>
    var busy: seq<Job>
    var results: seq<Job>

    var inFlight: nat
    var idleDelay: nat
    var nextPump: int

    /** History: everything ever sent to the pool, everything harvested, and whether the saturating
        subtraction ever met a zero. */
    ghost var sent: multiset<Job>
    ghost var harvested: multiset<Job>
    ghost var clipped: bool

    /** The counter is exactly what is under way, there is never more of it than the capacity, and each
        job is in one place or harvested, once. */
    ghost predicate Valid()
      reads this
    {
      && inFlight == |jobs| + |busy| + |results| <= CAPACITY
      && |busy| <= HTTP_THREADS
      && Conserved()
      && !clipped
      && PUMP_IDLE_MIN <= idleDelay <= PUMP_IDLE_MAX
    }

    ghost predicate Conserved()
      reads this
    {
      sent == harvested + multiset(jobs) + multiset(busy) + multiset(results)
    }

    /** Never more than eight requests are under way, four of them on threads. */
    lemma AtMostEight()
      requires Valid()
      ensures inFlight <= 8 && |busy| <= 4 && inFlight == |jobs| + |busy| + |results|
    {
    }

    constructor ()
      ensures Valid() && inFlight == 0 && sent == multiset{} && harvested == multiset{}
    {
      jobs, busy, results, inFlight := [], [], [], 0;
      idleDelay, nextPump := PUMP_IDLE_MIN, 0;
      sent, harvested, clipped := multiset{}, multiset{}, false;
    }

    method PoolTakes()
      requires Valid() && |jobs| > 0 && |busy| < HTTP_THREADS
      modifies this`jobs, this`busy
      ensures Valid() && busy == old(busy) + [old(jobs)[0]] && jobs == old(jobs)[1..]
    {
      assert jobs == [jobs[0]] + jobs[1..];
      busy, jobs := busy + [jobs[0]], jobs[1..];
    }

    method PoolFinishes(k: nat)
      requires Valid() && k < |busy|
      modifies this`busy, this`results
      ensures Valid() && results == old(results) + [old(busy)[k]] && |busy| == |old(busy)| - 1
    {
      assert busy == busy[..k] + [busy[k]] + busy[k + 1..];
      busy, results := busy[..k] + busy[k + 1..], results + [busy[k]];
    }

    /** Whatever the threads do, no job is lost, duplicated or moved backwards. */
    method PoolRuns(steps: seq<PoolStep>)
      requires Valid()
      modifies this`jobs, this`busy, this`results
      ensures Valid() && old(results) <= results
    {
      var i := 0;
      while i < |steps|
        invariant i <= |steps| && Valid() && old(results) <= results
      {
        match steps[i] {
          case Take =>
            if |jobs| > 0 && |busy| < HTTP_THREADS {
              PoolTakes();
            }
          case Finish(k) =>
            if k < |busy| {
              PoolFinishes(k);
            }
        }
        i := i + 1;
      }
    }

    /** `try_recv` one result; the counter is never zero then. */
    method HarvestOne()
      requires Valid() && |results| > 0
      modifies this`results, this`inFlight, this`harvested, this`clipped
      ensures Valid() && results == old(results)[1..] && harvested == old(harvested) + multiset{old(results)[0]}
      ensures inFlight == old(inFlight) - 1
    {
      assert results == [results[0]] + results[1..];
      assert multiset(results) == multiset{results[0]} + multiset(results[1..]);
      harvested := harvested + multiset{results[0]};
      results := results[1..];
      clipped := clipped || inFlight == 0;
      inFlight := SaturatingSub(inFlight, 1);
    }

    /** Drains the result channel, with the pool running on meanwhile. It ends because each round takes
        one of the calls under way. */
    method Harvest(pool: Schedule)
      requires Valid()
      modifies this
      ensures Valid() && results == [] && sent == old(sent) && inFlight <= old(inFlight)
      ensures old(harvested) + multiset(old(results)) <= harvested
      ensures idleDelay == old(idleDelay) && nextPump == old(nextPump)
    {
      hide Conserved;
      var n := 0;
      ghost var due := old(results);
      while |results| > 0
        invariant Valid() && sent == old(sent) && inFlight <= old(inFlight)
        invariant idleDelay == old(idleDelay) && nextPump == old(nextPump)
        invariant due <= results
        invariant old(harvested) + multiset(old(results)) <= harvested + multiset(due)
        decreases inFlight
      {
        ghost var before := due;
        if |due| > 0 {
          assert due == [due[0]] + due[1..] && due[0] == results[0];
        }
        due := if |due| > 0 then due[1..] else due;
        HarvestOne();
        PoolRuns(pool(n));
        n := n + 1;
      }
    }

    method Send(job: Job)
      requires Valid() && inFlight < CAPACITY
      modifies this`jobs, this`sent, this`inFlight
      ensures Valid() && sent == old(sent) + multiset{job} && inFlight == old(inFlight) + 1
    {
      jobs := jobs + [job];
      sent := sent + multiset{job};
      inFlight := inFlight + 1;
    }

    /** One claim of a stage: sent if it is well-formed; then the pool runs on. */
    method SendClaim(claim: Claim, source: Source, steps: seq<PoolStep>)
      requires Valid() && inFlight < CAPACITY
      modifies this
      ensures Valid() && harvested == old(harvested)
      ensures sent == old(sent) + (if claim.valid then multiset{Job(claim.id, source)} else multiset{})
      ensures inFlight == old(inFlight) + (if claim.valid then 1 else 0)
      ensures idleDelay == old(idleDelay) && nextPump == old(nextPump)
    {
      hide Conserved;
      if claim.valid {
        Send(Job(claim.id, source));
      }
      PoolRuns(steps);
    }

    method SendClaims(claimed: seq<Claim>, source: Source, pool: Schedule) returns (queued: nat)
      requires Valid() && inFlight + |claimed| <= CAPACITY
      modifies this
      ensures Valid() && harvested == old(harvested) && inFlight == old(inFlight) + queued
      ensures var sends := JobsOf(claimed[..FirstClosed(claimed)], source);
              sent == old(sent) + multiset(sends) && queued == |sends|
      ensures idleDelay == old(idleDelay) && nextPump == old(nextPump)
    {
      hide Valid, JobsOf, FirstClosed;
      queued := 0;
      var i := 0;
      ghost var sends: seq<Job> := [];
      NoJobs(claimed, source);
      while i < |claimed|
        invariant i <= FirstClosed(claimed) && |sends| == queued <= i && Valid()
        invariant inFlight == old(inFlight) + queued && harvested == old(harvested)
        invariant sends == JobsOf(claimed[..i], source) && sent == old(sent) + multiset(sends)
        invariant idleDelay == old(idleDelay) && nextPump == old(nextPump)
      {
        if claimed[i].valid && claimed[i].sendFails {
          break;
        }
        NextJob(claimed, i, source);
        SendClaim(claimed[i], source, pool(i));
        if claimed[i].valid {
          sends := sends + [Job(claimed[i].id, source)];
          queued := queued + 1;
        }
        i := i + 1;
      }
    }

    /** One claim stage. A claim function returns at most `GREATEST(1, LEAST(limit, 16))` rows. */
    method ClaimStage(source: Source, ready: bool, available: seq<Claim>, pool: Schedule) returns (queued: nat)
      requires Valid()
      modifies this
      ensures Valid() && harvested == old(harvested) && inFlight == old(inFlight) + queued
      ensures var sends := if ready then StageJobs(available, source, old(inFlight)) else [];
              sent == old(sent) + multiset(sends) && queued == |sends|
      ensures idleDelay == old(idleDelay) && nextPump == old(nextPump)
    {
      hide Valid, JobsOf, FirstClosed;
      queued := 0;
      if !ready || inFlight >= CAPACITY {
        return;
      }
      var limit := ClaimLimit(CAPACITY - inFlight);
      var claimed := if |available| <= limit then available else available[..limit];
      queued := SendClaims(claimed, source, pool);
    }

    /** All four stages, in this order, share the capacity that is left. */
    method ClaimAll(ready: bool, available: Source -> seq<Claim>, pool: nat -> Schedule) returns (queued: nat)
      requires Valid()
      modifies this
      ensures Valid() && harvested == old(harvested) && inFlight == old(inFlight) + queued
      ensures var sends := if ready then AllJobs(available, old(inFlight)) else [];
              sent == old(sent) + multiset(sends) && queued == |sends|
      ensures idleDelay == old(idleDelay) && nextPump == old(nextPump)
    {
      hide Valid, StageJobs, AllJobs;
      ghost var before := sent;
      ghost var n := inFlight;
      var a := ClaimStage(OutboundCalls, ready, available(OutboundCalls), pool(1));
      var b := ClaimStage(OauthCalls, ready, available(OauthCalls), pool(2));
      var c := ClaimStage(EmbeddingCalls, ready, available(EmbeddingCalls), pool(3));
      var d := ClaimStage(ProviderProbes, ready, available(ProviderProbes), pool(4));
      queued := a + b + c + d;
      if ready {
        AllJobsSum(available, n, before);
      }
    }

    /** Busy rounds follow each other quickly; idle ones back off to four seconds. */
    method Reschedule(now: int, worked: bool)
      requires Valid()
      modifies this`idleDelay, this`nextPump
      ensures Valid() && now + PUMP_BUSY <= nextPump <= now + PUMP_IDLE_MAX
      ensures worked ==> nextPump == now + PUMP_BUSY && idleDelay == PUMP_IDLE_MIN
      ensures !worked ==> nextPump == now + old(idleDelay) && idleDelay == if 2 * old(idleDelay) > 4000 then 4000 else 2 * old(idleDelay)
    {
      if worked {
        idleDelay := PUMP_IDLE_MIN;
        nextPump := now + PUMP_BUSY;
      } else {
        nextPump := now + idleDelay;
        idleDelay := if idleDelay * 2 < PUMP_IDLE_MAX then idleDelay * 2 else PUMP_IDLE_MAX;
      }
    }

    /** One round of the main loop. `ranLocally` is what the SQL, function and procedure pumps did. */
    method Tick(now: int, ready: bool, available: Source -> seq<Claim>, pool: nat -> Schedule, ranLocally: nat)
      requires Valid()
      modifies this
      ensures Valid() && old(sent) <= sent
      ensures old(harvested) + multiset(old(results)) <= harvested
      ensures now < old(nextPump) ==> nextPump == old(nextPump)
      ensures now < old(nextPump) || !ready ==> sent == old(sent)
      ensures now >= old(nextPump) ==> now + PUMP_BUSY <= nextPump <= now + PUMP_IDLE_MAX
    {
      hide Valid;
      Harvest(pool(0));
      if now < nextPump {
        return;
      }
      var queued := ClaimAll(ready, available, pool);
      Reschedule(now, queued > 0 || ranLocally > 0);
    }

    /** Every call sent is harvested at most once, with the source it was claimed from. */
    lemma HarvestedAtMostOnce(job: Job)
      requires Valid()
      ensures harvested[job] <= sent[job]
      ensures jobs == [] && busy == [] && results == [] ==> harvested == sent
    {
    }
  }
}
