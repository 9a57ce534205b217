/** The running search (apps/worker/src/vnu/vnu-student-id-resolver.ts:129-334): probes
    start, settle and are cancelled under a nondeterministic schedule. */
module ResolverRun {
  import opened Prelude
  import opened StudentIdResolver

  // --------------------------------------------------------- observed probes

  datatype ProbeEvent = Started(stdId: int) | Settled(stdId: int)

  function InFlight(trace: seq<ProbeEvent>): int {
    if trace == [] then 0
    else InFlight(trace[..|trace| - 1]) + (if trace[|trace| - 1].Started? then 1 else -1)
  }

  /** At no point are more than `limit` probes in flight. */
  predicate NeverMoreThan(trace: seq<ProbeEvent>, limit: int) {
    && 0 <= InFlight(trace) <= limit
    && (trace != [] ==> NeverMoreThan(trace[..|trace| - 1], limit))
  }

  /** The identifiers probed, in starting order. */
  function StartedIds(trace: seq<ProbeEvent>): seq<int> {
    if trace == [] then []
    else
      StartedIds(trace[..|trace| - 1]) +
      (if trace[|trace| - 1].Started? then [trace[|trace| - 1].stdId] else [])
  }

  lemma Append(trace: seq<ProbeEvent>, e: ProbeEvent, limit: int)
    ensures InFlight(trace + [e]) == InFlight(trace) + (if e.Started? then 1 else -1)
    ensures StartedIds(trace + [e]) == StartedIds(trace) + (if e.Started? then [e.stdId] else [])
    ensures NeverMoreThan(trace, limit) && 0 <= InFlight(trace + [e]) <= limit ==> NeverMoreThan(trace + [e], limit)
  {
    assert (trace + [e])[..|trace + [e]| - 1] == trace;
  }

  /** Whether the caller has aborted by the time so many probe events have happened. */
  type Caller = nat -> bool

  // ------------------------------------------------------------------ the pool

  /** The resolver's mutable locals: which candidates are being probed, what settled,
      what starts next, and the lowest index known to match. */
  class ProbePool {
    const candidates: seq<int>
    const target: string
    const oracle: Oracle
    const width: nat
    const limit: nat
    var active: set<nat>
    var settled: map<nat, Option<string>>
    var nextIndex: nat
    var earliestExactIndex: Option<nat>
    var trace: seq<ProbeEvent>
    ghost const prior: seq<int>

    predicate Exact(i: nat)
      requires i < |candidates|
    {
      Matches(oracle, candidates[i], target)
    }

    /** Started candidates are the first `nextIndex`; each is active or settled with the
        oracle's code, and the trace agrees. */
    ghost predicate Valid()
      reads this
    {
      && nextIndex <= |candidates| && width <= limit
      && active !! settled.Keys
      && (forall i: nat :: i in active || i in settled <==> i < nextIndex)
      && (forall i: nat :: i in settled ==> oracle(candidates[i]) == Code(settled[i]))
      && (forall i: nat :: i < nextIndex ==> |Blockers(candidates, target, oracle, i)| < width)
      && (earliestExactIndex.Some? ==>
            && earliestExactIndex.value in settled && Exact(earliestExactIndex.value))
      && (forall i: nat :: i in settled && Exact(i) ==> earliestExactIndex.Some? && earliestExactIndex.value <= i)
      && |active| <= width
      && InFlight(trace) == |active|
      && NeverMoreThan(trace, limit)
      && StartedIds(trace) == prior + candidates[..nextIndex]
    }

    constructor (candidates: seq<int>, target: string, oracle: Oracle, width: nat, limit: nat, trace: seq<ProbeEvent>)
      requires width <= limit && InFlight(trace) == 0 && NeverMoreThan(trace, limit)
      ensures Valid() && fresh(this)
      ensures this.candidates == candidates && this.target == target && this.oracle == oracle && this.width == width && this.limit == limit
      ensures this.prior == StartedIds(trace) && nextIndex == 0 && active == {} && settled == map[] && earliestExactIndex.None?
    {
      this.candidates := candidates;
      this.target := target;
      this.oracle := oracle;
      this.width := width;
      this.limit := limit;
      this.active := {};
      this.settled := map[];
      this.nextIndex := 0;
      this.earliestExactIndex := None;
      this.trace := trace;
      this.prior := StartedIds(trace);
    }

    method StartNext()
      requires Valid() && MayStart()
      modifies this
      ensures Valid()
      ensures nextIndex == old(nextIndex) + 1 && active == old(active) + {old(nextIndex)}
      ensures settled == old(settled) && earliestExactIndex == old(earliestExactIndex)
    {
      BlockersAreActive();
      Append(trace, Started(candidates[nextIndex]), limit);
      trace := trace + [Started(candidates[nextIndex])];
      active := active + {nextIndex};
      nextIndex := nextIndex + 1;
    }

    /** What blocks the next candidate is still being probed. */
    lemma BlockersAreActive()
      requires Valid() && MayStart()
      ensures |Blockers(candidates, target, oracle, nextIndex)| < width
    {
      var blockers := Blockers(candidates, target, oracle, nextIndex);
      forall i | i in blockers
        ensures i in active
      {
        assert i in settled ==> oracle(candidates[i]).Code? && !Exact(i);
      }
      ProperSubsetIsSmaller(blockers, active);
    }

    predicate MayStart()
      reads this
    {
      && |active| < width
      && nextIndex < |candidates|
      && (earliestExactIndex.None? || nextIndex < earliestExactIndex.value)
    }

    /** Starts candidates while there is room and none is known to be beaten. */
    method FillPool()
      requires Valid()
      modifies this
      ensures Valid() && !MayStart()
      ensures old(nextIndex) <= nextIndex && old(active) <= active
      ensures settled == old(settled) && earliestExactIndex == old(earliestExactIndex)
    {
      while MayStart()
        invariant Valid()
        invariant old(nextIndex) <= nextIndex && old(active) <= active
        invariant settled == old(settled) && earliestExactIndex == old(earliestExactIndex)
        decreases |candidates| - nextIndex
      {
        StartNext();
      }
    }

    /** A probe leaves the pool because its work has settled. */
    method Leave(i: nat)
      requires Valid() && i in active && oracle(candidates[i]).Code?
      modifies this
      ensures Valid()
      ensures active == old(active) - {i} && nextIndex == old(nextIndex)
      ensures settled == old(settled)[i := oracle(candidates[i]).code]
    {
      Append(trace, Settled(candidates[i]), limit);
      trace := trace + [Settled(candidates[i])];
      var code := oracle(candidates[i]).code;
      active := active - {i};
      settled := settled[i := code];
      if code == Some(target) {
        earliestExactIndex := if earliestExactIndex.None? || i < earliestExactIndex.value then Some(i) else earliestExactIndex;
      }
    }

    /** Cancels and awaits whatever still runs. A cancelled probe may reject because of the
        cancellation, or settle with its answer all the same; the first answer that is
        a failure is reported. */
    method SettleStarted() returns (failure: Option<int>)
      requires NeverMoreThan(trace, limit) && InFlight(trace) == |active|
      requires forall i :: i in active ==> i < |candidates|
      modifies this
      ensures active == {} && InFlight(trace) == 0 && NeverMoreThan(trace, limit)
      ensures StartedIds(trace) == old(StartedIds(trace))
      ensures failure.Some? ==> exists i :: i in old(active) && oracle(candidates[i]) == Failure(failure.value)
    {
      failure := None;
      while active != {}
        invariant active <= old(active)
        invariant NeverMoreThan(trace, limit) && InFlight(trace) == |active|
        invariant StartedIds(trace) == old(StartedIds(trace))
        invariant failure.Some? ==> exists i :: i in old(active) && oracle(candidates[i]) == Failure(failure.value)
        decreases active
      {
        var i :| i in active;
        Append(trace, Settled(candidates[i]), limit);
        trace := trace + [Settled(candidates[i])];
        active := active - {i};
        var rejectedByCancellation: bool := *;
        if !rejectedByCancellation && failure.None? && oracle(candidates[i]).Failure? {
          failure := Some(oracle(candidates[i]).error);
        }
      }
    }

    /** The first index of the settled prefix that matches, if the prefix reaches one. */
    method Winner() returns (winner: Option<nat>)
      requires Valid()
      ensures winner.Some? ==>
                && winner.value < nextIndex && Exact(winner.value)
                && forall i :: 0 <= i < winner.value ==> i in settled && !Exact(i)
      ensures winner.None? && earliestExactIndex.Some? ==>
                exists i :: 0 <= i < earliestExactIndex.value && i !in settled
    {
      var prefixIndex: nat := 0;
      while prefixIndex in settled
        invariant forall i :: 0 <= i < prefixIndex ==> i in settled && !Exact(i)
        invariant prefixIndex <= nextIndex
        decreases nextIndex - prefixIndex
      {
        if settled[prefixIndex] == Some(target) {
          return Some(prefixIndex);
        }
        prefixIndex := prefixIndex + 1;
      }
      winner := None;
    }

    /** Between two settlements: the pool is full and no settled prefix has matched. */
    ghost predicate Searching()
      reads this
    {
      && Valid() && !MayStart()
      && (earliestExactIndex.Some? ==> exists i: nat :: i < earliestExactIndex.value && i !in settled)
    }

    /** One turn of the search loop, for a probe that settled with a code. */
    method Advance(i: nat) returns (winner: Option<nat>)
      requires Searching() && i in active && oracle(candidates[i]).Code?
      modifies this
      ensures Valid() && nextIndex >= old(nextIndex)
      ensures settled == old(settled)[i := oracle(candidates[i]).code]
      ensures winner.Some? ==> winner.value < |candidates| && SearchFrom(candidates, target, oracle, 0) == Found(candidates[winner.value])
      ensures winner.None? ==> Searching()
    {
      Leave(i);
      winner := Winner();
      if winner.Some? {
        SearchSkips(candidates, target, oracle, 0, winner.value);
      } else {
        FillPool();
      }
    }

    /** When nothing runs any more, every candidate has settled without a match. */
    lemma NothingLeft()
      requires Searching() && active == {} && (candidates == [] || 0 < width)
      ensures SearchFrom(candidates, target, oracle, 0) == NotConverged
    {
      assert earliestExactIndex.None?;
      assert nextIndex == |candidates|;
      SearchSkips(candidates, target, oracle, 0, |candidates|);
    }
  }

  // ------------------------------------------------------------- the resolver

  predicate PositiveSafeInteger(n: int) {
    0 < n <= MAX_SAFE_INTEGER
  }

  /** What every exit of the resolver promises about the probes it made. */
  ghost predicate CleanExit(trace: seq<ProbeEvent>, limit: int, projected: int) {
    && InFlight(trace) == 0
    && NeverMoreThan(trace, limit)
    && Distinct(StartedIds(trace))
    && |StartedIds(trace)| <= MAX_PROBES
    && forall id :: id in StartedIds(trace) ==> Nearby(projected, id)
  }

  predicate FailsInReach(candidates: seq<int>, target: string, oracle: Oracle, width: int, g: nat, error: int) {
    InReach(candidates, target, oracle, width, g) && oracle(candidates[g]) == Failure(error)
  }

  lemma StartedIdsAreNearby(projected: int, correction: Option<int>, n: nat)
    requires ValidStudentId(projected)
    requires correction.Some? ==> Nearby(projected, correction.value)
    requires n <= |Candidates(projected, correction)|
    ensures var ids := [projected] + Candidates(projected, correction)[..n];
            Distinct(ids) && |ids| <= MAX_PROBES && forall id :: id in ids ==> Nearby(projected, id)
  {
    var candidates := Candidates(projected, correction);
    AtMost33Probes(projected, correction);
    var all, ids := [projected] + candidates, [projected] + candidates[..n];
    assert ids == all[..n + 1];
    forall id | id in ids
      ensures Nearby(projected, id)
    {
      if id != projected {
        assert id in candidates;
        CandidatesAreTheNeighbours(projected, correction, id);
      }
    }
  }

  lemma {:induction false} SearchSkips(candidates: seq<int>, target: string, oracle: Oracle, from: nat, n: nat)
    requires from <= n <= |candidates|
    requires forall i :: from <= i < n ==> oracle(candidates[i]).Code? && !Matches(oracle, candidates[i], target)
    ensures SearchFrom(candidates, target, oracle, from) == SearchFrom(candidates, target, oracle, n)
    decreases n - from
  {
    if from < n {
      SearchSkips(candidates, target, oracle, from + 1, n);
    }
  }

  /** The concurrent phase: the neighbours of a projection that did not match. */
  method SearchNeighbours(projected: int, correction: Option<int>, candidates: seq<int>, target: string, oracle: Oracle, limit: nat, caller: Caller, before: seq<ProbeEvent>)
    returns (outcome: Outcome, trace: seq<ProbeEvent>)
    requires ValidStudentId(projected) && (correction.Some? ==> Nearby(projected, correction.value))
    requires candidates == Candidates(projected, correction) && 0 < limit
    requires InFlight(before) == 0 && NeverMoreThan(before, limit) && StartedIds(before) == [projected]
    ensures !outcome.Misconfigured?
    ensures outcome.Found? || outcome.NotConverged? ==> outcome == SearchFrom(candidates, target, oracle, 0)
    ensures outcome.Cancelled? ==> exists k: nat :: caller(k)
    ensures outcome.Failed? ==> exists g: nat :: FailsInReach(candidates, target, oracle, Min(limit, |candidates|), g, outcome.error)
    ensures CleanExit(trace, limit, projected)
  {
    var pool := new ProbePool(candidates, target, oracle, Min(limit, |candidates|), limit, before);
    pool.FillPool();
    while pool.active != {}
      invariant fresh(pool) && pool.Searching()
      invariant pool.candidates == candidates && pool.target == target && pool.oracle == oracle
      invariant pool.width == Min(limit, |candidates|) && pool.limit == limit && pool.prior == [projected]
      decreases |candidates| - |pool.settled|
    {
      var index :| index in pool.active;
      var aborted := caller(|pool.trace|);
      if aborted || oracle(candidates[index]).Failure? {
        assert oracle(candidates[index]).Failure? ==>
            FailsInReach(candidates, target, oracle, pool.width, index, oracle(candidates[index]).error);
        trace := Drain(pool, projected, correction);
        return (if aborted then Cancelled else Failed(oracle(candidates[index]).error)), trace;
      }
      SettledFits(pool, index);
      var winner := pool.Advance(index);
      if winner.Some? {
        outcome, trace := FinishWith(pool, projected, correction, caller, winner.value);
        return;
      }
    }
    pool.NothingLeft();
    trace := Drain(pool, projected, correction);
    return NotConverged, trace;
  }

  /** Leaves with nothing running. */
  method Drain(pool: ProbePool, projected: int, correction: Option<int>) returns (trace: seq<ProbeEvent>)
    requires pool.Valid() && pool.prior == [projected] && pool.candidates == Candidates(projected, correction)
    requires ValidStudentId(projected) && (correction.Some? ==> Nearby(projected, correction.value))
    modifies pool
    ensures CleanExit(trace, pool.limit, projected)
  {
    StartedIdsAreNearby(projected, correction, pool.nextIndex);
    var _ := pool.SettleStarted();
    trace := pool.trace;
  }

  /** Cancels the lower-priority probes of a found match; only the caller, or a probe that
      failed on its own account, can still withhold the answer. */
  method FinishWith(pool: ProbePool, projected: int, correction: Option<int>, caller: Caller, winner: nat)
    returns (outcome: Outcome, trace: seq<ProbeEvent>)
    requires pool.Valid() && pool.prior == [projected] && pool.candidates == Candidates(projected, correction)
    requires ValidStudentId(projected) && (correction.Some? ==> Nearby(projected, correction.value))
    requires winner < |pool.candidates|
    modifies pool
    ensures outcome.Found? || outcome.Cancelled? || outcome.Failed?
    ensures outcome.Found? ==> outcome.stdId == pool.candidates[winner]
    ensures outcome.Cancelled? ==> exists k: nat :: caller(k)
    ensures outcome.Failed? ==> exists g: nat :: FailsInReach(pool.candidates, pool.target, pool.oracle, pool.width, g, outcome.error)
    ensures CleanExit(trace, pool.limit, projected)
  {
    StartedIdsAreNearby(projected, correction, pool.nextIndex);
    ghost var started := pool.active;
    var failure := pool.SettleStarted();
    trace := pool.trace;
    if failure.Some? {
      ghost var g: nat :| g in started && pool.oracle(pool.candidates[g]) == Failure(failure.value);
      assert FailsInReach(pool.candidates, pool.target, pool.oracle, pool.width, g, failure.value);
    }
    outcome :=
      if caller(|trace|) then Cancelled
      else if failure.Some? then Failed(failure.value)
      else Found(pool.candidates[winner]);
  }

  lemma NoProbe(projected: int, limit: int)
    requires 0 < limit
    ensures CleanExit([], limit, projected)
  {
  }

  lemma FirstProbe(projected: int, limit: int, trace: seq<ProbeEvent>)
    requires ValidStudentId(projected) && 0 < limit
    requires trace == [Started(projected), Settled(projected)]
    ensures CleanExit(trace, limit, projected)
    ensures StartedIds(trace) == [projected]
  {
    var none: seq<ProbeEvent> := [];
    Append(none, Started(projected), limit);
    var first := none + [Started(projected)];
    Append(first, Settled(projected), limit);
    assert trace == first + [Settled(projected)];
  }

  /** The failures a resolver may report: that of the projection, or of a neighbour its pool
      may have been probing. */
  ghost predicate MayFail(ownStdId: int, ownCode: int, target: string, oracle: Oracle, limit: int, error: int) {
    && Searchable(ownStdId, ownCode, target)
    && var projected := Projection(ownStdId, ownCode, target);
       match oracle(projected)
       case Failure(first) => error == first
       case Code(seen) =>
         seen != Some(target) &&
         var candidates := Candidates(projected, Correction(projected, target, seen));
         exists g: nat :: FailsInReach(candidates, target, oracle, Min(limit, |candidates|), g, error)
  }

  /** Without errors near the projection nothing may fail. */
  lemma FailureIsNearby(ownStdId: int, ownCode: int, target: string, oracle: Oracle, limit: int, error: int)
    requires MayFail(ownStdId, ownCode, target, oracle, limit, error)
    ensures !ErrorFree(oracle, Projection(ownStdId, ownCode, target))
  {
    var projected := Projection(ownStdId, ownCode, target);
    assert Nearby(projected, projected);
    if oracle(projected).Code? {
      var correction := Correction(projected, target, oracle(projected).code);
      var candidates := Candidates(projected, correction);
      var g: nat :| FailsInReach(candidates, target, oracle, Min(limit, |candidates|), g, error);
      assert candidates[g] in candidates;
      CandidatesAreTheNeighbours(projected, correction, candidates[g]);
    }
  }

  method ResolveVnuStudentId(ownStdId: int, ownCode: int, target: string, oracle: Oracle, concurrency: int, platformLimit: int, caller: Caller)
    returns (outcome: Outcome, trace: seq<ProbeEvent>)
    ensures outcome.Misconfigured? <==> !PositiveSafeInteger(concurrency) || !PositiveSafeInteger(platformLimit)
    // Whatever settles when, an answer is the sequential answer.
    ensures outcome.Found? || outcome.NotConverged? ==> outcome == SequentialSearch(ownStdId, ownCode, target, oracle)
    // Nothing but the caller, or a failing probe within the pool's reach, prevents one.
    ensures outcome.Cancelled? ==> exists k: nat :: caller(k)
    ensures outcome.Failed? ==> MayFail(ownStdId, ownCode, target, oracle, Min(concurrency, platformLimit), outcome.error)
                                && !ErrorFree(oracle, Projection(ownStdId, ownCode, target))
    // The probes stay inside the window, the reservation and the pool, and none outlives the call.
    ensures Searchable(ownStdId, ownCode, target) ==>
              CleanExit(trace, Max(1, Min(concurrency, platformLimit)), Projection(ownStdId, ownCode, target))
    ensures !Searchable(ownStdId, ownCode, target) ==> trace == []
  {
    trace := [];
    if !PositiveSafeInteger(concurrency) || !PositiveSafeInteger(platformLimit) {
      return Misconfigured, [];
    }
    if !ValidStudentId(ownStdId) || !ValidStudentId(ownCode) || !IsStudentCode(target) {
      return NotConverged, [];
    }
    var projected := ownStdId + (Decimal(target) - ownCode);
    if !ValidStudentId(projected) {
      return NotConverged, [];
    }
    var limit := Min(concurrency, platformLimit);
    if caller(0) {
      NoProbe(projected, limit);
      return Cancelled, [];
    }

    trace := [Started(projected), Settled(projected)];
    FirstProbe(projected, limit, trace);
    if caller(|trace|) {
      return Cancelled, trace;
    }
    if oracle(projected).Failure? {
      assert Nearby(projected, projected);
      return Failed(oracle(projected).error), trace;
    }
    var seen := oracle(projected).code;
    if seen == Some(target) {
      return Found(projected), trace;
    }

    var correction := Correction(projected, target, seen);
    var candidates := LocalCandidates(projected, correction);
    outcome, trace := SearchNeighbours(projected, correction, candidates, target, oracle, limit, caller, trace);
    if outcome.Failed? {
      assert MayFail(ownStdId, ownCode, target, oracle, limit, outcome.error);
      FailureIsNearby(ownStdId, ownCode, target, oracle, limit, outcome.error);
    }
  }

  function Indices(n: nat): (all: set<nat>)
    ensures |all| == n && forall i: nat :: i in all <==> i < n
  {
    if n == 0 then {} else Indices(n - 1) + {n - 1}
  }

  /** A pool with something running has settled fewer probes than there are candidates. */
  lemma SettledFits(pool: ProbePool, index: nat)
    requires pool.Valid() && index in pool.active
    ensures |pool.settled| < |pool.candidates| && index !in pool.settled
  {
    var all := Indices(|pool.candidates|);
    assert pool.settled.Keys <= all && index in all && index !in pool.settled.Keys;
    ProperSubsetIsSmaller(pool.settled.Keys, all);
  }
}
