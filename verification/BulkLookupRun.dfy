/** The bulk code-to-id lookup while it runs (apps/worker/src/app.ts:4204-4293): workers
    claim targets, run one resolver each and draw probes from one shared allowance, in
    any interleaving, until the deadline or the client aborts. A resolver is represented by
    what its contract promises: at most 33 probes, never more of them in flight than its
    width, none left when it returns. */
module BulkLookupRun {
  import opened Prelude
  import opened BulkReservation
  import opened ResolverRun

  datatype Worker =
    | Idle
    | Resolving(target: nat, started: nat, inFlight: nat)
    | Stopped

  /** `valid[i]` tells whether target i is a well-formed code of another student. */
  datatype Request = Request(valid: seq<bool>, workers: nat, width: nat)

  datatype Bulk = Bulk(remaining: int, nextIndex: nat, workers: seq<Worker>, items: set<nat>, aborted: bool)

  datatype Step =
    | Claim(w: nat)
    | StartProbe(w: nat)
    | SettleProbe(w: nat)
    | Finish(w: nat)
    | Fail(w: nat)
    | Quit(w: nat)
    | Abort

  predicate WellFormed(r: Request) {
    && 0 < |r.valid|
    && 1 <= r.workers <= |r.valid|
    && CandidateWidth(r.workers).Ok? && CandidateWidth(r.workers).value == r.width
  }

  function Start(r: Request): Bulk {
    Bulk(ReservationUnits(CodeToStdId, |r.valid|), 0, seq(r.workers, _ => Idle), {}, false)
  }

  /** What the worker loop and the resolver's contract allow; the allowance is not asked. */
  predicate Enabled(r: Request, b: Bulk, step: Step) {
    match step
    case Claim(w) => w < |b.workers| && b.workers[w].Idle? && !b.aborted
    case StartProbe(w) =>
      w < |b.workers| && b.workers[w].Resolving? && b.workers[w].started < RESOLVER_MAX_PROBES && b.workers[w].inFlight < r.width
    case SettleProbe(w) => w < |b.workers| && b.workers[w].Resolving? && b.workers[w].inFlight > 0
    case Finish(w) => w < |b.workers| && b.workers[w].Resolving? && b.workers[w].inFlight == 0
    case Fail(w) => w < |b.workers| && b.workers[w].Resolving? && b.workers[w].inFlight == 0
    case Quit(w) => w < |b.workers| && b.workers[w].Idle? && b.aborted
    case Abort => true
  }

  function SetWorker(b: Bulk, w: nat, worker: Worker): Bulk
    requires w < |b.workers|
  {
    b.(workers := b.workers[w := worker])
  }

  /** One step. `None` is the thrown "allowance exhausted". */
  function Perform(r: Request, b: Bulk, step: Step): Option<Bulk>
    requires Enabled(r, b, step)
  {
    match step
    case Claim(w) =>
      var claimed := b.(nextIndex := b.nextIndex + 1);
      if b.nextIndex >= |r.valid| then Some(SetWorker(claimed, w, Stopped))
      else if !r.valid[b.nextIndex] then Some(claimed.(items := b.items + {b.nextIndex}))
      else Some(SetWorker(claimed, w, Resolving(b.nextIndex, 0, 0)))
    case StartProbe(w) =>
      if b.remaining <= 0 then None
      else
        var worker := b.workers[w];
        Some(SetWorker(b.(remaining := b.remaining - 1), w, worker.(started := worker.started + 1, inFlight := worker.inFlight + 1)))
    case SettleProbe(w) => Some(SetWorker(b, w, b.workers[w].(inFlight := b.workers[w].inFlight - 1)))
    case Finish(w) => Some(SetWorker(b.(items := b.items + {b.workers[w].target}), w, Idle))
    case Fail(w) => Some(SetWorker(b.(aborted := true), w, Stopped))
    case Quit(w) => Some(SetWorker(b, w, Stopped))
    case Abort => Some(b.(aborted := true))
  }

  /** Units a worker may still draw for the target it holds. */
  function Owed(worker: Worker): int {
    if worker.Resolving? then RESOLVER_MAX_PROBES - worker.started else 0
  }

  function TotalOwed(workers: seq<Worker>): int {
    if workers == [] then 0 else TotalOwed(workers[..|workers| - 1]) + Owed(workers[|workers| - 1])
  }

  function Running(worker: Worker): int {
    if worker.Resolving? then worker.inFlight else 0
  }

  /** Probes in flight over all workers. */
  function TotalInFlight(workers: seq<Worker>): int {
    if workers == [] then 0 else TotalInFlight(workers[..|workers| - 1]) + Running(workers[|workers| - 1])
  }

  lemma {:induction false} TotalsAfterUpdate(workers: seq<Worker>, w: nat, worker: Worker)
    requires w < |workers|
    ensures TotalOwed(workers[w := worker]) == TotalOwed(workers) - Owed(workers[w]) + Owed(worker)
    ensures TotalInFlight(workers[w := worker]) == TotalInFlight(workers) - Running(workers[w]) + Running(worker)
  {
    var n := |workers| - 1;
    if w == n {
      assert workers[w := worker][..n] == workers[..n];
    } else {
      TotalsAfterUpdate(workers[..n], w, worker);
      assert workers[w := worker][..n] == workers[..n][w := worker];
    }
  }

  predicate WorkerOk(r: Request, b: Bulk, worker: Worker) {
    worker.Resolving? ==>
      && worker.target < b.nextIndex && worker.target < |r.valid| && worker.target !in b.items
      && worker.started <= RESOLVER_MAX_PROBES
      && worker.inFlight <= r.width && worker.inFlight <= worker.started
  }

  function Unclaimed(r: Request, b: Bulk): int {
    Max(0, |r.valid| - b.nextIndex)
  }

  predicate Held(b: Bulk, target: nat) {
    exists w :: 0 <= w < |b.workers| && b.workers[w].Resolving? && b.workers[w].target == target
  }

  /** What is left of the reservation covers what can still be asked for, every claimed
      target is done or held by exactly one worker, and workers stop only at the end. */
  ghost predicate Invariant(r: Request, b: Bulk) {
    && WellFormed(r) && |b.workers| == r.workers
    && b.remaining >= RESOLVER_MAX_PROBES * Unclaimed(r, b) + TotalOwed(b.workers)
    && (forall w :: 0 <= w < |b.workers| ==> WorkerOk(r, b, b.workers[w]))
    && (forall v, w :: 0 <= v < w < |b.workers| && b.workers[v].Resolving? && b.workers[w].Resolving? ==>
          b.workers[v].target != b.workers[w].target)
    && (forall t :: t in b.items ==> t < b.nextIndex && t < |r.valid|)
    && (!b.aborted ==> forall t: nat :: t < b.nextIndex && t < |r.valid| ==> t in b.items || Held(b, t))
    && (!b.aborted ==> forall w :: 0 <= w < |b.workers| && b.workers[w].Stopped? ==> b.nextIndex >= |r.valid|)
  }

  lemma {:induction false} IdleTotals(n: nat)
    ensures TotalOwed(seq(n, _ => Idle)) == 0 && TotalInFlight(seq(n, _ => Idle)) == 0
  {
    if n > 0 {
      IdleTotals(n - 1);
      assert seq(n, _ => Idle)[..n - 1] == seq(n - 1, _ => Idle);
    }
  }

  lemma StartOk(r: Request)
    requires WellFormed(r)
    ensures Invariant(r, Start(r))
  {
    IdleTotals(r.workers);
  }

  lemma {:induction false} OwedIsNonNegative(workers: seq<Worker>)
    requires forall w :: 0 <= w < |workers| ==> Owed(workers[w]) >= 0
    ensures TotalOwed(workers) >= 0
    ensures forall w :: 0 <= w < |workers| ==> TotalOwed(workers) >= Owed(workers[w])
  {
    if workers != [] {
      OwedIsNonNegative(workers[..|workers| - 1]);
    }
  }

  /** The allowance never runs out: a probe the resolver may start can be paid for. */
  lemma AllowanceSuffices(r: Request, b: Bulk, w: nat)
    requires Invariant(r, b) && Enabled(r, b, StartProbe(w))
    ensures b.remaining > 0
  {
    OwedIsNonNegative(b.workers);
  }

  lemma HeldAfterUpdate(b: Bulk, b': Bulk, w: nat, t: nat)
    requires w < |b.workers| && |b'.workers| == |b.workers| && Held(b, t)
    requires b'.workers == b.workers[w := b'.workers[w]]
    requires b.workers[w].Resolving? && b.workers[w].target == t ==> b'.workers[w].Resolving? && b'.workers[w].target == t
    ensures Held(b', t)
  {
    var v :| 0 <= v < |b.workers| && b.workers[v].Resolving? && b.workers[v].target == t;
    assert b'.workers[v].Resolving? && b'.workers[v].target == t;
  }

  lemma ClaimKeepsOk(r: Request, b: Bulk, w: nat)
    requires Invariant(r, b) && Enabled(r, b, Claim(w))
    ensures Invariant(r, Perform(r, b, Claim(w)).value)
  {
    var b' := Perform(r, b, Claim(w)).value;
    TotalsAfterUpdate(b.workers, w, b'.workers[w]);
    assert b'.workers == b.workers[w := b'.workers[w]];
    forall t: nat | t < b'.nextIndex && t < |r.valid|
      ensures t in b'.items || Held(b', t)
    {
      if t == b.nextIndex {
        assert b'.workers[w].Resolving? ==> b'.workers[w].target == t;
      } else if t !in b.items {
        HeldAfterUpdate(b, b', w, t);
      }
    }
  }

  lemma ProbeKeepsHolders(r: Request, b: Bulk, step: Step)
    requires Invariant(r, b) && Enabled(r, b, step) && (step.StartProbe? || step.SettleProbe?)
    requires Perform(r, b, step).Some? && !b.aborted
    ensures var after := Perform(r, b, step).value;
            forall t: nat :: t < b.nextIndex && t < |r.valid| ==> t in after.items || Held(after, t)
  {
    var after := Perform(r, b, step).value;
    forall t: nat | t < b.nextIndex && t < |r.valid|
      ensures t in after.items || Held(after, t)
    {
      if t !in b.items {
        HeldAfterUpdate(b, after, step.w, t);
      }
    }
  }

  lemma StartKeepsOk(r: Request, b: Bulk, w: nat)
    requires Invariant(r, b) && Enabled(r, b, StartProbe(w))
    ensures Perform(r, b, StartProbe(w)).Some? && Invariant(r, Perform(r, b, StartProbe(w)).value)
  {
    AllowanceSuffices(r, b, w);
    TotalsAfterUpdate(b.workers, w, Perform(r, b, StartProbe(w)).value.workers[w]);
    if !b.aborted {
      ProbeKeepsHolders(r, b, StartProbe(w));
    }
  }

  lemma SettleKeepsOk(r: Request, b: Bulk, w: nat)
    requires Invariant(r, b) && Enabled(r, b, SettleProbe(w))
    ensures Perform(r, b, SettleProbe(w)).Some? && Invariant(r, Perform(r, b, SettleProbe(w)).value)
  {
    TotalsAfterUpdate(b.workers, w, Perform(r, b, SettleProbe(w)).value.workers[w]);
    if !b.aborted {
      ProbeKeepsHolders(r, b, SettleProbe(w));
    }
  }

  lemma LeaveKeepsOk(r: Request, b: Bulk, step: Step)
    requires Invariant(r, b) && Enabled(r, b, step) && (step.Finish? || step.Fail? || step.Quit?)
    ensures Invariant(r, Perform(r, b, step).value)
  {
    var b' := Perform(r, b, step).value;
    TotalsAfterUpdate(b.workers, step.w, b'.workers[step.w]);
    forall t: nat | !b'.aborted && t < b.nextIndex && t < |r.valid|
      ensures t in b'.items || Held(b', t)
    {
      if t !in b'.items {
        HeldAfterUpdate(b, b', step.w, t);
      }
    }
  }

  lemma StepKeepsOk(r: Request, b: Bulk, step: Step)
    requires Invariant(r, b) && Enabled(r, b, step)
    ensures Perform(r, b, step).Some? && Invariant(r, Perform(r, b, step).value)
  {
    match step
    case Claim(w) => ClaimKeepsOk(r, b, w);
    case StartProbe(w) => StartKeepsOk(r, b, w);
    case SettleProbe(w) => SettleKeepsOk(r, b, w);
    case Finish(_) => LeaveKeepsOk(r, b, step);
    case Fail(_) => LeaveKeepsOk(r, b, step);
    case Quit(_) => LeaveKeepsOk(r, b, step);
    case Abort =>
  }

  ghost predicate StepsTo(r: Request, before: Bulk, step: Step, b: Bulk) {
    Enabled(r, before, step) && Perform(r, before, step) == Some(b)
  }

  /** The states some interleaving can reach. */
  ghost predicate Reaches(r: Request, steps: seq<Step>, b: Bulk) {
    if steps == [] then b == Start(r)
    else exists before :: Reaches(r, Front(steps), before) && StepsTo(r, before, Last(steps), b)
  }

  lemma {:induction false} ReachableIsOk(r: Request, steps: seq<Step>, b: Bulk)
    requires WellFormed(r) && Reaches(r, steps, b)
    ensures Invariant(r, b)
  {
    if steps == [] {
      StartOk(r);
    } else {
      var before :| Reaches(r, Front(steps), before) && StepsTo(r, before, Last(steps), b);
      ReachableIsOk(r, Front(steps), before);
      StepKeepsOk(r, before, Last(steps));
    }
  }

  function Claims(steps: seq<Step>): nat {
    if steps == [] then 0 else Claims(Front(steps)) + if Last(steps).Claim? then 1 else 0
  }

  function Starts(steps: seq<Step>): nat {
    if steps == [] then 0 else Starts(Front(steps)) + if Last(steps).StartProbe? then 1 else 0
  }

  lemma StepAccounts(r: Request, b: Bulk, step: Step)
    requires Enabled(r, b, step) && Perform(r, b, step).Some?
    ensures var after := Perform(r, b, step).value;
            && after.remaining == b.remaining - (if step.StartProbe? then 1 else 0)
            && after.nextIndex == b.nextIndex + (if step.Claim? then 1 else 0)
            && (after.aborted <==> b.aborted || step.Abort? || step.Fail?)
  {
  }

  /** Conservation: in every interleaving the allowance left is 33 units a target less one for
      each probe started, the targets are claimed one after the other, and a run counts as
      aborted exactly when something aborted it. */
  lemma {:induction false} EveryProbeIsPaidOnce(r: Request, steps: seq<Step>, b: Bulk)
    requires WellFormed(r) && Reaches(r, steps, b)
    ensures b.remaining == 33 * |r.valid| - Starts(steps)
    ensures b.nextIndex == Claims(steps)
    ensures b.aborted <==> exists k :: 0 <= k < |steps| && Aborts(steps[k])
  {
    if steps != [] {
      var before :| Reaches(r, Front(steps), before) && StepsTo(r, before, Last(steps), b);
      EveryProbeIsPaidOnce(r, Front(steps), before);
      StepAccounts(r, before, Last(steps));
      assert steps == Front(steps) + [Last(steps)];
    }
  }

  predicate Aborts(step: Step) {
    step.Abort? || step.Fail?
  }

  /** Once something has aborted a run, no target is claimed any more. */
  lemma {:induction false} AbortEndsClaiming(r: Request, steps: seq<Step>, b: Bulk, k: nat, l: nat)
    requires WellFormed(r) && Reaches(r, steps, b) && k < l < |steps| && Aborts(steps[k])
    ensures !steps[l].Claim?
  {
    var before :| Reaches(r, Front(steps), before) && StepsTo(r, before, Last(steps), b);
    if l == |steps| - 1 {
      EveryProbeIsPaidOnce(r, Front(steps), before);
      assert Front(steps)[k] == steps[k];
    } else {
      AbortEndsClaiming(r, Front(steps), before, k, l);
    }
  }

  lemma {:induction false} InFlightBound(r: Request, b: Bulk, workers: seq<Worker>)
    requires forall w :: 0 <= w < |workers| ==> WorkerOk(r, b, workers[w])
    ensures TotalInFlight(workers) <= |workers| * r.width
  {
    if workers != [] {
      InFlightBound(r, b, workers[..|workers| - 1]);
    }
  }

  /** In every interleaving: the shared allowance never throws, at most six probes of the
      request are in flight, and a request whose workers have all stopped without a fatal
      error has exactly one item for every target. */
  lemma BulkIsSafe(r: Request, steps: seq<Step>, b: Bulk)
    requires WellFormed(r) && Reaches(r, steps, b)
    ensures forall step :: Enabled(r, b, step) ==> Perform(r, b, step).Some?
    ensures TotalInFlight(b.workers) <= BRC1_PERMIT_LIMIT
    ensures !b.aborted && (forall w :: 0 <= w < |b.workers| ==> b.workers[w].Stopped?) ==>
              forall t: nat :: t in b.items <==> t < |r.valid|
  {
    ReachableIsOk(r, steps, b);
    forall step | Enabled(r, b, step)
      ensures Perform(r, b, step).Some?
    {
      StepKeepsOk(r, b, step);
    }
    InFlightBound(r, b, b.workers);
    if !b.aborted && forall w :: 0 <= w < |b.workers| ==> b.workers[w].Stopped? {
      assert b.workers[0].Stopped?;
    }
  }

  // ------------------------------------------------- a resolver's probes are such steps

  /** One worker's probes, as its resolver makes them. */
  function ProbeSteps(trace: seq<ProbeEvent>, w: nat): (steps: seq<Step>)
    ensures |steps| == |trace|
  {
    seq(|trace|, i requires 0 <= i < |trace| => if trace[i].Started? then StartProbe(w) else SettleProbe(w))
  }

  predicate AllEnabled(r: Request, b: Bulk, steps: seq<Step>)
    decreases |steps|
  {
    steps == [] ||
    (Enabled(r, b, steps[0]) && Perform(r, b, steps[0]).Some? && AllEnabled(r, Perform(r, b, steps[0]).value, steps[1..]))
  }

  lemma {:induction false} NeverMorePrefix(trace: seq<ProbeEvent>, limit: int, n: nat)
    requires n <= |trace| && NeverMoreThan(trace, limit)
    ensures NeverMoreThan(trace[..n], limit)
    ensures |StartedIds(trace[..n])| <= |StartedIds(trace)|
    decreases |trace|
  {
    if n == |trace| {
      assert trace[..n] == trace;
    } else {
      NeverMorePrefix(trace[..|trace| - 1], limit, n);
      assert trace[..|trace| - 1][..n] == trace[..n];
    }
  }

  /** Every probe a resolver starts or sees settle, in any trace its contract allows, is a
      step enabled here: below the 33 probes and the width before each start, above zero in
      flight before each settlement. */
  lemma TraceIsAllowed(trace: seq<ProbeEvent>, limit: int, projected: int, n: nat)
    requires CleanExit(trace, limit, projected) && n < |trace|
    ensures trace[n].Started? ==> |StartedIds(trace[..n])| < RESOLVER_MAX_PROBES && InFlight(trace[..n]) < limit
    ensures trace[n].Settled? ==> InFlight(trace[..n]) > 0
  {
    NeverMorePrefix(trace, limit, n + 1);
    var longer := trace[..n + 1];
    assert longer[..|longer| - 1] == trace[..n];
  }

  /** The worker after part of its resolver's trace. */
  predicate Follows(b: Bulk, w: nat, trace: seq<ProbeEvent>, n: nat)
    requires n <= |trace|
  {
    && w < |b.workers| && b.workers[w].Resolving?
    && b.workers[w].started == |StartedIds(trace[..n])|
    && b.workers[w].inFlight == InFlight(trace[..n])
  }

  /** Once a worker has claimed a target, its resolver's whole trace runs through, the
      allowance paying for every probe, and leaves it free to finish. */
  lemma {:induction false} ResolverRunsThrough(r: Request, b: Bulk, w: nat, trace: seq<ProbeEvent>, projected: int, n: nat)
    requires Invariant(r, b) && n <= |trace| && CleanExit(trace, r.width, projected) && Follows(b, w, trace, n)
    ensures AllEnabled(r, b, ProbeSteps(trace, w)[n..])
    decreases |trace| - n
  {
    var steps := ProbeSteps(trace, w)[n..];
    if n < |trace| {
      TraceIsAllowed(trace, r.width, projected, n);
      var longer := trace[..n + 1];
      assert longer[..|longer| - 1] == trace[..n];
      assert steps[0] == ProbeSteps(trace, w)[n] && steps[1..] == ProbeSteps(trace, w)[n + 1..];
      StepKeepsOk(r, b, steps[0]);
      ResolverRunsThrough(r, Perform(r, b, steps[0]).value, w, trace, projected, n + 1);
    }
  }
}
