/** The automation worker (apps/automation-worker/src/runtime/worker.ts) and any number of
    them on one stream, with cancellation, crashes and time: an entry is acknowledged only
    once it needs no more work. */
module AutomationWorkers {
  import opened Prelude
  import opened StreamGroups
  import opened StreamReclaims
  import opened JobEvents

  // ------------------------------------------------------- one run of one job

  datatype Reason = Requested | Deadline | Shutdown | LeaseLost

  /** A thrown error, as the catch block tells them apart. */
  datatype JobError = JobError(leaseLost: bool, retryable: bool)

  /** A message as it was handed to the worker. */
  datatype Delivery = Delivery(id: nat, deliveryCount: nat)

  /** A job being worked on; the first reason to cancel it stands. */
  datatype Run = Run(delivery: Delivery, job: Job, cancelled: Option<Reason>)

  function CancelWith(run: Run, reason: Reason): Run {
    if run.cancelled.Some? then run else run.(cancelled := Some(reason))
  }

  predicate Names(run: Run, jobId: string, accountId: string, fence: int) {
    run.job.jobId == jobId && run.job.accountId == accountId && run.job.fence == fence
  }

  /** How the try and catch blocks end: with a terminal event published, by leaving the
      entry pending, or with an error of their own. */
  datatype Ending = Publishes(kind: EventType) | LeavesPending | Rejects

  /** `failure` is the error thrown before the success event is out, if any; `published`
      tells whether the catch block's own event gets out. */
  function EndingOf(run: Run, failure: Option<JobError>, published: bool, maxDeliveryCount: nat): Ending {
    if failure.None? then Publishes(Succeeded)
    else if run.cancelled == Some(Shutdown) || run.cancelled == Some(LeaseLost) || failure.value.leaseLost then LeavesPending
    else if run.cancelled.Some? then (if published then Publishes(CancelledEvent) else Rejects)
    else if failure.value.retryable && run.delivery.deliveryCount < maxDeliveryCount then LeavesPending
    else if published then Publishes(FailedEvent)
    else Rejects
  }

  // ------------------------------------------------------------- one worker

  /** What a worker is doing. Messages it fetched are handled one after the other. */
  datatype Phase =
    | Fetched(queue: seq<Delivery>)
    | Discarding(id: nat, rest: seq<Delivery>)
    | Leasing(delivery: Delivery, job: Job, rest: seq<Delivery>)
    | Working(run: Run, rest: seq<Delivery>)
    | Settled(run: Run, kind: EventType, rest: seq<Delivery>)
    | Leaving(run: Run, rest: seq<Delivery>)

  /** The steps of handling one message, between which anything else may happen. */
  datatype LocalStep =
    | OpenInvalid
    | OpenJob(job: Job)
    | LeaseDenied
    | LeaseGranted
    | EndAttempt(failure: Option<JobError>, published: bool)
    | Acknowledge
    | Release

  /** An error the routine does not catch ends the consumer loop: the rest of the batch is
      dropped once the run has been left. */
  function AfterAttempt(run: Run, rest: seq<Delivery>, ending: Ending): Phase {
    match ending
    case Publishes(kind) => Settled(run, kind, rest)
    case LeavesPending => Leaving(run, rest)
    case Rejects => Leaving(run, [])
  }

  function LocalNext(phase: Phase, step: LocalStep, maxDeliveryCount: nat): Option<Phase> {
    match (phase, step)
    case (Fetched(queue), OpenInvalid) => if queue == [] then None else Some(Discarding(queue[0].id, queue[1..]))
    case (Fetched(queue), OpenJob(job)) => if queue == [] then None else Some(Leasing(queue[0], job, queue[1..]))
    case (Discarding(_, rest), Acknowledge) => Some(Fetched(rest))
    case (Leasing(_, _, rest), LeaseDenied) => Some(Fetched(rest))
    case (Leasing(delivery, job, rest), LeaseGranted) => Some(Working(Run(delivery, job, None), rest))
    case (Working(run, rest), EndAttempt(failure, published)) =>
      Some(AfterAttempt(run, rest, EndingOf(run, failure, published, maxDeliveryCount)))
    case (Settled(run, _, rest), Acknowledge) => Some(Leaving(run, rest))
    case (Leaving(_, rest), Release) => Some(Fetched(rest))
    case _ => None
  }

  /** The run listed as active, whose token a cancellation reaches. */
  function Active(phase: Phase): Option<Run> {
    match phase
    case Working(run, _) => Some(run)
    case Settled(run, _, _) => Some(run)
    case Leaving(run, _) => Some(run)
    case _ => None
  }

  /** A token cancelled after the attempt has ended is not looked at any more. */
  function Interrupt(phase: Phase, reason: Reason): Phase {
    if phase.Working? then Working(CancelWith(phase.run, reason), phase.rest) else phase
  }

  /** The worker object: the phase of its loop and the jobs it lists as active. */
  class AutomationWorker {
    const maxDeliveryCount: nat
    var phase: Phase
    var active: map<string, Run>

    ghost predicate Valid()
      reads this
    {
      match Active(phase)
      case None => active == map[]
      case Some(run) => active.Keys == {run.job.jobId} && active[run.job.jobId].job == run.job
                        && (phase.Working? ==> active[run.job.jobId] == run)
    }

    constructor (maxDeliveryCount: nat)
      ensures Valid() && phase == Fetched([]) && this.maxDeliveryCount == maxDeliveryCount
    {
      this.maxDeliveryCount := maxDeliveryCount;
      phase := Fetched([]);
      active := map[];
    }

    /** A cancellation arrives between two steps; the catch block will read it. */
    method RequestFencedCancel(jobId: string, accountId: string, fence: int) returns (found: bool)
      requires Valid()
      modifies this
      ensures Valid()
      ensures found <==> Active(old(phase)).Some? && Names(Active(old(phase)).value, jobId, accountId, fence)
      ensures phase == if found then Interrupt(old(phase), Requested) else old(phase)
    {
      if jobId !in active || active[jobId].job.accountId != accountId || active[jobId].job.fence != fence {
        return false;
      }
      Cancel(Requested);
      found := true;
    }

    /** The token of the current run: its deadline, a shutdown, a lost lease, a request. */
    method Cancel(reason: Reason)
      requires Valid() && Active(phase).Some?
      modifies this
      ensures Valid() && phase == Interrupt(old(phase), reason)
    {
      var jobId := Active(phase).value.job.jobId;
      active := active[jobId := CancelWith(active[jobId], reason)];
      if phase.Working? {
        phase := Working(active[jobId], phase.rest);
      }
    }

    /** The lease is held: the run is listed and its token made. */
    method BeginRun()
      requires Valid() && phase.Leasing?
      modifies this
      ensures Valid() && Some(phase) == LocalNext(old(phase), LeaseGranted, maxDeliveryCount)
    {
      var run := Run(phase.delivery, phase.job, None);
      active := active[run.job.jobId := run];
      phase := Working(run, phase.rest);
    }

    /** The try block ends, with or without an error. The catch block decides on the reason
        found in the token. */
    method EndRun(failure: Option<JobError>, published: bool)
      requires Valid() && phase.Working?
      modifies this
      ensures Valid() && Some(phase) == LocalNext(old(phase), EndAttempt(failure, published), maxDeliveryCount)
    {
      var run, rest := phase.run, phase.rest;
      var reason := active[run.job.jobId].cancelled;
      assert reason.Some? ==> reason.value.Requested? || reason.value.Deadline? || reason.value.Shutdown? || reason.value.LeaseLost?;
      if failure.None? {
        phase := Settled(run, Succeeded, rest);
        return;
      }
      if reason == Some(Shutdown) || reason == Some(LeaseLost) || failure.value.leaseLost {
        phase := Leaving(run, rest);
        return;
      }
      if reason == Some(Requested) || reason == Some(Deadline) {
        phase := if published then Settled(run, CancelledEvent, rest) else Leaving(run, []);
        return;
      }
      var retryable := failure.value.retryable && run.delivery.deliveryCount < maxDeliveryCount;
      if retryable {
        phase := Leaving(run, rest);
        return;
      }
      phase := if published then Settled(run, FailedEvent, rest) else Leaving(run, []);
    }

    /** The finally block: the lease is given back and the run no longer listed. */
    method LeaveRun()
      requires Valid() && phase.Leaving?
      modifies this
      ensures Valid() && Some(phase) == LocalNext(old(phase), Release, maxDeliveryCount)
    {
      active := active - {phase.run.job.jobId};
      phase := Fetched(phase.rest);
    }
  }

  // --------------------------------------------------- all workers, interleaved

  /** What an entry's envelope holds once opened. */
  type Envelopes = nat -> Option<Job>

  /** A terminal event, with the run that published it. */
  datatype Terminal = Terminal(run: Run, kind: EventType, failure: Option<JobError>)

  datatype System = System(clock: int, stream: GroupRun, workers: seq<Phase>, terminals: set<Terminal>)

  datatype Config = Config(envelopes: Envelopes, maxDeliveryCount: nat)

  datatype Step =
    | Produce(fields: Fields)
    | ProduceElsewhere
    | Read(w: nat, consumer: string, count: nat, aborted: bool)
    | Reclaim(w: nat, consumer: string, count: nat, minIdleMs: int, aborted: bool)
    | Local(w: nat, step: LocalStep)
    | FencedCancel(w: nat, jobId: string, accountId: string, fence: int)
    | CancelRun(w: nat, reason: Reason)
    | Crash(w: nat)
    | Tick(to: int)

  /** Not a job any more: the envelope is missing or invalid, or the job has expired. */
  predicate NotAJob(c: Config, id: nat, clock: int) {
    c.envelopes(id).None? || c.envelopes(id).value.expiresAt <= clock
  }

  /** A terminal event was published by handling this very entry. */
  ghost predicate Concluded(terminals: set<Terminal>, id: nat) {
    exists t :: t in terminals && t.run.delivery.id == id
  }

  ghost predicate Finished(c: Config, id: nat, clock: int, terminals: set<Terminal>) {
    NotAJob(c, id, clock) || Concluded(terminals, id)
  }

  function Deliveries(ps: seq<Pending>): (ds: seq<Delivery>)
    ensures |ds| == |ps|
    ensures forall i :: 0 <= i < |ps| ==> ds[i] == Delivery(ps[i].id, ps[i].deliveryCount)
  {
    seq(|ps|, i requires 0 <= i < |ps| => Delivery(ps[i].id, ps[i].deliveryCount))
  }

  predicate Enabled(c: Config, s: System, step: Step) {
    match step
    case Produce(_) => true
    case ProduceElsewhere => true
    case Read(w, _, _, _) => w < |s.workers| && s.workers[w] == Fetched([])
    case Reclaim(w, _, _, _, _) => w < |s.workers| && s.workers[w] == Fetched([])
    case Local(w, local) =>
      && w < |s.workers|
      && LocalNext(s.workers[w], local, c.maxDeliveryCount).Some?
      && (local.OpenInvalid? ==> NotAJob(c, s.workers[w].queue[0].id, s.clock))
      && (local.OpenJob? ==> !NotAJob(c, s.workers[w].queue[0].id, s.clock) && c.envelopes(s.workers[w].queue[0].id) == Some(local.job))
    case FencedCancel(w, _, _, _) => w < |s.workers|
    case CancelRun(w, _) => w < |s.workers|
    case Crash(w) => w < |s.workers|
    case Tick(to) => s.clock <= to
  }

  function Published(phase: Phase, step: LocalStep, maxDeliveryCount: nat): set<Terminal> {
    if !phase.Working? || !step.EndAttempt? then {}
    else
      var ending := EndingOf(phase.run, step.failure, step.published, maxDeliveryCount);
      if ending.Publishes? then {Terminal(phase.run, ending.kind, step.failure)} else {}
  }

  function Acknowledged(phase: Phase): Option<nat> {
    match phase
    case Discarding(id, _) => Some(id)
    case Settled(run, _, _) => Some(run.delivery.id)
    case _ => None
  }

  function PerformLocal(c: Config, s: System, w: nat, local: LocalStep): System
    requires Fits(s.stream.entries, s.stream.group) && Enabled(c, s, Local(w, local))
  {
    var phase := s.workers[w];
    var moved := s.(workers := s.workers[w := LocalNext(phase, local, c.maxDeliveryCount).value],
                    terminals := s.terminals + Published(phase, local, c.maxDeliveryCount));
    if local.Acknowledge? && Acknowledged(phase).Some? then
      moved.(stream := StepGroup(s.stream, AckOp(Acknowledged(phase).value), s.clock))
    else moved
  }

  function Perform(c: Config, s: System, step: Step): System
    requires Fits(s.stream.entries, s.stream.group)
    requires Enabled(c, s, step)
  {
    match step
    case Produce(fields) => s.(stream := StepGroup(s.stream, AddOp(fields), s.clock))
    case ProduceElsewhere => s.(stream := StepGroup(s.stream, AddElsewhereOp, s.clock))
    case Read(w, consumer, count, aborted) =>
      s.(stream := StepGroup(s.stream, ReadOp(consumer, count), s.clock),
         workers := s.workers[w := Fetched(if aborted then []
                                           else Deliveries(FreshDeliveries(s.stream.entries, s.stream.group, consumer, count, s.clock)))])
    case Reclaim(w, consumer, count, minIdleMs, aborted) =>
      s.(stream := StepGroup(s.stream, ReclaimOp(consumer, count, minIdleMs), s.clock),
         workers := s.workers[w := Fetched(if aborted then []
                                           else Deliveries(Reclaimed(s.stream.group.pending, consumer, count, minIdleMs, s.clock)))])
    case Local(w, local) => PerformLocal(c, s, w, local)
    case FencedCancel(w, jobId, accountId, fence) =>
      if Active(s.workers[w]).Some? && Names(Active(s.workers[w]).value, jobId, accountId, fence)
      then s.(workers := s.workers[w := Interrupt(s.workers[w], Requested)]) else s
    case CancelRun(w, reason) => s.(workers := s.workers[w := Interrupt(s.workers[w], reason)])
    case Crash(w) => s.(workers := s.workers[w := Fetched([])])
    case Tick(to) => s.(clock := to)
  }

  // ------------------------------------------------------------------ invariant

  /** What a published terminal event tells of the run that published it. */
  predicate TerminalOk(t: Terminal, maxDeliveryCount: nat) {
    && IsTerminal(t.kind)
    && (t.kind == Succeeded <==> t.failure.None?)
    && (t.kind != Succeeded ==>
          && t.failure.Some? && !t.failure.value.leaseLost
          && t.run.cancelled != Some(Shutdown) && t.run.cancelled != Some(LeaseLost))
    && (t.kind == CancelledEvent ==> t.run.cancelled == Some(Requested) || t.run.cancelled == Some(Deadline))
    && (t.kind == FailedEvent ==>
          && t.run.cancelled.None?
          && (t.failure.value.retryable ==> maxDeliveryCount <= t.run.delivery.deliveryCount))
  }

  ghost predicate PhaseOk(c: Config, s: System, phase: Phase) {
    match phase
    case Discarding(id, _) => NotAJob(c, id, s.clock)
    case Settled(run, _, _) => Concluded(s.terminals, run.delivery.id)
    case _ => true
  }

  ghost predicate Invariant(c: Config, s: System) {
    && RunOk(s.stream)
    && (forall w :: 0 <= w < |s.workers| ==> PhaseOk(c, s, s.workers[w]))
    && (forall t :: t in s.terminals ==> TerminalOk(t, c.maxDeliveryCount))
    && (forall id :: id in s.stream.acked ==> Finished(c, id, s.clock, s.terminals))
  }

  lemma PublishedIsOk(phase: Phase, step: LocalStep, maxDeliveryCount: nat)
    ensures forall t :: t in Published(phase, step, maxDeliveryCount) ==> TerminalOk(t, maxDeliveryCount)
    ensures var next := LocalNext(phase, step, maxDeliveryCount);
            next.Some? && next.value.Settled? ==>
              step.EndAttempt? && Terminal(next.value.run, next.value.kind, step.failure) in Published(phase, step, maxDeliveryCount)
  {
    if phase.Working? && phase.run.cancelled.Some? {
      var reason := phase.run.cancelled.value;
      assert reason.Requested? || reason.Deadline? || reason.Shutdown? || reason.LeaseLost?;
    }
  }

  lemma MoreTerminals(terminals: set<Terminal>, more: set<Terminal>, id: nat)
    requires terminals <= more && Concluded(terminals, id)
    ensures Concluded(more, id)
  {
    var t :| t in terminals && t.run.delivery.id == id;
    assert t in more;
  }

  lemma LocalKeepsPhases(c: Config, s: System, w: nat, local: LocalStep, v: nat)
    requires Invariant(c, s) && Enabled(c, s, Local(w, local)) && v < |s.workers|
    ensures PhaseOk(c, PerformLocal(c, s, w, local), PerformLocal(c, s, w, local).workers[v])
  {
    var t := PerformLocal(c, s, w, local);
    PublishedIsOk(s.workers[w], local, c.maxDeliveryCount);
    assert PhaseOk(c, s, s.workers[v]);
    if t.workers[v].Settled? {
      if v == w {
        var next := t.workers[w];
        assert Terminal(next.run, next.kind, local.failure) in t.terminals;
      } else {
        MoreTerminals(s.terminals, t.terminals, s.workers[v].run.delivery.id);
      }
    }
  }

  lemma LocalKeepsAcks(c: Config, s: System, w: nat, local: LocalStep, id: nat)
    requires Invariant(c, s) && Enabled(c, s, Local(w, local))
    requires id in PerformLocal(c, s, w, local).stream.acked
    ensures Finished(c, id, s.clock, PerformLocal(c, s, w, local).terminals)
  {
    var t := PerformLocal(c, s, w, local);
    assert PhaseOk(c, s, s.workers[w]);
    if id in s.stream.acked && !NotAJob(c, id, s.clock) {
      MoreTerminals(s.terminals, t.terminals, id);
    } else if id !in s.stream.acked && s.workers[w].Settled? {
      MoreTerminals(s.terminals, t.terminals, id);
    }
  }

  lemma LocalKeepsInvariant(c: Config, s: System, w: nat, local: LocalStep)
    requires Invariant(c, s) && Enabled(c, s, Local(w, local))
    ensures Invariant(c, PerformLocal(c, s, w, local))
  {
    var phase, t := s.workers[w], PerformLocal(c, s, w, local);
    if local.Acknowledge? && Acknowledged(phase).Some? {
      StepKeepsRunOk(s.stream, AckOp(Acknowledged(phase).value), s.clock);
    }
    PublishedIsOk(phase, local, c.maxDeliveryCount);
    forall v: nat | v < |t.workers|
      ensures PhaseOk(c, t, t.workers[v])
    {
      LocalKeepsPhases(c, s, w, local, v);
    }
    forall id | id in t.stream.acked
      ensures Finished(c, id, t.clock, t.terminals)
    {
      LocalKeepsAcks(c, s, w, local, id);
    }
  }

  lemma StreamStepKeepsInvariant(c: Config, s: System, step: Step)
    requires Invariant(c, s) && Enabled(c, s, step)
    requires step.Produce? || step.ProduceElsewhere? || step.Read? || step.Reclaim?
    ensures Invariant(c, Perform(c, s, step))
  {
    match step
    case Produce(fields) => StepKeepsRunOk(s.stream, AddOp(fields), s.clock);
    case ProduceElsewhere => StepKeepsRunOk(s.stream, AddElsewhereOp, s.clock);
    case Read(_, consumer, count, _) => StepKeepsRunOk(s.stream, ReadOp(consumer, count), s.clock);
    case Reclaim(_, consumer, count, minIdleMs, _) => StepKeepsRunOk(s.stream, ReclaimOp(consumer, count, minIdleMs), s.clock);
  }

  lemma StepKeepsInvariant(c: Config, s: System, step: Step)
    requires Invariant(c, s) && Enabled(c, s, step)
    ensures Invariant(c, Perform(c, s, step))
  {
    match step
    case Local(w, local) => LocalKeepsInvariant(c, s, w, local);
    case FencedCancel(w, _, _, _) => assert PhaseOk(c, s, s.workers[w]);
    case CancelRun(w, _) => assert PhaseOk(c, s, s.workers[w]);
    case Crash(_) =>
    case Tick(_) =>
    case _ => StreamStepKeepsInvariant(c, s, step);
  }

  ghost predicate StepsTo(c: Config, before: System, step: Step, s: System) {
    Fits(before.stream.entries, before.stream.group) && Enabled(c, before, step) && Perform(c, before, step) == s
  }

  /** The states any interleaving of producers, workers, cancellations, crashes and time
      can reach. */
  ghost predicate Reaches(c: Config, workers: nat, steps: seq<Step>, s: System) {
    if steps == [] then s == System(0, GroupRun(0, [], Group(-1, []), {}, []), seq(workers, _ => Fetched([])), {})
    else exists before :: Reaches(c, workers, Front(steps), before) && StepsTo(c, before, Last(steps), s)
  }

  /** No job is lost. With any number of workers, cancellations, crashes, aborted reads and
      reclaims: each stream entry is exactly one of undelivered, pending and acknowledged;
      first deliveries follow the stream without repeats; an acknowledged entry was no job
      any more, or handling it published a terminal event; and every terminal event fits
      the run that published it. */
  lemma {:induction false} NoJobIsLost(c: Config, workers: nat, steps: seq<Step>, s: System)
    requires Reaches(c, workers, steps, s)
    ensures Invariant(c, s)
  {
    if steps != [] {
      var before :| Reaches(c, workers, Front(steps), before) && StepsTo(c, before, Last(steps), s);
      NoJobIsLost(c, workers, Front(steps), before);
      StepKeepsInvariant(c, before, Last(steps));
    }
  }

  // ---------------------------------------------------------------- cancellation

  /** A fenced request changes nothing but the token of a run it names with job, account
      and fence, and only while that run is still working and not yet cancelled. */
  lemma FencedCancelReachesOnlyItsRun(c: Config, s: System, w: nat, jobId: string, accountId: string, fence: int)
    requires Fits(s.stream.entries, s.stream.group) && w < |s.workers|
    ensures var t := Perform(c, s, FencedCancel(w, jobId, accountId, fence));
            && t.stream == s.stream && t.terminals == s.terminals && t.clock == s.clock
            && |t.workers| == |s.workers|
            && (forall v :: 0 <= v < |s.workers| && v != w ==> t.workers[v] == s.workers[v])
            && (t.workers[w] != s.workers[w] <==>
                  s.workers[w].Working? && s.workers[w].run.cancelled.None?
                  && var job := s.workers[w].run.job; job.jobId == jobId && job.accountId == accountId && job.fence == fence)
            && (t.workers[w] != s.workers[w] ==>
                  t.workers[w] == Working(s.workers[w].run.(cancelled := Some(Requested)), s.workers[w].rest))
  {
  }

  /** So with a deadline, a shutdown or a lost lease: the first reason stands. */
  lemma FirstReasonStands(c: Config, s: System, w: nat, reason: Reason)
    requires Fits(s.stream.entries, s.stream.group) && w < |s.workers|
    ensures var t, phase := Perform(c, s, CancelRun(w, reason)), s.workers[w];
            if phase.Working? && phase.run.cancelled.None?
            then OnlyMoves(s, t, w, Working(phase.run.(cancelled := Some(reason)), phase.rest), {})
            else t == s
  {
  }

  /** Worker `w` works on a cancelled run. Whatever step comes next, the run is as it was,
      or it ended with a cancelled or a succeeded event of its own, or its entry is left as
      it was in the group. */
  lemma CancelledRunStep(c: Config, s: System, w: nat, step: Step)
    requires Fits(s.stream.entries, s.stream.group) && Enabled(c, s, step)
    requires w < |s.workers| && s.workers[w].Working? && s.workers[w].run.cancelled.Some?
    ensures var t, run := Perform(c, s, step), s.workers[w].run;
            || t.workers[w] == s.workers[w]
            || (&& t.workers[w].Settled? && t.workers[w].run == run
                && (t.workers[w].kind == CancelledEvent || t.workers[w].kind == Succeeded)
                && exists f :: Terminal(run, t.workers[w].kind, f) in t.terminals)
            || ((t.workers[w].Leaving? || step == Crash(w)) && t.stream == s.stream && t.terminals == s.terminals)
  {
    if step.Local? && step.w == w {
      var ending := EndingOf(s.workers[w].run, step.step.failure, step.step.published, c.maxDeliveryCount);
      if ending.Publishes? {
        assert Terminal(s.workers[w].run, ending.kind, step.step.failure) in Perform(c, s, step).terminals;
      }
    }
  }

  /** In every run: no failed event is ever published for a cancelled run, and a cancelled
      event only for one that was asked to stop or ran out of time. */
  lemma CancelledRunsNeverFail(c: Config, workers: nat, steps: seq<Step>, s: System, t: Terminal)
    requires Reaches(c, workers, steps, s) && t in s.terminals
    ensures t.run.cancelled.Some? ==> t.kind != FailedEvent
    ensures t.kind == CancelledEvent ==> t.run.cancelled == Some(Requested) || t.run.cancelled == Some(Deadline)
  {
    NoJobIsLost(c, workers, steps, s);
    assert TerminalOk(t, c.maxDeliveryCount);
  }

  // ------------------------------------------------------ what each step comes to

  /** Nothing but the one worker's phase, and the terminal events given, has changed. */
  predicate OnlyMoves(s: System, t: System, w: nat, phase: Phase, terminals: set<Terminal>)
    requires w < |s.workers|
  {
    t == System(s.clock, s.stream, s.workers[w := phase], s.terminals + terminals)
  }

  /** The end of an attempt, case by case. A lost lease, thrown or noticed, and a shutdown
      publish nothing and leave the entry pending. */
  lemma AttemptEnds(c: Config, s: System, w: nat, failure: Option<JobError>, published: bool)
    requires Fits(s.stream.entries, s.stream.group) && w < |s.workers| && s.workers[w].Working?
    ensures var run, rest := s.workers[w].run, s.workers[w].rest;
            var t := Perform(c, s, Local(w, EndAttempt(failure, published)));
            match failure
            case None => OnlyMoves(s, t, w, Settled(run, Succeeded, rest), {Terminal(run, Succeeded, None)})
            case Some(error) =>
              if error.leaseLost || run.cancelled == Some(LeaseLost) || run.cancelled == Some(Shutdown) then
                OnlyMoves(s, t, w, Leaving(run, rest), {})
              else if run.cancelled == Some(Requested) || run.cancelled == Some(Deadline) then
                if published then OnlyMoves(s, t, w, Settled(run, CancelledEvent, rest), {Terminal(run, CancelledEvent, failure)})
                else OnlyMoves(s, t, w, Leaving(run, []), {})
              else if error.retryable && run.delivery.deliveryCount < c.maxDeliveryCount then
                OnlyMoves(s, t, w, Leaving(run, rest), {})
              else if published then OnlyMoves(s, t, w, Settled(run, FailedEvent, rest), {Terminal(run, FailedEvent, failure)})
              else OnlyMoves(s, t, w, Leaving(run, []), {})
  {
    var run := s.workers[w].run;
    if run.cancelled.Some? {
      var reason := run.cancelled.value;
      assert reason.Requested? || reason.Deadline? || reason.Shutdown? || reason.LeaseLost?;
    }
  }

  /** In every run: no event but success is ever published for a failure that lost the lease,
      or for a run that was cancelled by a shutdown or a lost lease. */
  lemma LostLeasesPublishNothing(c: Config, workers: nat, steps: seq<Step>, s: System, t: Terminal)
    requires Reaches(c, workers, steps, s) && t in s.terminals
    ensures t.failure.Some? ==> !t.failure.value.leaseLost
    ensures t.run.cancelled == Some(Shutdown) || t.run.cancelled == Some(LeaseLost) ==> t.kind == Succeeded
  {
    NoJobIsLost(c, workers, steps, s);
    assert TerminalOk(t, c.maxDeliveryCount);
  }

  /** A message is discarded unopened exactly if it holds no job, or one that has expired;
      otherwise the job it holds is opened. */
  lemma OpensIff(c: Config, s: System, w: nat, job: Job)
    requires w < |s.workers| && s.workers[w].Fetched? && s.workers[w].queue != []
    ensures var id := s.workers[w].queue[0].id;
            && (Enabled(c, s, Local(w, OpenInvalid)) <==> c.envelopes(id).None? || c.envelopes(id).value.expiresAt <= s.clock)
            && (Enabled(c, s, Local(w, OpenJob(job))) <==> c.envelopes(id) == Some(job) && s.clock < job.expiresAt)
  {
  }

  /** The steps around an attempt: what is opened is leased or passed over, a lease starts a
      run of this very delivery that nobody has cancelled, and leaving goes on with the rest. */
  lemma AroundTheAttempt(c: Config, s: System, w: nat, job: Job)
    requires Fits(s.stream.entries, s.stream.group) && w < |s.workers|
    ensures Enabled(c, s, Local(w, OpenInvalid)) ==>
              OnlyMoves(s, Perform(c, s, Local(w, OpenInvalid)), w, Discarding(s.workers[w].queue[0].id, s.workers[w].queue[1..]), {})
    ensures Enabled(c, s, Local(w, OpenJob(job))) ==>
              OnlyMoves(s, Perform(c, s, Local(w, OpenJob(job))), w, Leasing(s.workers[w].queue[0], job, s.workers[w].queue[1..]), {})
    ensures s.workers[w].Leasing? ==>
              var delivery, theJob, rest := s.workers[w].delivery, s.workers[w].job, s.workers[w].rest;
              && OnlyMoves(s, Perform(c, s, Local(w, LeaseDenied)), w, Fetched(rest), {})
              && OnlyMoves(s, Perform(c, s, Local(w, LeaseGranted)), w, Working(Run(delivery, theJob, None), rest), {})
    ensures s.workers[w].Leaving? ==> OnlyMoves(s, Perform(c, s, Local(w, Release)), w, Fetched(s.workers[w].rest), {})
  {
  }

  /** An acknowledgement takes the message's own entry out of the pending ones, once, and
      touches nothing else in the stream. */
  lemma AcknowledgesItsEntry(c: Config, s: System, w: nat)
    requires Invariant(c, s) && w < |s.workers|
    requires s.workers[w].Discarding? || s.workers[w].Settled?
    ensures var phase, t := s.workers[w], Perform(c, s, Local(w, Acknowledge));
            var id := if phase.Discarding? then phase.id else phase.run.delivery.id;
            && PendingIds(t.stream.group.pending) == PendingIds(s.stream.group.pending) - {id}
            && t.stream.acked == s.stream.acked + (PendingIds(s.stream.group.pending) * {id})
            && t.stream.group.lastIndex == s.stream.group.lastIndex && t.stream.entries == s.stream.entries
            && t.terminals == s.terminals && t.clock == s.clock
            && t.workers == s.workers[w := if phase.Discarding? then Fetched(phase.rest) else Leaving(phase.run, phase.rest)]
  {
    var phase := s.workers[w];
    WithoutIds(s.stream.group.pending, if phase.Discarding? then phase.id else phase.run.delivery.id);
  }

  /** Only a worker with nothing left to do fetches. An aborted fetch has claimed its entries
      all the same. */
  lemma FetchesWhenIdle(c: Config, s: System, w: nat, consumer: string, count: nat, aborted: bool)
    requires Fits(s.stream.entries, s.stream.group) && w < |s.workers|
    ensures Enabled(c, s, Read(w, consumer, count, aborted)) <==> s.workers[w] == Fetched([])
    ensures s.workers[w] == Fetched([]) ==>
              var t, first := Perform(c, s, Read(w, consumer, count, aborted)), s.stream.group.lastIndex + 1;
              && t.stream.group.lastIndex == Min(s.stream.group.lastIndex + count, |s.stream.entries| - 1)
              && t.workers[w].Fetched?
              && |t.workers[w].queue| == (if aborted then 0 else t.stream.group.lastIndex + 1 - first)
              && forall i :: 0 <= i < |t.workers[w].queue| ==> t.workers[w].queue[i] == Delivery(s.stream.entries[first + i].id, 1)
  {
    if s.workers[w] == Fetched([]) {
      var t := Perform(c, s, Read(w, consumer, count, aborted));
      var claimed := FreshDeliveries(s.stream.entries, s.stream.group, consumer, count, s.clock);
      assert t.workers[w] == Fetched(if aborted then [] else Deliveries(claimed));
      assert t.stream.group == StreamGroups.Read(s.stream.entries, s.stream.group, consumer, count, s.clock);
    }
  }

  /** A crash forgets what was fetched, but not what is pending. */
  lemma CrashForgets(c: Config, s: System, w: nat)
    requires Fits(s.stream.entries, s.stream.group) && w < |s.workers|
    ensures OnlyMoves(s, Perform(c, s, Crash(w)), w, Fetched([]), {})
  {
  }

  // --------------------------------------------------------------------- retries

  /** A retryable failure of a run nobody cancelled leaves its entry pending exactly while
      its deliveries have not been used up; the last one publishes the failure. */
  lemma RetryableStaysPendingIff(c: Config, s: System, w: nat)
    requires Fits(s.stream.entries, s.stream.group)
    requires w < |s.workers| && s.workers[w].Working? && s.workers[w].run.cancelled.None?
    ensures var run, step := s.workers[w].run, Local(w, EndAttempt(Some(JobError(false, true)), true));
            var t := Perform(c, s, step);
            && (t.workers[w].Leaving? <==> run.delivery.deliveryCount < c.maxDeliveryCount)
            && (t.workers[w].Leaving? ==> t.stream == s.stream && t.terminals == s.terminals)
            && (!t.workers[w].Leaving? ==> t.workers[w] == Settled(run, FailedEvent, s.workers[w].rest))
  {
  }

  /** ... so in every run a retryable failure is published only at the last delivery. */
  lemma RetryableFailuresAreRetried(c: Config, workers: nat, steps: seq<Step>, s: System, t: Terminal)
    requires Reaches(c, workers, steps, s) && t in s.terminals && t.kind == FailedEvent
    ensures t.failure.Some? && (t.failure.value.retryable ==> c.maxDeliveryCount <= t.run.delivery.deliveryCount)
  {
    NoJobIsLost(c, workers, steps, s);
    assert TerminalOk(t, c.maxDeliveryCount);
  }

  // ------------------------------------------------------------------ redelivery

  /** A reclaim hands exactly the first `count` idle entries to the worker that asks. */
  lemma ReclaimHandsOutIff(c: Config, s: System, w: nat, consumer: string, count: nat, minIdleMs: int, i: nat)
    requires Invariant(c, s) && Enabled(c, s, Reclaim(w, consumer, count, minIdleMs, false))
    requires i < |s.stream.group.pending|
    ensures var p, queue := s.stream.group.pending[i], Perform(c, s, Reclaim(w, consumer, count, minIdleMs, false)).workers[w].queue;
            (exists k :: 0 <= k < |queue| && queue[k].id == p.id) <==> Taken(s.stream.group.pending, i, count, minIdleMs, s.clock)
    ensures var p, queue := s.stream.group.pending[i], Perform(c, s, Reclaim(w, consumer, count, minIdleMs, false)).workers[w].queue;
            forall k :: 0 <= k < |queue| && queue[k].id == p.id ==> queue[k].deliveryCount == p.deliveryCount + 1
  {
    var ps := s.stream.group.pending;
    var taken := Reclaimed(ps, consumer, count, minIdleMs, s.clock);
    var queue := Deliveries(taken);
    assert Perform(c, s, Reclaim(w, consumer, count, minIdleMs, false)).workers[w] == Fetched(queue);
    ReclaimRule(ps, consumer, count, minIdleMs, s.clock, i);
    if Taken(ps, i, count, minIdleMs, s.clock) {
      assert queue[IdleBefore(ps, i, minIdleMs, s.clock)].id == ps[i].id;
    }
    forall k | 0 <= k < |queue| && queue[k].id == ps[i].id
      ensures Taken(ps, i, count, minIdleMs, s.clock) && queue[k].deliveryCount == ps[i].deliveryCount + 1
    {
      var j := HandedOut(ps, consumer, count, minIdleMs, s.clock, k);
      assert ps[j].id == ps[i].id;
      assert NoDuplicates(ps);
    }
  }
}
