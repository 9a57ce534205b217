/** The refresh and activation limits over real time, in every run. */
module VnuRefreshRates {
  import opened Prelude
  import opened FixedWindows
  import opened VnuRefreshControl
  import opened VnuRefreshInvariants
  import opened VnuRefreshRuns

  function NextRefreshTimes(times: seq<int>, stored: Option<State>, e: Event): seq<int> {
    if Apply(stored, e.command, e.now).reply.BeginAccepted? then times + [e.clock] else times
  }

  /** When refreshes were accepted. */
  function RefreshTimes(run: seq<Event>): seq<int> {
    if run == [] then [] else NextRefreshTimes(RefreshTimes(Front(run)), Replay(Front(run)).stored, Last(run))
  }

  function NextActivationTimes(times: seq<int>, stored: Option<State>, e: Event): seq<int> {
    var t := Apply(stored, e.command, e.now);
    if t.reply.Activated? && t.changed then times + [e.clock] else times
  }

  /** When sign-ins that changed anything took effect. */
  function ActivationTimes(run: seq<Event>): seq<int> {
    if run == [] then [] else NextActivationTimes(ActivationTimes(Front(run)), Replay(Front(run)).stored, Last(run))
  }

  /** The grants so far are accounted for by the stored window, or by none at all. */
  predicate Accounted(times: seq<int>, window: Option<RefreshWindow>, clock: int, limit: nat, span: int) {
    && (forall i :: 0 <= i < |times| ==> times[i] <= clock)
    && match window
       case Some(w) => Tracks(times, w.count, w.resetAt, limit, span) && w.resetAt <= clock + span
       case None => Tracks(times, 0, clock + span, limit, span)
  }

  function StoredWindow(stored: Option<State>): Option<RefreshWindow> {
    if stored.Some? then Some(stored.value.window) else None
  }

  function StoredActivations(stored: Option<State>): Option<RefreshWindow> {
    if stored.Some? then stored.value.activationWindow else None
  }

  lemma TimePasses(times: seq<int>, window: Option<RefreshWindow>, clock: int, later: int, limit: nat, span: int)
    requires Accounted(times, window, clock, limit, span) && clock <= later
    ensures Accounted(times, window, later, limit, span)
  {
  }

  lemma CleaningKeepsTheWindow(times: seq<int>, stored: Option<State>, now: int, clock: int)
    requires Accounted(times, StoredWindow(stored), clock, 5, WINDOW_MS) && now <= clock
    requires stored.None? ==> now == clock
    ensures Accounted(times, Some(Clean(stored, now).window), clock, 5, WINDOW_MS)
    ensures now < Clean(stored, now).window.resetAt
  {
  }

  lemma CleaningKeepsTheActivations(times: seq<int>, stored: Option<State>, now: int, clock: int)
    requires Accounted(times, StoredActivations(stored), clock, 5, ACTIVATION_WINDOW_MS) && now <= clock
    requires StoredOk(stored)
    ensures Accounted(times, Clean(stored, now).activationWindow, clock, 5, ACTIVATION_WINDOW_MS)
  {
  }

  /** Only an accepted begin touches the refresh window, and it counts itself. */
  lemma WindowEffect(stored: Option<State>, command: Command, now: int)
    requires Apply(stored, command, now).changed
    ensures var t := Apply(stored, command, now);
            var w := Clean(stored, now).window;
            t.state.window == if t.reply.BeginAccepted? then RefreshWindow(w.count + 1, w.resetAt) else w
    ensures Apply(stored, command, now).reply.BeginAccepted? ==> command.BeginRefresh? && Clean(stored, now).window.count < ATTEMPT_LIMIT
  {
  }

  /** Only a sign-in touches the activation window, and it counts itself. */
  lemma ActivationEffect(stored: Option<State>, command: Command, now: int)
    requires Apply(stored, command, now).changed
    ensures var t := Apply(stored, command, now);
            var w := Clean(stored, now).activationWindow;
            t.state.activationWindow ==
            if !t.reply.Activated? then w
            else if w.Some? then Some(RefreshWindow(w.value.count + 1, w.value.resetAt))
            else Some(RefreshWindow(1, now + ACTIVATION_WINDOW_MS))
    ensures Apply(stored, command, now).reply.Activated? ==>
              && command.ActivatePair?
              && (Clean(stored, now).activationWindow.Some? ==>
                    Clean(stored, now).activationWindow.value.count < ACTIVATION_LIMIT)
  {
  }

  lemma OnlyBeginsAreAccepted(stored: Option<State>, command: Command, now: int)
    requires Apply(stored, command, now).reply.BeginAccepted?
    ensures command.BeginRefresh?
  {
  }

  lemma AcceptedBeginChanges(stored: Option<State>, command: Command, now: int)
    requires Apply(stored, command, now).reply.BeginAccepted?
    ensures Apply(stored, command, now).changed
  {
    OnlyBeginsAreAccepted(stored, command, now);
    var s := Clean(stored, now);
    assert stored.Some? ==> RefreshWindow(s.window.count + 1, s.window.resetAt) != stored.value.window;
  }

  lemma DeletingForgetsNothing(times: seq<int>, t: State, clock: int)
    requires Quiescent(t)
    requires Accounted(times, Some(t.window), clock, 5, WINDOW_MS)
    ensures Accounted(times, None, clock, 5, WINDOW_MS)
  {
    ForgetUnused(times, t.window.resetAt, clock + WINDOW_MS, 5, WINDOW_MS);
  }

  /** A step in the vocabulary of the rate argument: only the windows matter. */
  lemma RefreshStep(times: seq<int>, stored: Option<State>, e: Event, before: int)
    requires Accounted(times, StoredWindow(stored), before, 5, WINDOW_MS) && before <= e.clock
    requires e.now == e.clock || (e.command.CheckAccess? && e.now <= e.clock)
    ensures var t := Apply(stored, e.command, e.now);
            Accounted(NextRefreshTimes(times, stored, e), if t.changed then Some(t.state.window) else StoredWindow(stored), e.clock, 5, WINDOW_MS)
  {
    TimePasses(times, StoredWindow(stored), before, e.clock, 5, WINDOW_MS);
    var t := Apply(stored, e.command, e.now);
    if t.changed {
      WindowEffect(stored, e.command, e.now);
      CheckNeedsAState(stored, e.command, e.now);
      CleaningKeepsTheWindow(times, stored, e.now, e.clock);
      if t.reply.BeginAccepted? {
        CountRefresh(times, Clean(stored, e.now).window, e.now);
      }
    } else if t.reply.BeginAccepted? {
      AcceptedBeginChanges(stored, e.command, e.now);
    }
  }

  lemma CheckNeedsAState(stored: Option<State>, command: Command, now: int)
    ensures command.CheckAccess? && stored.None? ==> !Apply(stored, command, now).changed
  {
  }

  lemma CountRefresh(times: seq<int>, window: RefreshWindow, now: int)
    requires Accounted(times, Some(window), now, 5, WINDOW_MS)
    requires window.count < ATTEMPT_LIMIT && now < window.resetAt
    ensures Accounted(times + [now], Some(RefreshWindow(window.count + 1, window.resetAt)), now, 5, WINDOW_MS)
  {
    Grant(times, window.count, window.resetAt, 5, WINDOW_MS, now);
  }

  lemma PersistedWindow(times: seq<int>, cell: Cell, t: Transition, clock: int)
    requires Accounted(times, if t.changed then Some(t.state.window) else StoredWindow(cell.stored), clock, 5, WINDOW_MS)
    ensures Accounted(times, StoredWindow(Persist(cell, t).stored), clock, 5, WINDOW_MS)
  {
    if t.changed && Quiescent(t.state) {
      DeletingForgetsNothing(times, t.state, clock);
    }
  }

  lemma {:induction false} RefreshesAccounted(run: seq<Event>)
    requires ValidRun(run)
    ensures Accounted(RefreshTimes(run), StoredWindow(Replay(run).stored), ClockAfter(run), 5, WINDOW_MS)
  {
    if run == [] {
      NoGrantsYet(WINDOW_MS, 5, WINDOW_MS);
    } else {
      var before, e := Front(run), Last(run);
      RefreshesAccounted(before);
      var cell := Replay(before);
      RefreshStep(RefreshTimes(before), cell.stored, e, ClockAfter(before));
      PersistedWindow(RefreshTimes(run), if e.command.Alarm? then cell.(alarm := None) else cell,
                      Apply(cell.stored, e.command, e.now), e.clock);
    }
  }

  lemma ActivationStep(times: seq<int>, stored: Option<State>, e: Event, before: int)
    requires Accounted(times, StoredActivations(stored), before, 5, ACTIVATION_WINDOW_MS) && before <= e.clock
    requires StoredOk(stored)
    requires e.now == e.clock || (e.command.CheckAccess? && e.now <= e.clock)
    ensures var t := Apply(stored, e.command, e.now);
            Accounted(NextActivationTimes(times, stored, e),
                      if t.changed then t.state.activationWindow else StoredActivations(stored), e.clock, 5, ACTIVATION_WINDOW_MS)
  {
    TimePasses(times, StoredActivations(stored), before, e.clock, 5, ACTIVATION_WINDOW_MS);
    var t := Apply(stored, e.command, e.now);
    if t.changed {
      ActivationEffect(stored, e.command, e.now);
      CleaningKeepsTheActivations(times, stored, e.now, e.clock);
      if t.reply.Activated? {
        CountActivation(times, Clean(stored, e.now).activationWindow, e.now);
      }
    }
  }

  lemma {:induction false} ActivationsAccounted(run: seq<Event>)
    requires ValidRun(run)
    ensures Accounted(ActivationTimes(run), StoredActivations(Replay(run).stored), ClockAfter(run), 5, ACTIVATION_WINDOW_MS)
  {
    if run == [] {
      NoGrantsYet(ACTIVATION_WINDOW_MS, 5, ACTIVATION_WINDOW_MS);
    } else {
      var before, e := Front(run), Last(run);
      ActivationsAccounted(before);
      EveryRunIsOk(before);
      var cell := Replay(before);
      ActivationStep(ActivationTimes(before), cell.stored, e, ClockAfter(before));
      PersistedActivations(if e.command.Alarm? then cell.(alarm := None) else cell, Apply(cell.stored, e.command, e.now));
    }
  }

  lemma PersistedActivations(cell: Cell, t: Transition)
    ensures StoredActivations(Persist(cell, t).stored) == if t.changed then t.state.activationWindow else StoredActivations(cell.stored)
  {
  }

  lemma CountActivation(times: seq<int>, window: Option<RefreshWindow>, now: int)
    requires Accounted(times, window, now, 5, ACTIVATION_WINDOW_MS)
    requires window.Some? ==> window.value.count < ACTIVATION_LIMIT && now < window.value.resetAt
    ensures var next := if window.Some? then RefreshWindow(window.value.count + 1, window.value.resetAt)
                        else RefreshWindow(1, now + ACTIVATION_WINDOW_MS);
            Accounted(times + [now], Some(next), now, 5, ACTIVATION_WINDOW_MS)
  {
    if window.Some? {
      Grant(times, window.value.count, window.value.resetAt, 5, ACTIVATION_WINDOW_MS, now);
    } else {
      Grant(times, 0, now + ACTIVATION_WINDOW_MS, 5, ACTIVATION_WINDOW_MS, now);
    }
  }

  lemma AccountedBound(times: seq<int>, window: Option<RefreshWindow>, clock: int, span: int, from: int)
    requires Accounted(times, window, clock, 5, span) && 0 <= span
    ensures CountIn(times, from, from + span) <= 10
  {
    IntervalBound(times, from, 5, span);
  }

  /** Over real time, re-login and deletion of the state included: no closed interval of
      15 minutes holds more than 10 accepted refreshes. */
  lemma RefreshRateHolds(run: seq<Event>, from: int)
    requires ValidRun(run)
    ensures CountIn(RefreshTimes(run), from, from + WINDOW_MS) <= 10
  {
    RefreshesAccounted(run);
    AccountedBound(RefreshTimes(run), StoredWindow(Replay(run).stored), ClockAfter(run), WINDOW_MS, from);
  }

  /** ... and none holds more than 10 sign-ins that changed anything. */
  lemma ActivationRateHolds(run: seq<Event>, from: int)
    requires ValidRun(run)
    ensures CountIn(ActivationTimes(run), from, from + ACTIVATION_WINDOW_MS) <= 10
  {
    ActivationsAccounted(run);
    AccountedBound(ActivationTimes(run), StoredActivations(Replay(run).stored), ClockAfter(run), ACTIVATION_WINDOW_MS, from);
  }
}
