/** What an inserted cleanup does show: for each guard of an invisible cleanup, a
    continuation that tells the difference where the guard fails. */
module VnuRefreshCleanupLimits {
  import opened Prelude
  import opened VnuRefreshControl
  import opened VnuRefreshInvariants
  import opened VnuRefreshCleanup
  import opened VnuRefreshRuns
  import opened VnuRefreshCleanupRuns

  function At(command: Command, now: int): Event {
    Event(command, now, now)
  }

  // ------------------------------------------------------------ bursts of begins

  /** A principal about to begin a refresh at `now`, with the refresh window as given. */
  predicate Poised(stored: Option<State>, q: LinkedPair, now: int, count: int, resetAt: int) {
    && stored.Some? && q.WellFormed() && now < q.grantExpiresAt && now < resetAt
    && var s := Clean(stored, now);
       s.active == Some(q) && s.lease.None? && !s.Tombstones(q) && s.window == RefreshWindow(count, resetAt)
  }

  function BeginAbort(q: LinkedPair, now: int): seq<Event> {
    [At(BeginRefresh(q), now), At(AbortRefresh(q, false), now)]
  }

  lemma Begins(stored: Option<State>, q: LinkedPair, now: int, count: int, resetAt: int)
    requires Poised(stored, q, now, count, resetAt) && 0 <= count < ATTEMPT_LIMIT
    ensures var lease := RefreshLease(q, Min(now + LEASE_MS, q.grantExpiresAt));
            && Apply(stored, BeginRefresh(q), now).reply == BeginAccepted(lease.expiresAt)
            && StoredAfter(stored, At(BeginRefresh(q), now))
               == Some(Clean(stored, now).(lease := Some(lease), window := RefreshWindow(count + 1, resetAt)))
  {
    var s := Clean(stored, now);
    var lease := RefreshLease(q, Min(now + LEASE_MS, q.grantExpiresAt));
    var next := s.(lease := Some(lease), window := RefreshWindow(count + 1, resetAt));
    assert Begin(stored, s, q, now).state == next;
    assert Clean(Some(next), now).lease == Some(lease);
  }

  lemma Aborts(s: State, q: LinkedPair, now: int, count: int, resetAt: int, lease: RefreshLease)
    requires s.lease == Some(lease) && lease.pair == q && now < lease.expiresAt
    requires s.active == Some(q) && !s.Tombstones(q) && s.window == RefreshWindow(count, resetAt)
    requires q.WellFormed() && now < q.grantExpiresAt && now < resetAt
    ensures Apply(Some(s), AbortRefresh(q, false), now).reply == Aborted
    ensures Poised(StoredAfter(Some(s), At(AbortRefresh(q, false), now)), q, now, count, resetAt)
  {
    var c := CleanState(s, now);
    assert c.active == Some(q) && c.lease == Some(lease) && !c.Tombstones(q) && c.window == s.window;
    LiveTwice(s, now, now);
  }

  lemma OneBeginAbort(stored: Option<State>, q: LinkedPair, now: int, count: int, resetAt: int)
    requires Poised(stored, q, now, count, resetAt) && 0 <= count < ATTEMPT_LIMIT
    ensures RepliesFrom(stored, BeginAbort(q, now)) == [BeginAccepted(Min(now + LEASE_MS, q.grantExpiresAt)), Aborted]
    ensures Poised(Continue(stored, BeginAbort(q, now)), q, now, count + 1, resetAt)
  {
    var events, lease := BeginAbort(q, now), RefreshLease(q, Min(now + LEASE_MS, q.grantExpiresAt));
    Begins(stored, q, now, count, resetAt);
    var begun := StoredAfter(stored, events[0]);
    Aborts(begun.value, q, now, count + 1, resetAt, lease);
    assert events[1..] == [events[1]];
    assert events[1..][1..] == [];
    assert RepliesFrom(begun, events[1..]) == [Aborted] + RepliesFrom(StoredAfter(begun, events[1]), []);
    assert Continue(begun, events[1..]) == StoredAfter(begun, events[1]);
  }

  /** Begins and aborts, `n` times over. */
  function Burst(q: LinkedPair, now: int, n: nat): seq<Event> {
    if n == 0 then [] else Burst(q, now, n - 1) + BeginAbort(q, now)
  }

  lemma {:induction false} BurstCounts(stored: Option<State>, q: LinkedPair, now: int, resetAt: int, n: nat)
    requires Poised(stored, q, now, 0, resetAt) && n <= ATTEMPT_LIMIT
    ensures Poised(Continue(stored, Burst(q, now, n)), q, now, n, resetAt)
  {
    if n > 0 {
      BurstCounts(stored, q, now, resetAt, n - 1);
      var before := Continue(stored, Burst(q, now, n - 1));
      OneBeginAbort(before, q, now, n - 1, resetAt);
      RepliesSplit(stored, Burst(q, now, n - 1), BeginAbort(q, now));
    }
  }

  /** Once used up, a window refuses until its own restart instant, and no longer. */
  lemma UsedUp(stored: Option<State>, q: LinkedPair, now: int, later: int, resetAt: int)
    requires Poised(stored, q, now, ATTEMPT_LIMIT, resetAt) && now <= later < q.grantExpiresAt
    ensures Apply(stored, BeginRefresh(q), later).reply ==
            if later < resetAt then RateLimited(RetryAfterSeconds(resetAt, later))
            else BeginAccepted(Min(later + LEASE_MS, q.grantExpiresAt))
  {
    LiveTwice(stored.value, now, later);
    var c, s := Clean(stored, now), Clean(stored, later);
    assert s.revokedAccess == LiveAccess(c.revokedAccess, later) && s.revokedGrants == LiveGrants(c.revokedGrants, later);
    assert s.active == Some(q) && s.lease.None? && !s.Tombstones(q);
  }

  /** Two unused windows with different restart instants are told apart. */
  lemma WindowsShow(a: Option<State>, b: Option<State>, q: LinkedPair, now: int, first: int, second: int)
    requires Poised(a, q, now, 0, first) && Poised(b, q, now, 0, second) && first < second && first < q.grantExpiresAt
    ensures var events := Burst(q, now, ATTEMPT_LIMIT) + [At(BeginRefresh(q), first)];
            RepliesFrom(a, events) != RepliesFrom(b, events)
  {
    var burst, again := Burst(q, now, ATTEMPT_LIMIT), [At(BeginRefresh(q), first)];
    BurstCounts(a, q, now, first, ATTEMPT_LIMIT);
    BurstCounts(b, q, now, second, ATTEMPT_LIMIT);
    UsedUp(Continue(a, burst), q, now, first, first);
    UsedUp(Continue(b, burst), q, now, first, second);
    RepliesSplit(a, burst, again);
    RepliesSplit(b, burst, again);
    assert RepliesFrom(Continue(a, burst), again)[0].BeginAccepted?;
    assert RepliesFrom(Continue(b, burst), again)[0].RateLimited?;
    assert RepliesFrom(a, burst + again)[|burst|].BeginAccepted?;
    assert RepliesFrom(b, burst + again)[|burst|].RateLimited?;
  }

  // ------------------------------------------------------------- a stale window

  /** Identifiers the state does not mention. */
  predicate NewTo(s: State, q: LinkedPair) {
    && q.WellFormed() && !s.Tombstones(q)
    && (s.active.Some? ==> s.active.value.accessTokenId != q.accessTokenId && s.active.value.grantId != q.grantId)
  }

  /** The activation window never outlasts the refresh window's next one. */
  predicate Timely(s: State) {
    s.activationWindow.Some? ==> s.activationWindow.value.resetAt < s.window.resetAt + WINDOW_MS
  }

  lemma SignInPoises(stored: Option<State>, q: LinkedPair, now: int, resetAt: int)
    requires NewTo(Clean(stored, now), q) && now < q.grantExpiresAt && now < resetAt
    requires stored.Some? ==> stored.value.active != Some(q)
    requires Clean(stored, now).activationWindow.Some? ==> Clean(stored, now).activationWindow.value.count < ACTIVATION_LIMIT
    requires Clean(stored, now).window == RefreshWindow(0, resetAt)
    ensures Apply(stored, ActivatePair(q), now).reply == Activated
    ensures Poised(StoredAfter(stored, At(ActivatePair(q), now)), q, now, 0, resetAt)
  {
    var s := Clean(stored, now);
    var t := Activate(stored, s, q, now);
    assert t.changed && t.state.active == Some(q) && t.state.lease.None? && !t.state.Tombstones(q) && t.state.window == s.window;
    assert !CleanState(t.state, now).Tombstones(q);
  }

  /** When to look: late enough to sign in, before the restarted window ends. */
  function Moment(s: State, earlier: int): int {
    var c := CleanState(s, earlier);
    if Quiescent(c) then (if s.window.resetAt == earlier + WINDOW_MS then earlier + 1 else earlier)
    else if c.activationWindow.Some? then Max(earlier + 1, c.activationWindow.value.resetAt)
    else earlier + 1
  }

  lemma MomentWorks(s: State, earlier: int, q: LinkedPair)
    requires Accepted(s) && Timely(s) && NewTo(s, q) && !WindowSettled(s, earlier)
    requires earlier + 2 * WINDOW_MS < q.grantExpiresAt
    ensures var now, b := Moment(s, earlier), Kept(CleanState(s, earlier));
            && earlier <= now < earlier + WINDOW_MS
            && Clean(Some(s), now).activationWindow.None? && Clean(b, now).activationWindow.None?
            && NewTo(Clean(Some(s), now), q) && NewTo(Clean(b, now), q)
            && Clean(Some(s), now).window == RefreshWindow(0, if s.window.resetAt <= earlier then now + WINDOW_MS else s.window.resetAt)
            && Clean(b, now).window == RefreshWindow(0, if Quiescent(CleanState(s, earlier)) then now + WINDOW_MS else earlier + WINDOW_MS)
            && (s.window.resetAt > earlier ==> now < s.window.resetAt)
  {
    LiveTwice(s, earlier, Moment(s, earlier));
  }

  /** A cleanup that leaves the window unsettled shows, in a continuation that avoids both
      other guards: sign in afresh, use the window up, and begin again when the earlier of
      the two windows restarts. */
  lemma UnsettledWindowShows(s: State, earlier: int, q: LinkedPair) returns (events: seq<Event>)
    requires Accepted(s) && Timely(s) && NewTo(s, q) && !WindowSettled(s, earlier)
    requires earlier + 2 * WINDOW_MS < q.grantExpiresAt
    ensures AllGuarded(s, earlier, events)
    ensures forall i :: 0 <= i < |events| ==> events[i].now <= earlier + 2 * WINDOW_MS
    ensures RepliesFrom(Some(s), events) != RepliesFrom(Kept(CleanState(s, earlier)), events)
  {
    var a, b, now := Some(s), Kept(CleanState(s, earlier)), Moment(s, earlier);
    MomentWorks(s, earlier, q);
    var mine, other := Clean(a, now).window.resetAt, Clean(b, now).window.resetAt;
    SignInPoises(a, q, now, mine);
    SignInPoises(b, q, now, other);
    var signIn := [At(ActivatePair(q), now)];
    var a', b' := StoredAfter(a, signIn[0]), StoredAfter(b, signIn[0]);
    var rest := Burst(q, now, ATTEMPT_LIMIT) + [At(BeginRefresh(q), Min(mine, other))];
    if mine < other {
      WindowsShow(a', b', q, now, mine, other);
    } else {
      WindowsShow(b', a', q, now, other, mine);
    }
    events := signIn + rest;
    DifferentRest(a, b, signIn[0], rest);
    ProbingIsGuarded(s, earlier, q, now, Min(mine, other));
  }

  lemma DifferentRest(a: Option<State>, b: Option<State>, e: Event, rest: seq<Event>)
    requires || Apply(a, e.command, e.now).reply != Apply(b, e.command, e.now).reply
             || RepliesFrom(StoredAfter(a, e), rest) != RepliesFrom(StoredAfter(b, e), rest)
    ensures RepliesFrom(a, [e] + rest) != RepliesFrom(b, [e] + rest)
  {
    var events := [e] + rest;
    assert events[0] == e && events[1..] == rest;
    assert RepliesFrom(a, events)[0] == Apply(a, e.command, e.now).reply && RepliesFrom(b, events)[0] == Apply(b, e.command, e.now).reply;
    assert RepliesFrom(a, events)[1..] == RepliesFrom(StoredAfter(a, e), rest);
    assert RepliesFrom(b, events)[1..] == RepliesFrom(StoredAfter(b, e), rest);
  }

  lemma ProbingIsGuarded(s: State, earlier: int, q: LinkedPair, now: int, again: int)
    requires NewTo(s, q) && earlier <= now <= again <= earlier + 2 * WINDOW_MS
    ensures var events := [At(ActivatePair(q), now)] + (Burst(q, now, ATTEMPT_LIMIT) + [At(BeginRefresh(q), again)]);
            && AllGuarded(s, earlier, events)
            && forall i :: 0 <= i < |events| ==> events[i].now <= earlier + 2 * WINDOW_MS
  {
    BurstIsGuarded(s, earlier, q, now, ATTEMPT_LIMIT);
  }

  lemma {:induction false} BurstIsGuarded(s: State, earlier: int, q: LinkedPair, now: int, n: nat)
    requires earlier <= now
    ensures AllGuarded(s, earlier, Burst(q, now, n))
    ensures forall i :: 0 <= i < |Burst(q, now, n)| ==> Burst(q, now, n)[i].now == now
  {
    if n > 0 {
      BurstIsGuarded(s, earlier, q, now, n - 1);
    }
  }

  /** No guarded continuation, of any length, can tell the cleanup. */
  ghost predicate Hides(s: State, earlier: int) {
    forall events :: AllGuarded(s, earlier, events) ==>
      RepliesFrom(Some(s), events) == RepliesFrom(Kept(CleanState(s, earlier)), events)
  }

  /** The exact condition, given one pair of fresh identifiers: the cleanup restarts the
      run-out refresh window if and only if it deletes the state. */
  lemma CleanupHidesIff(s: State, earlier: int, q: LinkedPair)
    requires Accepted(s) && Timely(s) && !Quiescent(s)
    requires NewTo(s, q) && earlier + 2 * WINDOW_MS < q.grantExpiresAt
    ensures Hides(s, earlier) <==> WindowSettled(s, earlier)
  {
    if WindowSettled(s, earlier) {
      forall events | AllGuarded(s, earlier, events)
        ensures RepliesFrom(Some(s), events) == RepliesFrom(Kept(CleanState(s, earlier)), events)
      {
        ContinuationStaysInvisible(s, earlier, events);
      }
    } else {
      var events := UnsettledWindowShows(s, earlier, q);
    }
  }

  // ------------------------------------------------------ the guards are needed

  /** A rotation the guard excludes gets a different reply at once. */
  lemma StaleCollisionShows(s: State, earlier: int, previous: LinkedPair, next: LinkedPair, now: int)
    requires Accepted(s) && earlier <= now && StaleCollision(s, earlier, previous, next)
    ensures Apply(Some(s), CompleteRefresh(previous, next), now).reply == Threw(RotationCollision)
    ensures Apply(Kept(CleanState(s, earlier)), CompleteRefresh(previous, next), now).reply != Threw(RotationCollision)
  {
  }

  function SignInsCounted(stored: Option<State>, now: int): int {
    var w := Clean(stored, now).activationWindow;
    if w.Some? then w.value.count else 0
  }

  lemma SignInCounts(stored: Option<State>, q: LinkedPair, now: int)
    requires q.WellFormed() && (stored.Some? ==> !Repeats(stored.value, q))
    requires 0 <= SignInsCounted(stored, now)
    ensures SignInsCounted(stored, now) < ACTIVATION_LIMIT ==>
              && Apply(stored, ActivatePair(q), now).reply == Activated
              && SignInsCounted(StoredAfter(stored, At(ActivatePair(q), now)), now) == SignInsCounted(stored, now) + 1
    ensures SignInsCounted(stored, now) >= ACTIVATION_LIMIT ==> Apply(stored, ActivatePair(q), now).reply.RateLimited?
  {
    var s := Clean(stored, now);
    var t := Activate(stored, s, q, now);
    if SignInsCounted(stored, now) < ACTIVATION_LIMIT {
      assert t.state.activationWindow.Some? && now < t.state.activationWindow.value.resetAt;
      assert t.state.active == Some(q) && !Quiescent(t.state);
      assert stored == Some(t.state) ==> CleanState(t.state, now).activationWindow == t.state.activationWindow;
    }
  }

  function SignIns(pairs: seq<LinkedPair>, now: int): (events: seq<Event>)
    ensures |events| == |pairs|
  {
    seq(|pairs|, i requires 0 <= i < |pairs| => At(ActivatePair(pairs[i]), now))
  }

  /** Different pairs, none of them active now. */
  predicate Fresh(stored: Option<State>, pairs: seq<LinkedPair>) {
    && (forall i :: 0 <= i < |pairs| ==> pairs[i].WellFormed())
    && (forall i, j :: 0 <= i < j < |pairs| ==> pairs[i] != pairs[j])
    && (forall i :: 0 <= i < |pairs| ==> stored.Some? ==> stored.value.active != Some(pairs[i]))
  }

  /** The last of a series of fresh sign-ins is refused exactly when the limit is met. */
  lemma {:induction false} SignInsCount(stored: Option<State>, pairs: seq<LinkedPair>, now: int)
    requires pairs != [] && Fresh(stored, pairs)
    requires 0 <= SignInsCounted(stored, now) && SignInsCounted(stored, now) + |pairs| <= ACTIVATION_LIMIT + 1
    ensures RepliesFrom(stored, SignIns(pairs, now))[|pairs| - 1].RateLimited?
            <==> SignInsCounted(stored, now) + |pairs| == ACTIVATION_LIMIT + 1
    decreases |pairs|
  {
    SignInCounts(stored, pairs[0], now);
    var e := At(ActivatePair(pairs[0]), now);
    assert SignIns(pairs, now)[0] == e && SignIns(pairs, now)[1..] == SignIns(pairs[1..], now);
    if |pairs| > 1 {
      SignInsCount(StoredAfter(stored, e), pairs[1..], now);
    }
  }

  /** A sign-in the guard excludes shows, at once or after enough fresh sign-ins. */
  lemma RepeatShows(s: State, earlier: int, pair: LinkedPair, pairs: seq<LinkedPair>) returns (events: seq<Event>)
    requires Accepted(s) && RepeatDiffers(s, earlier, pair)
    requires |pairs| == ACTIVATION_LIMIT && pair !in pairs && Fresh(None, pairs)
    ensures forall i :: 0 <= i < |events| ==> events[i].now == earlier
    ensures RepliesFrom(Some(s), events) != RepliesFrom(Kept(CleanState(s, earlier)), events)
  {
    var a, b := Some(s), Kept(CleanState(s, earlier));
    CountsAlike(s, earlier);
    var n := Max(0, ACTIVATION_LIMIT - SignInsCounted(a, earlier));
    var first, rest := At(ActivatePair(pair), earlier), SignIns(pairs[..n], earlier);
    events := [first] + rest;
    if Repeats(s, pair) {
      RepeaterAndNewcomer(a, b, pair, pairs[..n], earlier);
    } else {
      RepeaterAndNewcomer(b, a, pair, pairs[..n], earlier);
    }
    DifferentRest(a, b, first, rest);
  }

  lemma CountsAlike(s: State, earlier: int)
    requires Accepted(s)
    ensures SignInsCounted(Some(s), earlier) == SignInsCounted(Kept(CleanState(s, earlier)), earlier) >= 0
  {
    CleanTwice(s, earlier, earlier);
  }

  lemma RepeaterAndNewcomer(a: Option<State>, b: Option<State>, pair: LinkedPair, pairs: seq<LinkedPair>, now: int)
    requires pair.WellFormed() && pair !in pairs && Fresh(None, pairs)
    requires a.Some? && Repeats(a.value, pair) && (b.Some? ==> !Repeats(b.value, pair))
    requires SignInsCounted(a, now) == SignInsCounted(b, now) >= 0
    requires |pairs| == Max(0, ACTIVATION_LIMIT - SignInsCounted(a, now))
    ensures var first := At(ActivatePair(pair), now);
            || Apply(a, first.command, now).reply != Apply(b, first.command, now).reply
            || RepliesFrom(StoredAfter(a, first), SignIns(pairs, now)) != RepliesFrom(StoredAfter(b, first), SignIns(pairs, now))
  {
    var first := At(ActivatePair(pair), now);
    assert Apply(a, first.command, now).reply == Activated && StoredAfter(a, first) == a;
    SignInCounts(b, pair, now);
    if pairs != [] {
      var b' := StoredAfter(b, first);
      SignInLeaves(b, pair, now);
      SignInsCount(a, pairs, now);
      SignInsCount(b', pairs, now);
    }
  }

  lemma SignInLeaves(stored: Option<State>, q: LinkedPair, now: int)
    requires Apply(stored, ActivatePair(q), now).reply == Activated
    ensures StoredAfter(stored, At(ActivatePair(q), now)).Some?
    ensures StoredAfter(stored, At(ActivatePair(q), now)).value.active == Some(q)
  {
  }

  // --------------------------------------------------------------- stale clocks

  /** An access check that read its clock before the cleanup is shown it exactly when the
      pair it asks about ran out in between. */
  lemma StaleCheckShowsIff(s: State, earlier: int, access: LinkedPair, now: int)
    requires Accepted(s) && now < earlier && access.WellFormed()
    ensures Apply(Kept(CleanState(s, earlier)), CheckAccess(access), now).reply == Apply(Some(s), CheckAccess(access), now).reply
            <==> !(IsActive(CleanState(s, now), access, now) && access.grantExpiresAt <= earlier)
  {
  }

  // ------------------------------------------------------------ the plain case

  /** One sign-in at 1000; a cleanup at 901000, when the refresh window has just run out;
      five begins given up at 1800000; and one more begin a second later. */
  lemma CleanupCanShowLater(q: LinkedPair) returns (s: State, events: seq<Event>)
    requires q.WellFormed() && q.grantExpiresAt > 3_000_000
    ensures Some(s) == StoredAfter(None, At(ActivatePair(q), 1000))
    ensures AllGuarded(s, 901_000, events) && !WindowSettled(s, 901_000)
    ensures |events| == 11 && events[10] == At(BeginRefresh(q), 1_801_000)
    ensures RepliesFrom(Some(s), events)[10] == RateLimited(899)
    ensures RepliesFrom(Kept(CleanState(s, 901_000)), events)[10].BeginAccepted?
  {
    s := State(Some(q), None, map[], map[], RefreshWindow(0, 901_000), Some(RefreshWindow(1, 901_000)));
    var a, b := Some(s), Kept(CleanState(s, 901_000));
    assert b == Some(State(Some(q), None, map[], map[], RefreshWindow(0, 1_801_000), None));
    var burst, again := Burst(q, 1_800_000, ATTEMPT_LIMIT), [At(BeginRefresh(q), 1_801_000)];
    events := burst + again;
    BurstLength(q, 1_800_000, ATTEMPT_LIMIT);
    BurstIsGuarded(s, 901_000, q, 1_800_000, ATTEMPT_LIMIT);
    BurstCounts(a, q, 1_800_000, 2_700_000, ATTEMPT_LIMIT);
    BurstCounts(b, q, 1_800_000, 1_801_000, ATTEMPT_LIMIT);
    UsedUp(Continue(a, burst), q, 1_800_000, 1_801_000, 2_700_000);
    UsedUp(Continue(b, burst), q, 1_800_000, 1_801_000, 1_801_000);
    RepliesSplit(a, burst, again);
    RepliesSplit(b, burst, again);
  }

  lemma {:induction false} BurstLength(q: LinkedPair, now: int, n: nat)
    ensures |Burst(q, now, n)| == 2 * n
  {
    if n > 0 {
      BurstLength(q, now, n - 1);
    }
  }

  // -------------------------------------------------------------- in whole runs

  lemma StepKeepsTimely(stored: Option<State>, e: Event)
    requires stored.Some? ==> Timely(stored.value)
    ensures StoredAfter(stored, e).Some? ==> Timely(StoredAfter(stored, e).value)
  {
    CleanIsTimely(stored, e.now);
    match e.command
    case ActivatePair(_) =>
    case BeginRefresh(_) =>
    case CompleteRefresh(_, _) =>
    case AbortRefresh(_, _) =>
    case RevokeByAccess(_) =>
    case RevokeByGrant(_) =>
    case CheckAccess(_) =>
    case Alarm =>
  }

  lemma CleanIsTimely(stored: Option<State>, now: int)
    requires stored.Some? ==> Timely(stored.value)
    ensures Timely(Clean(stored, now)) && now < Clean(stored, now).window.resetAt
  {
  }

  lemma {:induction false} RunsAreTimely(run: seq<Event>)
    ensures Replay(run).stored.Some? ==> Timely(Replay(run).stored.value)
  {
    if run != [] {
      RunsAreTimely(Front(run));
      assert Replay(run).stored == StoredAfter(Replay(Front(run)).stored, Last(run));
      StepKeepsTimely(Replay(Front(run)).stored, Last(run));
    }
  }

  /** In every run: a cleanup inserted at position `i` and instant `earlier`, of a state whose
      window it leaves settled, changes no reply of the rest of the run, provided no later
      step meets one of the two other guards. With nothing stored there is nothing to clean. */
  lemma InsertedCleanupIsInvisible(run: seq<Event>, i: nat, earlier: int, j: nat)
    requires ValidRun(run) && i <= j < |run|
    requires Replay(run[..i]).stored.Some?
    requires WindowSettled(Replay(run[..i]).stored.value, earlier)
    requires AllGuarded(Replay(run[..i]).stored.value, earlier, run[i..])
    ensures RepliesFrom(Kept(CleanState(Replay(run[..i]).stored.value, earlier)), run[i..])[j - i] == ReplyAt(run, j)
  {
    PrefixIsValid(run, i);
    EveryRunIsOk(run[..i]);
    ContinuationStaysInvisible(Replay(run[..i]).stored.value, earlier, run[i..]);
    RunContinues(run, i, j);
  }

  /** ... and the condition is exact: where it fails, one fresh pair tells the cleanup. */
  lemma InsertedCleanupHidesIff(run: seq<Event>, earlier: int, q: LinkedPair)
    requires ValidRun(run) && Replay(run).stored.Some?
    requires NewTo(Replay(run).stored.value, q) && earlier + 2 * WINDOW_MS < q.grantExpiresAt
    ensures Hides(Replay(run).stored.value, earlier) <==> WindowSettled(Replay(run).stored.value, earlier)
  {
    EveryRunIsOk(run);
    RunsAreTimely(run);
    CleanupHidesIff(Replay(run).stored.value, earlier, q);
  }
}
