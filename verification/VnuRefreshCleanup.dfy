/** Lazy cleanup of the VNU refresh state: what it can reveal, and why it ends. */
module VnuRefreshCleanup {
  import opened Prelude
  import opened VnuRefreshControl
  import opened VnuRefreshInvariants

  // ------------------------------------------------------------- invisibility

  lemma LiveTwice(s: State, earlier: int, now: int)
    requires earlier <= now
    ensures LiveAccess(LiveAccess(s.revokedAccess, earlier), now) == LiveAccess(s.revokedAccess, now)
    ensures LiveGrants(LiveGrants(s.revokedGrants, earlier), now) == LiveGrants(s.revokedGrants, now)
  {
  }

  /** The two windows are the same, or both unused. */
  predicate WindowsAgree(left: RefreshWindow, right: RefreshWindow) {
    left == right || (left.count == 0 && right.count == 0)
  }

  /** Cleaning twice is cleaning once, but for the restart instant of an unused window. */
  lemma CleanTwice(s: State, earlier: int, now: int)
    requires Accepted(s) && earlier <= now
    ensures CleanState(CleanState(s, earlier), now).(window := CleanState(s, now).window) == CleanState(s, now)
    ensures WindowsAgree(CleanState(CleanState(s, earlier), now).window, CleanState(s, now).window)
  {
    LiveTwice(s, earlier, now);
  }

  predicate SameButUnusedWindow(left: State, right: State) {
    left.(window := right.window) == right && WindowsAgree(left.window, right.window)
  }

  lemma BeginSeesTheSame(stored: Option<State>, stored': Option<State>, s: State, s': State, pair: LinkedPair, now: int)
    requires SameButUnusedWindow(s', s)
    ensures Begin(stored', s', pair, now).reply == Begin(stored, s, pair, now).reply
  {
  }

  lemma CompleteSeesTheSame(stored: Option<State>, stored': Option<State>, s: State, s': State, previous: LinkedPair, next: LinkedPair, now: int)
    requires SameButUnusedWindow(s', s)
    ensures Complete(stored', s', previous, next, now).reply == Complete(stored, s, previous, next, now).reply
  {
  }

  lemma AbortSeesTheSame(stored: Option<State>, stored': Option<State>, s: State, s': State, pair: LinkedPair, terminal: bool, now: int)
    requires SameButUnusedWindow(s', s)
    ensures Abort(stored', s', pair, terminal, now).reply == Abort(stored, s, pair, terminal, now).reply
  {
  }

  lemma LogoutSeesTheSame(stored: Option<State>, stored': Option<State>, s: State, s': State, pair: LinkedPair, now: int)
    requires SameButUnusedWindow(s', s)
    ensures Logout(stored', s', pair, now).reply == Logout(stored, s, pair, now).reply
    ensures LinkedLogout(stored', s', pair, now).reply == LinkedLogout(stored, s, pair, now).reply
  {
  }

  /** The reply a command gets at `now` when the state was cleaned at `earlier`. */
  function ReplyAfterCleanup(s: State, earlier: int, command: Command, now: int): Reply {
    Apply(Some(CleanState(s, earlier)), command, now).reply
  }

  /** Cleaning at any earlier instant changes no access, lease or revocation verdict:
      the reply to a begin, an abort, a logout or an access check is the same. */
  lemma CleanupIsInvisible(s: State, earlier: int, command: Command, now: int)
    requires Accepted(s) && earlier <= now
    requires !command.ActivatePair? && !command.CompleteRefresh?
    ensures ReplyAfterCleanup(s, earlier, command, now) == Apply(Some(s), command, now).reply
  {
    CleanTwice(s, earlier, now);
    var c := CleanState(s, now);
    var c' := CleanState(CleanState(s, earlier), now);
    var stored, stored' := Some(s), Some(CleanState(s, earlier));
    match command
    case BeginRefresh(pair) => BeginSeesTheSame(stored, stored', c, c', pair, now);
    case AbortRefresh(pair, terminal) => AbortSeesTheSame(stored, stored', c, c', pair, terminal, now);
    case RevokeByAccess(pair) => LogoutSeesTheSame(stored, stored', c, c', pair, now);
    case RevokeByGrant(proof) => LogoutSeesTheSame(stored, stored', c, c', proof, now);
    case CheckAccess(_) =>
    case Alarm =>
  }

  lemma CleaningOnlyForgetsTombstones(s: State, earlier: int, pair: LinkedPair)
    ensures CleanState(s, earlier).Tombstones(pair) ==> s.Tombstones(pair)
  {
  }

  /** A rotation is the one lease verdict an earlier cleanup can change. It does so
      exactly when the new identifiers meet tombstones that had run out by then, on
      a rotation that is otherwise well formed. */
  lemma CleanupShowsOnlyInStaleCollisions(s: State, earlier: int, previous: LinkedPair, next: LinkedPair, now: int)
    requires Accepted(s) && earlier <= now
    ensures ReplyAfterCleanup(s, earlier, CompleteRefresh(previous, next), now)
            == Apply(Some(s), CompleteRefresh(previous, next), now).reply
            <==> !(&& previous.WellFormed() && next.WellFormed() && Rotates(previous, next)
                   && s.Tombstones(next) && !CleanState(s, earlier).Tombstones(next))
  {
    CleanTwice(s, earlier, now);
    CleaningOnlyForgetsTombstones(s, earlier, next);
    var c := CleanState(s, now);
    var c' := CleanState(CleanState(s, earlier), now);
    CompleteSeesTheSame(Some(s), Some(CleanState(s, earlier)), c, c', previous, next, now);
    assert !Complete(Some(CleanState(s, earlier)), c', previous, next, now).reply.Threw?;
  }

  function SampleId(c: char): (id: Identifier)
    ensures |id.text| == 22 && id.text[0] == c
    ensures IsBase64UrlChar(c) ==> WellFormedId(id)
  {
    Identifier(seq(22, _ => c))
  }

  /** A concrete case: a rotation onto an access identifier whose tombstone ran out at
      instant 10 throws at instant 20, yet completes if the state was cleaned before. */
  lemma CleanupCanShow() returns (s: State, previous: LinkedPair, next: LinkedPair)
    ensures Accepted(s)
    ensures Apply(Some(s), CompleteRefresh(previous, next), 20).reply == Threw(RotationCollision)
    ensures ReplyAfterCleanup(s, 15, CompleteRefresh(previous, next), 20) == Completed
  {
    previous := LinkedPair(SampleId('a'), 50, SampleId('b'), 100);
    next := LinkedPair(SampleId('c'), 60, SampleId('d'), 100);
    s := State(Some(previous), Some(RefreshLease(previous, 90)), map[next.accessTokenId := 10], map[],
               RefreshWindow(1, 900), None);
    assert next.accessTokenId !in CleanState(s, 15).revokedAccess;
    assert !CleanState(s, 15).Tombstones(next);
    var c := CleanState(CleanState(s, 15), 20);
    assert c.active == Some(previous) && c.lease == s.lease;
  }

  /** The free repeat of an activation: the exact pair is stored and nothing is leased. */
  predicate Repeats(s: State, pair: LinkedPair) {
    s.active == Some(pair) && s.lease.None?
  }

  predicate ActivationsUsedUp(s: State, now: int) {
    var window := CleanState(s, now).activationWindow;
    window.Some? && window.value.count >= ACTIVATION_LIMIT
  }

  /** An activation verdict can change too, exactly when cleanup decides whether the
      activation is a free repeat while the activation window is used up. */
  lemma CleanupShowsOnlyInFreeRepeats(s: State, earlier: int, pair: LinkedPair, now: int)
    requires Accepted(s) && earlier <= now && pair.WellFormed()
    ensures ReplyAfterCleanup(s, earlier, ActivatePair(pair), now) == Apply(Some(s), ActivatePair(pair), now).reply
            <==> !(ActivationsUsedUp(s, now) && Repeats(s, pair) != Repeats(CleanState(s, earlier), pair))
  {
    CleanTwice(s, earlier, now);
  }

  /** A concrete case: the active pair ran out at instant 10. Its sign-in is still a free
      repeat at instant 20, but is refused if the state was cleaned before. */
  lemma CleanupCanShowInRepeats() returns (s: State, pair: LinkedPair)
    ensures Accepted(s)
    ensures Apply(Some(s), ActivatePair(pair), 20).reply == Activated
    ensures ReplyAfterCleanup(s, 15, ActivatePair(pair), 20) == RateLimited(1)
  {
    pair := LinkedPair(SampleId('a'), 10, SampleId('b'), 10);
    s := State(Some(pair), None, map[], map[], RefreshWindow(0, 900), Some(RefreshWindow(5, 900)));
    assert CleanState(s, 15).active.None?;
  }

  // -------------------------------------------------------------- termination

  lemma DueItems(s: State, now: int)
    requires NextAlarm(s).Some? ==> now < NextAlarm(s).value
    ensures forall id :: id in s.revokedAccess ==> s.revokedAccess[id] > now
    ensures forall id :: id in s.revokedGrants ==> s.revokedGrants[id].ExpiresAt() > now
  {
    forall id | id in s.revokedAccess
      ensures s.revokedAccess[id] > now
    {
      assert TimedAt(s, s.revokedAccess[id]);
    }
    forall id | id in s.revokedGrants
      ensures s.revokedGrants[id].ExpiresAt() > now
    {
      assert TimedAt(s, s.revokedGrants[id].ExpiresAt());
    }
  }

  /** Strictly before the alarm, cleanup changes nothing but an unused refresh window. */
  lemma NothingRunsOutBeforeTheAlarm(s: State, now: int)
    requires Accepted(s)
    requires NextAlarm(s).Some? ==> now < NextAlarm(s).value
    ensures CleanState(s, now).(window := s.window) == s
    ensures s.window.count > 0 ==> CleanState(s, now) == s
  {
    DueItems(s, now);
    assert s.active.Some? ==> TimedAt(s, s.active.value.grantExpiresAt);
    assert s.lease.Some? ==> TimedAt(s, s.lease.value.expiresAt);
    assert s.window.count > 0 ==> TimedAt(s, s.window.resetAt);
    assert s.activationWindow.Some? ==> TimedAt(s, s.activationWindow.value.resetAt);
    assert LiveAccess(s.revokedAccess, now) == s.revokedAccess;
    assert LiveGrants(s.revokedGrants, now) == s.revokedGrants;
  }

  function One(present: bool): nat {
    if present then 1 else 0
  }

  /** How many timed items the state holds. */
  function TimedItems(s: State): nat {
    |s.revokedAccess| + |s.revokedGrants|
    + One(s.active.Some?) + One(s.lease.Some?) + One(s.window.count > 0) + One(s.activationWindow.Some?)
  }

  /** A state is deleted exactly when it holds nothing timed, and then it needs no alarm. */
  lemma QuiescentIffNothingTimed(s: State)
    requires Accepted(s)
    ensures Quiescent(s) <==> TimedItems(s) == 0
    ensures Quiescent(s) <==> NextAlarm(s).None?
  {
    if access :| access in s.revokedAccess {
      assert TimedAt(s, s.revokedAccess[access]);
    }
    if grant :| grant in s.revokedGrants {
      assert TimedAt(s, s.revokedGrants[grant].ExpiresAt());
    }
    assert s.active.Some? ==> TimedAt(s, s.active.value.grantExpiresAt);
    assert s.lease.Some? ==> TimedAt(s, s.lease.value.expiresAt);
    assert s.window.count > 0 ==> TimedAt(s, s.window.resetAt);
    assert s.activationWindow.Some? ==> TimedAt(s, s.activationWindow.value.resetAt);
    assert Quiescent(s) ==> forall at :: !TimedAt(s, at);
  }

  lemma LiveMapsShrink(s: State, now: int)
    ensures |LiveAccess(s.revokedAccess, now)| <= |s.revokedAccess|
    ensures |LiveGrants(s.revokedGrants, now)| <= |s.revokedGrants|
    ensures (exists id :: id in s.revokedAccess && s.revokedAccess[id] <= now)
            ==> |LiveAccess(s.revokedAccess, now)| < |s.revokedAccess|
    ensures (exists id :: id in s.revokedGrants && s.revokedGrants[id].ExpiresAt() <= now)
            ==> |LiveGrants(s.revokedGrants, now)| < |s.revokedGrants|
  {
    var access, grants := LiveAccess(s.revokedAccess, now), LiveGrants(s.revokedGrants, now);
    ProperSubsetIsSmaller(access.Keys, s.revokedAccess.Keys);
    ProperSubsetIsSmaller(grants.Keys, s.revokedGrants.Keys);
  }

  /** An alarm that fires when due removes at least one timed item and adds none. */
  lemma AlarmMakesProgress(s: State, now: int)
    requires Accepted(s)
    requires NextAlarm(s).Some? && NextAlarm(s).value <= now
    ensures TimedItems(CleanState(s, now)) < TimedItems(s)
    ensures ApplyAlarm(Some(s), now).changed
  {
    LiveMapsShrink(s, now);
    assert TimedAt(s, NextAlarm(s).value);
  }

  /** What the alarm handler leaves in storage. */
  function AfterAlarm(stored: Option<State>, now: int): Option<State> {
    var t := ApplyAlarm(stored, now);
    if !t.changed then stored else if Quiescent(t.state) then None else Some(t.state)
  }

  function AfterAlarms(stored: Option<State>, fires: seq<int>): Option<State>
    decreases |fires|
  {
    if fires == [] then stored else AfterAlarms(AfterAlarm(stored, fires[0]), fires[1..])
  }

  /** Each alarm of the list fires no earlier than the instant then scheduled. */
  predicate FireWhenDue(s: State, fires: seq<int>)
    decreases |fires|
  {
    fires != [] && NextAlarm(s).Some? ==>
      NextAlarm(s).value <= fires[0] && ClockOk(fires[0]) && FireWhenDue(CleanState(s, fires[0]), fires[1..])
  }

  lemma {:induction false} DeletedStaysDeleted(fires: seq<int>)
    ensures AfterAlarms(None, fires).None?
    decreases |fires|
  {
    if fires != [] {
      assert AfterAlarm(None, fires[0]).None?;
      DeletedStaysDeleted(fires[1..]);
    }
  }

  lemma OneAlarm(s: State, now: int)
    requires Accepted(s) && ClockOk(now)
    requires NextAlarm(s).Some? && NextAlarm(s).value <= now
    ensures AfterAlarm(Some(s), now) == if Quiescent(CleanState(s, now)) then None else Some(CleanState(s, now))
    ensures TimedItems(CleanState(s, now)) < TimedItems(s)
    ensures Accepted(CleanState(s, now))
  {
    AlarmMakesProgress(s, now);
    CleanKeepsAcceptance(Some(s), now);
  }

  /** After at least as many due alarms as there are timed items the state is deleted,
      whatever instants they fire at. */
  lemma {:induction false} AlarmsEndInDeletion(s: State, fires: seq<int>)
    requires Accepted(s) && !Quiescent(s)
    requires |fires| >= TimedItems(s) && FireWhenDue(s, fires)
    ensures AfterAlarms(Some(s), fires).None?
    decreases |fires|
  {
    QuiescentIffNothingTimed(s);
    OneAlarm(s, fires[0]);
    var c := CleanState(s, fires[0]);
    if Quiescent(c) {
      DeletedStaysDeleted(fires[1..]);
    } else {
      AlarmsEndInDeletion(c, fires[1..]);
    }
  }

  // ------------------------------------------------------------- quoted delays

  lemma BeginAfterTheDelay(stored: Option<State>, pair: LinkedPair, now: int, later: int)
    requires StoredOk(stored) && 0 <= now <= later
    ensures var reply := ApplyBeginRefresh(stored, pair, now).reply;
            && (reply.RateLimited? && later >= now + 1000 * reply.retryAfterSeconds ==>
                  !ApplyBeginRefresh(stored, pair, later).reply.RateLimited?)
            && (reply.InProgress? && later >= now + 1000 * reply.retryAfterSeconds ==>
                  !ApplyBeginRefresh(stored, pair, later).reply.InProgress?)
  {
    var s := Clean(stored, now);
    var reply := ApplyBeginRefresh(stored, pair, now).reply;
    if reply.RateLimited? {
      QuotedDelayIsTight(s.window.resetAt, now);
      assert later >= now + 1000 * reply.retryAfterSeconds ==> Clean(stored, later).window.count == 0;
    } else if reply.InProgress? {
      QuotedDelayIsTight(s.lease.value.expiresAt, now);
      assert later >= now + 1000 * reply.retryAfterSeconds ==> Clean(stored, later).lease.None?;
    }
  }

  lemma ActivateAfterTheDelay(stored: Option<State>, pair: LinkedPair, now: int, later: int)
    requires StoredOk(stored) && 0 <= now <= later
    ensures var reply := ApplyActivatePair(stored, pair, now).reply;
            reply.RateLimited? && later >= now + 1000 * reply.retryAfterSeconds ==>
              !ApplyActivatePair(stored, pair, later).reply.RateLimited?
  {
    var s := Clean(stored, now);
    var reply := ApplyActivatePair(stored, pair, now).reply;
    if reply.RateLimited? {
      QuotedDelayIsTight(s.activationWindow.value.resetAt, now);
      assert later >= now + 1000 * reply.retryAfterSeconds ==> Clean(stored, later).activationWindow.None?;
    }
  }

  /** Waiting at least a quoted delay, with nothing in between, never yields the same refusal. */
  lemma WaitingTheQuotedDelayWorks(stored: Option<State>, command: Command, now: int, later: int)
    requires StoredOk(stored) && 0 <= now <= later
    requires command.BeginRefresh? || command.ActivatePair?
    ensures var reply := Apply(stored, command, now).reply;
            && (reply.RateLimited? && later >= now + 1000 * reply.retryAfterSeconds ==>
                  !Apply(stored, command, later).reply.RateLimited?)
            && (reply.InProgress? && later >= now + 1000 * reply.retryAfterSeconds ==>
                  !Apply(stored, command, later).reply.InProgress?)
  {
    if command.BeginRefresh? {
      BeginAfterTheDelay(stored, command.pair, now, later);
    } else {
      ActivateAfterTheDelay(stored, command.pair, now, later);
    }
  }
}
