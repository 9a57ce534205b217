/** Runs of the VNU refresh authority: what its storage holds after any sequence of
    commands, and the invariant every run keeps. */
module VnuRefreshRuns {
  import opened Prelude
  import opened VnuRefreshControl
  import opened VnuRefreshInvariants

  /** The Durable Object's storage: the state, if any, and the alarm, if any. */
  datatype Cell = Cell(stored: Option<State>, alarm: Option<int>)

  /** What the storage transaction does with a transition: nothing if it changed
      nothing, otherwise store or delete the state and reschedule the alarm. */
  function Persist(cell: Cell, t: Transition): Cell {
    if !t.changed then cell
    else Cell(if Quiescent(t.state) then None else Some(t.state), NextAlarm(t.state))
  }

  /** One atomic step at real time `clock`. A command acts on the instant `now`; only an
      access check may have read its clock before waiting for storage. */
  datatype Event = Event(command: Command, now: int, clock: int)

  /** A firing alarm is first removed by the platform. */
  function Step(cell: Cell, e: Event): Cell {
    Persist(if e.command.Alarm? then cell.(alarm := None) else cell, Apply(cell.stored, e.command, e.now))
  }

  function Replay(run: seq<Event>): Cell {
    if run == [] then Cell(None, None) else Step(Replay(Front(run)), Last(run))
  }

  /** The reply given at position `i` of the run. */
  function ReplyAt(run: seq<Event>, i: nat): Reply
    requires i < |run|
  {
    Apply(Replay(run[..i]).stored, run[i].command, run[i].now).reply
  }

  function ClockAfter(run: seq<Event>): int {
    if run == [] then 0 else Last(run).clock
  }

  /** Access identifiers that sign-ins and rotations have handed out so far. */
  function UsedAccess(run: seq<Event>): set<Identifier> {
    if run == [] then {}
    else
      UsedAccess(Front(run)) +
      match Last(run).command
      case ActivatePair(pair) => {pair.accessTokenId}
      case CompleteRefresh(_, next) => {next.accessTokenId}
      case _ => {}
  }

  function UsedGrants(run: seq<Event>): set<Identifier> {
    if run == [] then {}
    else
      UsedGrants(Front(run)) +
      match Last(run).command
      case ActivatePair(pair) => {pair.grantId}
      case CompleteRefresh(_, next) => {next.grantId}
      case _ => {}
  }

  /** A sign-in brings identifiers never handed out before, unless it repeats the exact
      pair that is stored as active. */
  predicate FreshSignIn(run: seq<Event>, command: Command) {
    command.ActivatePair? ==>
      var stored := Replay(run).stored;
      || (stored.Some? && stored.value.active == Some(command.pair))
      || (command.pair.accessTokenId !in UsedAccess(run) && command.pair.grantId !in UsedGrants(run))
  }

  predicate ValidNext(run: seq<Event>, e: Event) {
    && ClockAfter(run) <= e.clock <= MAX_TIME
    && (e.now == e.clock || (e.command.CheckAccess? && 0 <= e.now <= e.clock))
    && FreshSignIn(run, e.command)
    && (e.command.Alarm? ==> Replay(run).alarm.Some? && Replay(run).alarm.value <= e.clock)
  }

  predicate ValidRun(run: seq<Event>) {
    run != [] ==> ValidRun(Front(run)) && ValidNext(Front(run), Last(run))
  }

  // ------------------------------------------------------------ identifiers

  /** Every identifier the state relies on has been handed out. */
  predicate Within(s: State, access: set<Identifier>, grants: set<Identifier>) {
    && (s.active.Some? ==> s.active.value.accessTokenId in access && s.active.value.grantId in grants)
    && s.revokedAccess.Keys <= access
    && s.revokedGrants.Keys <= grants
    && (forall id :: id in s.revokedGrants && s.revokedGrants[id].Linked? ==> s.revokedGrants[id].accessTokenId in access)
  }

  lemma RevokeExactStaysWithin(s: State, pair: LinkedPair, tombstone: Tombstone, access: set<Identifier>, grants: set<Identifier>)
    requires Within(s, access, grants) && pair.accessTokenId in access && pair.grantId in grants
    requires tombstone.Linked? && tombstone.accessTokenId in access
    ensures Within(RevokeExact(s, pair, tombstone), access, grants)
  {
  }

  lemma CleanStaysWithin(s: State, now: int, access: set<Identifier>, grants: set<Identifier>)
    requires Within(s, access, grants)
    ensures Within(CleanState(s, now), access, grants)
  {
  }

  lemma ActivateStaysWithin(stored: Option<State>, s: State, pair: LinkedPair, now: int, access: set<Identifier>, grants: set<Identifier>)
    requires Within(s, access, grants) && pair.accessTokenId in access && pair.grantId in grants
    requires Activate(stored, s, pair, now).changed
    ensures Within(Activate(stored, s, pair, now).state, access, grants)
  {
    if s.active.Some? {
      RevokeExactStaysWithin(s, s.active.value, PlainTombstone(s.active.value), access, grants);
    }
  }

  lemma CompleteStaysWithin(stored: Option<State>, s: State, previous: LinkedPair, next: LinkedPair, now: int, access: set<Identifier>, grants: set<Identifier>)
    requires Within(s, access, grants) && next.accessTokenId in access && next.grantId in grants
    requires Complete(stored, s, previous, next, now).changed
    ensures Within(Complete(stored, s, previous, next, now).state, access, grants)
  {
    RevokeExactStaysWithin(s, previous, SuccessorTombstone(previous, next), access, grants);
  }

  lemma AbortStaysWithin(stored: Option<State>, s: State, pair: LinkedPair, terminal: bool, now: int, access: set<Identifier>, grants: set<Identifier>)
    requires Within(s, access, grants)
    requires Abort(stored, s, pair, terminal, now).changed
    ensures Within(Abort(stored, s, pair, terminal, now).state, access, grants)
  {
    RevokeExactStaysWithin(s, pair, PlainTombstone(pair), access, grants);
  }

  lemma LogoutStaysWithin(stored: Option<State>, s: State, pair: LinkedPair, now: int, access: set<Identifier>, grants: set<Identifier>)
    requires Within(s, access, grants)
    requires Logout(stored, s, pair, now).changed
    ensures Within(Logout(stored, s, pair, now).state, access, grants)
  {
    RevokeExactStaysWithin(s, pair, PlainTombstone(pair), access, grants);
  }

  lemma LinkedLogoutStaysWithin(stored: Option<State>, s: State, proof: LinkedPair, now: int, access: set<Identifier>, grants: set<Identifier>)
    requires Within(s, access, grants)
    requires LinkedLogout(stored, s, proof, now).changed
    ensures Within(LinkedLogout(stored, s, proof, now).state, access, grants)
  {
    var current := s.active.value;
    var marked := s.(revokedAccess := s.revokedAccess[proof.accessTokenId := proof.accessExpiresAt],
                     revokedGrants := s.revokedGrants[proof.grantId := PlainTombstone(proof)]);
    assert proof.accessTokenId in access && proof.grantId in grants;
    RevokeExactStaysWithin(marked, current, PlainTombstone(current), access, grants);
  }

  predicate StoredWithin(stored: Option<State>, access: set<Identifier>, grants: set<Identifier>) {
    stored.Some? ==> Within(stored.value, access, grants)
  }

  /** The pair a command brings into circulation, if any. */
  function Brings(command: Command): Option<LinkedPair> {
    match command
    case ActivatePair(pair) => Some(pair)
    case CompleteRefresh(_, next) => Some(next)
    case _ => None
  }

  lemma TransitionsStayWithin(stored: Option<State>, command: Command, now: int, access: set<Identifier>, grants: set<Identifier>)
    requires StoredWithin(stored, access, grants)
    requires Brings(command).Some? ==> Brings(command).value.accessTokenId in access && Brings(command).value.grantId in grants
    requires Apply(stored, command, now).changed
    ensures Within(Apply(stored, command, now).state, access, grants)
  {
    var s := Clean(stored, now);
    if stored.Some? {
      CleanStaysWithin(stored.value, now, access, grants);
    }
    assert Within(s, access, grants);
    match command
    case ActivatePair(pair) => ActivateStaysWithin(stored, s, pair, now, access, grants);
    case BeginRefresh(_) =>
    case CompleteRefresh(previous, next) => CompleteStaysWithin(stored, s, previous, next, now, access, grants);
    case AbortRefresh(pair, terminal) => AbortStaysWithin(stored, s, pair, terminal, now, access, grants);
    case RevokeByAccess(pair) => LogoutStaysWithin(stored, s, pair, now, access, grants);
    case RevokeByGrant(proof) => LinkedLogoutStaysWithin(stored, s, proof, now, access, grants);
    case CheckAccess(_) =>
    case Alarm =>
  }

  // -------------------------------------------------------- the run invariant

  predicate CellOk(cell: Cell) {
    match cell.stored
    case None => cell.alarm.None?
    case Some(s) => Accepted(s) && !Quiescent(s) && cell.alarm == NextAlarm(s)
  }

  predicate RunOk(run: seq<Event>) {
    && CellOk(Replay(run))
    && StoredWithin(Replay(run).stored, UsedAccess(run), UsedGrants(run))
    && 0 <= ClockAfter(run) <= MAX_TIME
  }

  lemma FreshSignInCannotCollide(run: seq<Event>, command: Command, now: int)
    requires RunOk(run) && FreshSignIn(run, command)
    ensures FreshFor(Replay(run).stored, command, now)
  {
    var stored := Replay(run).stored;
    if command.ActivatePair? && stored.Some? {
      CleanStaysWithin(stored.value, now, UsedAccess(run), UsedGrants(run));
    }
  }

  lemma StepKeepsCellOk(cell: Cell, e: Event)
    requires CellOk(cell) && ClockOk(e.now) && FreshFor(cell.stored, e.command, e.now)
    requires e.command.Alarm? ==> cell.alarm.Some? && cell.alarm.value <= e.now
    ensures CellOk(Step(cell, e))
  {
    var t := Apply(cell.stored, e.command, e.now);
    TransitionsKeepAcceptance(cell.stored, e.command, e.now);
    if e.command.Alarm? {
      DueAlarmChanges(cell.stored.value, e.now);
    }
    if t.changed && Quiescent(t.state) {
      assert forall at :: !TimedAt(t.state, at);
    }
  }

  lemma DueAlarmChanges(s: State, now: int)
    requires NextAlarm(s).Some? && NextAlarm(s).value <= now
    ensures ApplyAlarm(Some(s), now).changed
  {
    assert TimedAt(s, NextAlarm(s).value);
  }

  /** In every run the stored state is one the authority accepts when it reads it back,
      it is never quiescent, and the alarm is exactly the one computed for it. */
  lemma {:induction false} EveryRunIsOk(run: seq<Event>)
    requires ValidRun(run)
    ensures RunOk(run)
  {
    if run != [] {
      var before, e := Front(run), Last(run);
      EveryRunIsOk(before);
      FreshSignInCannotCollide(before, e.command, e.now);
      StepKeepsCellOk(Replay(before), e);
      var stored := Replay(before).stored;
      assert StoredWithin(stored, UsedAccess(run), UsedGrants(run));
      if Apply(stored, e.command, e.now).changed {
        TransitionsStayWithin(stored, e.command, e.now, UsedAccess(run), UsedGrants(run));
      }
    }
  }

  lemma {:induction false} PrefixIsValid(run: seq<Event>, n: nat)
    requires ValidRun(run) && n <= |run|
    ensures ValidRun(run[..n])
    decreases |run| - n
  {
    if n < |run| {
      PrefixIsValid(run, n + 1);
      assert Front(run[..n + 1]) == run[..n];
    } else {
      assert run[..n] == run;
    }
  }
}
