/** Revocation is final: a pair that was active and no longer is never becomes active
    again in any run, whether or not its tombstones have been pruned since. */
module VnuRefreshFinality {
  import opened Prelude
  import opened VnuRefreshControl
  import opened VnuRefreshInvariants
  import opened VnuRefreshRuns

  /** The pair is recorded as revoked for at least as long as its grant lasts. */
  predicate Entombed(s: State, pair: LinkedPair) {
    && pair.grantId in s.revokedGrants
    && s.revokedGrants[pair.grantId].ExpiresAt() >= pair.grantExpiresAt
  }

  predicate StoredActive(stored: Option<State>, pair: LinkedPair) {
    stored.Some? && stored.value.active == Some(pair)
  }

  predicate StoredEntombed(stored: Option<State>, pair: LinkedPair) {
    stored.Some? && Entombed(stored.value, pair)
  }

  /** Not active, and unable to come back: recorded as revoked, or past its grant expiry. */
  predicate Gone(stored: Option<State>, pair: LinkedPair, clock: int) {
    !StoredActive(stored, pair) && (StoredEntombed(stored, pair) || pair.grantExpiresAt <= clock)
  }

  // ---------------------------------------------------------- leaving is recorded

  lemma ActivateEntombs(stored: Option<State>, s: State, pair: LinkedPair, now: int, left: LinkedPair)
    requires Accepted(s) && s.active == Some(left) && left != pair
    requires pair.grantId != left.grantId
    requires Activate(stored, s, pair, now).changed
    ensures Entombed(Activate(stored, s, pair, now).state, left)
    ensures left.accessTokenId in Activate(stored, s, pair, now).state.revokedAccess
  {
  }

  lemma LinkedLogoutEntombs(stored: Option<State>, s: State, proof: LinkedPair, now: int)
    requires Accepted(s) && now < proof.grantExpiresAt && s.active.Some?
    requires LinkedLogout(stored, s, proof, now).changed
    ensures var t := LinkedLogout(stored, s, proof, now).state;
            && t.active.None? && t.lease.None?
            && Entombed(t, s.active.value) && s.active.value.accessTokenId in t.revokedAccess
            && Entombed(t, proof) && proof.accessTokenId in t.revokedAccess
  {
  }

  /** However a live pair stops being active - rotation, a new sign-in, terminal abort or
      a logout - that step records both of its identifiers and ends its lease. */
  lemma LeavingEntombs(stored: Option<State>, command: Command, now: int, left: LinkedPair)
    requires StoredOk(stored) && FreshFor(stored, command, now) && ClockOk(now)
    requires Clean(stored, now).active == Some(left)
    requires Apply(stored, command, now).changed && Apply(stored, command, now).state.active != Some(left)
    ensures Entombed(Apply(stored, command, now).state, left)
    ensures left.accessTokenId in Apply(stored, command, now).state.revokedAccess
    ensures Apply(stored, command, now).state.lease.None?
  {
    CleanKeepsAcceptance(stored, now);
    var s := Clean(stored, now);
    match command
    case ActivatePair(pair) =>
      assert stored.value.active == Some(left);
      ActivateEntombs(stored, s, pair, now, left);
    case BeginRefresh(_) =>
    case CompleteRefresh(_, _) =>
    case AbortRefresh(_, _) =>
    case RevokeByAccess(_) =>
    case RevokeByGrant(proof) => LinkedLogoutEntombs(stored, s, proof, now);
    case CheckAccess(_) =>
    case Alarm =>
  }

  // ------------------------------------------------------------ records survive

  lemma LinkedLogoutKeepsEntombed(stored: Option<State>, s: State, proof: LinkedPair, now: int, pair: LinkedPair)
    requires Accepted(s) && Entombed(s, pair)
    ensures LinkedLogout(stored, s, proof, now).changed ==> Entombed(LinkedLogout(stored, s, proof, now).state, pair)
  {
  }

  lemma ActivateKeepsEntombed(stored: Option<State>, s: State, other: LinkedPair, now: int, pair: LinkedPair)
    requires Accepted(s) && Entombed(s, pair)
    ensures Activate(stored, s, other, now).changed ==> Entombed(Activate(stored, s, other, now).state, pair)
  {
  }

  lemma CompleteKeepsEntombed(stored: Option<State>, s: State, previous: LinkedPair, next: LinkedPair, now: int, pair: LinkedPair)
    requires Accepted(s) && Entombed(s, pair)
    ensures Complete(stored, s, previous, next, now).changed ==> Entombed(Complete(stored, s, previous, next, now).state, pair)
  {
  }

  /** A record of a revocation survives every step until the grant has expired. */
  lemma EntombedUntilExpiry(stored: Option<State>, command: Command, now: int, pair: LinkedPair)
    requires StoredOk(stored) && ClockOk(now)
    requires StoredEntombed(stored, pair) && now < pair.grantExpiresAt
    ensures Entombed(Apply(stored, command, now).state, pair)
  {
    CleanKeepsAcceptance(stored, now);
    var s := Clean(stored, now);
    assert Entombed(s, pair);
    match command
    case ActivatePair(other) => ActivateKeepsEntombed(stored, s, other, now, pair);
    case BeginRefresh(_) =>
    case CompleteRefresh(previous, next) => CompleteKeepsEntombed(stored, s, previous, next, now, pair);
    case AbortRefresh(_, _) =>
    case RevokeByAccess(_) =>
    case RevokeByGrant(proof) => LinkedLogoutKeepsEntombed(stored, s, proof, now, pair);
    case CheckAccess(_) =>
    case Alarm =>
  }

  // ------------------------------------------------------- nobody comes back

  /** Only a sign-in or a rotation that brings the pair can make it active. */
  lemma OnlyInstallsActivate(stored: Option<State>, command: Command, now: int, pair: LinkedPair)
    requires !StoredActive(stored, pair) && Apply(stored, command, now).changed
    requires Brings(command) != Some(pair)
    ensures Apply(stored, command, now).state.active != Some(pair)
  {
    assert Clean(stored, now).active != Some(pair);
  }

  /** A rotation cannot bring back a pair that is recorded as revoked, or expired. */
  lemma RotationCannotRevive(stored: Option<State>, previous: LinkedPair, pair: LinkedPair, now: int)
    requires StoredEntombed(stored, pair) || pair.grantExpiresAt <= now
    ensures !Apply(stored, CompleteRefresh(previous, pair), now).changed
  {
  }

  lemma EntombedIsNotQuiescent(s: State, pair: LinkedPair)
    requires Entombed(s, pair)
    ensures !Quiescent(s)
  {
  }

  lemma StepKeepsGone(cell: Cell, e: Event, pair: LinkedPair, before: int)
    requires CellOk(cell) && ClockOk(e.now) && before <= e.clock
    requires e.now == e.clock || (e.command.CheckAccess? && e.now <= e.clock)
    requires e.command.ActivatePair? ==> e.command.pair != pair
    requires Gone(cell.stored, pair, before)
    ensures Gone(Step(cell, e).stored, pair, e.clock)
  {
    var t := Apply(cell.stored, e.command, e.now);
    if t.changed {
      if e.command.CompleteRefresh? && e.command.next == pair {
        RotationCannotRevive(cell.stored, e.command.previous, pair, e.now);
      }
      OnlyInstallsActivate(cell.stored, e.command, e.now, pair);
      if e.clock < pair.grantExpiresAt {
        EntombedUntilExpiry(cell.stored, e.command, e.now, pair);
        EntombedIsNotQuiescent(t.state, pair);
      }
    }
  }

  /** Pairs that have ever been stored as active. */
  function Installed(run: seq<Event>): set<LinkedPair> {
    if run == [] then {}
    else
      Installed(Front(run)) +
      var stored := Replay(run).stored;
      if stored.Some? && stored.value.active.Some? then {stored.value.active.value} else {}
  }

  lemma LeavingIsGone(cell: Cell, e: Event, pair: LinkedPair)
    requires CellOk(cell) && ClockOk(e.now) && e.now <= e.clock && FreshFor(cell.stored, e.command, e.now)
    requires StoredActive(cell.stored, pair) && !StoredActive(Step(cell, e).stored, pair)
    ensures Gone(Step(cell, e).stored, pair, e.clock)
  {
    var t := Apply(cell.stored, e.command, e.now);
    if e.now < pair.grantExpiresAt {
      assert Clean(cell.stored, e.now).active == Some(pair);
      LeavingEntombs(cell.stored, e.command, e.now, pair);
      EntombedIsNotQuiescent(t.state, pair);
    }
  }

  /** Every pair that was ever active is still the active one or is gone for good, and
      its grant identifier has been handed out. */
  lemma {:induction false} ActiveOrGone(run: seq<Event>, pair: LinkedPair)
    requires ValidRun(run) && pair in Installed(run)
    ensures StoredActive(Replay(run).stored, pair) || Gone(Replay(run).stored, pair, ClockAfter(run))
    ensures pair.grantId in UsedGrants(run)
  {
    EveryRunIsOk(run);
    var before, e := Front(run), Last(run);
    EveryRunIsOk(before);
    FreshSignInCannotCollide(before, e.command, e.now);
    if pair in Installed(before) {
      ActiveOrGone(before, pair);
      if StoredActive(Replay(before).stored, pair) {
        if !StoredActive(Replay(run).stored, pair) {
          LeavingIsGone(Replay(before), e, pair);
        }
      } else {
        StepKeepsGone(Replay(before), e, pair, ClockAfter(before));
      }
    } else {
      assert StoredActive(Replay(run).stored, pair);
    }
  }

  lemma {:induction false} InstalledGrows(run: seq<Event>, n: nat)
    requires n <= |run|
    ensures Installed(run[..n]) <= Installed(run)
    decreases |run| - n
  {
    if n < |run| {
      InstalledGrows(run, n + 1);
      assert Front(run[..n + 1]) == run[..n];
    } else {
      assert run[..n] == run;
    }
  }

  /** Once gone, always gone: from any point of a run at which a formerly active pair is
      not stored as active, it is gone at every later point. */
  lemma {:induction false} GoneForever(run: seq<Event>, since: nat, pair: LinkedPair)
    requires ValidRun(run) && since <= |run| && pair in Installed(run[..since])
    requires !StoredActive(Replay(run[..since]).stored, pair)
    ensures Gone(Replay(run).stored, pair, ClockAfter(run))
  {
    if since == |run| {
      assert run[..since] == run;
      ActiveOrGone(run, pair);
    } else {
      var before, e := Front(run), Last(run);
      assert before[..since] == run[..since];
      GoneForever(before, since, pair);
      InstalledGrows(before, since);
      ActiveOrGone(before, pair);
      EveryRunIsOk(before);
      StepKeepsGone(Replay(before), e, pair, ClockAfter(before));
    }
  }

  lemma NotStoredActiveIsRefused(stored: Option<State>, pair: LinkedPair, now: int)
    requires !StoredActive(stored, pair) && pair.WellFormed()
    ensures ApplyCheckAccess(stored, pair, now).reply == Revoked
    ensures ApplyBeginRefresh(stored, pair, now).reply == Revoked
  {
    assert Clean(stored, now).active != Some(pair);
  }

  /** Revocation is final: from then on every access check of the pair and every attempt
      to begin a refresh with it, at whatever instant, answers `Revoked`. */
  lemma RevocationIsFinal(run: seq<Event>, since: nat, pair: LinkedPair, at: nat)
    requires ValidRun(run) && since <= at < |run| && pair in Installed(run[..since]) && pair.WellFormed()
    requires !StoredActive(Replay(run[..since]).stored, pair)
    requires run[at].command == CheckAccess(pair) || run[at].command == BeginRefresh(pair)
    ensures ReplyAt(run, at) == Revoked
  {
    PrefixIsValid(run, at);
    assert run[..at][..since] == run[..since];
    GoneForever(run[..at], since, pair);
    NotStoredActiveIsRefused(Replay(run[..at]).stored, pair, run[at].now);
  }
}
