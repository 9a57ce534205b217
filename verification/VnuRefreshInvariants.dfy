/** What one step of the VNU refresh authority keeps, undoes and cannot reveal. */
module VnuRefreshInvariants {
  import opened Prelude
  import opened VnuRefreshControl

  predicate StoredOk(stored: Option<State>) {
    stored.Some? ==> Accepted(stored.value)
  }

  predicate ClockOk(now: int) {
    0 <= now <= MAX_TIME
  }

  // ---------------------------------------------------------------- acceptance

  lemma CleanKeepsAcceptance(stored: Option<State>, now: int)
    requires StoredOk(stored) && ClockOk(now)
    ensures Accepted(Clean(stored, now))
  {
  }

  lemma RevokeExactKeepsAcceptance(s: State, pair: LinkedPair, tombstone: Tombstone)
    requires Accepted(s) && s.active == Some(pair) && tombstone.WellFormed(pair.grantId)
    ensures Accepted(RevokeExact(s, pair, tombstone))
    ensures RevokeExact(s, pair, tombstone).lease.None?
  {
  }

  /** Activating `pair` would leave an active identifier that is also tombstoned. */
  predicate ActivationCollides(s: State, pair: LinkedPair) {
    || s.Tombstones(pair)
    || (&& s.active.Some? && s.active.value != pair
        && (s.active.value.accessTokenId == pair.accessTokenId || s.active.value.grantId == pair.grantId))
  }

  lemma ActivateAcceptedIff(stored: Option<State>, s: State, pair: LinkedPair, now: int)
    requires Accepted(s) && pair.WellFormed() && ClockOk(now)
    requires Activate(stored, s, pair, now).reply.Activated?
    ensures Accepted(Activate(stored, s, pair, now).state) <==> !ActivationCollides(s, pair)
  {
    var t := Activate(stored, s, pair, now).state;
    if s.active.Some? && s.active.value != pair {
      RevokeExactKeepsAcceptance(s, s.active.value, PlainTombstone(s.active.value));
    }
    assert AcceptedActive(t) <==> !ActivationCollides(s, pair);
    assert AcceptedWindows(t) && AcceptedLease(t);
  }

  /** A stored activation is readable again exactly when its identifiers collide with
      no tombstone and with no part of the pair it replaces. */
  lemma ActivationAcceptedIffFresh(stored: Option<State>, pair: LinkedPair, now: int)
    requires StoredOk(stored) && ClockOk(now)
    requires ApplyActivatePair(stored, pair, now).changed
    ensures Accepted(ApplyActivatePair(stored, pair, now).state)
            <==> !ActivationCollides(Clean(stored, now), pair)
  {
    CleanKeepsAcceptance(stored, now);
    ActivateAcceptedIff(stored, Clean(stored, now), pair, now);
  }

  /** It can happen: a sign-in with a revoked identifier is stored, and cannot be read back. */
  lemma CollidingSignIn(pair: LinkedPair, now: int) returns (s: State)
    requires pair.WellFormed() && 0 <= now < MAX_TIME
    ensures Accepted(s) && s.Tombstones(pair)
    ensures var t := ApplyActivatePair(Some(s), pair, now); t.reply == Activated && t.changed && !Accepted(t.state)
  {
    s := State(None, None, map[pair.accessTokenId := now + 1], map[], RefreshWindow(0, now + 1), None);
    assert pair.accessTokenId in Clean(Some(s), now).revokedAccess;
  }

  lemma BeginKeepsAcceptance(stored: Option<State>, s: State, pair: LinkedPair, now: int)
    requires StoredOk(stored) && Accepted(s) && pair.WellFormed() && ClockOk(now)
    ensures Begin(stored, s, pair, now).changed ==> Accepted(Begin(stored, s, pair, now).state)
  {
  }

  lemma CompleteKeepsAcceptance(stored: Option<State>, s: State, previous: LinkedPair, next: LinkedPair, now: int)
    requires StoredOk(stored) && Accepted(s) && ClockOk(now)
    requires previous.WellFormed() && next.WellFormed() && Rotates(previous, next) && !s.Tombstones(next)
    ensures Complete(stored, s, previous, next, now).changed ==> Accepted(Complete(stored, s, previous, next, now).state)
  {
    if s.active == Some(previous) {
      RevokeExactKeepsAcceptance(s, previous, SuccessorTombstone(previous, next));
    }
  }

  lemma AbortKeepsAcceptance(stored: Option<State>, s: State, pair: LinkedPair, terminal: bool, now: int)
    requires StoredOk(stored) && Accepted(s) && pair.WellFormed()
    ensures Abort(stored, s, pair, terminal, now).changed ==> Accepted(Abort(stored, s, pair, terminal, now).state)
  {
    if s.active == Some(pair) {
      RevokeExactKeepsAcceptance(s, pair, PlainTombstone(pair));
    }
  }

  lemma LogoutKeepsAcceptance(stored: Option<State>, s: State, pair: LinkedPair, now: int)
    requires StoredOk(stored) && Accepted(s) && pair.WellFormed()
    ensures Logout(stored, s, pair, now).changed ==> Accepted(Logout(stored, s, pair, now).state)
  {
    if s.active == Some(pair) {
      RevokeExactKeepsAcceptance(s, pair, PlainTombstone(pair));
    }
  }

  lemma LinkedLogoutKeepsAcceptance(stored: Option<State>, s: State, proof: LinkedPair, now: int)
    requires StoredOk(stored) && Accepted(s) && proof.WellFormed()
    ensures LinkedLogout(stored, s, proof, now).changed ==> Accepted(LinkedLogout(stored, s, proof, now).state)
  {
    assert PlainTombstone(proof).WellFormed(proof.grantId);
  }

  /** The only command that needs identifiers the authority has not seen. */
  predicate FreshFor(stored: Option<State>, command: Command, now: int) {
    command.ActivatePair? ==>
      || (stored.Some? && stored.value.active == Some(command.pair))
      || !ActivationCollides(Clean(stored, now), command.pair)
  }

  lemma StoredActiveDoesNotCollide(stored: Option<State>, pair: LinkedPair, now: int)
    requires StoredOk(stored) && stored.Some? && stored.value.active == Some(pair)
    ensures !ActivationCollides(Clean(stored, now), pair)
  {
  }

  /** Every transition of an accepted state stores an accepted state. */
  lemma TransitionsKeepAcceptance(stored: Option<State>, command: Command, now: int)
    requires StoredOk(stored) && ClockOk(now)
    requires FreshFor(stored, command, now)
    ensures Apply(stored, command, now).changed ==> Accepted(Apply(stored, command, now).state)
  {
    CleanKeepsAcceptance(stored, now);
    var s := Clean(stored, now);
    match command
    case ActivatePair(pair) =>
      if stored.Some? && stored.value.active == Some(pair) {
        StoredActiveDoesNotCollide(stored, pair, now);
      }
      if ApplyActivatePair(stored, pair, now).changed {
        ActivationAcceptedIffFresh(stored, pair, now);
      }
    case BeginRefresh(pair) =>
      if pair.WellFormed() {
        BeginKeepsAcceptance(stored, s, pair, now);
      }
    case CompleteRefresh(previous, next) =>
      if previous.WellFormed() && next.WellFormed() && Rotates(previous, next) && !Collides(stored, next) {
        CompleteKeepsAcceptance(stored, s, previous, next, now);
      }
    case AbortRefresh(pair, terminal) =>
      if pair.WellFormed() {
        AbortKeepsAcceptance(stored, s, pair, terminal, now);
      }
    case RevokeByAccess(pair) =>
      if pair.WellFormed() {
        LogoutKeepsAcceptance(stored, s, pair, now);
      }
    case RevokeByGrant(proof) =>
      if proof.WellFormed() {
        LinkedLogoutKeepsAcceptance(stored, s, proof, now);
      }
    case CheckAccess(_) =>
    case Alarm =>
  }
}
