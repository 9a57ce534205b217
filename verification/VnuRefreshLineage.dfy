/** Where the active pair and the lease of a run come from. */
module VnuRefreshLineage {
  import opened Prelude
  import opened VnuRefreshControl
  import opened VnuRefreshInvariants
  import opened VnuRefreshRuns
  import opened VnuRefreshFinality

  // ---------------------------------------------------- completions and begins

  function ReplyOf(cell: Cell, e: Event): Reply {
    Apply(cell.stored, e.command, e.now).reply
  }

  /** The reply given at each position of the run. */
  function Replies(run: seq<Event>): (replies: seq<Reply>)
    ensures |replies| == |run|
  {
    if run == [] then [] else Replies(Front(run)) + [ReplyOf(Replay(Front(run)), Last(run))]
  }

  lemma {:induction false} RepliesOfPrefix(run: seq<Event>, n: nat)
    requires n <= |run|
    ensures Replies(run[..n]) == Replies(run)[..n]
  {
    if n == |run| {
      assert run[..n] == run;
    } else {
      RepliesOfPrefix(Front(run), n);
      assert Front(run)[..n] == run[..n];
      assert Replies(run) == Replies(Front(run)) + Replies(run)[|run| - 1..];
    }
  }

  lemma RepliesEnd(run: seq<Event>)
    requires run != []
    ensures Last(Replies(run)) == ReplyOf(Replay(Front(run)), Last(run))
  {
  }

  lemma {:induction false} RepliesAt(run: seq<Event>, i: nat)
    requires i < |run|
    ensures Replies(run)[i] == ReplyOf(Replay(run[..i]), run[i])
  {
    var upTo := run[..i + 1];
    RepliesOfPrefix(run, i + 1);
    RepliesEnd(upTo);
    assert Front(upTo) == run[..i] && Last(upTo) == run[i];
    assert Last(Replies(upTo)) == Replies(run)[i];
  }

  /** Position `j` accepted a begin for the pair, its lease runs to `expiresAt`, and no
      rotation has completed since. */
  predicate Backs(run: seq<Event>, replies: seq<Reply>, j: nat, pair: LinkedPair, expiresAt: int)
    requires |replies| == |run|
  {
    && j < |run|
    && run[j].command == BeginRefresh(pair)
    && replies[j] == BeginAccepted(expiresAt)
    && forall k :: j < k < |run| ==> replies[k] != Completed
  }

  lemma BacksExtends(run: seq<Event>, replies: seq<Reply>, j: nat, pair: LinkedPair, expiresAt: int, e: Event, reply: Reply)
    requires |replies| == |run| && Backs(run, replies, j, pair, expiresAt) && reply != Completed
    ensures Backs(run + [e], replies + [reply], j, pair, expiresAt)
  {
  }

  /** A lease that survives a step other than a begin was there before it. */
  lemma LeaseEffect(stored: Option<State>, command: Command, now: int)
    requires StoredOk(stored) && ClockOk(now) && Apply(stored, command, now).changed
    ensures var t := Apply(stored, command, now);
            && (t.reply == Completed ==> t.state.lease.None?)
            && (t.state.lease.Some? ==>
                  if t.reply.BeginAccepted?
                  then command == BeginRefresh(t.state.lease.value.pair) && t.reply.leaseExpiresAt == t.state.lease.value.expiresAt
                  else stored.Some? && t.state.lease == stored.value.lease)
  {
    CleanKeepsAcceptance(stored, now);
  }

  lemma CompletedNeedsALease(stored: Option<State>, command: Command, now: int)
    requires Apply(stored, command, now).reply == Completed
    ensures command.CompleteRefresh? && Apply(stored, command, now).changed
    ensures stored.Some? && stored.value.lease.Some?
    ensures stored.value.lease.value.pair == command.previous && now < stored.value.lease.value.expiresAt
    ensures stored.value.active == Some(command.previous)
    ensures command.next.grantExpiresAt == command.previous.grantExpiresAt
  {
    var t := Apply(stored, command, now);
    assert t.state.active == Some(command.next);
  }

  /** Where a lease found in storage after a step comes from. */
  lemma StoredLeaseEffect(cell: Cell, e: Event)
    requires StoredOk(cell.stored) && ClockOk(e.now)
    requires Step(cell, e).stored.Some? && Step(cell, e).stored.value.lease.Some?
    ensures var lease := Step(cell, e).stored.value.lease.value;
            var reply := ReplyOf(cell, e);
            && reply != Completed
            && (|| (e.command == BeginRefresh(lease.pair) && reply == BeginAccepted(lease.expiresAt))
                || (cell.stored.Some? && cell.stored.value.lease == Some(lease)))
  {
    var t := Apply(cell.stored, e.command, e.now);
    if t.changed {
      LeaseEffect(cell.stored, e.command, e.now);
    } else if t.reply == Completed {
      CompletedNeedsALease(cell.stored, e.command, e.now);
    }
  }

  lemma {:induction false} LeaseIsBacked(run: seq<Event>, lease: RefreshLease) returns (j: nat)
    requires ValidRun(run)
    requires Replay(run).stored.Some? && Replay(run).stored.value.lease == Some(lease)
    ensures Backs(run, Replies(run), j, lease.pair, lease.expiresAt)
  {
    var before, e := Front(run), Last(run);
    EveryRunIsOk(before);
    var cell := Replay(before);
    StoredLeaseEffect(cell, e);
    var reply := ReplyOf(cell, e);
    assert run == before + [e];
    assert Replies(run) == Replies(before) + [reply];
    if e.command == BeginRefresh(lease.pair) && reply == BeginAccepted(lease.expiresAt) {
      j := |run| - 1;
    } else {
      j := LeaseIsBacked(before, lease);
      BacksExtends(before, Replies(before), j, lease.pair, lease.expiresAt, e, reply);
    }
  }

  /** Every completed rotation consumes an earlier accepted begin for exactly the old pair,
      strictly before its lease expires, with no other completion in between - so no
      begin serves two completions. */
  lemma CompletionConsumesABegin(run: seq<Event>, at: nat) returns (j: nat, expiresAt: int)
    requires ValidRun(run) && at < |run| && Replies(run)[at] == Completed
    ensures run[at].command.CompleteRefresh?
    ensures j < at && run[j].command == BeginRefresh(run[at].command.previous)
    ensures Replies(run)[j] == BeginAccepted(expiresAt) && run[at].clock < expiresAt
    ensures forall k :: j < k < at ==> Replies(run)[k] != Completed
  {
    PrefixIsValid(run, at);
    PrefixIsValid(run, at + 1);
    RepliesAt(run, at);
    var before := run[..at];
    assert Front(run[..at + 1]) == before && Last(run[..at + 1]) == run[at];
    CompletedNeedsALease(Replay(before).stored, run[at].command, run[at].now);
    var lease := Replay(before).stored.value.lease.value;
    expiresAt := lease.expiresAt;
    j := LeaseIsBacked(before, lease);
    forall k | j <= k < at
      ensures Replies(run)[k] == Replies(before)[k]
    {
      RepliesOfPrefix(run, at);
    }
  }

  // --------------------------------------------------------------- the chain

  /** The pair of the last sign-in that was answered `Activated`. */
  function LastSignIn(run: seq<Event>): Option<LinkedPair> {
    if run == [] then None
    else if ReplyAt(run, |run| - 1) == Activated && Last(run).command.ActivatePair? then Some(Last(run).command.pair)
    else LastSignIn(Front(run))
  }

  lemma ActiveEffect(stored: Option<State>, command: Command, now: int)
    requires Apply(stored, command, now).changed
    ensures var t := Apply(stored, command, now);
            t.state.active.Some? ==>
              if t.reply.Activated? then command == ActivatePair(t.state.active.value)
              else if t.reply == Completed then command.CompleteRefresh? && command.next == t.state.active.value
              else stored.Some? && t.state.active == stored.value.active
  {
  }

  lemma OnlySignInsActivate(stored: Option<State>, command: Command, now: int)
    requires Apply(stored, command, now).reply == Activated
    ensures command.ActivatePair?
    ensures !Apply(stored, command, now).changed ==> stored.Some? && stored.value.active == Some(command.pair)
  {
    if command.ActivatePair? && !Apply(stored, command, now).changed && stored.Some? {
      assert stored.value.active == Some(command.pair);
    }
  }

  /** Along any chain of rotations the active pair keeps the grant expiry of the sign-in
      that started the chain. */
  lemma {:induction false} RotationKeepsTheGrantExpiry(run: seq<Event>)
    requires ValidRun(run)
    ensures var stored := Replay(run).stored;
            stored.Some? && stored.value.active.Some? ==>
              && LastSignIn(run).Some?
              && LastSignIn(run).value.grantExpiresAt == stored.value.active.value.grantExpiresAt
  {
    if run != [] {
      var before, e := Front(run), Last(run);
      RotationKeepsTheGrantExpiry(before);
      var stored := Replay(before).stored;
      var t := Apply(stored, e.command, e.now);
      if t.reply == Activated {
        OnlySignInsActivate(stored, e.command, e.now);
      }
      if t.reply == Completed {
        CompletedNeedsALease(stored, e.command, e.now);
      }
      if t.changed {
        ActiveEffect(stored, e.command, e.now);
      }
    }
  }

  /** No access is ever reported active at or past the grant expiry of the last sign-in. */
  lemma NothingOutlivesItsSignIn(run: seq<Event>, at: nat)
    requires ValidRun(run) && at < |run| && ReplyAt(run, at) == Active
    ensures LastSignIn(run[..at]).Some?
    ensures run[at].now < LastSignIn(run[..at]).value.grantExpiresAt
  {
    PrefixIsValid(run, at);
    RotationKeepsTheGrantExpiry(run[..at]);
    ActiveNeedsAStoredPair(Replay(run[..at]).stored, run[at].command, run[at].now);
  }

  lemma ActiveNeedsAStoredPair(stored: Option<State>, command: Command, now: int)
    requires Apply(stored, command, now).reply == Active
    ensures stored.Some? && stored.value.active.Some? && now < stored.value.active.value.grantExpiresAt
  {
  }

  // ------------------------------------------------------ what an old grant reaches

  datatype Install = SignIn(pair: LinkedPair) | Rotation(previous: LinkedPair, next: LinkedPair)

  /** How the pair that is, or last was, active came to be active. */
  function LastInstall(run: seq<Event>): Option<Install> {
    if run == [] then None
    else
      var e, stored := Last(run), Replay(Front(run)).stored;
      var reply := ReplyAt(run, |run| - 1);
      if reply == Completed && e.command.CompleteRefresh? then Some(Rotation(e.command.previous, e.command.next))
      else if reply == Activated && e.command.ActivatePair? && !StoredActive(stored, e.command.pair) then
        Some(SignIn(e.command.pair))
      else LastInstall(Front(run))
  }

  /** A recorded successor is the active pair, installed by the very rotation that
      recorded it, or it is gone. */
  predicate SuccessorOk(stored: Option<State>, install: Option<Install>, clock: int, grant: Identifier, successor: LinkedPair) {
    || (&& StoredActive(stored, successor) && grant in stored.value.revokedGrants
        && install.Some? && install.value.Rotation?
        && install.value.next == successor && install.value.previous.grantId == grant
        && stored.value.revokedGrants[grant].Links(install.value.previous))
    || Gone(stored, successor, clock)
  }

  predicate SuccessorsOk(stored: Option<State>, install: Option<Install>, clock: int) {
    stored.Some? ==>
      forall grant :: grant in stored.value.revokedGrants
                      && stored.value.revokedGrants[grant].Linked?
                      && stored.value.revokedGrants[grant].successor.Some? ==>
                        SuccessorOk(stored, install, clock, grant, stored.value.revokedGrants[grant].successor.value)
  }

  /** The tombstone of `grant` names a successor in both states, or in the first at all. */
  predicate SuccessorKept(s: State, t: State, grant: Identifier) {
    grant in t.revokedGrants && t.revokedGrants[grant].Linked? && t.revokedGrants[grant].successor.Some? ==>
      grant in s.revokedGrants && s.revokedGrants[grant] == t.revokedGrants[grant]
  }

  lemma SignInKeepsSuccessors(stored: Option<State>, s: State, pair: LinkedPair, now: int, grant: Identifier)
    requires Activate(stored, s, pair, now).changed
    ensures SuccessorKept(s, Activate(stored, s, pair, now).state, grant)
  {
  }

  lemma RefreshKeepsSuccessors(stored: Option<State>, s: State, pair: LinkedPair, terminal: bool, now: int, grant: Identifier)
    ensures Begin(stored, s, pair, now).changed ==> SuccessorKept(s, Begin(stored, s, pair, now).state, grant)
    ensures Abort(stored, s, pair, terminal, now).changed ==> SuccessorKept(s, Abort(stored, s, pair, terminal, now).state, grant)
  {
  }

  lemma LogoutKeepsSuccessors(stored: Option<State>, s: State, pair: LinkedPair, now: int, grant: Identifier)
    ensures Logout(stored, s, pair, now).changed ==> SuccessorKept(s, Logout(stored, s, pair, now).state, grant)
    ensures LinkedLogout(stored, s, pair, now).changed ==> SuccessorKept(s, LinkedLogout(stored, s, pair, now).state, grant)
  {
  }

  lemma RotationAddsOneSuccessor(stored: Option<State>, s: State, previous: LinkedPair, next: LinkedPair, now: int, grant: Identifier)
    requires Complete(stored, s, previous, next, now).changed
    ensures var t := Complete(stored, s, previous, next, now);
            && t.reply == Completed && t.state.active == Some(next)
            && if grant == previous.grantId
               then grant in t.state.revokedGrants && t.state.revokedGrants[grant] == SuccessorTombstone(previous, next)
               else SuccessorKept(s, t.state, grant)
  {
  }

  lemma CleaningKeepsSuccessors(stored: Option<State>, now: int, grant: Identifier)
    ensures grant in Clean(stored, now).revokedGrants ==>
              stored.Some? && grant in stored.value.revokedGrants
              && stored.value.revokedGrants[grant] == Clean(stored, now).revokedGrants[grant]
  {
  }

  /** Recorded successors come from before the step, except a completed rotation's own. */
  lemma SuccessorEffect(stored: Option<State>, command: Command, now: int, grant: Identifier)
    requires Apply(stored, command, now).changed
    requires var t := Apply(stored, command, now).state;
             grant in t.revokedGrants && t.revokedGrants[grant].Linked? && t.revokedGrants[grant].successor.Some?
    ensures var t := Apply(stored, command, now);
            || (stored.Some? && grant in stored.value.revokedGrants && stored.value.revokedGrants[grant] == t.state.revokedGrants[grant])
            || (&& t.reply == Completed && command.CompleteRefresh? && grant == command.previous.grantId
                && t.state.revokedGrants[grant] == SuccessorTombstone(command.previous, command.next)
                && t.state.active == Some(command.next))
  {
    var s := Clean(stored, now);
    CleaningKeepsSuccessors(stored, now, grant);
    match command
    case ActivatePair(pair) => SignInKeepsSuccessors(stored, s, pair, now, grant);
    case BeginRefresh(pair) => RefreshKeepsSuccessors(stored, s, pair, false, now, grant);
    case CompleteRefresh(previous, next) => RotationAddsOneSuccessor(stored, s, previous, next, now, grant);
    case AbortRefresh(pair, terminal) => RefreshKeepsSuccessors(stored, s, pair, terminal, now, grant);
    case RevokeByAccess(pair) => LogoutKeepsSuccessors(stored, s, pair, now, grant);
    case RevokeByGrant(proof) => LogoutKeepsSuccessors(stored, s, proof, now, grant);
    case CheckAccess(_) =>
    case Alarm =>
  }

  lemma StepKeepsSuccessor(before: seq<Event>, run: seq<Event>, grant: Identifier, successor: LinkedPair)
    requires ValidRun(run) && run != [] && before == Front(run)
    requires RunOk(before) && Apply(Replay(before).stored, Last(run).command, Last(run).now).changed
    requires Replay(run).stored.Some? && grant in Replay(run).stored.value.revokedGrants
    requires Replay(before).stored.Some? && grant in Replay(before).stored.value.revokedGrants
    requires Replay(run).stored.value.revokedGrants[grant] == Replay(before).stored.value.revokedGrants[grant]
    requires successor.grantId in UsedGrants(before)
    requires SuccessorOk(Replay(before).stored, LastInstall(before), ClockAfter(before), grant, successor)
    ensures SuccessorOk(Replay(run).stored, LastInstall(run), ClockAfter(run), grant, successor)
  {
    var e, cell := Last(run), Replay(before);
    FreshSignInCannotCollide(before, e.command, e.now);
    if Gone(cell.stored, successor, ClockAfter(before)) {
      StepKeepsGone(cell, e, successor, ClockAfter(before));
    } else if StoredActive(Replay(run).stored, successor) {
      var t := Apply(cell.stored, e.command, e.now);
      ActiveEffect(cell.stored, e.command, e.now);
      if t.reply == Completed {
        CompletedNeedsALease(cell.stored, e.command, e.now);
        assert false;
      }
      assert LastInstall(run) == LastInstall(before);
    } else {
      LeavingIsGone(cell, e, successor);
    }
  }

  /** Every recorded successor was itself stored as active once. */
  predicate SuccessorsInstalled(stored: Option<State>, installed: set<LinkedPair>) {
    stored.Some? ==>
      forall grant :: grant in stored.value.revokedGrants
                      && stored.value.revokedGrants[grant].Linked?
                      && stored.value.revokedGrants[grant].successor.Some? ==>
                        stored.value.revokedGrants[grant].successor.value in installed
  }

  lemma {:induction false} SuccessorsAreAccountedFor(run: seq<Event>)
    requires ValidRun(run)
    ensures SuccessorsOk(Replay(run).stored, LastInstall(run), ClockAfter(run))
    ensures SuccessorsInstalled(Replay(run).stored, Installed(run))
  {
    if run != [] && Replay(run).stored.Some? {
      var before, e := Front(run), Last(run);
      SuccessorsAreAccountedFor(before);
      EveryRunIsOk(before);
      var stored, stored' := Replay(before).stored, Replay(run).stored;
      forall grant | grant in stored'.value.revokedGrants
                     && stored'.value.revokedGrants[grant].Linked?
                     && stored'.value.revokedGrants[grant].successor.Some?
        ensures SuccessorOk(stored', LastInstall(run), ClockAfter(run), grant, stored'.value.revokedGrants[grant].successor.value)
        ensures stored'.value.revokedGrants[grant].successor.value in Installed(run)
      {
        SuccessorAt(run, grant);
      }
    }
  }

  lemma SuccessorAt(run: seq<Event>, grant: Identifier)
    requires ValidRun(run) && run != [] && RunOk(Front(run))
    requires var before := Front(run);
             && SuccessorsOk(Replay(before).stored, LastInstall(before), ClockAfter(before))
             && SuccessorsInstalled(Replay(before).stored, Installed(before))
    requires var stored := Replay(run).stored;
             && stored.Some? && grant in stored.value.revokedGrants
             && stored.value.revokedGrants[grant].Linked? && stored.value.revokedGrants[grant].successor.Some?
    ensures var successor := Replay(run).stored.value.revokedGrants[grant].successor.value;
            && SuccessorOk(Replay(run).stored, LastInstall(run), ClockAfter(run), grant, successor)
            && successor in Installed(run)
  {
    var before, e := Front(run), Last(run);
    var stored, stored' := Replay(before).stored, Replay(run).stored;
    var successor := stored'.value.revokedGrants[grant].successor.value;
    if Apply(stored, e.command, e.now).changed {
      SuccessorEffect(stored, e.command, e.now, grant);
      if stored.Some? && grant in stored.value.revokedGrants && stored.value.revokedGrants[grant] == stored'.value.revokedGrants[grant] {
        assert successor in Installed(before);
        ActiveOrGone(before, successor);
        StepKeepsSuccessor(before, run, grant, successor);
      }
    } else {
      UnchangedKeepsInstall(run);
      assert successor in Installed(before);
    }
  }

  lemma UnchangedKeepsInstall(run: seq<Event>)
    requires run != []
    requires !Apply(Replay(Front(run)).stored, Last(run).command, Last(run).now).changed
    ensures LastInstall(run) == LastInstall(Front(run))
    ensures Replay(run).stored == Replay(Front(run)).stored
  {
    var e, stored := Last(run), Replay(Front(run)).stored;
    var reply := ReplyAt(run, |run| - 1);
    if reply == Completed {
      CompletedNeedsALease(stored, e.command, e.now);
    }
    if reply == Activated {
      OnlySignInsActivate(stored, e.command, e.now);
    }
  }

  /** An old grant reaches exactly one rotation step. Whenever a logout by grant clears an
      active pair, its proof is that very pair, or the pair became active by the one
      rotation that replaced the proof - never by a later rotation or another sign-in. */
  lemma OldGrantReachesOneStep(run: seq<Event>, at: nat, proof: LinkedPair)
    requires ValidRun(run) && at < |run| && run[at].command == RevokeByGrant(proof)
    requires var before := Replay(run[..at]).stored;
             && before.Some? && Clean(before, run[at].now).active.Some?
             && Apply(before, run[at].command, run[at].now).changed
    ensures var current := Clean(Replay(run[..at]).stored, run[at].now).active.value;
            current == proof || LastInstall(run[..at]) == Some(Rotation(proof, current))
    ensures ReplyAt(run, at) == Revoked
    ensures Apply(Replay(run[..at]).stored, run[at].command, run[at].now).state.active.None?
  {
    PrefixIsValid(run, at);
    SuccessorsAreAccountedFor(run[..at]);
    LinkedLogoutReach(Replay(run[..at]).stored, LastInstall(run[..at]), ClockAfter(run[..at]), proof, run[at].now);
  }

  lemma LinkedLogoutReach(stored: Option<State>, install: Option<Install>, clock: int, proof: LinkedPair, now: int)
    requires SuccessorsOk(stored, install, clock)
    requires stored.Some? && Clean(stored, now).active.Some? && ApplyRevokeByGrant(stored, proof, now).changed
    ensures Clean(stored, now).active == Some(proof)
            || install == Some(Rotation(proof, Clean(stored, now).active.value))
    ensures ApplyRevokeByGrant(stored, proof, now).reply == Revoked
    ensures ApplyRevokeByGrant(stored, proof, now).state.active.None?
  {
    var s := Clean(stored, now);
    var current := s.active.value;
    if current != proof {
      assert SuccessorAuthority(s, proof);
      assert proof.grantId in stored.value.revokedGrants;
      assert stored.value.revokedGrants[proof.grantId] == s.revokedGrants[proof.grantId];
      assert SuccessorOk(stored, install, clock, proof.grantId, current);
    }
  }

  /** One step of it: the proof clears an active pair if and only if it names that pair or
      the pair is its recorded successor; then both pairs are recorded as revoked. */
  lemma LinkedGrantReach(stored: Option<State>, proof: LinkedPair, now: int)
    requires StoredOk(stored) && ClockOk(now)
    requires proof.WellFormed() && now < proof.grantExpiresAt && Clean(stored, now).active.Some?
    ensures var s, t := Clean(stored, now), ApplyRevokeByGrant(stored, proof, now);
            && (t.changed && t.state.active.None? <==> s.active == Some(proof) || SuccessorAuthority(s, proof))
            && (t.changed ==>
                  && t.reply == Revoked && t.state.lease.None?
                  && Entombed(t.state, proof) && proof.accessTokenId in t.state.revokedAccess
                  && Entombed(t.state, s.active.value) && s.active.value.accessTokenId in t.state.revokedAccess)
  {
    CleanKeepsAcceptance(stored, now);
    var s := Clean(stored, now);
    if LinkedLogout(stored, s, proof, now).changed {
      LinkedLogoutEntombs(stored, s, proof, now);
    }
  }
}
