/** The reply to every operation of the VNU refresh authority, and what it stores, told from
    the stored record and the clock alone: no cleaning, no transitions. */
module VnuRefreshVerdicts {
  import opened Prelude
  import opened VnuRefreshControl
  import opened VnuRefreshInvariants
  import opened VnuRefreshRuns
  import opened VnuRefreshFinality

  // -------------------------------------------- what a record says at an instant

  /** The pair is stored as active, and its grant lasts. */
  predicate PairLives(stored: Option<State>, pair: LinkedPair, now: int) {
    stored.Some? && stored.value.active == Some(pair) && now < pair.grantExpiresAt
  }

  predicate NobodyLives(stored: Option<State>, now: int) {
    stored.Some? && stored.value.active.Some? ==> stored.value.active.value.grantExpiresAt <= now
  }

  /** A refresh of the pair is under way. */
  predicate LeaseLives(stored: Option<State>, pair: LinkedPair, now: int) {
    && stored.Some? && stored.value.lease.Some?
    && stored.value.lease.value.pair == pair && now < stored.value.lease.value.expiresAt
  }

  predicate AccessRevoked(stored: Option<State>, id: Identifier, now: int) {
    stored.Some? && id in stored.value.revokedAccess && now < stored.value.revokedAccess[id]
  }

  predicate GrantRevoked(stored: Option<State>, id: Identifier, now: int) {
    && stored.Some? && id in stored.value.revokedGrants
    && match stored.value.revokedGrants[id]
       case Bare(expiry) => now < expiry
       case Linked(_, _, grantExpiresAt, _) => now < grantExpiresAt
  }

  /** The grant is recorded as revoked together with exactly this access token. */
  predicate GrantRevokedWith(stored: Option<State>, pair: LinkedPair, now: int) {
    && stored.Some? && pair.grantId in stored.value.revokedGrants && now < pair.grantExpiresAt
    && match stored.value.revokedGrants[pair.grantId]
       case Bare(_) => false
       case Linked(access, accessExpiresAt, grantExpiresAt, _) =>
         access == pair.accessTokenId && accessExpiresAt == pair.accessExpiresAt && grantExpiresAt == pair.grantExpiresAt
  }

  function RefreshesUsed(stored: Option<State>, now: int): int {
    if stored.Some? && now < stored.value.window.resetAt then stored.value.window.count else 0
  }

  function RefreshWindowEnds(stored: Option<State>, now: int): int {
    if stored.Some? && now < stored.value.window.resetAt then stored.value.window.resetAt else now + 900_000
  }

  function SignInsUsed(stored: Option<State>, now: int): int {
    if stored.Some? && stored.value.activationWindow.Some? && now < stored.value.activationWindow.value.resetAt
    then stored.value.activationWindow.value.count else 0
  }

  function SignInWindowEnds(stored: Option<State>, now: int): int {
    if SignInsUsed(stored, now) > 0 then stored.value.activationWindow.value.resetAt else now + 900_000
  }

  // ------------------------------------------------------ what a new state keeps

  /** Apart from the identifiers given, the tombstones are those that last. */
  ghost predicate KeepsTombstones(stored: Option<State>, t: State, now: int, access: set<Identifier>, grants: set<Identifier>) {
    && (forall id :: id !in access ==>
          && (id in t.revokedAccess <==> AccessRevoked(stored, id, now))
          && (id in t.revokedAccess ==> t.revokedAccess[id] == stored.value.revokedAccess[id]))
    && (forall id :: id !in grants ==>
          && (id in t.revokedGrants <==> GrantRevoked(stored, id, now))
          && (id in t.revokedGrants ==> t.revokedGrants[id] == stored.value.revokedGrants[id]))
  }

  predicate KeepsRefreshWindow(stored: Option<State>, t: State, now: int) {
    t.window == RefreshWindow(RefreshesUsed(stored, now), RefreshWindowEnds(stored, now))
  }

  predicate KeepsSignIns(stored: Option<State>, t: State, now: int) {
    t.activationWindow ==
    if SignInsUsed(stored, now) == 0 then None else Some(RefreshWindow(SignInsUsed(stored, now), SignInWindowEnds(stored, now)))
  }

  predicate KeepsActive(stored: Option<State>, t: State, now: int) {
    t.active == if NobodyLives(stored, now) || stored.None? then None else stored.value.active
  }

  predicate KeepsLease(stored: Option<State>, t: State, now: int) {
    t.lease == if stored.Some? && stored.value.lease.Some? && now < stored.value.lease.value.expiresAt then stored.value.lease else None
  }

  /** Both identifiers of the pair are recorded as revoked, for as long as each lasts. */
  predicate Records(t: State, pair: LinkedPair, successor: Option<LinkedPair>) {
    && pair.accessTokenId in t.revokedAccess && t.revokedAccess[pair.accessTokenId] == pair.accessExpiresAt
    && pair.grantId in t.revokedGrants
    && t.revokedGrants[pair.grantId] == Linked(pair.accessTokenId, pair.accessExpiresAt, pair.grantExpiresAt, successor)
  }

  // ------------------------------------------------------------------- cleaning

  /** Cleanup removes exactly what has run out, and restarts exactly the windows that have. */
  lemma CleanedIs(stored: Option<State>, now: int)
    requires StoredOk(stored)
    ensures var t := Clean(stored, now);
            && KeepsActive(stored, t, now) && KeepsLease(stored, t, now)
            && KeepsRefreshWindow(stored, t, now) && KeepsSignIns(stored, t, now)
            && KeepsTombstones(stored, t, now, {}, {})
  {
  }

  /** The alarm and an access check store the cleaned state, if that is any different. */
  lemma CleaningStores(stored: Option<State>, access: LinkedPair, now: int)
    requires StoredOk(stored) && access.WellFormed()
    ensures var t := Apply(stored, Alarm, now);
            && t == Apply(stored, CheckAccess(access), now).(reply := Cleaned)
            && (t.changed <==> stored.Some? && t.state != stored.value)
            && KeepsActive(stored, t.state, now) && KeepsLease(stored, t.state, now)
            && KeepsRefreshWindow(stored, t.state, now) && KeepsSignIns(stored, t.state, now)
            && KeepsTombstones(stored, t.state, now, {}, {})
  {
    CleanedIs(stored, now);
  }

  // --------------------------------------------------------------- access checks

  /** An access token is active exactly while its pair is the one stored as active and
      neither it nor its grant has expired. */
  lemma CheckVerdict(stored: Option<State>, access: LinkedPair, now: int)
    requires StoredOk(stored) && access.WellFormed()
    ensures var reply := Apply(stored, CheckAccess(access), now).reply;
            && (reply == Active <==>
                  stored.Some? && stored.value.active == Some(access) && now < access.accessExpiresAt && now < access.grantExpiresAt)
            && (reply != Active ==> reply == Revoked)
  {
  }

  // ----------------------------------------------------------- begin and complete

  lemma BeginVerdict(stored: Option<State>, pair: LinkedPair, now: int)
    requires StoredOk(stored) && pair.WellFormed()
    ensures var t := Apply(stored, BeginRefresh(pair), now);
            if !PairLives(stored, pair, now) then t.reply == Revoked && !t.changed
            else if LeaseLives(stored, pair, now) then
              t.reply.InProgress? && Covers(t.reply.retryAfterSeconds, stored.value.lease.value.expiresAt, now) && !t.changed
            else if RefreshesUsed(stored, now) >= 5 then
              t.reply.RateLimited? && Covers(t.reply.retryAfterSeconds, stored.value.window.resetAt, now) && !t.changed
            else t.reply == BeginAccepted(Min(now + 120_000, pair.grantExpiresAt)) && t.changed
  {
    if PairLives(stored, pair, now) {
      QuotedDelayIsTight(stored.value.window.resetAt, now);
      if LeaseLives(stored, pair, now) {
        QuotedDelayIsTight(stored.value.lease.value.expiresAt, now);
      }
    }
  }

  /** An accepted begin counts itself and takes the lease; nothing else changes. */
  lemma BeginStores(stored: Option<State>, pair: LinkedPair, now: int)
    requires StoredOk(stored) && Apply(stored, BeginRefresh(pair), now).reply.BeginAccepted?
    ensures var t := Apply(stored, BeginRefresh(pair), now).state;
            && t.active == Some(pair)
            && t.lease == Some(RefreshLease(pair, Min(now + 120_000, pair.grantExpiresAt)))
            && t.window == RefreshWindow(RefreshesUsed(stored, now) + 1, RefreshWindowEnds(stored, now))
            && KeepsSignIns(stored, t, now) && KeepsTombstones(stored, t, now, {}, {})
  {
    CleanedIs(stored, now);
  }

  lemma CompleteVerdict(stored: Option<State>, previous: LinkedPair, next: LinkedPair, now: int)
    requires StoredOk(stored) && previous.WellFormed() && next.WellFormed()
    ensures var t := Apply(stored, CompleteRefresh(previous, next), now);
            && (t.changed <==> t.reply == Completed)
            && t.reply ==
               if next.grantExpiresAt != previous.grantExpiresAt then Threw(GrantExpiryChanged)
               else if next.accessTokenId == previous.accessTokenId || next.grantId == previous.grantId then Threw(InvalidRotation)
               else if stored.Some? && (next.accessTokenId in stored.value.revokedAccess || next.grantId in stored.value.revokedGrants)
               then Threw(RotationCollision)
               else if PairLives(stored, previous, now) && LeaseLives(stored, previous, now) then Completed
               else Revoked
  {
  }

  /** A rotation ends the lease, records the old pair with its successor and installs the
      new one; the windows stay. */
  lemma CompleteStores(stored: Option<State>, previous: LinkedPair, next: LinkedPair, now: int)
    requires StoredOk(stored) && Apply(stored, CompleteRefresh(previous, next), now).reply == Completed
    ensures var t := Apply(stored, CompleteRefresh(previous, next), now).state;
            && t.active == Some(next) && t.lease.None? && Records(t, previous, Some(next))
            && KeepsRefreshWindow(stored, t, now) && KeepsSignIns(stored, t, now)
            && KeepsTombstones(stored, t, now, {previous.accessTokenId}, {previous.grantId})
  {
    CleanedIs(stored, now);
  }

  // ---------------------------------------------------------------------- aborts

  lemma AbortVerdict(stored: Option<State>, pair: LinkedPair, terminal: bool, now: int)
    requires StoredOk(stored) && pair.WellFormed()
    ensures var t := Apply(stored, AbortRefresh(pair, terminal), now);
            if AccessRevoked(stored, pair.accessTokenId, now) || GrantRevoked(stored, pair.grantId, now) then
              t.reply == Revoked && !t.changed
            else if !PairLives(stored, pair, now) || !LeaseLives(stored, pair, now) then t.reply == Aborted && !t.changed
            else t.changed && t.reply == if terminal then Revoked else Aborted
  {
  }

  /** Giving up a refresh ends the lease alone; a terminal abort ends the pair. */
  lemma AbortStores(stored: Option<State>, pair: LinkedPair, terminal: bool, now: int)
    requires StoredOk(stored) && pair.WellFormed() && PairLives(stored, pair, now) && LeaseLives(stored, pair, now)
    ensures var t := Apply(stored, AbortRefresh(pair, terminal), now).state;
            && t.lease.None?
            && (if terminal then t.active.None? && Records(t, pair, None) else t.active == Some(pair))
            && KeepsRefreshWindow(stored, t, now) && KeepsSignIns(stored, t, now)
            && (if terminal then KeepsTombstones(stored, t, now, {pair.accessTokenId}, {pair.grantId})
                else KeepsTombstones(stored, t, now, {}, {}))
  {
    CleanedIs(stored, now);
    AbortVerdict(stored, pair, terminal, now);
  }

  // --------------------------------------------------------------------- sign-in

  lemma SignInVerdict(stored: Option<State>, pair: LinkedPair, now: int)
    requires StoredOk(stored) && pair.WellFormed()
    ensures var t := Apply(stored, ActivatePair(pair), now);
            if stored.Some? && stored.value.active == Some(pair) && stored.value.lease.None? then t.reply == Activated && !t.changed
            else if SignInsUsed(stored, now) >= 5 then
              t.reply.RateLimited? && Covers(t.reply.retryAfterSeconds, stored.value.activationWindow.value.resetAt, now) && !t.changed
            else t.reply == Activated && t.changed
  {
    if stored.Some? && stored.value.activationWindow.Some? {
      QuotedDelayIsTight(stored.value.activationWindow.value.resetAt, now);
    }
  }

  /** A sign-in counts itself, takes over without a lease, and records a different pair
      that was active. */
  lemma SignInStores(stored: Option<State>, pair: LinkedPair, now: int)
    requires StoredOk(stored) && Apply(stored, ActivatePair(pair), now).changed
    ensures var t := Apply(stored, ActivatePair(pair), now).state;
            && t.active == Some(pair) && t.lease.None?
            && t.activationWindow == Some(RefreshWindow(SignInsUsed(stored, now) + 1, SignInWindowEnds(stored, now)))
            && KeepsRefreshWindow(stored, t, now)
            && if !NobodyLives(stored, now) && stored.value.active != Some(pair) then
                 var left := stored.value.active.value;
                 Records(t, left, None) && KeepsTombstones(stored, t, now, {left.accessTokenId}, {left.grantId})
               else KeepsTombstones(stored, t, now, {}, {})
  {
    CleanedIs(stored, now);
  }

  // --------------------------------------------------------------------- logouts

  lemma LogoutByAccessVerdict(stored: Option<State>, pair: LinkedPair, now: int)
    requires StoredOk(stored) && pair.WellFormed()
    ensures var t := Apply(stored, RevokeByAccess(pair), now);
            if pair.accessExpiresAt <= now && pair.grantExpiresAt <= now then t.reply == Expired && !t.changed
            else if GrantRevokedWith(stored, pair, now)
                    && (pair.accessExpiresAt <= now
                        || (AccessRevoked(stored, pair.accessTokenId, now)
                            && stored.value.revokedAccess[pair.accessTokenId] == pair.accessExpiresAt))
            then t.reply == Revoked && !t.changed
            else if PairLives(stored, pair, now) then t.reply == Revoked && t.changed
            else t.reply == Mismatch && !t.changed
  {
  }

  /** Logging a live pair out leaves nothing active or leased, and records it. */
  lemma LogoutByAccessStores(stored: Option<State>, pair: LinkedPair, now: int)
    requires StoredOk(stored) && pair.WellFormed() && PairLives(stored, pair, now)
    ensures var t := Apply(stored, RevokeByAccess(pair), now);
            && t.reply == Revoked && t.changed
            && t.state.active.None? && t.state.lease.None? && Records(t.state, pair, None)
            && KeepsRefreshWindow(stored, t.state, now) && KeepsSignIns(stored, t.state, now)
            && KeepsTombstones(stored, t.state, now, {pair.accessTokenId}, {pair.grantId})
  {
    CleanedIs(stored, now);
    LogoutByAccessVerdict(stored, pair, now);
  }

  /** The proof is the live pair, or the one its own rotation replaced it by lives. */
  predicate Reaches(stored: Option<State>, proof: LinkedPair, now: int) {
    || PairLives(stored, proof, now)
    || (&& GrantRevokedWith(stored, proof, now) && !NobodyLives(stored, now)
        && stored.value.revokedGrants[proof.grantId].successor == stored.value.active)
  }

  lemma LogoutByGrantVerdict(stored: Option<State>, proof: LinkedPair, now: int)
    requires StoredOk(stored) && proof.WellFormed()
    ensures var t := Apply(stored, RevokeByGrant(proof), now);
            if proof.grantExpiresAt <= now then t.reply == Expired && !t.changed
            else if Reaches(stored, proof, now) then t.reply == Revoked && t.changed
            else if GrantRevokedWith(stored, proof, now) && NobodyLives(stored, now) then t.reply == Revoked && !t.changed
            else t.reply == Mismatch && !t.changed
  {
  }

  /** A logout by grant that reaches a live pair ends it, and records both pairs. */
  lemma LogoutByGrantStores(stored: Option<State>, proof: LinkedPair, now: int)
    requires StoredOk(stored) && proof.WellFormed() && now < proof.grantExpiresAt && Reaches(stored, proof, now)
    ensures var t, left := Apply(stored, RevokeByGrant(proof), now), stored.value.active.value;
            && t.reply == Revoked && t.changed
            && t.state.active.None? && t.state.lease.None? && Records(t.state, left, None)
            && (proof.accessTokenId != left.accessTokenId && proof.grantId != left.grantId ==> Records(t.state, proof, None))
            && KeepsRefreshWindow(stored, t.state, now) && KeepsSignIns(stored, t.state, now)
            && KeepsTombstones(stored, t.state, now, {proof.accessTokenId, left.accessTokenId}, {proof.grantId, left.grantId})
  {
    CleanedIs(stored, now);
    LogoutByGrantVerdict(stored, proof, now);
  }

  // ------------------------------------------------------------- logging out, for good

  /** The operations that end a pair on request. */
  predicate AsksToEnd(command: Command, pair: LinkedPair) {
    command == RevokeByAccess(pair) || command == RevokeByGrant(pair) || command == AbortRefresh(pair, true)
  }

  /** Whichever of them answers `Revoked`, the pair is not stored as active afterwards. */
  lemma RevokedIsNotStored(stored: Option<State>, command: Command, pair: LinkedPair, now: int)
    requires StoredOk(stored) && pair.WellFormed() && AsksToEnd(command, pair)
    requires Apply(stored, command, now).reply == Revoked
    ensures !StoredActive(if Apply(stored, command, now).changed then Some(Apply(stored, command, now).state) else stored, pair)
  {
    match command
    case RevokeByAccess(_) =>
      LogoutByAccessVerdict(stored, pair, now);
      if PairLives(stored, pair, now) {
        LogoutByAccessStores(stored, pair, now);
      }
    case RevokeByGrant(_) =>
      LogoutByGrantVerdict(stored, pair, now);
      if Reaches(stored, pair, now) {
        LogoutByGrantStores(stored, pair, now);
      }
    case AbortRefresh(_, _) =>
      AbortVerdict(stored, pair, true, now);
      if PairLives(stored, pair, now) && LeaseLives(stored, pair, now) {
        AbortStores(stored, pair, true, now);
      }
  }

  lemma StoredIsInstalled(run: seq<Event>, pair: LinkedPair)
    requires StoredActive(Replay(run).stored, pair)
    ensures pair in Installed(run)
  {
  }

  lemma EndedCell(cell: Cell, e: Event, pair: LinkedPair)
    requires StoredOk(cell.stored) && pair.WellFormed() && AsksToEnd(e.command, pair)
    requires Apply(cell.stored, e.command, e.now).reply == Revoked
    ensures !StoredActive(Step(cell, e).stored, pair)
  {
    RevokedIsNotStored(cell.stored, e.command, pair, e.now);
  }

  lemma EndedIsNotStored(run: seq<Event>, at: nat, pair: LinkedPair)
    requires ValidRun(run) && at < |run| && pair.WellFormed()
    requires AsksToEnd(run[at].command, pair) && ReplyAt(run, at) == Revoked
    ensures !StoredActive(Replay(run[..at + 1]).stored, pair)
  {
    var upTo := run[..at + 1];
    PrefixIsValid(run, at);
    EveryRunIsOk(run[..at]);
    EndedCell(Replay(run[..at]), run[at], pair);
    assert Front(upTo) == run[..at] && Last(upTo) == run[at];
  }

  /** In every run: once a logout or a terminal abort of a pair that was ever active has
      answered `Revoked`, every later access check of the pair and every begin answers
      `Revoked` too. */
  lemma LogoutIsFinal(run: seq<Event>, at: nat, later: nat, pair: LinkedPair)
    requires ValidRun(run) && at < later < |run| && pair.WellFormed()
    requires AsksToEnd(run[at].command, pair) && ReplyAt(run, at) == Revoked
    requires pair in Installed(run[..at])
    requires run[later].command == CheckAccess(pair) || run[later].command == BeginRefresh(pair)
    ensures ReplyAt(run, later) == Revoked
  {
    EndedIsNotStored(run, at, pair);
    InstalledGrows(run[..at + 1], at);
    assert run[..at + 1][..at] == run[..at];
    RevocationIsFinal(run, at + 1, pair, later);
  }

  /** ... and a live pair that asks is answered `Revoked`. */
  lemma LiveLogoutIsFinal(run: seq<Event>, at: nat, later: nat, pair: LinkedPair)
    requires ValidRun(run) && at < later < |run| && pair.WellFormed()
    requires run[at].command == RevokeByAccess(pair) || run[at].command == RevokeByGrant(pair)
          || (run[at].command == AbortRefresh(pair, true) && LeaseLives(Replay(run[..at]).stored, pair, run[at].now))
    requires PairLives(Replay(run[..at]).stored, pair, run[at].now)
    requires run[later].command == CheckAccess(pair) || run[later].command == BeginRefresh(pair)
    ensures ReplyAt(run, at) == Revoked && ReplyAt(run, later) == Revoked
  {
    PrefixIsValid(run, at);
    EveryRunIsOk(run[..at]);
    StoredIsInstalled(run[..at], pair);
    LivePairIsRevoked(Replay(run[..at]).stored, run[at].command, pair, run[at].now);
    LogoutIsFinal(run, at, later, pair);
  }

  lemma LivePairIsRevoked(stored: Option<State>, command: Command, pair: LinkedPair, now: int)
    requires StoredOk(stored) && pair.WellFormed() && PairLives(stored, pair, now)
    requires command == RevokeByAccess(pair) || command == RevokeByGrant(pair)
          || (command == AbortRefresh(pair, true) && LeaseLives(stored, pair, now))
    ensures Apply(stored, command, now).reply == Revoked
  {
    match command
    case RevokeByAccess(_) => LogoutByAccessStores(stored, pair, now);
    case RevokeByGrant(_) => LogoutByGrantStores(stored, pair, now);
    case AbortRefresh(_, _) => AbortVerdict(stored, pair, true, now);
  }

  // ------------------------------------------------------------------ bad input

  /** Twenty-two base64url characters, and positive safe instants. */
  predicate IdentifierText(id: Identifier) {
    |id.text| == 22 && forall c :: c in id.text ==> 'A' <= c <= 'Z' || 'a' <= c <= 'z' || '0' <= c <= '9' || c == '-' || c == '_'
  }

  predicate PairText(pair: LinkedPair) {
    && IdentifierText(pair.accessTokenId) && IdentifierText(pair.grantId)
    && 0 < pair.accessExpiresAt <= 9_007_199_254_740_991 && 0 < pair.grantExpiresAt <= 9_007_199_254_740_991
  }

  function PairsOf(command: Command): set<LinkedPair> {
    match command
    case ActivatePair(pair) => {pair}
    case BeginRefresh(pair) => {pair}
    case CompleteRefresh(previous, next) => {previous, next}
    case AbortRefresh(pair, _) => {pair}
    case RevokeByAccess(pair) => {pair}
    case RevokeByGrant(proof) => {proof}
    case CheckAccess(pair) => {pair}
    case Alarm => {}
  }

  /** Exactly the commands with a malformed pair are rejected as such, and store nothing. */
  lemma MalformedVerdict(stored: Option<State>, command: Command, now: int)
    ensures var t := Apply(stored, command, now);
            (t.reply == Threw(InvalidPair) <==> exists pair :: pair in PairsOf(command) && !PairText(pair))
            && (t.reply.Threw? ==> !t.changed)
  {
    forall pair: LinkedPair
      ensures pair.WellFormed() <==> PairText(pair)
    {
      TextIs(pair.accessTokenId);
      TextIs(pair.grantId);
    }
    match command
    case CompleteRefresh(previous, next) => assert previous in PairsOf(command) && next in PairsOf(command);
    case ActivatePair(pair) => assert pair in PairsOf(command);
    case BeginRefresh(pair) => assert pair in PairsOf(command);
    case AbortRefresh(pair, _) => assert pair in PairsOf(command);
    case RevokeByAccess(pair) => assert pair in PairsOf(command);
    case RevokeByGrant(proof) => assert proof in PairsOf(command);
    case CheckAccess(pair) => assert pair in PairsOf(command);
    case Alarm =>
  }

  lemma TextIs(id: Identifier)
    ensures WellFormedId(id) <==> IdentifierText(id)
  {
    if IdentifierText(id) {
      forall i | 0 <= i < 22
        ensures IsBase64UrlChar(id.text[i])
      {
        assert id.text[i] in id.text;
      }
    }
  }

  /** What reading a stored record back demands: the active pair untombstoned, a lease only
      on it and no longer than its grant, windows within their limits, and successors that
      differ from what they replace and share its grant expiry. */
  lemma ReadableIff(s: State)
    ensures Accepted(s) <==>
              && (s.active.Some? ==>
                    && PairText(s.active.value)
                    && s.active.value.accessTokenId !in s.revokedAccess && s.active.value.grantId !in s.revokedGrants)
              && (s.lease.Some? ==>
                    && s.active == Some(s.lease.value.pair)
                    && 0 < s.lease.value.expiresAt <= 9_007_199_254_740_991 && s.lease.value.expiresAt <= s.lease.value.pair.grantExpiresAt)
              && (forall id :: id in s.revokedAccess ==> IdentifierText(id) && 0 < s.revokedAccess[id] <= 9_007_199_254_740_991)
              && (forall id :: id in s.revokedGrants ==> IdentifierText(id) && TombstoneText(id, s.revokedGrants[id]))
              && 0 <= s.window.count <= 5 && 0 < s.window.resetAt <= 9_007_199_254_740_991
              && (s.activationWindow.Some? ==>
                    1 <= s.activationWindow.value.count <= 5 && 0 < s.activationWindow.value.resetAt <= 9_007_199_254_740_991)
  {
    forall id: Identifier
      ensures WellFormedId(id) <==> IdentifierText(id)
    {
      TextIs(id);
    }
    forall pair: LinkedPair
      ensures pair.WellFormed() <==> PairText(pair)
    {
      TextIs(pair.accessTokenId);
      TextIs(pair.grantId);
    }
    forall id, tombstone: Tombstone
      ensures tombstone.WellFormed(id) <==> TombstoneText(id, tombstone)
    {
    }
  }

  predicate TombstoneText(revokedGrant: Identifier, tombstone: Tombstone) {
    match tombstone
    case Bare(expiry) => 0 < expiry <= 9_007_199_254_740_991
    case Linked(access, accessExpiresAt, grantExpiresAt, successor) =>
      && IdentifierText(access)
      && 0 < accessExpiresAt <= 9_007_199_254_740_991 && 0 < grantExpiresAt <= 9_007_199_254_740_991
      && (successor.Some? ==>
            && PairText(successor.value) && successor.value.accessTokenId != access
            && successor.value.grantId != revokedGrant && successor.value.grantExpiresAt == grantExpiresAt)
  }
}
