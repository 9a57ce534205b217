/** The VNU refresh authority of one principal: the stored state, its acceptance
    test, lazy cleanup and the transitions (apps/worker/src/vnu/vnu-refresh-control.ts).

    Every transition is a total function from the stored state, a command and an
    instant to the state to store, the reply, and whether anything is to be
    stored. A thrown error is the reply `Threw`, with nothing stored. */
module VnuRefreshControl {
  import opened Prelude

  const ATTEMPT_LIMIT: int := 5
  const WINDOW_MS: int := 900_000
  const ACTIVATION_LIMIT: int := 5
  const ACTIVATION_WINDOW_MS: int := 900_000
  const LEASE_MS: int := 120_000

  /** An access-token or grant identifier. */
  datatype Identifier = Identifier(text: string)

  predicate IsBase64UrlChar(c: char) {
    'A' <= c <= 'Z' || 'a' <= c <= 'z' || '0' <= c <= '9' || c == '_' || c == '-'
  }

  predicate WellFormedId(id: Identifier) {
    |id.text| == 22 && forall i :: 0 <= i < 22 ==> IsBase64UrlChar(id.text[i])
  }

  /** A positive safe integer, as every stored instant must be. */
  predicate StorableTime(t: int) {
    0 < t <= MAX_SAFE_INTEGER
  }

  datatype LinkedPair = LinkedPair(accessTokenId: Identifier, accessExpiresAt: int, grantId: Identifier, grantExpiresAt: int) {
    /** assertLinkedPair */
    predicate WellFormed() {
      && WellFormedId(accessTokenId) && WellFormedId(grantId)
      && StorableTime(accessExpiresAt) && StorableTime(grantExpiresAt)
    }
  }

  datatype RefreshLease = RefreshLease(pair: LinkedPair, expiresAt: int)

  datatype RefreshWindow = RefreshWindow(count: int, resetAt: int)

  /** A revoked grant: a bare expiry (the oldest stored form), or the exact pair it
      belonged to, possibly with the pair that replaced it in a rotation. */
  datatype Tombstone =
    | Bare(expiry: int)
    | Linked(accessTokenId: Identifier, accessExpiresAt: int, grantExpiresAt: int, successor: Option<LinkedPair>)
  {
    function ExpiresAt(): int {
      if Bare? then expiry else grantExpiresAt
    }

    /** exactlyLinksGrantTombstone */
    predicate Links(pair: LinkedPair) {
      && Linked?
      && accessTokenId == pair.accessTokenId
      && accessExpiresAt == pair.accessExpiresAt
      && grantExpiresAt == pair.grantExpiresAt
    }

    /** assertLinkedGrantTombstone */
    predicate WellFormed(revokedGrant: Identifier) {
      match this
      case Bare(at) => StorableTime(at)
      case Linked(access, accessAt, grantAt, next) =>
        && WellFormedId(access) && StorableTime(accessAt) && StorableTime(grantAt)
        && (next.Some? ==>
              && next.value.WellFormed()
              && next.value.accessTokenId != access
              && next.value.grantId != revokedGrant
              && next.value.grantExpiresAt == grantAt)
    }
  }

  datatype State = State(
    active: Option<LinkedPair>,
    lease: Option<RefreshLease>,
    revokedAccess: map<Identifier, int>,
    revokedGrants: map<Identifier, Tombstone>,
    window: RefreshWindow,
    activationWindow: Option<RefreshWindow>)
  {
    predicate Tombstones(pair: LinkedPair) {
      pair.accessTokenId in revokedAccess || pair.grantId in revokedGrants
    }
  }

  predicate AcceptedRevokedAccess(revoked: map<Identifier, int>) {
    forall id :: id in revoked ==> WellFormedId(id) && StorableTime(revoked[id])
  }

  predicate AcceptedRevokedGrants(revoked: map<Identifier, Tombstone>) {
    forall id :: id in revoked ==> WellFormedId(id) && revoked[id].WellFormed(id)
  }

  predicate AcceptedActive(s: State) {
    s.active.Some? ==> s.active.value.WellFormed() && !s.Tombstones(s.active.value)
  }

  predicate AcceptedLease(s: State) {
    s.lease.Some? ==>
      && StorableTime(s.lease.value.expiresAt)
      && s.active == Some(s.lease.value.pair)
      && s.lease.value.expiresAt <= s.lease.value.pair.grantExpiresAt
  }

  predicate AcceptedWindows(s: State) {
    && 0 <= s.window.count <= ATTEMPT_LIMIT && StorableTime(s.window.resetAt)
    && (s.activationWindow.Some? ==>
          0 < s.activationWindow.value.count <= ACTIVATION_LIMIT && StorableTime(s.activationWindow.value.resetAt))
  }

  /** parseVnuRefreshControlState: whether a stored state is accepted when read back. */
  predicate Accepted(s: State) {
    && AcceptedActive(s)
    && AcceptedLease(s)
    && AcceptedRevokedAccess(s.revokedAccess)
    && AcceptedRevokedGrants(s.revokedGrants)
    && AcceptedWindows(s)
  }

  function EmptyState(now: int): State {
    State(None, None, map[], map[], RefreshWindow(0, now + WINDOW_MS), None)
  }

  function LiveAccess(revoked: map<Identifier, int>, now: int): map<Identifier, int> {
    map id | id in revoked && revoked[id] > now :: revoked[id]
  }

  function LiveGrants(revoked: map<Identifier, Tombstone>, now: int): map<Identifier, Tombstone> {
    map id | id in revoked && revoked[id].ExpiresAt() > now :: revoked[id]
  }

  function LiveActive(active: Option<LinkedPair>, now: int): Option<LinkedPair> {
    if active.Some? && active.value.grantExpiresAt > now then active else None
  }

  function LiveLease(lease: Option<RefreshLease>, now: int): Option<RefreshLease> {
    if lease.Some? && lease.value.expiresAt > now && lease.value.pair.grantExpiresAt > now then lease else None
  }

  function LiveWindow(window: RefreshWindow, now: int): RefreshWindow {
    if now >= window.resetAt then RefreshWindow(0, now + WINDOW_MS) else window
  }

  function LiveActivations(window: Option<RefreshWindow>, now: int): Option<RefreshWindow> {
    if window.Some? && window.value.count > 0 && now < window.value.resetAt then window else None
  }

  function CleanState(s: State, now: int): State {
    State(LiveActive(s.active, now), LiveLease(s.lease, now),
          LiveAccess(s.revokedAccess, now), LiveGrants(s.revokedGrants, now),
          LiveWindow(s.window, now), LiveActivations(s.activationWindow, now))
  }

  /** cleanVnuRefreshState: what is left of the stored state at `now`. */
  function Clean(stored: Option<State>, now: int): State {
    CleanState(if stored.Some? then stored.value else EmptyState(now), now)
  }

  datatype RefreshError = InvalidPair | GrantExpiryChanged | InvalidRotation | RotationCollision | InvalidState

  datatype Reply =
    | Activated
    | BeginAccepted(leaseExpiresAt: int)
    | InProgress(retryAfterSeconds: int)
    | RateLimited(retryAfterSeconds: int)
    | Completed
    | Aborted
    | Revoked
    | Mismatch
    | Expired
    | Active
    | Cleaned
    | Threw(error: RefreshError)

  datatype Transition = Transition(state: State, reply: Reply, changed: bool)

  function Unchanged(stored: Option<State>, now: int, reply: Reply): Transition {
    Transition(if stored.Some? then stored.value else EmptyState(now), reply, false)
  }

  function Changed(stored: Option<State>, state: State, reply: Reply): Transition {
    Transition(state, reply, stored != Some(state))
  }

  function PlainTombstone(pair: LinkedPair): Tombstone {
    Linked(pair.accessTokenId, pair.accessExpiresAt, pair.grantExpiresAt, None)
  }

  function SuccessorTombstone(previous: LinkedPair, next: LinkedPair): Tombstone {
    Linked(previous.accessTokenId, previous.accessExpiresAt, previous.grantExpiresAt, Some(next))
  }

  function RevokeExact(s: State, pair: LinkedPair, tombstone: Tombstone): State {
    s.(active := None,
       lease := if s.lease.Some? && s.lease.value.pair == pair then None else s.lease,
       revokedAccess := s.revokedAccess[pair.accessTokenId := pair.accessExpiresAt],
       revokedGrants := s.revokedGrants[pair.grantId := tombstone])
  }

  /** applyActivatePair, once the stored state has been cleaned to `s`. */
  function Activate(stored: Option<State>, s: State, pair: LinkedPair, now: int): Transition {
    if s.activationWindow.Some? && s.activationWindow.value.count >= ACTIVATION_LIMIT then
      Unchanged(stored, now, RateLimited(RetryAfterSeconds(s.activationWindow.value.resetAt, now)))
    else
      var replaced :=
        if s.active.Some? && s.active.value != pair
        then RevokeExact(s, s.active.value, PlainTombstone(s.active.value))
        else s;
      var activationWindow :=
        if s.activationWindow.Some?
        then RefreshWindow(s.activationWindow.value.count + 1, s.activationWindow.value.resetAt)
        else RefreshWindow(1, now + ACTIVATION_WINDOW_MS);
      Changed(stored, replaced.(active := Some(pair), lease := None, activationWindow := Some(activationWindow)), Activated)
  }

  function ApplyActivatePair(stored: Option<State>, pair: LinkedPair, now: int): Transition {
    if !pair.WellFormed() then Unchanged(stored, now, Threw(InvalidPair))
    else if stored.Some? && stored.value.active == Some(pair) && stored.value.lease.None? then
      Unchanged(stored, now, Activated)
    else Activate(stored, Clean(stored, now), pair, now)
  }

  function Begin(stored: Option<State>, s: State, pair: LinkedPair, now: int): Transition {
    if pair.grantExpiresAt <= now || s.Tombstones(pair) || s.active != Some(pair) then
      Unchanged(stored, now, Revoked)
    else if s.lease.Some? && s.lease.value.pair == pair then
      Unchanged(stored, now, InProgress(RetryAfterSeconds(s.lease.value.expiresAt, now)))
    else if s.window.count >= ATTEMPT_LIMIT then
      Unchanged(stored, now, RateLimited(RetryAfterSeconds(s.window.resetAt, now)))
    else
      var leaseExpiresAt := Min(now + LEASE_MS, pair.grantExpiresAt);
      Changed(stored,
              s.(lease := Some(RefreshLease(pair, leaseExpiresAt)),
                 window := RefreshWindow(s.window.count + 1, s.window.resetAt)),
              BeginAccepted(leaseExpiresAt))
  }

  function ApplyBeginRefresh(stored: Option<State>, pair: LinkedPair, now: int): Transition {
    if !pair.WellFormed() then Unchanged(stored, now, Threw(InvalidPair))
    else Begin(stored, Clean(stored, now), pair, now)
  }

  /** The rotation guard that looks at the stored, not yet cleaned, tombstones. */
  predicate Collides(stored: Option<State>, next: LinkedPair) {
    stored.Some? && stored.value.Tombstones(next)
  }

  function Complete(stored: Option<State>, s: State, previous: LinkedPair, next: LinkedPair, now: int): Transition {
    if || previous.grantExpiresAt <= now
       || s.active != Some(previous)
       || s.lease.None?
       || s.lease.value.pair != previous
    then Unchanged(stored, now, Revoked)
    else
      var revoked := RevokeExact(s, previous, SuccessorTombstone(previous, next));
      Changed(stored, revoked.(active := Some(next)), Completed)
  }

  /** The shape a rotation must have: the same grant expiry under two new identifiers. */
  predicate Rotates(previous: LinkedPair, next: LinkedPair) {
    && next.grantExpiresAt == previous.grantExpiresAt
    && next.accessTokenId != previous.accessTokenId
    && next.grantId != previous.grantId
  }

  function ApplyCompleteRefresh(stored: Option<State>, previous: LinkedPair, next: LinkedPair, now: int): Transition {
    if !previous.WellFormed() || !next.WellFormed() then Unchanged(stored, now, Threw(InvalidPair))
    else if next.grantExpiresAt != previous.grantExpiresAt then Unchanged(stored, now, Threw(GrantExpiryChanged))
    else if next.accessTokenId == previous.accessTokenId || next.grantId == previous.grantId then
      Unchanged(stored, now, Threw(InvalidRotation))
    else if Collides(stored, next) then Unchanged(stored, now, Threw(RotationCollision))
    else Complete(stored, Clean(stored, now), previous, next, now)
  }

  function Abort(stored: Option<State>, s: State, pair: LinkedPair, terminal: bool, now: int): Transition {
    if s.Tombstones(pair) then Unchanged(stored, now, Revoked)
    else if s.lease.None? || s.lease.value.pair != pair || s.active != Some(pair) then
      Unchanged(stored, now, Aborted)
    else if !terminal then Changed(stored, s.(lease := None), Aborted)
    else Changed(stored, RevokeExact(s, pair, PlainTombstone(pair)), Revoked)
  }

  function ApplyAbortRefresh(stored: Option<State>, pair: LinkedPair, terminal: bool, now: int): Transition {
    if !pair.WellFormed() then Unchanged(stored, now, Threw(InvalidPair))
    else Abort(stored, Clean(stored, now), pair, terminal, now)
  }

  predicate LinkedTombstone(s: State, pair: LinkedPair) {
    pair.grantId in s.revokedGrants && s.revokedGrants[pair.grantId].Links(pair)
  }

  function Logout(stored: Option<State>, s: State, pair: LinkedPair, now: int): Transition {
    if && pair.accessTokenId in s.revokedAccess
       && s.revokedAccess[pair.accessTokenId] == pair.accessExpiresAt
       && LinkedTombstone(s, pair)
    then Unchanged(stored, now, Revoked)
    else if pair.accessExpiresAt <= now && LinkedTombstone(s, pair) then Unchanged(stored, now, Revoked)
    else if s.active != Some(pair) then Unchanged(stored, now, Mismatch)
    else Changed(stored, RevokeExact(s, pair, PlainTombstone(pair)), Revoked)
  }

  /** applyRevokeLinkedPairByAccess, also known as applyRevokeExactLinkedPair */
  function ApplyRevokeByAccess(stored: Option<State>, pair: LinkedPair, now: int): Transition {
    if !pair.WellFormed() then Unchanged(stored, now, Threw(InvalidPair))
    else if pair.accessExpiresAt <= now && pair.grantExpiresAt <= now then Unchanged(stored, now, Expired)
    else Logout(stored, Clean(stored, now), pair, now)
  }

  /** Whether a tombstoned proof may still act on the active pair: that pair is the
      successor the proof's own rotation recorded, and nothing else is leased. */
  predicate SuccessorAuthority(s: State, proof: LinkedPair) {
    && s.active.Some?
    && LinkedTombstone(s, proof)
    && s.revokedGrants[proof.grantId].successor == s.active
    && (s.lease.Some? ==> Some(s.lease.value.pair) == s.active)
  }

  function LinkedLogout(stored: Option<State>, s: State, proof: LinkedPair, now: int): Transition {
    if s.active != Some(proof) && !LinkedTombstone(s, proof) then Unchanged(stored, now, Mismatch)
    else if s.active.None? then Unchanged(stored, now, Revoked)
    else if s.active != Some(proof) && !SuccessorAuthority(s, proof) then Unchanged(stored, now, Mismatch)
    else
      var current := s.active.value;
      var marked := s.(revokedAccess := s.revokedAccess[proof.accessTokenId := proof.accessExpiresAt],
                       revokedGrants := s.revokedGrants[proof.grantId := PlainTombstone(proof)]);
      Changed(stored, RevokeExact(marked, current, PlainTombstone(current)), Revoked)
  }

  /** applyRevokePrincipalByLinkedGrant */
  function ApplyRevokeByGrant(stored: Option<State>, proof: LinkedPair, now: int): Transition {
    if !proof.WellFormed() then Unchanged(stored, now, Threw(InvalidPair))
    else if proof.grantExpiresAt <= now then Unchanged(stored, now, Expired)
    else LinkedLogout(stored, Clean(stored, now), proof, now)
  }

  /** The access verdict on a cleaned state. */
  predicate IsActive(s: State, access: LinkedPair, now: int) {
    s.active == Some(access) && access.accessExpiresAt > now && !s.Tombstones(access)
  }

  function ApplyCheckAccess(stored: Option<State>, access: LinkedPair, now: int): Transition {
    if !access.WellFormed() then Unchanged(stored, now, Threw(InvalidPair))
    else
      var s := Clean(stored, now);
      Transition(s, if IsActive(s, access, now) then Active else Revoked, stored.Some? && stored != Some(s))
  }

  /** The Durable Object's alarm handler. */
  function ApplyAlarm(stored: Option<State>, now: int): Transition {
    var s := Clean(stored, now);
    Transition(s, Cleaned, stored.Some? && stored != Some(s))
  }

  datatype Command =
    | ActivatePair(pair: LinkedPair)
    | BeginRefresh(pair: LinkedPair)
    | CompleteRefresh(previous: LinkedPair, next: LinkedPair)
    | AbortRefresh(pair: LinkedPair, terminal: bool)
    | RevokeByAccess(pair: LinkedPair)
    | RevokeByGrant(proof: LinkedPair)
    | CheckAccess(pair: LinkedPair)
    | Alarm

  function Apply(stored: Option<State>, command: Command, now: int): Transition {
    match command
    case ActivatePair(pair) => ApplyActivatePair(stored, pair, now)
    case BeginRefresh(pair) => ApplyBeginRefresh(stored, pair, now)
    case CompleteRefresh(previous, next) => ApplyCompleteRefresh(stored, previous, next, now)
    case AbortRefresh(pair, terminal) => ApplyAbortRefresh(stored, pair, terminal, now)
    case RevokeByAccess(pair) => ApplyRevokeByAccess(stored, pair, now)
    case RevokeByGrant(proof) => ApplyRevokeByGrant(stored, proof, now)
    case CheckAccess(access) => ApplyCheckAccess(stored, access, now)
    case Alarm => ApplyAlarm(stored, now)
  }

  /** Everything in the state that a later instant will remove, with that instant. */
  ghost predicate TimedAt(s: State, at: int) {
    || (exists id :: id in s.revokedAccess && s.revokedAccess[id] == at)
    || (exists id :: id in s.revokedGrants && s.revokedGrants[id].ExpiresAt() == at)
    || (s.active.Some? && s.active.value.grantExpiresAt == at)
    || (s.lease.Some? && s.lease.value.expiresAt == at)
    || (s.window.count > 0 && s.window.resetAt == at)
    || (s.activationWindow.Some? && s.activationWindow.value.count > 0 && s.activationWindow.value.resetAt == at)
  }

  /** The instants nextVnuRefreshAlarm collects. */
  function AlarmTimes(s: State): (times: set<int>)
    ensures forall at :: at in times <==> TimedAt(s, at)
  {
    (set id | id in s.revokedAccess :: s.revokedAccess[id])
    + (set id | id in s.revokedGrants :: s.revokedGrants[id].ExpiresAt())
    + (if s.active.Some? then {s.active.value.grantExpiresAt} else {})
    + (if s.lease.Some? then {s.lease.value.expiresAt} else {})
    + (if s.window.count > 0 then {s.window.resetAt} else {})
    + (if s.activationWindow.Some? && s.activationWindow.value.count > 0 then {s.activationWindow.value.resetAt} else {})
  }

  /** nextVnuRefreshAlarm: the earliest instant at which something timed runs out. */
  function NextAlarm(s: State): (at: Option<int>)
    ensures at.None? <==> forall t :: !TimedAt(s, t)
    ensures at.Some? ==> TimedAt(s, at.value) && forall t :: TimedAt(s, t) ==> at.value <= t
  {
    Earliest(AlarmTimes(s))
  }

  /** isQuiescentVnuRefreshState */
  predicate Quiescent(s: State) {
    && s.active.None?
    && s.lease.None?
    && s.revokedAccess == map[]
    && s.revokedGrants == map[]
    && s.window.count == 0
    && s.activationWindow.None?
  }
}
