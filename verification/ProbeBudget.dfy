/** The per-session probe budget and cross-detail permits
    (apps/worker/src/vnu/vnu-probe-budget.ts and its Durable Object). */
module ProbeBudget {
  import opened Prelude

  const PROBE_LIMIT: nat := 300
  const WINDOW_SECONDS: nat := 600
  const BRC1_LIMIT: nat := 6
  const LEASE_MS: nat := 125_000
  const MAX_CONCURRENCY: nat := 16
  const POLICY_VERSION: int := 1
  const ENVELOPE_MAX_LENGTH: nat := 1_024

  // ------------------------------------------------------------ shapes of values

  predicate IsHex(s: string, length: nat) {
    |s| == length && forall i :: 0 <= i < length ==> '0' <= s[i] <= '9' || 'a' <= s[i] <= 'f'
  }

  /** What randomHex32 yields. */
  type LeaseId = s: string | IsHex(s, 32) witness "00000000000000000000000000000000"

  datatype Limits = Limits(maxTargets: int, maxRows: int, concurrency: int, budget: int, windowSeconds: int)

  predicate LimitsOk(l: Limits) {
    && 0 < l.maxTargets <= MAX_SAFE_INTEGER
    && 0 < l.maxRows <= MAX_SAFE_INTEGER
    && 0 < l.concurrency <= MAX_CONCURRENCY
    && 0 < l.budget <= MAX_SAFE_INTEGER
    && 0 < l.windowSeconds <= MAX_SAFE_INTEGER
  }

  datatype Bindings = Bindings(nonce: string, requesterHmac: string, targetHmac: string, revisionHmac: string, rowHmac: string, policyVersion: int)

  datatype PermitRecord = PermitRecord(bindings: Bindings, envelope: string, expiresAt: int)

  datatype IssuedPermit = IssuedPermit(permitHash: string, record: PermitRecord)

  datatype StoredPermit = StoredPermit(record: PermitRecord, consumedAt: Option<int>)

  datatype ConsumeInput = ConsumeInput(permitHash: string, bindings: Bindings)

  predicate BindingsOk(b: Bindings) {
    && IsHex(b.requesterHmac, 64) && IsHex(b.targetHmac, 64) && IsHex(b.revisionHmac, 64) && IsHex(b.rowHmac, 64)
    && b.policyVersion == POLICY_VERSION
    && IsHex(b.nonce, 32)
  }

  predicate RecordOk(r: PermitRecord) {
    && BindingsOk(r.bindings)
    && 0 < |r.envelope| <= ENVELOPE_MAX_LENGTH
    && 0 < r.expiresAt <= MAX_SAFE_INTEGER
  }

  predicate InputOk(input: ConsumeInput) {
    IsHex(input.permitHash, 64) && BindingsOk(input.bindings)
  }

  function TargetsOf(permits: seq<IssuedPermit>): set<string> {
    set i | 0 <= i < |permits| :: permits[i].record.bindings.targetHmac
  }

  predicate IssuanceOk(permits: seq<IssuedPermit>, limits: Limits) {
    && 0 < |permits| <= limits.maxRows
    && (forall i :: 0 <= i < |permits| ==> IsHex(permits[i].permitHash, 64) && RecordOk(permits[i].record))
    && |TargetsOf(permits)| <= limits.maxTargets
  }

  method ValidateIssuance(permits: seq<IssuedPermit>, limits: Limits) returns (ok: bool)
    ensures ok <==> IssuanceOk(permits, limits)
  {
    if |permits| == 0 || |permits| > limits.maxRows {
      return false;
    }
    var targets: set<string> := {};
    for n := 0 to |permits|
      invariant forall i :: 0 <= i < n ==> IsHex(permits[i].permitHash, 64) && RecordOk(permits[i].record)
      invariant targets == TargetsOf(permits[..n])
    {
      if !IsHex(permits[n].permitHash, 64) || !RecordOk(permits[n].record) {
        return false;
      }
      targets := targets + {permits[n].record.bindings.targetHmac};
      TargetsGrow(permits, n);
    }
    assert permits[..|permits|] == permits;
    ok := |targets| <= limits.maxTargets;
  }

  lemma TargetsGrow(permits: seq<IssuedPermit>, n: nat)
    requires n < |permits|
    ensures TargetsOf(permits[..n + 1]) == TargetsOf(permits[..n]) + {permits[n].record.bindings.targetHmac}
  {
    var longer, shorter := permits[..n + 1], permits[..n];
    assert longer == shorter + [permits[n]];
    assert forall i :: 0 <= i < n ==> longer[i] == shorter[i];
    assert longer[n] == permits[n];
  }

  // ------------------------------------------------------------- budget windows

  datatype Window = Window(count: nat, resetAt: int)

  function OpenWindow(stored: Option<Window>, now: int, windowSeconds: int): Window {
    if stored.None? || now >= stored.value.resetAt then Window(0, now + windowSeconds * 1000) else stored.value
  }

  datatype Charge = Charge(window: Window, refusedFor: Option<int>)

  function ConsumeBudgetWindow(stored: Option<Window>, amount: nat, now: int, limit: int, windowSeconds: int): Charge {
    var window := OpenWindow(stored, now, windowSeconds);
    if window.count + amount > limit then Charge(window, Some(RetryAfterSeconds(window.resetAt, now)))
    else Charge(Window(window.count + amount, window.resetAt), None)
  }

  // ------------------------------------------------------------------ the stores

  datatype Stores = Stores(
    window: Option<Window>,
    brc1: map<string, int>,
    permits: map<string, StoredPermit>,
    detailWindow: Option<Window>,
    leases: map<string, int>,
    alarm: Option<int>)

  function Unexpired(leases: map<string, int>, now: int): map<string, int> {
    map id | id in leases && leases[id] > now :: leases[id]
  }

  function UnexpiredPermits(permits: map<string, StoredPermit>, now: int): map<string, StoredPermit> {
    map h | h in permits && permits[h].record.expiresAt > now :: permits[h]
  }

  /** Everything across the three stores that is still to expire. */
  function Expiries(s: Stores, now: int): set<int> {
    (set id | id in s.brc1 && s.brc1[id] > now :: s.brc1[id]) +
    (set h | h in s.permits && s.permits[h].record.expiresAt > now :: s.permits[h].record.expiresAt) +
    (set id | id in s.leases && s.leases[id] > now :: s.leases[id])
  }

  function Rescheduled(s: Stores, now: int): Stores {
    s.(alarm := Earliest(Expiries(s, now)))
  }

  lemma RescheduledForgets(s: Stores, alarm: Option<int>, now: int)
    ensures Rescheduled(s.(alarm := alarm), now) == Rescheduled(s, now)
  {
    assert Expiries(s.(alarm := alarm), now) == Expiries(s, now);
  }

  lemma PrunedStepwise(s: Stores, now: int)
    ensures var one := Rescheduled(s.(brc1 := Unexpired(s.brc1, now)), now);
            var two := Rescheduled(one.(permits := UnexpiredPermits(s.permits, now)), now);
            Rescheduled(two.(leases := Unexpired(s.leases, now)), now) == Rescheduled(Pruned(s, now), now)
  {
    var one := Rescheduled(s.(brc1 := Unexpired(s.brc1, now)), now);
    var two := Rescheduled(one.(permits := UnexpiredPermits(s.permits, now)), now);
    var three := two.(leases := Unexpired(s.leases, now));
    assert three == Pruned(s, now).(alarm := two.alarm);
    RescheduledForgets(Pruned(s, now), two.alarm, now);
  }

  function Issued(stored: map<string, StoredPermit>, permits: seq<IssuedPermit>): map<string, StoredPermit> {
    if permits == [] then stored
    else Issued(stored, Front(permits))[Last(permits).permitHash := StoredPermit(Last(permits).record, None)]
  }

  function HashesOf(permits: seq<IssuedPermit>): set<string> {
    set i | 0 <= i < |permits| :: permits[i].permitHash
  }

  /** A batch leaves every permit it names unconsumed and the others alone. */
  lemma {:induction false} IssuedMeaning(stored: map<string, StoredPermit>, permits: seq<IssuedPermit>)
    ensures Issued(stored, permits).Keys == stored.Keys + HashesOf(permits)
    ensures forall h :: h in stored && h !in HashesOf(permits) ==> Issued(stored, permits)[h] == stored[h]
    ensures forall h :: h in HashesOf(permits) ==>
              && Issued(stored, permits)[h].consumedAt.None?
              && IssuedPermit(h, Issued(stored, permits)[h].record) in permits
  {
    if permits != [] {
      var front, last := Front(permits), Last(permits);
      IssuedMeaning(stored, front);
      assert permits == front + [last];
      assert HashesOf(permits) == HashesOf(front) + {last.permitHash} by {
        assert forall i :: 0 <= i < |front| ==> permits[i] == front[i];
        assert permits[|front|] == last;
      }
    }
  }

  // ------------------------------------------------------------------ operations

  datatype Command =
    | AcquireBrc1(issuedId: LeaseId)
    | ReleaseBrc1(id: string)
    | Issue(permits: seq<IssuedPermit>, limits: Limits)
    | Consume(input: ConsumeInput, limits: Limits, issuedId: LeaseId)
    | ReleaseLease(id: string)
    | Reserve(amount: int)
    | Alarm

  datatype Refusal = Invalid | OverBudget(retryAfterSeconds: int) | Busy(retryAfterSeconds: int)

  datatype Reply =
    | Done
    | Leased(leaseId: string, expiresAt: int)
    | Released(leaseId: string, expiresAt: int, envelope: string)
    | Refused(refusal: Refusal)
    | Threw

  /** What an operation answers and stores; `timed` when it wrote an expiring store. */
  datatype Outcome = Outcome(reply: Reply, stores: Stores, timed: bool)

  function ApplyAcquireBrc1(s: Stores, issuedId: LeaseId, now: int): Outcome {
    var active := Unexpired(s.brc1, now);
    if |active| >= BRC1_LIMIT then Outcome(Refused(Busy(1)), s, false)
    else
      Outcome(Leased(issuedId, now + LEASE_MS), s.(brc1 := active[issuedId := now + LEASE_MS]), true)
  }

  function ApplyReleaseBrc1(s: Stores, id: string, now: int): Outcome {
    var active := Unexpired(s.brc1, now);
    if !IsHex(id, 32) || id !in active then Outcome(Done, s, false)
    else Outcome(Done, s.(brc1 := active - {id}), true)
  }

  function ApplyIssue(s: Stores, permits: seq<IssuedPermit>, limits: Limits, now: int): Outcome {
    if !LimitsOk(limits) || !IssuanceOk(permits, limits) then Outcome(Threw, s, false)
    else Outcome(Done, s.(permits := Issued(UnexpiredPermits(s.permits, now), permits)), true)
  }

  function ApplyConsume(s: Stores, input: ConsumeInput, limits: Limits, issuedId: LeaseId, now: int): Outcome {
    var permits := UnexpiredPermits(s.permits, now);
    var leases := Unexpired(s.leases, now);
    var h := input.permitHash;
    if !LimitsOk(limits) then Outcome(Threw, s, false)
    else if !InputOk(input) || h !in permits || permits[h].consumedAt.Some? || permits[h].record.bindings != input.bindings then
      Outcome(Refused(Invalid), s, false)
    else
      var charge := ConsumeBudgetWindow(s.detailWindow, 1, now, limits.budget, limits.windowSeconds);
      if charge.refusedFor.Some? then Outcome(Refused(OverBudget(charge.refusedFor.value)), s, false)
      else if |leases| >= limits.concurrency then Outcome(Refused(Busy(1)), s, false)
      else
        Outcome(
          Released(issuedId, now + LEASE_MS, permits[h].record.envelope),
          s.(permits := permits[h := permits[h].(consumedAt := Some(now))],
             detailWindow := Some(charge.window),
             leases := leases[issuedId := now + LEASE_MS]),
          true)
  }

  function ApplyReleaseLease(s: Stores, id: string, now: int): Outcome {
    var active := Unexpired(s.leases, now);
    if !IsHex(id, 32) || id !in active then Outcome(Done, s, false)
    else Outcome(Done, s.(leases := active - {id}), true)
  }

  function ApplyReserve(s: Stores, amount: int, now: int): Outcome {
    if amount <= 0 || amount > PROBE_LIMIT then Outcome(Threw, s, false)
    else
      var charge := ConsumeBudgetWindow(s.window, amount, now, PROBE_LIMIT, WINDOW_SECONDS);
      if charge.refusedFor.Some? then Outcome(Refused(OverBudget(charge.refusedFor.value)), s, false)
      else Outcome(Done, s.(window := Some(charge.window)), false)
  }

  function Pruned(s: Stores, now: int): Stores {
    s.(brc1 := Unexpired(s.brc1, now), permits := UnexpiredPermits(s.permits, now), leases := Unexpired(s.leases, now))
  }

  function Perform(s: Stores, command: Command, now: int): Outcome {
    match command
    case AcquireBrc1(issuedId) => ApplyAcquireBrc1(s, issuedId, now)
    case ReleaseBrc1(id) => ApplyReleaseBrc1(s, id, now)
    case Issue(permits, limits) => ApplyIssue(s, permits, limits, now)
    case Consume(input, limits, issuedId) => ApplyConsume(s, input, limits, issuedId, now)
    case ReleaseLease(id) => ApplyReleaseLease(s, id, now)
    case Reserve(amount) => ApplyReserve(s, amount, now)
    case Alarm => Outcome(Done, Pruned(s, now), true)
  }

  /** One storage transaction. */
  function Apply(s: Stores, command: Command, now: int): Outcome {
    var done := Perform(s, command, now);
    if done.timed then done.(stores := Rescheduled(done.stores, now)) else done
  }

  /** A refusal of any kind leaves permits, windows, leases and the alarm alone. */
  lemma RefusalsWriteNothing(s: Stores, command: Command, now: int)
    requires Apply(s, command, now).reply.Refused? || Apply(s, command, now).reply.Threw?
    ensures Apply(s, command, now).stores == s
  {
  }

  // --------------------------------------------------------------------- quotes

  /** Once the quoted delay has passed with no step in between, the budget does not
      refuse the same request again. */
  lemma WaitingTheQuotedDelayWorks(s: Stores, command: Command, now: int, later: int)
    requires Apply(s, command, now).reply.Refused? && Apply(s, command, now).reply.refusal.OverBudget?
    requires later >= now + 1000 * Apply(s, command, now).reply.refusal.retryAfterSeconds
    ensures command.Reserve? || command.Consume?
    ensures !(Apply(s, command, later).reply.Refused? && Apply(s, command, later).reply.refusal.OverBudget?)
    ensures command.Reserve? ==> Apply(s, command, later).reply == Done
  {
    match command
    case Reserve(amount) => QuotedDelayIsTight(OpenWindow(s.window, now, WINDOW_SECONDS).resetAt, now);
    case Consume(_, limits, _) => QuotedDelayIsTight(OpenWindow(s.detailWindow, now, limits.windowSeconds).resetAt, now);
    case _ =>
  }

  /** The leases that run out after one instant and by another. */
  function RunOut(leases: map<string, int>, now: int, later: int): map<string, int> {
    map id | id in leases && now < leases[id] <= later :: leases[id]
  }

  lemma UnexpiredLater(leases: map<string, int>, now: int, later: int)
    requires now <= later
    ensures |Unexpired(leases, later)| == |Unexpired(leases, now)| - |RunOut(leases, now, later)|
  {
    var all, gone, left := Unexpired(leases, now).Keys, RunOut(leases, now, later).Keys, Unexpired(leases, later).Keys;
    assert all == gone + left && gone !! left;
  }

  /** A busy refusal quotes one second, however long the leases last. Repeated later with
      no step in between it is refused as busy again if and only if too few leases have
      run out by then. */
  lemma BusyAgainIff(s: Stores, id: LeaseId, now: int, later: int)
    requires now <= later && Apply(s, AcquireBrc1(id), now).reply == Refused(Busy(1))
    ensures Apply(s, AcquireBrc1(id), later).reply == Refused(Busy(1))
            <==> |Unexpired(s.brc1, now)| - |RunOut(s.brc1, now, later)| >= BRC1_LIMIT
  {
    UnexpiredLater(s.brc1, now, later);
  }

  /** The same for a detail permit, as long as the permit itself lasts. */
  lemma DetailBusyAgainIff(s: Stores, input: ConsumeInput, limits: Limits, id: LeaseId, now: int, later: int)
    requires now <= later && ApplyConsume(s, input, limits, id, now).reply == Refused(Busy(1))
    ensures input.permitHash in s.permits
    ensures ApplyConsume(s, input, limits, id, later).reply == Refused(Busy(1))
            <==> && later < s.permits[input.permitHash].record.expiresAt
                 && |Unexpired(s.leases, now)| - |RunOut(s.leases, now, later)| >= limits.concurrency
  {
    UnexpiredLater(s.leases, now, later);
  }

  // ------------------------------------------------------------- the object itself

  class ProbeBudgetObject {
    var window: Option<Window>
    var brc1: map<string, int>
    var permits: map<string, StoredPermit>
    var detailWindow: Option<Window>
    var leases: map<string, int>
    var alarm: Option<int>

    function Contents(): Stores
      reads this
    {
      Stores(window, brc1, permits, detailWindow, leases, alarm)
    }

    constructor ()
      ensures Contents() == Stores(None, map[], map[], None, map[], None)
    {
      window, brc1, permits, detailWindow, leases, alarm := None, map[], map[], None, map[], None;
    }

    /** The shared janitor: one alarm for the three expiring stores. */
    method RescheduleAlarm(now: int)
      modifies this`alarm
      ensures Contents() == Rescheduled(old(Contents()), now)
    {
      alarm := Earliest(Expiries(Contents(), now));
    }

    method AcquireBrc1Permit(issuedId: LeaseId, now: int) returns (reply: Reply)
      modifies this
      ensures reply == Apply(old(Contents()), AcquireBrc1(issuedId), now).reply
      ensures Contents() == Apply(old(Contents()), AcquireBrc1(issuedId), now).stores
    {
      var active := Unexpired(brc1, now);
      if |active| >= BRC1_LIMIT {
        return Refused(Busy(1));
      }
      brc1 := active[issuedId := now + LEASE_MS];
      RescheduleAlarm(now);
      reply := Leased(issuedId, now + LEASE_MS);
    }

    method ReleaseBrc1Permit(id: string, now: int)
      modifies this
      ensures Contents() == Apply(old(Contents()), ReleaseBrc1(id), now).stores
    {
      var active := Unexpired(brc1, now);
      if !IsHex(id, 32) || id !in active {
        return;
      }
      brc1 := active - {id};
      RescheduleAlarm(now);
    }

    method IssueCrossDetailPermits(batch: seq<IssuedPermit>, limits: Limits, now: int) returns (reply: Reply)
      modifies this
      ensures reply == Apply(old(Contents()), Issue(batch, limits), now).reply
      ensures Contents() == Apply(old(Contents()), Issue(batch, limits), now).stores
    {
      if !LimitsOk(limits) {
        return Threw;
      }
      var valid := ValidateIssuance(batch, limits);
      if !valid {
        return Threw;
      }
      var stored := UnexpiredPermits(permits, now);
      for n := 0 to |batch|
        invariant stored == Issued(UnexpiredPermits(permits, now), batch[..n])
        invariant Contents() == old(Contents())
      {
        stored := stored[batch[n].permitHash := StoredPermit(batch[n].record, None)];
        assert Front(batch[..n + 1]) == batch[..n];
      }
      assert batch[..|batch|] == batch;
      permits := stored;
      RescheduleAlarm(now);
      reply := Done;
    }

    /** The writes of an honoured permit. */
    method StoreRelease(known: map<string, StoredPermit>, charged: Window, taken: map<string, int>, now: int)
      modifies this`permits, this`detailWindow, this`leases, this`alarm
      ensures Contents() == Rescheduled(old(Contents()).(permits := known, detailWindow := Some(charged), leases := taken), now)
    {
      permits := known;
      detailWindow := Some(charged);
      leases := taken;
      RescheduleAlarm(now);
    }

    /** Every check comes before the first write. */
    method ConsumeCrossDetailPermit(input: ConsumeInput, limits: Limits, issuedId: LeaseId, now: int) returns (reply: Reply)
      modifies this
      ensures reply == Apply(old(Contents()), Consume(input, limits, issuedId), now).reply
      ensures Contents() == Apply(old(Contents()), Consume(input, limits, issuedId), now).stores
    {
      if !LimitsOk(limits) {
        return Threw;
      }
      if !InputOk(input) {
        return Refused(Invalid);
      }
      var known := UnexpiredPermits(permits, now);
      var taken := Unexpired(leases, now);
      var h := input.permitHash;
      if h !in known || known[h].consumedAt.Some? || known[h].record.bindings != input.bindings {
        return Refused(Invalid);
      }
      var record := known[h];
      var charge := ConsumeBudgetWindow(detailWindow, 1, now, limits.budget, limits.windowSeconds);
      if charge.refusedFor.Some? {
        return Refused(OverBudget(charge.refusedFor.value));
      }
      if |taken| >= limits.concurrency {
        return Refused(Busy(1));
      }
      StoreRelease(known[h := record.(consumedAt := Some(now))], charge.window, taken[issuedId := now + LEASE_MS], now);
      reply := Released(issuedId, now + LEASE_MS, record.record.envelope);
    }

    method ReleaseCrossDetailLease(id: string, now: int)
      modifies this
      ensures Contents() == Apply(old(Contents()), ReleaseLease(id), now).stores
    {
      var active := Unexpired(leases, now);
      if !IsHex(id, 32) || id !in active {
        return;
      }
      leases := active - {id};
      RescheduleAlarm(now);
    }

    method ReserveUnits(amount: int, now: int) returns (reply: Reply)
      modifies this
      ensures reply == Apply(old(Contents()), Reserve(amount), now).reply
      ensures Contents() == Apply(old(Contents()), Reserve(amount), now).stores
    {
      if amount <= 0 || amount > PROBE_LIMIT {
        return Threw;
      }
      var charge := ConsumeBudgetWindow(window, amount, now, PROBE_LIMIT, WINDOW_SECONDS);
      if charge.refusedFor.Some? {
        return Refused(OverBudget(charge.refusedFor.value));
      }
      window := Some(charge.window);
      reply := Done;
    }

    method StorePermits(active: map<string, int>, now: int)
      modifies this`brc1, this`alarm
      ensures Contents() == Rescheduled(old(Contents()).(brc1 := active), now)
    {
      brc1 := active;
      RescheduleAlarm(now);
    }

    method StoreCrossDetailPermits(active: map<string, StoredPermit>, now: int)
      modifies this`permits, this`alarm
      ensures Contents() == Rescheduled(old(Contents()).(permits := active), now)
    {
      permits := active;
      RescheduleAlarm(now);
    }

    method StoreCrossDetailLeases(active: map<string, int>, now: int)
      modifies this`leases, this`alarm
      ensures Contents() == Rescheduled(old(Contents()).(leases := active), now)
    {
      leases := active;
      RescheduleAlarm(now);
    }

    /** Prunes and reschedules store by store; only the last schedule remains. */
    method FireAlarm(now: int)
      modifies this
      ensures Contents() == Apply(old(Contents()), Alarm, now).stores
    {
      PrunedStepwise(Contents(), now);
      StorePermits(Unexpired(brc1, now), now);
      StoreCrossDetailPermits(UnexpiredPermits(permits, now), now);
      StoreCrossDetailLeases(Unexpired(leases, now), now);
    }
  }
}
