/** The reply to every operation of the probe budget, and what it stores, told from the
    stored maps and windows and the clock alone. */
module ProbeBudgetVerdicts {
  import opened Prelude
  import opened ProbeBudget

  // -------------------------------------------------- what the stores say at an instant

  /** Those who hold a lease that has not run out. */
  function Holders(leases: map<string, int>, now: int): set<string> {
    set id | id in leases && now < leases[id]
  }

  /** Nobody's lease but that of the given ones is touched, and only those that last are kept. */
  predicate KeepsLeases(before: map<string, int>, after: map<string, int>, now: int, touched: set<string>) {
    forall id :: id in before.Keys + after.Keys && id !in touched ==>
        && (id in after <==> id in before && now < before[id])
        && (id in after ==> after[id] == before[id])
  }

  predicate KeepsPermits(before: map<string, StoredPermit>, after: map<string, StoredPermit>, now: int, touched: set<string>) {
    forall h :: h in before.Keys + after.Keys && h !in touched ==>
        && (h in after <==> h in before && now < before[h].record.expiresAt)
        && (h in after ==> after[h] == before[h])
  }

  function UnitsUsed(window: Option<Window>, now: int): int {
    if window.Some? && now < window.value.resetAt then window.value.count else 0
  }

  function WindowEnds(window: Option<Window>, now: int, seconds: int): int {
    if window.Some? && now < window.value.resetAt then window.value.resetAt else now + 1000 * seconds
  }

  /** The alarm is due with the first lease or permit that is still to run out. */
  predicate AlarmIsFirst(s: Stores, now: int) {
    match s.alarm
    case None =>
      && (forall id :: id in s.brc1 ==> s.brc1[id] <= now)
      && (forall h :: h in s.permits ==> s.permits[h].record.expiresAt <= now)
      && (forall id :: id in s.leases ==> s.leases[id] <= now)
    case Some(at) =>
      && now < at
      && (forall id :: id in s.brc1 && now < s.brc1[id] ==> at <= s.brc1[id])
      && (forall h :: h in s.permits && now < s.permits[h].record.expiresAt ==> at <= s.permits[h].record.expiresAt)
      && (forall id :: id in s.leases && now < s.leases[id] ==> at <= s.leases[id])
      && ((exists id :: id in s.brc1 && s.brc1[id] == at)
          || (exists h :: h in s.permits && s.permits[h].record.expiresAt == at)
          || (exists id :: id in s.leases && s.leases[id] == at))
  }

  lemma ReschedulingFindsTheFirst(s: Stores, now: int)
    ensures AlarmIsFirst(Rescheduled(s, now), now)
  {
    var t := Rescheduled(s, now);
    forall id | id in t.brc1 && now < t.brc1[id] ensures t.brc1[id] in Expiries(s, now) {}
    forall h | h in t.permits && now < t.permits[h].record.expiresAt ensures t.permits[h].record.expiresAt in Expiries(s, now) {}
    forall id | id in t.leases && now < t.leases[id] ensures t.leases[id] in Expiries(s, now) {}
  }

  /** Whatever an operation does to an expiring store, it sets the alarm for what is first. */
  lemma TimedStepsFindTheFirst(s: Stores, command: Command, now: int)
    requires Perform(s, command, now).timed
    ensures AlarmIsFirst(Apply(s, command, now).stores, now)
  {
    ReschedulingFindsTheFirst(Perform(s, command, now).stores, now);
  }

  // ------------------------------------------------------------------ Brc1 leases

  lemma HoldersAre(leases: map<string, int>, now: int)
    ensures Unexpired(leases, now).Keys == Holders(leases, now)
    ensures |Unexpired(leases, now)| == |Holders(leases, now)|
    ensures KeepsLeases(leases, Unexpired(leases, now), now, {})
  {
    assert Unexpired(leases, now).Keys == Holders(leases, now);
  }

  /** A lease of 125 seconds while fewer than six others hold one. */
  lemma AcquireVerdict(s: Stores, id: LeaseId, now: int)
    ensures Apply(s, AcquireBrc1(id), now).reply
         == if |Holders(s.brc1, now)| < 6 then Leased(id, now + 125_000) else Refused(Busy(1))
  {
    HoldersAre(s.brc1, now);
  }

  lemma AcquireStores(s: Stores, id: LeaseId, now: int)
    requires |Holders(s.brc1, now)| < 6
    ensures var t := Apply(s, AcquireBrc1(id), now).stores;
            && t == s.(brc1 := t.brc1, alarm := t.alarm)
            && id in t.brc1 && t.brc1[id] == now + 125_000
            && KeepsLeases(s.brc1, t.brc1, now, {id})
            && AlarmIsFirst(t, now)
  {
    HoldersAre(s.brc1, now);
    TimedStepsFindTheFirst(s, AcquireBrc1(id), now);
  }

  /** Only a lease that lasts is given back, and only that one. */
  lemma ReleaseBrc1Stores(s: Stores, id: string, now: int)
    ensures var t := Apply(s, ReleaseBrc1(id), now).stores;
            if IsHex(id, 32) && id in Holders(s.brc1, now) then
              && t == s.(brc1 := t.brc1, alarm := t.alarm)
              && id !in t.brc1 && KeepsLeases(s.brc1, t.brc1, now, {id})
              && AlarmIsFirst(t, now)
            else t == s
  {
    HoldersAre(s.brc1, now);
    if IsHex(id, 32) && id in Holders(s.brc1, now) {
      TimedStepsFindTheFirst(s, ReleaseBrc1(id), now);
    }
  }

  lemma ReleaseLeaseStores(s: Stores, id: string, now: int)
    ensures var t := Apply(s, ReleaseLease(id), now).stores;
            if IsHex(id, 32) && id in Holders(s.leases, now) then
              && t == s.(leases := t.leases, alarm := t.alarm)
              && id !in t.leases && KeepsLeases(s.leases, t.leases, now, {id})
              && AlarmIsFirst(t, now)
            else t == s
  {
    HoldersAre(s.leases, now);
    if IsHex(id, 32) && id in Holders(s.leases, now) {
      TimedStepsFindTheFirst(s, ReleaseLease(id), now);
    }
  }

  // ------------------------------------------------------------------ probe units

  /** Whole amounts up to 300, and 300 in a window of 600 seconds. */
  lemma ReserveVerdict(s: Stores, amount: int, now: int)
    ensures var reply := Apply(s, Reserve(amount), now).reply;
            if !(1 <= amount <= 300) then reply == Threw
            else if UnitsUsed(s.window, now) + amount <= 300 then reply == Done
            else
              && reply.Refused? && reply.refusal.OverBudget?
              && Covers(reply.refusal.retryAfterSeconds, WindowEnds(s.window, now, 600), now)
  {
    QuotedDelayIsTight(WindowEnds(s.window, now, 600), now);
  }

  lemma ReserveStores(s: Stores, amount: int, now: int)
    requires 1 <= amount <= 300 && UnitsUsed(s.window, now) + amount <= 300
    ensures Apply(s, Reserve(amount), now).stores
         == s.(window := Some(Window(UnitsUsed(s.window, now) + amount, WindowEnds(s.window, now, 600))))
  {
  }

  // ---------------------------------------------------------------- detail permits

  predicate LimitsFit(l: Limits) {
    && (forall n :: n in [l.maxTargets, l.maxRows, l.concurrency, l.budget, l.windowSeconds] ==> 1 <= n && SafeInteger(n))
    && l.concurrency <= 16
  }

  lemma LimitsAre(l: Limits)
    ensures LimitsOk(l) <==> LimitsFit(l)
  {
    var all := [l.maxTargets, l.maxRows, l.concurrency, l.budget, l.windowSeconds];
    assert all[0] in all && all[1] in all && all[2] in all && all[3] in all && all[4] in all;
  }

  predicate AreDigits(s: string) {
    forall c :: c in s ==> c in "0123456789abcdef"
  }

  lemma HexIs(s: string, length: nat)
    ensures IsHex(s, length) <==> |s| == length && AreDigits(s)
  {
    var digits := "0123456789abcdef";
    forall c: char
      ensures c in digits <==> '0' <= c <= '9' || 'a' <= c <= 'f'
    {
      if '0' <= c <= '9' {
        assert digits[(c - '0') as int] == c;
      } else if 'a' <= c <= 'f' {
        assert digits[10 + (c - 'a') as int] == c;
      }
    }
    if |s| == length && AreDigits(s) {
      assert forall i :: 0 <= i < length ==> s[i] in s;
    }
  }

  /** Five digests of 32 bytes and a nonce of 16, under the only policy there is. */
  predicate PresentationFits(input: ConsumeInput) {
    && (forall digest :: digest in [input.permitHash, input.bindings.requesterHmac, input.bindings.targetHmac, input.bindings.revisionHmac, input.bindings.rowHmac]
          ==> |digest| == 64 && AreDigits(digest))
    && |input.bindings.nonce| == 32 && AreDigits(input.bindings.nonce)
    && input.bindings.policyVersion == 1
  }

  lemma PresentationIs(input: ConsumeInput)
    ensures InputOk(input) <==> PresentationFits(input)
  {
    var b := input.bindings;
    var digests := [input.permitHash, b.requesterHmac, b.targetHmac, b.revisionHmac, b.rowHmac];
    assert digests[0] in digests && digests[1] in digests && digests[2] in digests && digests[3] in digests && digests[4] in digests;
    forall digest | digest in digests ensures IsHex(digest, 64) <==> |digest| == 64 && AreDigits(digest) {
      HexIs(digest, 64);
    }
    HexIs(b.nonce, 32);
  }

  /** The permit is stored, unused and unexpired, and was issued for what is presented. */
  predicate Presentable(s: Stores, input: ConsumeInput, now: int) {
    && PresentationFits(input)
    && input.permitHash in s.permits
    && var entry := s.permits[input.permitHash];
       && now < entry.record.expiresAt && entry.consumedAt == None
       && entry.record.bindings.nonce == input.bindings.nonce
       && entry.record.bindings.requesterHmac == input.bindings.requesterHmac
       && entry.record.bindings.targetHmac == input.bindings.targetHmac
       && entry.record.bindings.revisionHmac == input.bindings.revisionHmac
       && entry.record.bindings.rowHmac == input.bindings.rowHmac
       && entry.record.bindings.policyVersion == input.bindings.policyVersion
  }

  predicate HasBudget(s: Stores, limits: Limits, now: int) {
    UnitsUsed(s.detailWindow, now) < limits.budget
  }

  predicate HasRoom(s: Stores, limits: Limits, now: int) {
    |Holders(s.leases, now)| < limits.concurrency
  }

  /** A permit is judged first, then the budget, then the room; only one that passes all
      three releases its envelope, with a lease of 125 seconds. */
  lemma ConsumeVerdict(s: Stores, input: ConsumeInput, limits: Limits, id: LeaseId, now: int)
    ensures var reply := Apply(s, Consume(input, limits, id), now).reply;
            if !LimitsFit(limits) then reply == Threw
            else if !Presentable(s, input, now) then reply == Refused(Invalid)
            else if !HasBudget(s, limits, now) then
              && reply.Refused? && reply.refusal.OverBudget?
              && Covers(reply.refusal.retryAfterSeconds, WindowEnds(s.detailWindow, now, limits.windowSeconds), now)
            else if !HasRoom(s, limits, now) then reply == Refused(Busy(1))
            else reply == Released(id, now + 125_000, s.permits[input.permitHash].record.envelope)
  {
    LimitsAre(limits);
    PresentationIs(input);
    HoldersAre(s.leases, now);
    QuotedDelayIsTight(WindowEnds(s.detailWindow, now, limits.windowSeconds), now);
  }

  lemma TouchingOne(permits: map<string, StoredPermit>, leases: map<string, int>, now: int, h: string, entry: StoredPermit, id: string, expiresAt: int)
    ensures KeepsPermits(permits, UnexpiredPermits(permits, now)[h := entry], now, {h})
    ensures KeepsLeases(leases, Unexpired(leases, now)[id := expiresAt], now, {id})
  {
  }

  /** The writes of an honoured permit, store by store. */
  lemma ConsumeWrites(s: Stores, input: ConsumeInput, limits: Limits, id: LeaseId, now: int)
    requires ApplyConsume(s, input, limits, id, now).reply.Released?
    ensures var t := ApplyConsume(s, input, limits, id, now).stores;
            && t.window == s.window && t.brc1 == s.brc1
            && t.permits == UnexpiredPermits(s.permits, now)[input.permitHash := s.permits[input.permitHash].(consumedAt := Some(now))]
            && t.leases == Unexpired(s.leases, now)[id := now + 125_000]
            && t.detailWindow == Some(Window(UnitsUsed(s.detailWindow, now) + 1, WindowEnds(s.detailWindow, now, limits.windowSeconds)))
    ensures ApplyConsume(s, input, limits, id, now).timed
  {
  }

  /** What it stores: the permit as used now, one unit more, the lease. */
  lemma ConsumeStores(s: Stores, input: ConsumeInput, limits: Limits, id: LeaseId, now: int)
    requires LimitsFit(limits) && Presentable(s, input, now) && HasBudget(s, limits, now) && HasRoom(s, limits, now)
    ensures var t := Apply(s, Consume(input, limits, id), now).stores;
            && t.window == s.window && t.brc1 == s.brc1
            && input.permitHash in t.permits
            && t.permits[input.permitHash] == StoredPermit(s.permits[input.permitHash].record, Some(now))
            && KeepsPermits(s.permits, t.permits, now, {input.permitHash})
            && t.detailWindow == Some(Window(UnitsUsed(s.detailWindow, now) + 1, WindowEnds(s.detailWindow, now, limits.windowSeconds)))
            && id in t.leases && t.leases[id] == now + 125_000
            && KeepsLeases(s.leases, t.leases, now, {id})
            && AlarmIsFirst(t, now)
  {
    ConsumeVerdict(s, input, limits, id, now);
    ConsumeWrites(s, input, limits, id, now);
    var entry := s.permits[input.permitHash].(consumedAt := Some(now));
    TouchingOne(s.permits, s.leases, now, input.permitHash, entry, id, now + 125_000);
    TimedStepsFindTheFirst(s, Consume(input, limits, id), now);
  }

  predicate RecordFits(r: PermitRecord) {
    && (forall digest :: digest in [r.bindings.requesterHmac, r.bindings.targetHmac, r.bindings.revisionHmac, r.bindings.rowHmac]
          ==> |digest| == 64 && AreDigits(digest))
    && |r.bindings.nonce| == 32 && AreDigits(r.bindings.nonce)
    && r.bindings.policyVersion == 1
    && 1 <= |r.envelope| <= 1024
    && 1 <= r.expiresAt && SafeInteger(r.expiresAt)
  }

  lemma RecordIs(permit: IssuedPermit)
    ensures IsHex(permit.permitHash, 64) && RecordOk(permit.record)
            <==> |permit.permitHash| == 64 && AreDigits(permit.permitHash) && RecordFits(permit.record)
  {
    var b := permit.record.bindings;
    var digests := [b.requesterHmac, b.targetHmac, b.revisionHmac, b.rowHmac];
    assert digests[0] in digests && digests[1] in digests && digests[2] in digests && digests[3] in digests;
    forall digest | digest in digests ensures IsHex(digest, 64) <==> |digest| == 64 && AreDigits(digest) {
      HexIs(digest, 64);
    }
    HexIs(b.nonce, 32);
    HexIs(permit.permitHash, 64);
  }

  /** One to `maxRows` sound permits, for no more than `maxTargets` targets. */
  predicate BatchFits(permits: seq<IssuedPermit>, limits: Limits) {
    && 1 <= |permits| <= limits.maxRows
    && (forall permit :: permit in permits ==> |permit.permitHash| == 64 && AreDigits(permit.permitHash) && RecordFits(permit.record))
    && |set permit | permit in permits :: permit.record.bindings.targetHmac| <= limits.maxTargets
  }

  lemma BatchIs(permits: seq<IssuedPermit>, limits: Limits)
    ensures IssuanceOk(permits, limits) <==> BatchFits(permits, limits)
  {
    forall permit | permit in permits
      ensures IsHex(permit.permitHash, 64) && RecordOk(permit.record)
              <==> |permit.permitHash| == 64 && AreDigits(permit.permitHash) && RecordFits(permit.record)
    {
      RecordIs(permit);
    }
    assert forall i :: 0 <= i < |permits| ==> permits[i] in permits;
    assert TargetsOf(permits) == set permit | permit in permits :: permit.record.bindings.targetHmac;
  }

  lemma IssueVerdict(s: Stores, permits: seq<IssuedPermit>, limits: Limits, now: int)
    ensures Apply(s, Issue(permits, limits), now).reply
         == if LimitsFit(limits) && BatchFits(permits, limits) then Done else Threw
  {
    LimitsAre(limits);
    BatchIs(permits, limits);
  }

  /** The hash is issued in the batch at this place, and at none after it. */
  predicate LastIssuedAt(permits: seq<IssuedPermit>, h: string, i: nat) {
    i < |permits| && permits[i].permitHash == h && forall j :: i < j < |permits| ==> permits[j].permitHash != h
  }

  /** Of two records for one hash the later one stays. */
  lemma {:induction false} LaterRecordStays(stored: map<string, StoredPermit>, permits: seq<IssuedPermit>, i: nat)
    requires i < |permits| && LastIssuedAt(permits, permits[i].permitHash, i)
    ensures permits[i].permitHash in Issued(stored, permits)
    ensures Issued(stored, permits)[permits[i].permitHash] == StoredPermit(permits[i].record, None)
  {
    var front := Front(permits);
    if i < |front| {
      assert Last(permits) == permits[|front|];
      assert forall j :: 0 <= j < |front| ==> front[j] == permits[j];
      LaterRecordStays(stored, front, i);
    }
  }

  lemma IssueTouches(stored: map<string, StoredPermit>, permits: seq<IssuedPermit>, now: int)
    ensures KeepsPermits(stored, Issued(UnexpiredPermits(stored, now), permits), now, set permit | permit in permits :: permit.permitHash)
  {
    IssuedMeaning(UnexpiredPermits(stored, now), permits);
    assert HashesOf(permits) == set permit | permit in permits :: permit.permitHash;
  }

  lemma IssueStores(s: Stores, permits: seq<IssuedPermit>, limits: Limits, now: int)
    requires LimitsFit(limits) && BatchFits(permits, limits)
    ensures var t := Apply(s, Issue(permits, limits), now).stores;
            && t == s.(permits := t.permits, alarm := t.alarm)
            && (forall i: nat :: i < |permits| && LastIssuedAt(permits, permits[i].permitHash, i) ==>
                  permits[i].permitHash in t.permits && t.permits[permits[i].permitHash] == StoredPermit(permits[i].record, None))
            && KeepsPermits(s.permits, t.permits, now, set permit | permit in permits :: permit.permitHash)
            && AlarmIsFirst(t, now)
  {
    LimitsAre(limits);
    BatchIs(permits, limits);
    TimedStepsFindTheFirst(s, Issue(permits, limits), now);
    var t := Apply(s, Issue(permits, limits), now).stores;
    assert t.permits == Issued(UnexpiredPermits(s.permits, now), permits);
    IssueTouches(s.permits, permits, now);
    forall i: nat | i < |permits| && LastIssuedAt(permits, permits[i].permitHash, i)
      ensures permits[i].permitHash in t.permits && t.permits[permits[i].permitHash] == StoredPermit(permits[i].record, None)
    {
      LaterRecordStays(UnexpiredPermits(s.permits, now), permits, i);
    }
  }

  // ---------------------------------------------------------------------- the alarm

  /** The alarm drops what has run out, and nothing else. */
  lemma AlarmStores(s: Stores, now: int)
    ensures var t := Apply(s, Alarm, now).stores;
            && t == s.(brc1 := t.brc1, permits := t.permits, leases := t.leases, alarm := t.alarm)
            && KeepsLeases(s.brc1, t.brc1, now, {})
            && KeepsPermits(s.permits, t.permits, now, {})
            && KeepsLeases(s.leases, t.leases, now, {})
            && AlarmIsFirst(t, now)
  {
    TimedStepsFindTheFirst(s, Alarm, now);
  }
}
