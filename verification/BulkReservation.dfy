/** How much a bulk lookup reserves: from operator settings and feature policy to the
    accepted request (apps/worker/src/app.ts, apps/worker/src/policy/feature-policy.ts,
    apps/worker/src/vnu/vnu-runtime-config.ts). */
module BulkReservation {
  import opened Prelude

  const PROBE_BUDGET_LIMIT: int := 300
  const RESOLVER_MAX_PROBES: int := 33
  const BRC1_PERMIT_LIMIT: int := 6

  // --------------------------------------------------------------- settings

  /** An operator setting: absent, not a canonical safe integer, or a number. */
  datatype Setting = Unset | Malformed | Value(n: nat)

  datatype RuntimeConfig = RuntimeConfig(bulkMaxTargets: int, directChunkMaxTargets: int, targetConcurrency: int)

  function Ranged(setting: Setting, fallback: int, lo: int, hi: int): int {
    if setting.Value? && lo <= setting.n <= hi then setting.n else fallback
  }

  /** The bulk part of parseVnuRuntimeConfig. */
  function ParseConfig(bulkMax: Setting, directChunk: Setting, concurrency: Setting): (c: RuntimeConfig)
    ensures 0 <= c.bulkMaxTargets && 1 <= c.directChunkMaxTargets <= 300 && 1 <= c.targetConcurrency <= 3
  {
    RuntimeConfig(
      match bulkMax case Unset => 500 case Malformed => 0 case Value(n) => n,
      Ranged(directChunk, 32, 1, 300),
      Ranged(concurrency, 3, 1, 3))
  }

  // ----------------------------------------------------------------- policy

  datatype Mode = StdIdToCode | StdIdToTranscript | CodeToStdId

  datatype LimitKey =
    | BulkMaxTargets
    | BulkDirectChunkMaxTargets
    | BulkModeMaxTargets(mode: Mode)
    | CrossDetailMaxTargets
    | CrossDetailMaxRows
    | CrossDetailConcurrency

  const LIMIT_KEYS: seq<LimitKey> := [
    BulkMaxTargets, BulkDirectChunkMaxTargets,
    BulkModeMaxTargets(StdIdToCode), BulkModeMaxTargets(StdIdToTranscript), BulkModeMaxTargets(CodeToStdId),
    CrossDetailMaxTargets, CrossDetailMaxRows, CrossDetailConcurrency
  ]

  lemma EveryKeyIsListed(key: LimitKey)
    ensures key in LIMIT_KEYS
  {
    match key
    case BulkMaxTargets => assert LIMIT_KEYS[0] == key;
    case BulkDirectChunkMaxTargets => assert LIMIT_KEYS[1] == key;
    case BulkModeMaxTargets(mode) =>
      assert LIMIT_KEYS[match mode case StdIdToCode => 2 case StdIdToTranscript => 3 case CodeToStdId => 4] == key;
    case CrossDetailMaxTargets => assert LIMIT_KEYS[5] == key;
    case CrossDetailMaxRows => assert LIMIT_KEYS[6] == key;
    case CrossDetailConcurrency => assert LIMIT_KEYS[7] == key;
  }

  type Limits = map<LimitKey, int>

  /** The limits of a policy, a global entry may be an explicit null; and whether and where it
      switches the lookup of others off. */
  datatype Policy = Policy(
    global: map<LimitKey, Option<int>>,
    universities: map<string, Limits>,
    lookupOff: bool,
    lookupOffFor: set<string>)

  /** What the policy schema guarantees of every limit. */
  predicate PositiveLimit(n: int) {
    0 < n <= MAX_SAFE_INTEGER
  }

  predicate ValidPolicy(policy: Policy) {
    && (forall key :: key in policy.global && policy.global[key].Some? ==> PositiveLimit(policy.global[key].value))
    && (forall id :: id in policy.universities ==>
          forall key :: key in policy.universities[id] ==> PositiveLimit(policy.universities[id][key]))
  }

  /** A university's own entry replaces the global one; null and absence mean the ceiling. */
  function Configured(policy: Policy, university: string, key: LimitKey): Option<int> {
    if university in policy.universities && key in policy.universities[university] then
      Some(policy.universities[university][key])
    else if key in policy.global then policy.global[key]
    else None
  }

  /** Either entry, used or not, is outside the schema. */
  predicate BadEntry(policy: Policy, university: string, key: LimitKey) {
    || (university in policy.universities && key in policy.universities[university]
        && !PositiveLimit(policy.universities[university][key]))
    || (key in policy.global && policy.global[key].Some? && !PositiveLimit(policy.global[key].value))
  }

  /** resolveLimit: an entry outside the schema throws. */
  function ResolveLimit(policy: Policy, university: string, key: LimitKey, ceiling: int): Result<int, LimitKey> {
    var configured := Configured(policy, university, key);
    if BadEntry(policy, university, key) then Err(key)
    else Ok(if configured.None? then ceiling else Min(configured.value, ceiling))
  }

  /** Where the native and the hard limit leave room, the least of them. */
  function Ceiling(native: Limits, hard: Limits, key: LimitKey): Option<int> {
    if key in native && key in hard then Some(Min(native[key], hard[key]))
    else if key in native then Some(native[key])
    else if key in hard then Some(hard[key])
    else None
  }

  /** The projected limit of one key, or none where nothing bounds it or nothing is allowed. */
  function Projected(policy: Policy, university: string, native: Limits, hard: Limits, key: LimitKey): Option<int> {
    var ceiling := Ceiling(native, hard, key);
    if ceiling.None? || ceiling.value == 0 then None
    else
      var resolved := ResolveLimit(policy, university, key, ceiling.value);
      if resolved.Ok? then Some(resolved.value) else None
  }

  /** A native or a hard limit bounds the key, and every one that does is positive. */
  predicate Bounded(native: Limits, hard: Limits, key: LimitKey) {
    (key in native || key in hard) && (key in native ==> native[key] != 0) && (key in hard ==> hard[key] != 0)
  }

  /** The largest number the bounds and the one entry that applies leave: the university's own
      if there is one, else the global one if it is a number. */
  predicate LargestAllowed(policy: Policy, university: string, native: Limits, hard: Limits, key: LimitKey, n: int) {
    var own := university in policy.universities && key in policy.universities[university];
    var common := !own && key in policy.global && policy.global[key].Some?;
    && (key in native ==> n <= native[key])
    && (key in hard ==> n <= hard[key])
    && (own ==> n <= policy.universities[university][key])
    && (common ==> n <= policy.global[key].value)
    && (|| (key in native && n == native[key])
        || (key in hard && n == hard[key])
        || (own && n == policy.universities[university][key])
        || (common && n == policy.global[key].value))
  }

  /** What projecting one key means. */
  lemma ProjectedMeaning(policy: Policy, university: string, native: Limits, hard: Limits, key: LimitKey)
    requires key in native ==> 0 <= native[key]
    requires key in hard ==> 0 <= hard[key]
    ensures var p := Projected(policy, university, native, hard, key);
            && (p.Some? <==> Bounded(native, hard, key) && !BadEntry(policy, university, key))
            && (p.Some? ==> LargestAllowed(policy, university, native, hard, key, p.value))
  {
  }

  /** The limit part of effectiveUniversity: one pass over the known keys. */
  method EffectiveLimits(policy: Policy, university: string, native: Limits, hard: Limits) returns (limits: Result<Limits, LimitKey>)
    requires forall key :: key in native ==> 0 <= native[key]
    requires forall key :: key in hard ==> 0 <= hard[key]
    ensures limits.Err? <==> exists key :: Bounded(native, hard, key) && BadEntry(policy, university, key)
    ensures ValidPolicy(policy) ==> limits.Ok?
    ensures limits.Ok? ==> forall key :: (key in limits.value <==> Bounded(native, hard, key))
                                      && (key in limits.value ==> LargestAllowed(policy, university, native, hard, key, limits.value[key]))
  {
    var projected: Limits := map[];
    var i := 0;
    while i < |LIMIT_KEYS|
      invariant 0 <= i <= |LIMIT_KEYS|
      invariant forall key :: key in projected ==> key in LIMIT_KEYS[..i]
      invariant forall key :: key in LIMIT_KEYS[..i] ==>
                  && !(Bounded(native, hard, key) && BadEntry(policy, university, key))
                  && (key in projected <==> Bounded(native, hard, key))
                  && (key in projected ==> LargestAllowed(policy, university, native, hard, key, projected[key]))
    {
      var key := LIMIT_KEYS[i];
      ProjectedMeaning(policy, university, native, hard, key);
      var ceiling := Ceiling(native, hard, key);
      if ceiling.Some? && ceiling.value != 0 {
        var resolved := ResolveLimit(policy, university, key, ceiling.value);
        if resolved.Err? {
          return Err(resolved.error);
        }
        projected := projected[key := resolved.value];
      }
      assert LIMIT_KEYS[..i + 1] == LIMIT_KEYS[..i] + [key];
      i := i + 1;
    }
    forall key: LimitKey
      ensures key in LIMIT_KEYS[..i]
    {
      EveryKeyIsListed(key);
      assert LIMIT_KEYS[..i] == LIMIT_KEYS;
    }
    return Ok(projected);
  }

  // ------------------------------------------------------------ the request

  /** serializeNativeUniversities: what the runtime itself allows for VNU lookups. */
  function NativeLimits(config: RuntimeConfig): Limits {
    map[BulkMaxTargets := config.bulkMaxTargets,
        BulkDirectChunkMaxTargets := config.directChunkMaxTargets,
        BulkModeMaxTargets(StdIdToCode) := config.bulkMaxTargets,
        BulkModeMaxTargets(StdIdToTranscript) := config.bulkMaxTargets,
        BulkModeMaxTargets(CodeToStdId) := Min(config.bulkMaxTargets, PROBE_BUDGET_LIMIT / RESOLVER_MAX_PROBES)]
  }

  /** projectLimits followed by vnuBulkModeLimit: with no overall maximum there are no limits,
      and nothing is allowed. */
  function BulkModeLimit(mode: Mode, limits: Limits): int {
    if BulkMaxTargets !in limits then 0
    else
      var overall := limits[BulkMaxTargets];
      Min(overall,
          Min(if BulkDirectChunkMaxTargets in limits then limits[BulkDirectChunkMaxTargets] else overall,
              if BulkModeMaxTargets(mode) in limits then limits[BulkModeMaxTargets(mode)] else overall))
  }

  /** parseVnuBulkLookupBody accepts a chunk of so many targets. */
  predicate Accepts(mode: Mode, targets: nat, limits: Limits) {
    0 < targets && targets <= BulkModeLimit(mode, limits)
  }

  /** vnuBulkReservationUnits */
  function ReservationUnits(mode: Mode, targets: nat): nat {
    targets * (if mode == CodeToStdId then RESOLVER_MAX_PROBES else 1)
  }

  /** resolveCapability: the lookup of others, which VNU supports, unless switched off. */
  predicate LookupEnabled(policy: Policy, university: string) {
    !policy.lookupOff && university !in policy.lookupOffFor
  }

  /** The limits of the VNU university under a policy; none at all where the lookup is off. */
  ghost predicate EffectiveFor(policy: Policy, config: RuntimeConfig, limits: Limits) {
    var native := NativeLimits(config);
    if !LookupEnabled(policy, "vnu") then limits == map[]
    else
      forall key :: (key in limits <==> Bounded(native, native, key))
                 && (key in limits ==> LargestAllowed(policy, "vnu", native, native, key, limits[key]))
  }

  /** For every setting of the operator and every policy, a request that is accepted
      reserves at least one unit and never more than the whole budget - so the
      reservation call cannot reject its own argument. */
  lemma AcceptedRequestsFitTheBudget(bulkMax: Setting, directChunk: Setting, concurrency: Setting, policy: Policy, limits: Limits, mode: Mode, targets: nat)
    requires ValidPolicy(policy)
    requires EffectiveFor(policy, ParseConfig(bulkMax, directChunk, concurrency), limits)
    requires Accepts(mode, targets, limits)
    ensures 1 <= ReservationUnits(mode, targets) <= PROBE_BUDGET_LIMIT
  {
    var config := ParseConfig(bulkMax, directChunk, concurrency);
    assert BulkMaxTargets in limits && config.bulkMaxTargets > 0;
    assert BulkDirectChunkMaxTargets in limits && limits[BulkDirectChunkMaxTargets] <= 300;
    if mode == CodeToStdId {
      assert BulkModeMaxTargets(CodeToStdId) in limits && limits[BulkModeMaxTargets(CodeToStdId)] <= 9;
    }
  }

  /** What one entry of the policy and one bound leave room for. */
  predicate Room(policy: Policy, key: LimitKey, bound: int, n: int) {
    && n <= bound
    && if "vnu" in policy.universities && key in policy.universities["vnu"] then n <= policy.universities["vnu"][key]
       else key in policy.global && policy.global[key].Some? ==> n <= policy.global[key].value
  }

  lemma LimitLeavesRoom(policy: Policy, native: Limits, key: LimitKey, limit: int, n: int)
    requires key in native && LargestAllowed(policy, "vnu", native, native, key, limit)
    ensures n <= limit <==> Room(policy, key, native[key], n)
  {
  }

  function Or(setting: Setting, unset: int, malformed: int): int {
    match setting
    case Unset => unset
    case Malformed => malformed
    case Value(n) => n
  }

  /** Exactly which bulk requests are accepted, from the operator's settings and the policy:
      between one target and what the overall maximum (500 unless set, none if unreadable),
      the direct chunk (32 unless set to 1..300) and the mode leave room for. Finding a code
      reserves 33 units a target, and so never more than nine; the other modes one. */
  lemma AcceptsIff(bulkMax: Setting, directChunk: Setting, concurrency: Setting, policy: Policy, limits: Limits, mode: Mode, targets: nat)
    requires ValidPolicy(policy)
    requires EffectiveFor(policy, ParseConfig(bulkMax, directChunk, concurrency), limits)
    ensures var overall := Or(bulkMax, 500, 0);
            var chunk := if directChunk.Value? && 1 <= directChunk.n <= 300 then directChunk.n else 32;
            Accepts(mode, targets, limits) <==>
              && !policy.lookupOff && "vnu" !in policy.lookupOffFor
              && 1 <= targets
              && Room(policy, BulkMaxTargets, overall, targets)
              && Room(policy, BulkDirectChunkMaxTargets, chunk, targets)
              && Room(policy, BulkModeMaxTargets(mode), if mode == CodeToStdId then Min(overall, 9) else overall, targets)
    ensures ReservationUnits(mode, targets) == if mode == CodeToStdId then 33 * targets else targets
  {
    var config := ParseConfig(bulkMax, directChunk, concurrency);
    var native := NativeLimits(config);
    if LookupEnabled(policy, "vnu") && config.bulkMaxTargets > 0 {
      forall key | key in {BulkMaxTargets, BulkDirectChunkMaxTargets, BulkModeMaxTargets(mode)}
        ensures key in limits && (targets <= limits[key] <==> Room(policy, key, native[key], targets))
      {
        assert key in native && Bounded(native, native, key);
        LimitLeavesRoom(policy, native, key, limits[key], targets);
      }
    } else {
      assert BulkMaxTargets !in limits;
    }
  }

  /** The operator's number of workers, 3 unless set to 1..3. */
  lemma WorkersAre(bulkMax: Setting, directChunk: Setting, concurrency: Setting)
    ensures ParseConfig(bulkMax, directChunk, concurrency).targetConcurrency
         == if concurrency == Value(1) then 1 else if concurrency == Value(2) then 2 else 3
  {
  }

  /** The kill switch: with a zero or unreadable overall maximum nothing is accepted. */
  lemma ZeroMaximumDisables(directChunk: Setting, concurrency: Setting, policy: Policy, limits: Limits, mode: Mode, targets: nat)
    requires EffectiveFor(policy, ParseConfig(Malformed, directChunk, concurrency), limits)
          || EffectiveFor(policy, ParseConfig(Value(0), directChunk, concurrency), limits)
    ensures !Accepts(mode, targets, limits)
  {
    assert BulkMaxTargets !in limits;
  }

  /** bulkResolverCandidateWidth */
  function CandidateWidth(activeWorkers: int): (width: Result<int, ()>)
    ensures width.Ok? <==> 1 <= activeWorkers <= BRC1_PERMIT_LIMIT
    ensures width.Ok? ==> 1 <= width.value && activeWorkers * width.value <= BRC1_PERMIT_LIMIT
                          && BRC1_PERMIT_LIMIT < activeWorkers * (width.value + 1)
  {
    if activeWorkers < 1 || activeWorkers > BRC1_PERMIT_LIMIT then Err(())
    else
      assert activeWorkers == 1 || activeWorkers == 2 || activeWorkers == 3 || activeWorkers == 4 || activeWorkers == 5 || activeWorkers == 6;
      Ok(BRC1_PERMIT_LIMIT / activeWorkers)
  }
}
