/** What the probe budget keeps over every run of operations. */
module ProbeBudgetRuns {
  import opened Prelude
  import opened FixedWindows
  import opened ProbeBudget

  datatype Event = Event(command: Command, now: int)

  function Start(): Stores {
    Stores(None, map[], map[], None, map[], None)
  }

  function Replay(run: seq<Event>): Stores {
    if run == [] then Start() else Apply(Replay(Front(run)), Last(run).command, Last(run).now).stores
  }

  /** The reply to the last event of a run. */
  function FinalReply(run: seq<Event>): Reply
    requires run != []
  {
    Apply(Replay(Front(run)), Last(run).command, Last(run).now).reply
  }

  function Clock(run: seq<Event>): int {
    if run == [] then 0 else Last(run).now
  }

  predicate ValidRun(run: seq<Event>) {
    run == [] || (ValidRun(Front(run)) && Clock(Front(run)) <= Last(run).now)
  }

  lemma PerformFrame(s: Stores, command: Command, now: int)
    ensures !command.Reserve? ==> Perform(s, command, now).stores.window == s.window
    ensures !command.Consume? ==> Perform(s, command, now).stores.detailWindow == s.detailWindow && !Perform(s, command, now).reply.Released?
    ensures !command.AcquireBrc1? ==> !Perform(s, command, now).reply.Leased?
  {
    match command
    case AcquireBrc1(_) =>
    case ReleaseBrc1(_) =>
    case Issue(_, _) =>
    case Consume(_, _, _) =>
    case ReleaseLease(_) =>
    case Reserve(_) =>
    case Alarm =>
  }

  lemma RefusedFrame(s: Stores, amount: int, input: ConsumeInput, limits: Limits, id: LeaseId, now: int)
    ensures ApplyReserve(s, amount, now).reply != Done ==> ApplyReserve(s, amount, now).stores == s
    ensures !ApplyConsume(s, input, limits, id, now).reply.Released? ==> ApplyConsume(s, input, limits, id, now).stores == s
  {
  }

  /** Which parts of the stores an operation leaves alone. */
  lemma Frame(s: Stores, command: Command, now: int)
    ensures !command.Reserve? || Apply(s, command, now).reply != Done ==> Apply(s, command, now).stores.window == s.window
    ensures !Apply(s, command, now).reply.Released? ==> Apply(s, command, now).stores.detailWindow == s.detailWindow
    ensures Apply(s, command, now).reply.Released? ==> command.Consume?
    ensures Apply(s, command, now).reply.Leased? ==> command.AcquireBrc1?
  {
    PerformFrame(s, command, now);
    match command
    case Reserve(amount) => assert ApplyReserve(s, amount, now).reply != Done ==> ApplyReserve(s, amount, now).stores == s;
    case Consume(input, limits, id) => RefusedFrame(s, 0, input, limits, id, now);
    case _ =>
  }

  // ---------------------------------------------------------------------- rates

  function NextUnits(units: seq<int>, s: Stores, e: Event): seq<int> {
    if e.command.Reserve? && Apply(s, e.command, e.now).reply == Done then units + Repeat(e.now, e.command.amount) else units
  }

  /** When each probe unit was granted. */
  function UnitsGranted(run: seq<Event>): seq<int> {
    if run == [] then [] else NextUnits(UnitsGranted(Front(run)), Replay(Front(run)), Last(run))
  }

  function NextReleases(times: seq<int>, s: Stores, e: Event): seq<int> {
    if Apply(s, e.command, e.now).reply.Released? then times + [e.now] else times
  }

  /** When each cross-detail envelope was released. */
  function ReleaseTimes(run: seq<Event>): seq<int> {
    if run == [] then [] else NextReleases(ReleaseTimes(Front(run)), Replay(Front(run)), Last(run))
  }

  predicate Accounted(times: seq<int>, window: Option<Window>, clock: int, limit: nat, span: int) {
    && (forall i :: 0 <= i < |times| ==> times[i] <= clock)
    && match window
       case Some(w) => Tracks(times, w.count, w.resetAt, limit, span) && w.resetAt <= clock + span
       case None => times == []
  }

  /** Whatever one budget window grants, it stays accounted for. */
  lemma ChargeKeepsAccounts(times: seq<int>, window: Option<Window>, clock: int, amount: nat, now: int, limit: nat, seconds: nat)
    requires Accounted(times, window, clock, limit, seconds * 1000) && clock <= now && 0 < seconds
    requires ConsumeBudgetWindow(window, amount, now, limit, seconds).refusedFor.None?
    ensures Accounted(times + Repeat(now, amount), Some(ConsumeBudgetWindow(window, amount, now, limit, seconds).window), now, limit, seconds * 1000)
  {
    var span := seconds * 1000;
    var w := OpenWindow(window, now, seconds);
    if window.None? {
      NoGrantsYet(now + span, limit, span);
    } else if now >= window.value.resetAt {
      Restart(times, window.value.count, window.value.resetAt, limit, span, now);
    }
    GrantMany(times, w.count, w.resetAt, limit, span, now, amount);
  }

  lemma AccountedIsSpaced(times: seq<int>, window: Option<Window>, clock: int, limit: nat, span: int)
    requires Accounted(times, window, clock, limit, span)
    ensures Sorted(times) && Spaced(times, limit, span)
  {
  }

  lemma UnitsStep(units: seq<int>, s: Stores, e: Event, clock: int)
    requires Accounted(units, s.window, clock, PROBE_LIMIT, WINDOW_SECONDS * 1000) && clock <= e.now
    ensures Accounted(NextUnits(units, s, e), Apply(s, e.command, e.now).stores.window, e.now, PROBE_LIMIT, WINDOW_SECONDS * 1000)
  {
    Frame(s, e.command, e.now);
    if e.command.Reserve? && Apply(s, e.command, e.now).reply == Done {
      assert ApplyReserve(s, e.command.amount, e.now).reply == Done;
      ChargeKeepsAccounts(units, s.window, clock, e.command.amount, e.now, PROBE_LIMIT, WINDOW_SECONDS);
    }
  }

  lemma {:induction false} UnitsAccounted(run: seq<Event>)
    requires ValidRun(run)
    ensures Accounted(UnitsGranted(run), Replay(run).window, Clock(run), PROBE_LIMIT, WINDOW_SECONDS * 1000)
  {
    if run != [] {
      UnitsAccounted(Front(run));
      UnitsStep(UnitsGranted(Front(run)), Replay(Front(run)), Last(run), Clock(Front(run)));
    }
  }

  /** No closed interval of 600 seconds sees more than 600 probe units granted. */
  lemma {:induction false} ProbeRateHolds(run: seq<Event>, lo: int)
    requires ValidRun(run)
    ensures CountIn(UnitsGranted(run), lo, lo + 600_000) <= 600
  {
    UnitsAccounted(run);
    AccountedIsSpaced(UnitsGranted(run), Replay(run).window, Clock(run), PROBE_LIMIT, WINDOW_SECONDS * 1000);
    IntervalBound(UnitsGranted(run), lo, PROBE_LIMIT, WINDOW_SECONDS * 1000);
  }

  /** The bound is met: two full reservations a window apart. */
  lemma ProbeRateIsAttained() returns (run: seq<Event>)
    ensures ValidRun(run)
    ensures CountIn(UnitsGranted(run), 0, 600_000) == 600
  {
    var first, second := Event(Reserve(300), 0), Event(Reserve(300), 600_000);
    run := [first, second];
    assert Front(run) == [first] && Front([first]) == [];
    assert ApplyReserve(Start(), 300, 0).stores.window == Some(Window(300, 600_000));
    assert UnitsGranted([first]) == Repeat(0, 300);
    assert ApplyReserve(Replay([first]), 300, 600_000).reply == Done;
    CountAll(UnitsGranted(run), 0, 600_000);
  }

  predicate BudgetIs(e: Event, budget: nat, seconds: nat) {
    e.command.Consume? ==> e.command.limits.budget == budget && e.command.limits.windowSeconds == seconds
  }

  predicate OneBudget(run: seq<Event>, budget: nat, seconds: nat) {
    forall i :: 0 <= i < |run| ==> BudgetIs(run[i], budget, seconds)
  }

  lemma ReleaseCharges(s: Stores, input: ConsumeInput, limits: Limits, id: LeaseId, now: int)
    requires ApplyConsume(s, input, limits, id, now).reply.Released?
    ensures var charge := ConsumeBudgetWindow(s.detailWindow, 1, now, limits.budget, limits.windowSeconds);
            charge.refusedFor.None? && ApplyConsume(s, input, limits, id, now).stores.detailWindow == Some(charge.window)
  {
  }

  lemma ReleasesStep(times: seq<int>, s: Stores, e: Event, clock: int, budget: nat, seconds: nat)
    requires Accounted(times, s.detailWindow, clock, budget, seconds * 1000) && clock <= e.now && 0 < seconds
    requires e.command.Consume? ==> e.command.limits.budget == budget && e.command.limits.windowSeconds == seconds
    ensures Accounted(NextReleases(times, s, e), Apply(s, e.command, e.now).stores.detailWindow, e.now, budget, seconds * 1000)
  {
    Frame(s, e.command, e.now);
    if Apply(s, e.command, e.now).reply.Released? {
      ReleaseCharges(s, e.command.input, e.command.limits, e.command.issuedId, e.now);
      ChargeKeepsAccounts(times, s.detailWindow, clock, 1, e.now, budget, seconds);
      assert Repeat(e.now, 1) == [e.now];
    }
  }

  lemma {:induction false} ReleasesAccounted(run: seq<Event>, budget: nat, seconds: nat)
    requires ValidRun(run) && OneBudget(run, budget, seconds) && 0 < seconds
    ensures Accounted(ReleaseTimes(run), Replay(run).detailWindow, Clock(run), budget, seconds * 1000)
  {
    if run != [] {
      assert OneBudget(Front(run), budget, seconds) by {
        assert forall i :: 0 <= i < |Front(run)| ==> Front(run)[i] == run[i];
      }
      ReleasesAccounted(Front(run), budget, seconds);
      assert Last(run) == run[|run| - 1];
      ReleasesStep(ReleaseTimes(Front(run)), Replay(Front(run)), Last(run), Clock(Front(run)), budget, seconds);
    }
  }

  lemma {:induction false} ReleasesAreSpaced(run: seq<Event>, budget: nat, seconds: nat)
    requires ValidRun(run) && OneBudget(run, budget, seconds) && 0 < seconds
    ensures Sorted(ReleaseTimes(run)) && Spaced(ReleaseTimes(run), budget, seconds * 1000)
  {
    ReleasesAccounted(run, budget, seconds);
    AccountedIsSpaced(ReleaseTimes(run), Replay(run).detailWindow, Clock(run), budget, seconds * 1000);
  }

  /** Under one configuration, no closed interval of one window releases more than twice the budget. */
  lemma {:induction false} ReleaseRateHolds(run: seq<Event>, budget: nat, seconds: nat, lo: int)
    requires ValidRun(run) && OneBudget(run, budget, seconds) && 0 < seconds
    ensures CountIn(ReleaseTimes(run), lo, lo + seconds * 1000) <= 2 * budget
  {
    ReleasesAreSpaced(run, budget, seconds);
    IntervalBound(ReleaseTimes(run), lo, budget, seconds * 1000);
  }

  // --------------------------------------------------- the books, without pruning

  /** A bookkeeper who never forgets anything: every permit issued with its last fate, and
      every lease granted and not given back, expired or not. */
  datatype Ledger = Ledger(permits: map<string, StoredPermit>, leases: map<string, int>, brc1: map<string, int>)

  function Record(l: Ledger, e: Event, reply: Reply): Ledger {
    match e.command
    case Issue(permits, _) => if reply == Done then l.(permits := Issued(l.permits, permits)) else l
    case Consume(input, _, _) =>
      if reply.Released? && input.permitHash in l.permits then
        l.(permits := l.permits[input.permitHash := l.permits[input.permitHash].(consumedAt := Some(e.now))],
           leases := l.leases[reply.leaseId := reply.expiresAt])
      else l
    case ReleaseLease(id) => l.(leases := l.leases - {id})
    case AcquireBrc1(_) => if reply.Leased? then l.(brc1 := l.brc1[reply.leaseId := reply.expiresAt]) else l
    case ReleaseBrc1(id) => l.(brc1 := l.brc1 - {id})
    case _ => l
  }

  function Books(run: seq<Event>): Ledger {
    if run == [] then Ledger(map[], map[], map[]) else Record(Books(Front(run)), Last(run), FinalReply(run))
  }

  predicate HexKeys(leases: map<string, int>) {
    forall id :: id in leases ==> IsHex(id, 32)
  }

  predicate Agrees(s: Stores, l: Ledger, clock: int) {
    && UnexpiredPermits(s.permits, clock) == UnexpiredPermits(l.permits, clock)
    && Unexpired(s.leases, clock) == Unexpired(l.leases, clock)
    && Unexpired(s.brc1, clock) == Unexpired(l.brc1, clock)
    && HexKeys(l.leases) && HexKeys(l.brc1)
  }

  lemma LaterUnexpired(a: map<string, int>, b: map<string, int>, clock: int, now: int)
    requires Unexpired(a, clock) == Unexpired(b, clock) && clock <= now
    ensures Unexpired(a, now) == Unexpired(b, now)
  {
    forall id | id in Unexpired(a, now)
      ensures id in b && b[id] == a[id]
    {
      assert id in Unexpired(a, clock);
    }
    forall id | id in Unexpired(b, now)
      ensures id in a && b[id] == a[id]
    {
      assert id in Unexpired(b, clock);
    }
  }

  lemma LaterUnexpiredPermits(a: map<string, StoredPermit>, b: map<string, StoredPermit>, clock: int, now: int)
    requires UnexpiredPermits(a, clock) == UnexpiredPermits(b, clock) && clock <= now
    ensures UnexpiredPermits(a, now) == UnexpiredPermits(b, now)
  {
    forall h | h in UnexpiredPermits(a, now)
      ensures h in b && b[h] == a[h]
    {
      assert h in UnexpiredPermits(a, clock);
    }
    forall h | h in UnexpiredPermits(b, now)
      ensures h in a && b[h] == a[h]
    {
      assert h in UnexpiredPermits(b, clock);
    }
  }

  lemma AddLease(a: map<string, int>, b: map<string, int>, now: int, id: string, expiresAt: int)
    requires Unexpired(a, now) == Unexpired(b, now)
    ensures Unexpired(Unexpired(a, now)[id := expiresAt], now) == Unexpired(b[id := expiresAt], now)
  {
    forall other
      ensures other in Unexpired(a, now) <==> other in b && b[other] > now
    {
      assert other in Unexpired(a, now) <==> other in Unexpired(b, now);
    }
    assert forall other :: other in Unexpired(a, now) ==> Unexpired(a, now)[other] == Unexpired(b, now)[other];
  }

  lemma DropLease(a: map<string, int>, b: map<string, int>, now: int, id: string)
    requires Unexpired(a, now) == Unexpired(b, now)
    ensures Unexpired(Unexpired(a, now) - {id}, now) == Unexpired(b - {id}, now)
    ensures id !in Unexpired(a, now) ==> Unexpired(a, now) == Unexpired(b - {id}, now)
  {
    forall other
      ensures other in Unexpired(a, now) <==> other in b && b[other] > now
    {
      assert other in Unexpired(a, now) <==> other in Unexpired(b, now);
    }
    assert forall other :: other in Unexpired(a, now) ==> Unexpired(a, now)[other] == Unexpired(b, now)[other];
  }

  lemma MarkConsumed(a: map<string, StoredPermit>, b: map<string, StoredPermit>, now: int, h: string)
    requires UnexpiredPermits(a, now) == UnexpiredPermits(b, now) && h in UnexpiredPermits(a, now)
    ensures h in b && b[h] == a[h]
    ensures UnexpiredPermits(UnexpiredPermits(a, now)[h := a[h].(consumedAt := Some(now))], now)
         == UnexpiredPermits(b[h := b[h].(consumedAt := Some(now))], now)
  {
    forall other
      ensures other in UnexpiredPermits(a, now) <==> other in b && b[other].record.expiresAt > now
    {
      assert other in UnexpiredPermits(a, now) <==> other in UnexpiredPermits(b, now);
    }
    assert forall other :: other in UnexpiredPermits(a, now) ==> UnexpiredPermits(a, now)[other] == UnexpiredPermits(b, now)[other];
  }

  lemma {:induction false} IssueBoth(a: map<string, StoredPermit>, b: map<string, StoredPermit>, now: int, permits: seq<IssuedPermit>)
    requires UnexpiredPermits(a, now) == UnexpiredPermits(b, now)
    ensures UnexpiredPermits(Issued(UnexpiredPermits(a, now), permits), now) == UnexpiredPermits(Issued(b, permits), now)
  {
    if permits == [] {
      assert UnexpiredPermits(UnexpiredPermits(a, now), now) == UnexpiredPermits(a, now);
    } else {
      IssueBoth(a, b, now, Front(permits));
      IssueOne(Issued(UnexpiredPermits(a, now), Front(permits)), Issued(b, Front(permits)), now, Last(permits));
    }
  }

  lemma IssueOne(a: map<string, StoredPermit>, b: map<string, StoredPermit>, now: int, permit: IssuedPermit)
    requires UnexpiredPermits(a, now) == UnexpiredPermits(b, now)
    ensures var entry := StoredPermit(permit.record, None);
            UnexpiredPermits(a[permit.permitHash := entry], now) == UnexpiredPermits(b[permit.permitHash := entry], now)
  {
    var entry := StoredPermit(permit.record, None);
    var c, d := a[permit.permitHash := entry], b[permit.permitHash := entry];
    forall h
      ensures h in UnexpiredPermits(c, now) <==> h in UnexpiredPermits(d, now)
      ensures h in UnexpiredPermits(c, now) ==> c[h] == d[h]
    {
      assert h in UnexpiredPermits(a, now) <==> h in UnexpiredPermits(b, now);
      assert h in UnexpiredPermits(a, now) ==> UnexpiredPermits(a, now)[h] == UnexpiredPermits(b, now)[h];
    }
  }

  lemma PruneAgain(s: Stores, now: int)
    ensures Unexpired(Unexpired(s.leases, now), now) == Unexpired(s.leases, now)
    ensures Unexpired(Unexpired(s.brc1, now), now) == Unexpired(s.brc1, now)
    ensures UnexpiredPermits(UnexpiredPermits(s.permits, now), now) == UnexpiredPermits(s.permits, now)
  {
  }

  lemma ConsumeKeepsAgreement(s: Stores, l: Ledger, e: Event)
    requires Agrees(s, l, e.now) && e.command.Consume?
    ensures Agrees(Perform(s, e.command, e.now).stores, Record(l, e, Perform(s, e.command, e.now).reply), e.now)
  {
    if Perform(s, e.command, e.now).reply.Released? {
      MarkConsumed(s.permits, l.permits, e.now, e.command.input.permitHash);
      AddLease(s.leases, l.leases, e.now, e.command.issuedId, e.now + LEASE_MS);
    }
  }

  lemma ReleaseKeepsAgreement(s: Stores, l: Ledger, id: string, now: int)
    requires Agrees(s, l, now)
    ensures Agrees(ApplyReleaseBrc1(s, id, now).stores, l.(brc1 := l.brc1 - {id}), now)
    ensures Agrees(ApplyReleaseLease(s, id, now).stores, l.(leases := l.leases - {id}), now)
  {
    DropLease(s.brc1, l.brc1, now, id);
    DropLease(s.leases, l.leases, now, id);
    assert !IsHex(id, 32) ==> l.brc1 - {id} == l.brc1 && l.leases - {id} == l.leases;
  }

  lemma RecordKeepsAgreement(s: Stores, l: Ledger, e: Event)
    requires Agrees(s, l, e.now)
    ensures Agrees(Perform(s, e.command, e.now).stores, Record(l, e, Perform(s, e.command, e.now).reply), e.now)
  {
    match e.command
    case AcquireBrc1(id) => AddLease(s.brc1, l.brc1, e.now, id, e.now + LEASE_MS);
    case ReleaseBrc1(id) => ReleaseKeepsAgreement(s, l, id, e.now);
    case Issue(permits, _) => IssueBoth(s.permits, l.permits, e.now, permits);
    case Consume(_, _, _) => ConsumeKeepsAgreement(s, l, e);
    case ReleaseLease(id) => ReleaseKeepsAgreement(s, l, id, e.now);
    case Reserve(_) =>
    case Alarm => PruneAgain(s, e.now);
  }

  lemma TimePasses(s: Stores, l: Ledger, clock: int, now: int)
    requires Agrees(s, l, clock) && clock <= now
    ensures Agrees(s, l, now)
  {
    LaterUnexpired(s.leases, l.leases, clock, now);
    LaterUnexpired(s.brc1, l.brc1, clock, now);
    LaterUnexpiredPermits(s.permits, l.permits, clock, now);
  }

  /** Pruning is never noticed: what the stores still hold unexpired is what a store that
      forgets nothing would hold. */
  lemma {:induction false} PruningIsInvisible(run: seq<Event>, now: int)
    requires ValidRun(run) && Clock(run) <= now
    ensures Agrees(Replay(run), Books(run), now)
  {
    if run != [] {
      PruningIsInvisible(Front(run), Last(run).now);
      RecordKeepsAgreement(Replay(Front(run)), Books(Front(run)), Last(run));
    }
    TimePasses(Replay(run), Books(run), Clock(run), now);
  }

  // ------------------------------------------------------------ single use of permits

  predicate Usable(entry: StoredPermit, bindings: Bindings, now: int) {
    entry.consumedAt.None? && now < entry.record.expiresAt && entry.record.bindings == bindings
  }

  /** Exactly when a presented permit is honoured, told from the books alone. */
  lemma {:induction false} HonouredIff(run: seq<Event>, input: ConsumeInput, limits: Limits, id: LeaseId, now: int)
    requires ValidRun(run) && Clock(run) <= now
    ensures Apply(Replay(run), Consume(input, limits, id), now).reply.Released? <==>
              && LimitsOk(limits) && InputOk(input)
              && input.permitHash in Books(run).permits
              && Usable(Books(run).permits[input.permitHash], input.bindings, now)
              && OpenWindow(Replay(run).detailWindow, now, limits.windowSeconds).count < limits.budget
              && |Unexpired(Books(run).leases, now)| < limits.concurrency
  {
    PruningIsInvisible(run, now);
    assert input.permitHash in UnexpiredPermits(Replay(run).permits, now) <==> input.permitHash in UnexpiredPermits(Books(run).permits, now);
    assert input.permitHash in UnexpiredPermits(Books(run).permits, now) ==>
        UnexpiredPermits(Replay(run).permits, now)[input.permitHash] == UnexpiredPermits(Books(run).permits, now)[input.permitHash];
  }

  predicate Issues(e: Event, reply: Reply, h: string) {
    e.command.Issue? && reply == Done && h in HashesOf(e.command.permits)
  }

  predicate Honours(e: Event, reply: Reply, h: string) {
    e.command.Consume? && reply.Released? && e.command.input.permitHash == h
  }

  /** How many issue calls named the permit. */
  function TimesIssued(run: seq<Event>, h: string): nat {
    if run == [] then 0 else TimesIssued(Front(run), h) + if Issues(Last(run), FinalReply(run), h) then 1 else 0
  }

  function TimesHonoured(run: seq<Event>, h: string): nat {
    if run == [] then 0 else TimesHonoured(Front(run), h) + if Honours(Last(run), FinalReply(run), h) then 1 else 0
  }

  function Outstanding(l: Ledger, h: string): nat {
    if h in l.permits && l.permits[h].consumedAt.None? then 1 else 0
  }

  lemma HonouringSpends(l: Ledger, e: Event, reply: Reply, h: string)
    requires Honours(e, reply, h) ==> Outstanding(l, h) == 1
    ensures Outstanding(Record(l, e, reply), h) + (if Honours(e, reply, h) then 1 else 0)
         <= Outstanding(l, h) + (if Issues(e, reply, h) then 1 else 0)
  {
    match e.command
    case Issue(permits, _) => IssuedMeaning(l.permits, permits);
    case _ =>
  }

  /** A permit is honoured at most once for each time it was issued. */
  lemma {:induction false} PermitsAreSingleUse(run: seq<Event>, h: string)
    requires ValidRun(run)
    ensures TimesHonoured(run, h) + Outstanding(Books(run), h) <= TimesIssued(run, h)
  {
    if run != [] {
      var front, e := Front(run), Last(run);
      PermitsAreSingleUse(front, h);
      if Honours(e, FinalReply(run), h) {
        HonouredIff(front, e.command.input, e.command.limits, e.command.issuedId, e.now);
      }
      HonouringSpends(Books(front), e, FinalReply(run), h);
    }
  }

  /** The books hold only records that some call issued. */
  ghost predicate WasIssued(run: seq<Event>, h: string, record: PermitRecord) {
    exists i :: 0 <= i < |run| && run[i].command.Issue? && IssuedPermit(h, record) in run[i].command.permits
  }

  lemma {:induction false} BooksAreIssued(run: seq<Event>, h: string)
    requires ValidRun(run) && h in Books(run).permits
    ensures WasIssued(run, h, Books(run).permits[h].record)
  {
    var front, e := Front(run), Last(run);
    if Issues(e, FinalReply(run), h) {
      IssuedMeaning(Books(front).permits, e.command.permits);
      assert run[|run| - 1] == e;
    } else {
      if e.command.Issue? {
        IssuedMeaning(Books(front).permits, e.command.permits);
      }
      BooksAreIssued(front, h);
      var i :| 0 <= i < |front| && front[i].command.Issue? && IssuedPermit(h, Books(front).permits[h].record) in front[i].command.permits;
      assert run[i] == front[i];
    }
  }

  /** An honoured permit was issued with exactly the presented bindings, has not expired,
      and hands out the envelope it was issued with. */
  lemma {:induction false} HonouredAsIssued(run: seq<Event>)
    requires run != [] && ValidRun(run) && FinalReply(run).Released?
    ensures Last(run).command.Consume?
    ensures exists record ::
              && WasIssued(Front(run), Last(run).command.input.permitHash, record)
              && record.bindings == Last(run).command.input.bindings
              && Last(run).now < record.expiresAt
              && FinalReply(run).envelope == record.envelope
  {
    var e, front := Last(run), Front(run);
    assert e.command.Consume?;
    var h := e.command.input.permitHash;
    HonouredIff(front, e.command.input, e.command.limits, e.command.issuedId, e.now);
    BooksAreIssued(front, h);
    PruningIsInvisible(front, e.now);
    MarkConsumed(Replay(front).permits, Books(front).permits, e.now, h);
  }

  /** The event names the permit, to issue it again or to use it. */
  predicate Concerns(e: Event, h: string) {
    || (e.command.Issue? && h in HashesOf(e.command.permits))
    || (e.command.Consume? && e.command.input.permitHash == h)
  }

  lemma RecordLeavesOthers(l: Ledger, e: Event, reply: Reply, h: string)
    requires !Concerns(e, h) && h in l.permits
    ensures h in Record(l, e, reply).permits && Record(l, e, reply).permits[h] == l.permits[h]
  {
    if e.command.Issue? {
      IssuedMeaning(l.permits, e.command.permits);
    }
  }

  lemma {:induction false} BooksKeep(run: seq<Event>, n: nat, h: string)
    requires n <= |run| && h in Books(run[..n]).permits
    requires forall k :: n <= k < |run| ==> !Concerns(run[k], h)
    ensures h in Books(run).permits && Books(run).permits[h] == Books(run[..n]).permits[h]
    decreases |run|
  {
    if n == |run| {
      assert run[..n] == run;
    } else {
      var front := Front(run);
      assert front[..n] == run[..n];
      assert forall k :: n <= k < |front| ==> front[k] == run[k];
      BooksKeep(front, n, h);
      assert !Concerns(run[|run| - 1], h);
      RecordLeavesOthers(Books(front), Last(run), FinalReply(run), h);
    }
  }

  lemma LastWordOnAPermit(kept: map<string, StoredPermit>, batch: seq<IssuedPermit>, i: nat)
    requires i < |batch|
    requires forall j :: 0 <= j < |batch| && batch[j].permitHash == batch[i].permitHash ==> j == i
    ensures batch[i].permitHash in Issued(kept, batch)
    ensures Issued(kept, batch)[batch[i].permitHash] == StoredPermit(batch[i].record, None)
  {
    IssuedMeaning(kept, batch);
    var h := batch[i].permitHash;
    assert h in HashesOf(batch);
    assert IssuedPermit(h, Issued(kept, batch)[h].record) in batch;
  }

  lemma BooksRecordIssue(run: seq<Event>, i: nat)
    requires run != [] && Last(run).command.Issue? && FinalReply(run) == Done && i < |Last(run).command.permits|
    requires var batch := Last(run).command.permits; forall j :: 0 <= j < |batch| && batch[j].permitHash == batch[i].permitHash ==> j == i
    ensures var permit := Last(run).command.permits[i];
            permit.permitHash in Books(run).permits && Books(run).permits[permit.permitHash] == StoredPermit(permit.record, None)
  {
    LastWordOnAPermit(Books(Front(run)).permits, Last(run).command.permits, i);
  }

  /** From issue to release, whatever happens to other permits in between: a permit that no
      later step names is honoured while it lasts and there is room, and hands back the
      envelope it was issued with. */
  lemma IssuedPermitIsHonoured(run: seq<Event>, at: nat, i: nat, limits: Limits, id: LeaseId, now: int)
    requires ValidRun(run) && Clock(run) <= now && at < |run|
    requires run[at].command.Issue? && FinalReply(run[..at + 1]) == Done && i < |run[at].command.permits|
    requires var batch := run[at].command.permits; forall j :: 0 <= j < |batch| && batch[j].permitHash == batch[i].permitHash ==> j == i
    requires forall k :: at < k < |run| ==> !Concerns(run[k], run[at].command.permits[i].permitHash)
    requires LimitsOk(limits) && now < run[at].command.permits[i].record.expiresAt
    requires OpenWindow(Replay(run).detailWindow, now, limits.windowSeconds).count < limits.budget
    requires |Unexpired(Books(run).leases, now)| < limits.concurrency
    ensures var permit := run[at].command.permits[i];
            ApplyConsume(Replay(run), ConsumeInput(permit.permitHash, permit.record.bindings), limits, id, now).reply
            == Released(id, now + LEASE_MS, permit.record.envelope)
  {
    var upTo, permit := run[..at + 1], run[at].command.permits[i];
    assert Last(upTo) == run[at];
    BooksRecordIssue(upTo, i);
    BooksKeep(run, at + 1, permit.permitHash);
    IssuedIsWellFormed(upTo, i);
    ReleasedFromBooks(run, permit, limits, id, now);
  }

  lemma IssuedIsWellFormed(run: seq<Event>, i: nat)
    requires run != [] && Last(run).command.Issue? && FinalReply(run) == Done && i < |Last(run).command.permits|
    ensures var permit := Last(run).command.permits[i]; InputOk(ConsumeInput(permit.permitHash, permit.record.bindings))
  {
  }

  lemma ReleasedFromBooks(run: seq<Event>, permit: IssuedPermit, limits: Limits, id: LeaseId, now: int)
    requires ValidRun(run) && Clock(run) <= now
    requires InputOk(ConsumeInput(permit.permitHash, permit.record.bindings)) && LimitsOk(limits)
    requires permit.permitHash in Books(run).permits && Books(run).permits[permit.permitHash] == StoredPermit(permit.record, None)
    requires now < permit.record.expiresAt
    requires OpenWindow(Replay(run).detailWindow, now, limits.windowSeconds).count < limits.budget
    requires |Unexpired(Books(run).leases, now)| < limits.concurrency
    ensures ApplyConsume(Replay(run), ConsumeInput(permit.permitHash, permit.record.bindings), limits, id, now).reply
         == Released(id, now + LEASE_MS, permit.record.envelope)
  {
    HonouredIff(run, ConsumeInput(permit.permitHash, permit.record.bindings), limits, id, now);
    PruningIsInvisible(run, now);
    MarkConsumed(Replay(run).permits, Books(run).permits, now, permit.permitHash);
  }

  // --------------------------------------------------------------------- capacity

  lemma UnexpiredIsSmaller(leases: map<string, int>, now: int)
    ensures |Unexpired(leases, now)| <= |leases|
  {
    assert Unexpired(leases, now).Keys <= leases.Keys;
    ProperSubsetIsSmaller(Unexpired(leases, now).Keys, leases.Keys);
  }

  lemma BrcCapacity(s: Stores, issuedId: LeaseId, now: int)
    requires |s.brc1| <= BRC1_LIMIT
    ensures |ApplyAcquireBrc1(s, issuedId, now).stores.brc1| <= BRC1_LIMIT
  {
    AdditionGrowsByOne(Unexpired(s.brc1, now), issuedId, now + LEASE_MS);
  }

  lemma LeaseCapacity(s: Stores, input: ConsumeInput, limits: Limits, issuedId: LeaseId, now: int, c: nat)
    requires |s.leases| <= c && limits.concurrency <= c
    ensures |ApplyConsume(s, input, limits, issuedId, now).stores.leases| <= c
  {
    UnexpiredIsSmaller(s.leases, now);
    AdditionGrowsByOne(Unexpired(s.leases, now), issuedId, now + LEASE_MS);
  }

  lemma BrcRemoval(s: Stores, id: string, now: int)
    ensures |ApplyReleaseBrc1(s, id, now).stores.brc1| <= |s.brc1|
  {
    UnexpiredIsSmaller(s.brc1, now);
    RemovalShrinks(Unexpired(s.brc1, now), id);
  }

  lemma BrcCapacityStep(s: Stores, command: Command, now: int)
    requires |s.brc1| <= BRC1_LIMIT
    ensures |Perform(s, command, now).stores.brc1| <= BRC1_LIMIT
  {
    match command
    case AcquireBrc1(id) => BrcCapacity(s, id, now);
    case ReleaseBrc1(id) => BrcRemoval(s, id, now);
    case Alarm => UnexpiredIsSmaller(s.brc1, now);
    case Issue(_, _) =>
    case Reserve(_) =>
    case Consume(_, _, _) =>
    case ReleaseLease(_) =>
  }

  lemma LeaseRemoval(s: Stores, id: string, now: int)
    ensures |ApplyReleaseLease(s, id, now).stores.leases| <= |s.leases|
  {
    UnexpiredIsSmaller(s.leases, now);
    RemovalShrinks(Unexpired(s.leases, now), id);
  }

  lemma LeaseCapacityStep(s: Stores, command: Command, now: int, c: nat)
    requires |s.leases| <= c
    requires command.Consume? ==> command.limits.concurrency <= c
    ensures |Perform(s, command, now).stores.leases| <= c
  {
    match command
    case Consume(input, limits, id) => LeaseCapacity(s, input, limits, id, now, c);
    case ReleaseLease(id) => LeaseRemoval(s, id, now);
    case Alarm => UnexpiredIsSmaller(s.leases, now);
    case Issue(_, _) =>
    case Reserve(_) =>
    case AcquireBrc1(_) =>
    case ReleaseBrc1(_) =>
  }

  lemma RemovalShrinks(leases: map<string, int>, id: string)
    ensures |leases - {id}| <= |leases|
  {
    ProperSubsetIsSmaller((leases - {id}).Keys, leases.Keys);
  }

  lemma AdditionGrowsByOne(leases: map<string, int>, id: string, expiresAt: int)
    ensures |leases[id := expiresAt]| <= |leases| + 1
  {
    assert leases[id := expiresAt].Keys == leases.Keys + {id};
  }

  /** At any instant at most six Brc1 leases and at most `c` detail leases are granted, not
      given back and unexpired, whatever the limits passed call by call up to `c`. */
  lemma {:induction false} CapacityHolds(run: seq<Event>, now: int, c: nat)
    requires ValidRun(run) && Clock(run) <= now
    requires forall i :: 0 <= i < |run| && run[i].command.Consume? ==> run[i].command.limits.concurrency <= c
    ensures |Unexpired(Books(run).brc1, now)| <= BRC1_LIMIT
    ensures |Unexpired(Books(run).leases, now)| <= c
    ensures |Replay(run).brc1| <= BRC1_LIMIT && |Replay(run).leases| <= c
  {
    if run != [] {
      var front := Front(run);
      assert forall i :: 0 <= i < |front| ==> run[i] == front[i];
      CapacityHolds(front, Last(run).now, c);
      assert Last(run) == run[|run| - 1];
      BrcCapacityStep(Replay(front), Last(run).command, Last(run).now);
      LeaseCapacityStep(Replay(front), Last(run).command, Last(run).now, c);
    }
    PruningIsInvisible(run, now);
    UnexpiredIsSmaller(Replay(run).brc1, now);
    UnexpiredIsSmaller(Replay(run).leases, now);
  }

  // -------------------------------------------------------------------- the alarm

  /** Nothing unexpired lacks an alarm at or before its expiry; the alarm is for something
      stored, and is the least unexpired expiry until it is due. */
  predicate AlarmOk(s: Stores, clock: int) {
    && (s.alarm.None? ==> Expiries(s, clock) == {})
    && (s.alarm.Some? ==>
          && s.alarm.value in Expiries(s, s.alarm.value - 1)
          && (forall at :: at in Expiries(s, clock) ==> s.alarm.value <= at))
  }

  lemma LaterExpiries(s: Stores, clock: int, now: int)
    requires clock <= now
    ensures Expiries(s, now) <= Expiries(s, clock)
    ensures forall at :: at in Expiries(s, clock) && now < at ==> at in Expiries(s, now)
  {
  }

  lemma ReschedulingIsOk(s: Stores, now: int)
    ensures AlarmOk(Rescheduled(s, now), now)
  {
    var t := Rescheduled(s, now);
    assert Expiries(t, now) == Expiries(s, now);
    if t.alarm.Some? {
      assert t.alarm.value in Expiries(t, now);
      assert now < t.alarm.value;
      assert t.alarm.value in Expiries(t, t.alarm.value - 1);
    }
  }

  lemma StepKeepsAlarmOk(s: Stores, e: Event, clock: int)
    requires AlarmOk(s, clock) && clock <= e.now
    ensures AlarmOk(Apply(s, e.command, e.now).stores, e.now)
  {
    var done := Perform(s, e.command, e.now);
    if done.timed {
      ReschedulingIsOk(done.stores, e.now);
    } else {
      UntimedStoresStay(s, e.command, e.now);
      LaterExpiries(s, clock, e.now);
    }
  }

  lemma UntimedStoresStay(s: Stores, command: Command, now: int)
    requires !Perform(s, command, now).timed
    ensures Perform(s, command, now).stores == s.(window := Perform(s, command, now).stores.window)
  {
  }

  lemma {:induction false} AlarmStaysOk(run: seq<Event>)
    requires ValidRun(run)
    ensures AlarmOk(Replay(run), Clock(run))
  {
    if run != [] {
      AlarmStaysOk(Front(run));
      StepKeepsAlarmOk(Replay(Front(run)), Last(run), Clock(Front(run)));
    }
  }

  /** Between steps, and until it is due, the stored alarm is the least unexpired expiry
      over the three stores; without an alarm nothing is left to expire. */
  lemma {:induction false} AlarmIsTheLeastExpiry(run: seq<Event>, now: int)
    requires ValidRun(run) && Clock(run) <= now
    requires Replay(run).alarm.Some? ==> now < Replay(run).alarm.value
    ensures Replay(run).alarm == Earliest(Expiries(Replay(run), now))
  {
    AlarmStaysOk(run);
    LeastUntilDue(Replay(run), Clock(run), now);
  }

  lemma LeastUntilDue(s: Stores, clock: int, now: int)
    requires AlarmOk(s, clock) && clock <= now && (s.alarm.Some? ==> now < s.alarm.value)
    ensures s.alarm == Earliest(Expiries(s, now))
  {
    LaterExpiries(s, clock, now);
    if s.alarm.Some? {
      LaterExpiries(s, now, s.alarm.value - 1);
      assert IsLeast(s.alarm.value, Expiries(s, now));
    }
  }

  function Items(s: Stores): nat {
    |s.brc1| + |s.permits| + |s.leases|
  }

  /** A due alarm removes something, so alarms alone empty the stores. */
  lemma {:induction false} DueAlarmShrinks(run: seq<Event>, now: int)
    requires ValidRun(run) && Clock(run) <= now
    requires Replay(run).alarm.Some? && Replay(run).alarm.value <= now
    ensures Items(Apply(Replay(run), Alarm, now).stores) < Items(Replay(run))
  {
    AlarmStaysOk(run);
    PruningDueShrinks(Replay(run), now);
  }

  lemma PruningDueShrinks(s: Stores, now: int)
    requires s.alarm.Some? && s.alarm.value <= now && s.alarm.value in Expiries(s, s.alarm.value - 1)
    ensures Items(Pruned(s, now)) < Items(s)
  {
    var at := s.alarm.value;
    var brc1, permits, leases := Unexpired(s.brc1, now).Keys, UnexpiredPermits(s.permits, now).Keys, Unexpired(s.leases, now).Keys;
    ProperSubsetIsSmaller(brc1, s.brc1.Keys);
    ProperSubsetIsSmaller(permits, s.permits.Keys);
    ProperSubsetIsSmaller(leases, s.leases.Keys);
    assert brc1 != s.brc1.Keys || permits != s.permits.Keys || leases != s.leases.Keys by {
      if id :| id in s.brc1 && s.brc1[id] == at {
        assert id !in brc1;
      } else if h :| h in s.permits && s.permits[h].record.expiresAt == at {
        assert h !in permits;
      } else {
        var id :| id in s.leases && s.leases[id] == at;
        assert id !in leases;
      }
    }
  }
}
