/** The concurrent phase of the student-id search as a step relation
    (apps/worker/src/vnu/vnu-student-id-resolver.ts:254-326): every schedule in which its
    probes may settle, and exactly the outcomes they lead to. The caller does not abort. */
module ResolverSchedules {
  import opened Prelude
  import opened StudentIdResolver
  import opened ResolverRun

  datatype Search = Search(candidates: seq<int>, target: string, oracle: Oracle, width: nat)
  {
    predicate Exact(i: nat)
      requires i < |candidates|
    {
      Matches(oracle, candidates[i], target)
    }

    predicate Fails(i: nat)
      requires i < |candidates|
    {
      oracle(candidates[i]).Failure?
    }

    function Error(i: nat): int
      requires i < |candidates| && Fails(i)
    {
      oracle(candidates[i]).error
    }

    predicate WellFormed() {
      candidates == [] || 0 < width
    }

    /** The one-at-a-time search. */
    function Sequential(): Outcome {
      SearchFrom(candidates, target, oracle, 0)
    }

    function Blocking(g: nat): set<nat>
      requires g <= |candidates|
    {
      Blockers(candidates, target, oracle, g)
    }

    predicate Reachable(g: nat) {
      InReach(candidates, target, oracle, width, g)
    }
  }

  /** Between two settlements: which probes run, which have settled, what starts next. */
  datatype Pool = Running(active: set<nat>, settled: set<nat>, next: nat) | Done(outcome: Outcome)

  predicate Bounded(q: Search, s: set<nat>) {
    forall i :: i in s ==> i < |q.candidates|
  }

  /** Nothing starts past a known match. */
  predicate MayStart(q: Search, active: set<nat>, settled: set<nat>, next: nat)
    requires Bounded(q, settled)
  {
    && |active| < q.width && next < |q.candidates|
    && forall i :: i in settled && q.Exact(i) ==> next < i
  }

  function Filled(q: Search, active: set<nat>, settled: set<nat>, next: nat): (p: Pool)
    requires Bounded(q, settled)
    ensures p.Running? && p.settled == settled && active <= p.active && next <= p.next
    decreases |q.candidates| - next
  {
    if MayStart(q, active, settled, next) then Filled(q, active + {next}, settled, next + 1)
    else Running(active, settled, next)
  }

  /** The first match of the settled prefix from position `i` on. */
  function PrefixWinner(q: Search, settled: set<nat>, i: nat): Option<nat>
    requires Bounded(q, settled)
    decreases |q.candidates| - i
  {
    if i !in settled then None else if q.Exact(i) then Some(i) else PrefixWinner(q, settled, i + 1)
  }

  /** The probe that settles first, and the sibling, if any, whose own failure is noticed
      while the others are being cancelled. */
  datatype Turn = Turn(i: nat, noisy: Option<nat>)

  function NothingRuns(p: Pool): Pool {
    if p.Running? && p.active == {} then Done(NotConverged) else p
  }

  function Start(q: Search): Pool {
    NothingRuns(Filled(q, {}, {}, 0))
  }

  predicate Enabled(q: Search, p: Pool, t: Turn) {
    && p.Running? && t.i in p.active && Bounded(q, p.active) && Bounded(q, p.settled)
    && (t.noisy.Some? ==> t.noisy.value in p.active && t.noisy.value != t.i && q.Fails(t.noisy.value))
  }

  function After(q: Search, p: Pool, t: Turn): Pool
    requires Enabled(q, p, t)
  {
    if q.Fails(t.i) then Done(Failed(q.Error(t.i)))
    else
      var settled := p.settled + {t.i};
      var winner := PrefixWinner(q, settled, 0);
      if winner.Some? then
        Done(if t.noisy.Some? then Failed(q.Error(t.noisy.value)) else Found(q.candidates[WinnerIn(q, settled, 0)]))
      else NothingRuns(Filled(q, p.active - {t.i}, settled, p.next))
  }

  /** The winner, as a position. */
  function WinnerIn(q: Search, settled: set<nat>, i: nat): (k: nat)
    requires Bounded(q, settled) && PrefixWinner(q, settled, i).Some?
    ensures PrefixWinner(q, settled, i) == Some(k) && i <= k < |q.candidates|
    ensures k in settled && q.Exact(k) && forall m :: i <= m < k ==> m in settled && !q.Exact(m)
    decreases |q.candidates| - i
  {
    if q.Exact(i) then i else WinnerIn(q, settled, i + 1)
  }

  ghost predicate StepsTo(q: Search, before: Pool, t: Turn, p: Pool) {
    Enabled(q, before, t) && After(q, before, t) == p
  }

  ghost predicate Reaches(q: Search, turns: seq<Turn>, p: Pool) {
    if turns == [] then p == Start(q)
    else exists before :: Reaches(q, Front(turns), before) && StepsTo(q, before, Last(turns), p)
  }

  // ------------------------------------------------------------------- invariant

  ghost predicate PoolOk(q: Search, active: set<nat>, settled: set<nat>, next: nat) {
    && next <= |q.candidates| && active !! settled && |active| <= q.width
    && (forall i: nat :: i in active || i in settled <==> i < next)
  }

  ghost predicate RunningOk(q: Search, active: set<nat>, settled: set<nat>, next: nat) {
    && PoolOk(q, active, settled, next) && Bounded(q, settled)
    && (forall i :: i in settled ==> !q.Fails(i))
    && (forall i: nat :: i < next ==> |q.Blocking(i)| < q.width)
  }

  /** Every outcome is the sequential one, or a failure within the pool's reach. */
  ghost predicate OutcomeOk(q: Search, o: Outcome) {
    o == q.Sequential() || exists g: nat :: q.Reachable(g) && o == Failed(q.Error(g))
  }

  ghost predicate Invariant(q: Search, p: Pool) {
    match p
    case Done(o) => OutcomeOk(q, o)
    case Running(active, settled, next) =>
      && RunningOk(q, active, settled, next)
      && active != {} && !MayStart(q, active, settled, next)
      && PrefixWinner(q, settled, 0).None?
  }

  lemma BlockersRun(q: Search, active: set<nat>, settled: set<nat>, next: nat)
    requires RunningOk(q, active, settled, next) && MayStart(q, active, settled, next)
    ensures |q.Blocking(next)| < q.width
  {
    forall i | i in settled
      ensures i !in q.Blocking(next)
    {
    }
    ProperSubsetIsSmaller(q.Blocking(next), active);
  }

  lemma StartingIsOk(q: Search, active: set<nat>, settled: set<nat>, next: nat)
    requires RunningOk(q, active, settled, next) && MayStart(q, active, settled, next)
    ensures RunningOk(q, active + {next}, settled, next + 1)
  {
    BlockersRun(q, active, settled, next);
    assert next !in active && next !in settled;
    assert |active + {next}| == |active| + 1;
  }

  lemma {:induction false} FillingIsOk(q: Search, active: set<nat>, settled: set<nat>, next: nat)
    requires RunningOk(q, active, settled, next)
    ensures var p := Filled(q, active, settled, next);
            RunningOk(q, p.active, settled, p.next) && !MayStart(q, p.active, settled, p.next)
    decreases |q.candidates| - next
  {
    if MayStart(q, active, settled, next) {
      StartingIsOk(q, active, settled, next);
      FillingIsOk(q, active + {next}, settled, next + 1);
    }
  }

  lemma {:induction false} NoWinnerMeaning(q: Search, settled: set<nat>, i: nat, k: nat)
    requires Bounded(q, settled) && PrefixWinner(q, settled, i).None?
    requires i <= k && forall m :: i <= m <= k ==> m in settled
    ensures k < |q.candidates| && !q.Exact(k)
    decreases |q.candidates| - i
  {
    assert i in settled;
    if i < k {
      NoWinnerMeaning(q, settled, i + 1, k);
    }
  }

  lemma Skips(q: Search, n: nat)
    requires n <= |q.candidates| && forall i: nat :: i < n ==> !q.Fails(i) && !q.Exact(i)
    ensures q.Sequential() == SearchFrom(q.candidates, q.target, q.oracle, n)
  {
    forall i: nat | i < n
      ensures q.oracle(q.candidates[i]).Code? && !Matches(q.oracle, q.candidates[i], q.target)
    {
      assert !q.Fails(i) && !q.Exact(i);
    }
    SearchSkips(q.candidates, q.target, q.oracle, 0, n);
  }

  /** When nothing runs any more, the sequential search would have found nothing either. */
  lemma ExhaustedIsSequential(q: Search, settled: set<nat>, next: nat)
    requires q.WellFormed() && RunningOk(q, {}, settled, next)
    requires !MayStart(q, {}, settled, next) && PrefixWinner(q, settled, 0).None?
    ensures q.Sequential() == NotConverged
  {
    forall k: nat | k < next
      ensures !q.Exact(k) && !q.Fails(k)
    {
      NoWinnerMeaning(q, settled, 0, k);
    }
    assert next == |q.candidates|;
    Skips(q, next);
  }

  lemma WinnerIsSequential(q: Search, settled: set<nat>, next: nat)
    requires Bounded(q, settled) && (forall i :: i in settled ==> !q.Fails(i))
    requires PrefixWinner(q, settled, 0).Some?
    ensures q.Sequential() == Found(q.candidates[WinnerIn(q, settled, 0)])
  {
    Skips(q, WinnerIn(q, settled, 0));
  }

  lemma StartIsOk(q: Search)
    requires q.WellFormed()
    ensures Invariant(q, Start(q))
  {
    FillingIsOk(q, {}, {}, 0);
    var p := Filled(q, {}, {}, 0);
    if p.active == {} {
      ExhaustedIsSequential(q, {}, p.next);
    }
  }

  lemma SettlingIsOk(q: Search, p: Pool, i: nat)
    requires p.Running? && RunningOk(q, p.active, p.settled, p.next) && i in p.active && !q.Fails(i)
    ensures RunningOk(q, p.active - {i}, p.settled + {i}, p.next)
  {
    ProperSubsetIsSmaller(p.active - {i}, p.active);
  }

  lemma RunningFailureIsReachable(q: Search, p: Pool, i: nat)
    requires p.Running? && RunningOk(q, p.active, p.settled, p.next) && i in p.active && q.Fails(i)
    ensures q.Reachable(i)
  {
    assert i < p.next && |q.Blocking(i)| < q.width;
  }

  lemma SettledStepIsOk(q: Search, p: Pool, i: nat)
    requires q.WellFormed() && Invariant(q, p) && p.Running? && i in p.active && !q.Fails(i)
    requires PrefixWinner(q, p.settled + {i}, 0).None?
    ensures Invariant(q, NothingRuns(Filled(q, p.active - {i}, p.settled + {i}, p.next)))
  {
    var settled := p.settled + {i};
    SettlingIsOk(q, p, i);
    FillingIsOk(q, p.active - {i}, settled, p.next);
    var filled := Filled(q, p.active - {i}, settled, p.next);
    if filled.active == {} {
      ExhaustedIsSequential(q, settled, filled.next);
    }
  }

  lemma StepKeepsOk(q: Search, p: Pool, t: Turn)
    requires q.WellFormed() && Invariant(q, p) && Enabled(q, p, t)
    ensures Invariant(q, After(q, p, t))
  {
    if q.Fails(t.i) {
      RunningFailureIsReachable(q, p, t.i);
    } else if PrefixWinner(q, p.settled + {t.i}, 0).None? {
      SettledStepIsOk(q, p, t.i);
    } else {
      SettlingIsOk(q, p, t.i);
      WinnerIsSequential(q, p.settled + {t.i}, p.next);
      if t.noisy.Some? {
        RunningFailureIsReachable(q, p, t.noisy.value);
      }
    }
  }

  lemma {:induction false} ReachableIsOk(q: Search, turns: seq<Turn>, p: Pool)
    requires q.WellFormed() && Reaches(q, turns, p)
    ensures Invariant(q, p)
    ensures p.Running? ==> |p.settled| == |turns|
  {
    if turns == [] {
      StartIsOk(q);
      FillingIsOk(q, {}, {}, 0);
    } else {
      var before :| Reaches(q, Front(turns), before) && StepsTo(q, before, Last(turns), p);
      ReachableIsOk(q, Front(turns), before);
      StepKeepsOk(q, before, Last(turns));
      if p.Running? {
        SettlingIsOk(q, before, Last(turns).i);
        FillingIsOk(q, before.active - {Last(turns).i}, before.settled + {Last(turns).i}, before.next);
      }
    }
  }

  /** Every schedule ends: while probes run, as many have settled as turns were taken. */
  lemma EveryScheduleEnds(q: Search, turns: seq<Turn>, p: Pool)
    requires q.WellFormed() && Reaches(q, turns, p) && p.Running?
    ensures |turns| < |q.candidates|
  {
    ReachableIsOk(q, turns, p);
    var all := Indices(|q.candidates|);
    var i :| i in p.active;
    assert p.settled <= all && i in all && i !in p.settled;
    ProperSubsetIsSmaller(p.settled, all);
  }

  // ------------------------------------------------------ schedules that withhold

  ghost predicate Ends(q: Search, o: Outcome) {
    exists turns :: Reaches(q, turns, Done(o))
  }

  lemma TakeTurn(q: Search, turns: seq<Turn>, p: Pool, t: Turn)
    requires Reaches(q, turns, p) && Enabled(q, p, t)
    ensures Reaches(q, turns + [t], After(q, p, t))
  {
    var longer := turns + [t];
    assert Front(longer) == turns && Last(longer) == t;
    assert StepsTo(q, p, t, After(q, p, t));
  }

  ghost predicate NoMatchSettled(q: Search, settled: set<nat>) {
    forall i :: i in settled ==> i < |q.candidates| && !q.Exact(i)
  }

  lemma {:induction false} NoMatchNoWinner(q: Search, settled: set<nat>, i: nat)
    requires Bounded(q, settled) && NoMatchSettled(q, settled)
    ensures PrefixWinner(q, settled, i).None?
    decreases |q.candidates| - i
  {
    if i in settled {
      NoMatchNoWinner(q, settled, i + 1);
    }
  }

  /** As long as the failing candidate has not started, something else can settle harmlessly. */
  lemma HarmlessTurn(q: Search, p: Pool, g: nat) returns (i: nat)
    requires Invariant(q, p) && p.Running? && NoMatchSettled(q, p.settled)
    requires q.Reachable(g) && p.next <= g
    ensures i in p.active && i < |q.candidates| && !q.Fails(i) && !q.Exact(i)
  {
    if p.active <= q.Blocking(g) {
      ProperSubsetIsSmaller(p.active, q.Blocking(g));
      assert |p.active| < q.width && p.next < |q.candidates|;
      assert MayStart(q, p.active, p.settled, p.next);
    }
    i :| i in p.active && i !in q.Blocking(g);
    assert i < p.next <= g;
  }

  /** From any state in which no match has settled, a schedule settles everything harmless
      until the failing candidate runs, and then that one first. */
  lemma {:induction false} CanFail(q: Search, turns: seq<Turn>, p: Pool, g: nat)
    requires q.WellFormed() && Reaches(q, turns, p) && p.Running? && NoMatchSettled(q, p.settled)
    requires q.Reachable(g)
    ensures Ends(q, Failed(q.Error(g)))
    decreases |q.candidates| - |turns|
  {
    ReachableIsOk(q, turns, p);
    EveryScheduleEnds(q, turns, p);
    if g < p.next {
      assert g !in p.settled ==> g in p.active;
      var t := Turn(g, None);
      TakeTurn(q, turns, p, t);
      assert After(q, p, t) == Done(Failed(q.Error(g)));
    } else {
      var i := HarmlessTurn(q, p, g);
      var t := Turn(i, None);
      HarmlessKeepsRunning(q, p, g, i);
      TakeTurn(q, turns, p, t);
      CanFail(q, turns + [t], After(q, p, t), g);
    }
  }

  /** With candidates to come and no match known, a filled pool is not empty. */
  lemma FilledIsBusy(q: Search, active: set<nat>, settled: set<nat>, next: nat)
    requires Bounded(q, settled) && NoMatchSettled(q, settled) && 0 < q.width && next < |q.candidates|
    ensures Filled(q, active, settled, next).active != {}
  {
    if active == {} {
      assert MayStart(q, active, settled, next);
      assert next in active + {next};
    }
  }

  lemma HarmlessKeepsRunning(q: Search, p: Pool, g: nat, i: nat)
    requires q.WellFormed() && Invariant(q, p) && p.Running? && NoMatchSettled(q, p.settled)
    requires q.Reachable(g) && p.next <= g && i in p.active && i < |q.candidates| && !q.Fails(i) && !q.Exact(i)
    ensures Enabled(q, p, Turn(i, None))
    ensures var p' := After(q, p, Turn(i, None)); p'.Running? && NoMatchSettled(q, p'.settled)
  {
    var settled, active := p.settled + {i}, p.active - {i};
    NoMatchNoWinner(q, settled, 0);
    FilledIsBusy(q, active, settled, p.next);
  }

  /** The first `n` candidates have settled, and nothing else. */
  ghost predicate InOrder(q: Search, p: Pool, n: nat) {
    p.Running? && n <= p.next && forall i: nat :: i < n <==> i in p.settled
  }

  lemma NextInOrder(q: Search, p: Pool, n: nat)
    requires q.WellFormed() && Invariant(q, p) && InOrder(q, p, n)
    ensures n in p.active && Enabled(q, p, Turn(n, None))
    ensures n < |q.candidates| && q.Sequential() == SearchFrom(q.candidates, q.target, q.oracle, n)
  {
    forall k: nat | k < n
      ensures !q.Exact(k) && !q.Fails(k)
    {
      NoWinnerMeaning(q, p.settled, 0, k);
    }
    Skips(q, n);
    var some :| some in p.active;
    assert some < p.next && some !in p.settled;
  }

  lemma PriorityOrderAgrees(q: Search, p: Pool, n: nat)
    requires q.WellFormed() && Invariant(q, p) && InOrder(q, p, n) && n in p.active && Enabled(q, p, Turn(n, None))
    requires After(q, p, Turn(n, None)).Done?
    ensures After(q, p, Turn(n, None)) == Done(q.Sequential())
  {
    NextInOrder(q, p, n);
    if !q.Fails(n) {
      var settled := p.settled + {n};
      SettlingIsOk(q, p, n);
      if PrefixWinner(q, settled, 0).Some? {
        WinnerIsSequential(q, settled, p.next);
      } else {
        FillingIsOk(q, p.active - {n}, settled, p.next);
        ExhaustedIsSequential(q, settled, Filled(q, p.active - {n}, settled, p.next).next);
      }
    }
  }

  lemma StaysInOrder(q: Search, p: Pool, n: nat)
    requires q.WellFormed() && Invariant(q, p) && InOrder(q, p, n) && Enabled(q, p, Turn(n, None))
    requires After(q, p, Turn(n, None)).Running?
    ensures InOrder(q, After(q, p, Turn(n, None)), n + 1)
  {
    assert n < p.next;
    assert After(q, p, Turn(n, None)).settled == p.settled + {n};
  }

  /** Settling in priority order, with no noise, is one of the schedules. */
  lemma {:induction false} CanAgree(q: Search, turns: seq<Turn>, p: Pool, n: nat)
    requires q.WellFormed() && Reaches(q, turns, p) && InOrder(q, p, n)
    ensures Ends(q, q.Sequential())
    decreases |q.candidates| - |turns|
  {
    ReachableIsOk(q, turns, p);
    EveryScheduleEnds(q, turns, p);
    NextInOrder(q, p, n);
    var t := Turn(n, None);
    TakeTurn(q, turns, p, t);
    if After(q, p, t).Running? {
      StaysInOrder(q, p, n);
      CanAgree(q, turns + [t], After(q, p, t), n + 1);
    } else {
      PriorityOrderAgrees(q, p, n);
    }
  }

  /** Exactly the outcomes some schedule leads to: the sequential one, and every failure
      within the pool's reach. */
  lemma OutcomesAre(q: Search, o: Outcome)
    requires q.WellFormed()
    ensures Ends(q, o) <==> OutcomeOk(q, o)
  {
    StartIsOk(q);
    var none: seq<Turn> := [];
    assert Reaches(q, none, Start(q));
    if Ends(q, o) {
      var turns :| Reaches(q, turns, Done(o));
      ReachableIsOk(q, turns, Done(o));
    }
    if OutcomeOk(q, o) {
      if Start(q).Running? {
        FillingIsOk(q, {}, {}, 0);
        if o == q.Sequential() {
          CanAgree(q, none, Start(q), 0);
        } else {
          var g: nat :| q.Reachable(g) && o == Failed(q.Error(g));
          CanFail(q, none, Start(q), g);
        }
      } else {
        EmptySearch(q);
      }
    }
  }

  lemma EmptySearch(q: Search)
    requires q.WellFormed() && Start(q).Done?
    ensures q.candidates == [] && Start(q) == Done(q.Sequential())
  {
    if q.candidates != [] {
      FilledIsBusy(q, {}, {}, 0);
    }
  }

  /** Exactly when the schedule does not matter: every failing candidate within the pool's
      reach fails as the sequential search does. With a width of one, or no failing
      neighbour, there is none to withhold the answer. */
  lemma EveryScheduleAgreesIff(q: Search)
    requires q.WellFormed()
    ensures (forall o :: Ends(q, o) ==> o == q.Sequential())
            <==> forall g: nat :: q.Reachable(g) ==> Failed(q.Error(g)) == q.Sequential()
  {
    forall o
      ensures Ends(q, o) <==> OutcomeOk(q, o)
    {
      OutcomesAre(q, o);
    }
    forall g: nat | q.Reachable(g)
      ensures OutcomeOk(q, Failed(q.Error(g)))
    {
    }
  }

  /** A pool of one is the sequential search. */
  lemma WidthOneAgrees(q: Search, o: Outcome)
    requires q.width == 1 && Ends(q, o)
    ensures o == q.Sequential()
  {
    OutcomesAre(q, o);
    forall g: nat | q.Reachable(g)
      ensures Failed(q.Error(g)) == q.Sequential()
    {
      forall i: nat | i < g
        ensures !q.Fails(i) && !q.Exact(i)
      {
        ProperSubsetIsSmaller(q.Blocking(g), {});
        assert q.Blocking(g) == {} && i !in q.Blocking(g);
      }
      Skips(q, g);
    }
  }

  /** A schedule that withholds the answer: the first candidate matches, the second fails
      and settles first. */
  lemma AnswerCanBeWithheld() returns (q: Search, turns: seq<Turn>)
    ensures q.Sequential() == Found(1)
    ensures Reaches(q, turns, Done(Failed(7)))
  {
    var oracle := (id: int) => if id == 1 then Code(Some("00000001")) else Failure(7);
    q := Search([1, 2], "00000001", oracle, 2);
    assert Matches(oracle, 1, "00000001");
    assert Filled(q, {}, {}, 0) == Filled(q, {0}, {}, 1) == Filled(q, {0, 1}, {}, 2) == Running({0, 1}, {}, 2) by {
      assert {} + {0} == {0} && {0} + {1} == {0, 1};
    }
    var none: seq<Turn> := [];
    assert Reaches(q, none, Start(q));
    TakeTurn(q, none, Start(q), Turn(1, None));
    turns := none + [Turn(1, None)];
  }

  // ---------------------------------------------------------- the whole resolver

  /** The answers some schedule leads the resolver to, if the caller does not abort. */
  ghost predicate CanAnswer(ownStdId: int, ownCode: int, target: string, oracle: Oracle, limit: nat, o: Outcome) {
    if !Searchable(ownStdId, ownCode, target) then o == NotConverged
    else
      var projected := Projection(ownStdId, ownCode, target);
      match oracle(projected)
      case Failure(error) => o == Failed(error)
      case Code(seen) =>
        if seen == Some(target) then o == Found(projected)
        else
          var candidates := Candidates(projected, Correction(projected, target, seen));
          Ends(Search(candidates, target, oracle, Min(limit, |candidates|)), o)
  }

  /** They are exactly the sequential answer and the failures the resolver may report. */
  lemma ResolverAnswersAre(ownStdId: int, ownCode: int, target: string, oracle: Oracle, limit: nat, o: Outcome)
    requires 0 < limit
    ensures CanAnswer(ownStdId, ownCode, target, oracle, limit, o)
            <==> || o == SequentialSearch(ownStdId, ownCode, target, oracle)
                 || (o.Failed? && MayFail(ownStdId, ownCode, target, oracle, limit, o.error))
  {
    if Searchable(ownStdId, ownCode, target) {
      var projected := Projection(ownStdId, ownCode, target);
      if oracle(projected).Code? && oracle(projected).code != Some(target) {
        var candidates := Candidates(projected, Correction(projected, target, oracle(projected).code));
        var q := Search(candidates, target, oracle, Min(limit, |candidates|));
        OutcomesAre(q, o);
        if g: nat :| q.Reachable(g) && o == Failed(q.Error(g)) {
          assert FailsInReach(candidates, target, oracle, q.width, g, o.error);
        }
        if o.Failed? && MayFail(ownStdId, ownCode, target, oracle, limit, o.error) {
          var g: nat :| FailsInReach(candidates, target, oracle, q.width, g, o.error);
          assert q.Reachable(g) && o == Failed(q.Error(g));
        }
      }
    }
  }

  /** So the resolver's answer depends on no schedule exactly when no failure it may report
      differs from the sequential answer. */
  lemma ResolverIsDeterministicIff(ownStdId: int, ownCode: int, target: string, oracle: Oracle, limit: nat)
    requires 0 < limit
    ensures (forall o :: CanAnswer(ownStdId, ownCode, target, oracle, limit, o) ==> o == SequentialSearch(ownStdId, ownCode, target, oracle))
            <==> forall error: int :: MayFail(ownStdId, ownCode, target, oracle, limit, error) ==>
                   SequentialSearch(ownStdId, ownCode, target, oracle) == Failed(error)
  {
    forall o
      ensures CanAnswer(ownStdId, ownCode, target, oracle, limit, o)
              <==> || o == SequentialSearch(ownStdId, ownCode, target, oracle)
                   || (o.Failed? && MayFail(ownStdId, ownCode, target, oracle, limit, o.error))
    {
      ResolverAnswersAre(ownStdId, ownCode, target, oracle, limit, o);
    }
    forall error: int | MayFail(ownStdId, ownCode, target, oracle, limit, error)
      ensures CanAnswer(ownStdId, ownCode, target, oracle, limit, Failed(error))
    {
    }
  }
}
