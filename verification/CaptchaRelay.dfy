/** The in-process captcha relay (apps/worker/src/captcha/captcha-relay.ts): people answer
    challenges that sign-ins wait for. */
module CaptchaRelay {
  import opened Prelude

  datatype Relay =
    | Pending(waiters: seq<nat>)
    | Answered(answer: string)

  datatype Outcome = GotAnswer(answer: string) | NotFound | Cancelled | TimedOut

  datatype Settlement = Settlement(waiter: nat, challenge: string, outcome: Outcome)

  datatype Acceptance = Acceptance(challenge: string, answer: string)

  /** The relays, and what has happened: waiters numbered as they came, where those not yet
      settled wait, promises settled, challenges prepared and answers accepted, in order. */
  datatype State = State(
    relays: map<string, Relay>,
    nextWaiter: nat,
    waiting: map<nat, string>,
    settled: seq<Settlement>,
    prepared: seq<string>,
    accepted: seq<Acceptance>)

  function Settle(waiters: seq<nat>, challenge: string, outcome: Outcome): (r: seq<Settlement>)
    ensures |r| == |waiters| && forall i :: 0 <= i < |r| ==> r[i] == Settlement(waiters[i], challenge, outcome)
  {
    seq(|waiters|, i requires 0 <= i < |waiters| => Settlement(waiters[i], challenge, outcome))
  }

  function WaitersOf(s: State, id: string): seq<nat> {
    if id in s.relays && s.relays[id].Pending? then s.relays[id].waiters else []
  }

  function LeaveAll(waiting: map<nat, string>, id: string): map<nat, string> {
    map w | w in waiting && waiting[w] != id :: waiting[w]
  }

  /** Removes a relay and settles everyone waiting on it: resolve and reject. */
  function Finish(s: State, id: string, outcome: Outcome): State {
    s.(relays := s.relays - {id},
       waiting := LeaveAll(s.waiting, id),
       settled := s.settled + Settle(WaitersOf(s, id), id, outcome))
  }

  datatype Step =
    | Prepare(id: string)
    | Answer(id: string, answer: string)
    | Wait(id: string, aborted: bool)
    | Cancel(id: string)
    | Timeout(id: string)
    | Abort(id: string, waiter: nat)

  function ApplyPrepare(s: State, id: string): State {
    s.(relays := s.relays[id := Pending([])], prepared := s.prepared + [id])
  }

  /** Whether the answer is accepted, or refused as not found. */
  predicate Takes(s: State, id: string) {
    id in s.relays && s.relays[id].Pending?
  }

  function ApplyAnswer(s: State, id: string, answer: string): State {
    if !Takes(s, id) then s
    else
      var t := s.(accepted := s.accepted + [Acceptance(id, answer)]);
      if s.relays[id].waiters == [] then t.(relays := s.relays[id := Answered(answer)])
      else Finish(t, id, GotAnswer(answer))
  }

  function ApplyWait(s: State, id: string, aborted: bool): State {
    var w := s.nextWaiter;
    var t := s.(nextWaiter := w + 1);
    if id !in s.relays then t.(settled := s.settled + [Settlement(w, id, NotFound)])
    else if s.relays[id].Answered? then
      t.(relays := s.relays - {id}, settled := s.settled + [Settlement(w, id, GotAnswer(s.relays[id].answer))])
    else if aborted then
      var u := Finish(t, id, Cancelled);
      u.(settled := u.settled + [Settlement(w, id, Cancelled)])
    else t.(relays := s.relays[id := Pending(s.relays[id].waiters + [w])], waiting := s.waiting[w := id])
  }

  /** Identifiers are drawn until an unused one comes up; an abort signal counts only while
      its waiter waits, and cancels the whole challenge. */
  predicate Enabled(s: State, step: Step) {
    match step
    case Prepare(id) => id !in s.relays
    case Abort(id, waiter) => waiter in WaitersOf(s, id)
    case _ => true
  }

  function Perform(s: State, step: Step): State {
    match step
    case Prepare(id) => ApplyPrepare(s, id)
    case Answer(id, answer) => ApplyAnswer(s, id, answer)
    case Wait(id, aborted) => ApplyWait(s, id, aborted)
    case Cancel(id) => Finish(s, id, Cancelled)
    case Timeout(id) => Finish(s, id, TimedOut)
    case Abort(id, _) => Finish(s, id, Cancelled)
  }

  // ------------------------------------------------------------------- counting

  function TimesSettled(settled: seq<Settlement>, w: nat): nat {
    if settled == [] then 0 else TimesSettled(Front(settled), w) + if Last(settled).waiter == w then 1 else 0
  }

  function TimesPrepared(prepared: seq<string>, id: string): nat {
    if prepared == [] then 0 else TimesPrepared(Front(prepared), id) + if Last(prepared) == id then 1 else 0
  }

  function TimesAccepted(accepted: seq<Acceptance>, id: string): nat {
    if accepted == [] then 0 else TimesAccepted(Front(accepted), id) + if Last(accepted).challenge == id then 1 else 0
  }

  predicate Distinct(ws: seq<nat>) {
    forall i, j :: 0 <= i < j < |ws| ==> ws[i] != ws[j]
  }

  lemma {:induction false} SettlingCounts(settled: seq<Settlement>, waiters: seq<nat>, challenge: string, outcome: Outcome, w: nat)
    requires Distinct(waiters)
    ensures TimesSettled(settled + Settle(waiters, challenge, outcome), w)
         == TimesSettled(settled, w) + if w in waiters then 1 else 0
  {
    var all := settled + Settle(waiters, challenge, outcome);
    if waiters == [] {
      assert all == settled;
    } else {
      SettlingCounts(settled, Front(waiters), challenge, outcome, w);
      assert Front(all) == settled + Settle(Front(waiters), challenge, outcome);
      assert Last(all) == Settlement(Last(waiters), challenge, outcome);
      assert waiters == Front(waiters) + [Last(waiters)];
    }
  }

  lemma SettlingOne(settled: seq<Settlement>, one: Settlement, w: nat)
    ensures TimesSettled(settled + [one], w) == TimesSettled(settled, w) + if one.waiter == w then 1 else 0
  {
    assert Front(settled + [one]) == settled;
  }

  // ------------------------------------------------------------------ invariants

  /** Those queued at a challenge are different waiters, and wait there. */
  predicate QueueOk(s: State, id: string) {
    var ws := WaitersOf(s, id);
    Distinct(ws) && forall i :: 0 <= i < |ws| ==> ws[i] in s.waiting && s.waiting[ws[i]] == id
  }

  predicate Waits(s: State, w: nat) {
    w in s.waiting && w < s.nextWaiter && w in WaitersOf(s, s.waiting[w])
  }

  /** Every waiter so far waits at exactly one challenge, or has been settled exactly once. */
  ghost predicate WaitersOk(s: State) {
    && (forall id :: QueueOk(s, id))
    && (forall w :: w in s.waiting ==> Waits(s, w))
    && (forall w: nat :: TimesSettled(s.settled, w) == if w < s.nextWaiter && w !in s.waiting then 1 else 0)
  }

  lemma QueuedIffWaiting(s: State, id: string, w: nat)
    requires WaitersOk(s)
    ensures w in WaitersOf(s, id) <==> w in s.waiting && s.waiting[w] == id
  {
    assert QueueOk(s, id);
    assert w in s.waiting ==> Waits(s, w);
  }

  lemma FinishKeepsWaitersOk(s: State, id: string, outcome: Outcome)
    requires WaitersOk(s)
    ensures WaitersOk(Finish(s, id, outcome))
  {
    var t := Finish(s, id, outcome);
    forall other
      ensures QueueOk(t, other)
    {
      assert QueueOk(s, other);
      assert WaitersOf(t, other) == if other == id then [] else WaitersOf(s, other);
    }
    forall w | w in t.waiting
      ensures Waits(t, w)
    {
      assert Waits(s, w);
    }
    forall w: nat
      ensures TimesSettled(t.settled, w) == if w < t.nextWaiter && w !in t.waiting then 1 else 0
    {
      FinishCounts(s, id, outcome, w);
    }
  }

  lemma FinishCounts(s: State, id: string, outcome: Outcome, w: nat)
    requires WaitersOk(s)
    ensures TimesSettled(Finish(s, id, outcome).settled, w)
         == if w < s.nextWaiter && w !in LeaveAll(s.waiting, id) then 1 else 0
  {
    assert QueueOk(s, id);
    QueuedIffWaiting(s, id, w);
    SettlingCounts(s.settled, WaitersOf(s, id), id, outcome, w);
    assert w in s.waiting ==> Waits(s, w);
  }

  /** The relays change without anyone coming or going. */
  lemma SameWaitersOk(s: State, t: State)
    requires WaitersOk(s)
    requires t.nextWaiter == s.nextWaiter && t.waiting == s.waiting && t.settled == s.settled
    requires forall id :: WaitersOf(t, id) == WaitersOf(s, id)
    ensures WaitersOk(t)
  {
    forall id
      ensures QueueOk(t, id)
    {
      assert QueueOk(s, id);
    }
    forall w | w in t.waiting
      ensures Waits(t, w)
    {
      assert Waits(s, w);
    }
  }

  /** A newcomer is settled at once ... */
  lemma SettledNewcomerIsOk(s: State, id: string, outcome: Outcome)
    requires WaitersOk(s)
    ensures WaitersOk(s.(nextWaiter := s.nextWaiter + 1, settled := s.settled + [Settlement(s.nextWaiter, id, outcome)]))
  {
    var one := Settlement(s.nextWaiter, id, outcome);
    var t := s.(nextWaiter := s.nextWaiter + 1, settled := s.settled + [one]);
    forall other
      ensures QueueOk(t, other)
    {
      assert QueueOk(s, other);
    }
    forall w | w in t.waiting
      ensures Waits(t, w)
    {
      assert Waits(s, w);
    }
    forall w: nat
      ensures TimesSettled(t.settled, w) == if w < t.nextWaiter && w !in t.waiting then 1 else 0
    {
      SettlingOne(s.settled, one, w);
      assert w in s.waiting ==> Waits(s, w);
    }
  }

  /** ... or joins the challenge it asks for. */
  lemma QueuedNewcomerIsOk(s: State, id: string)
    requires WaitersOk(s) && Takes(s, id)
    ensures WaitersOk(ApplyWait(s, id, false))
  {
    var n, t := s.nextWaiter, ApplyWait(s, id, false);
    assert n in s.waiting ==> Waits(s, n);
    forall other
      ensures QueueOk(t, other)
    {
      assert QueueOk(s, other);
      assert WaitersOf(t, other) == WaitersOf(s, other) + if other == id then [n] else [];
    }
    forall w | w in t.waiting
      ensures Waits(t, w)
    {
      assert w in s.waiting ==> Waits(s, w);
      assert WaitersOf(t, t.waiting[w]) == WaitersOf(s, t.waiting[w]) + if t.waiting[w] == id then [n] else [];
    }
  }

  function Open(s: State, id: string): nat {
    if Takes(s, id) then 1 else 0
  }

  /** Each preparation of a challenge takes at most one answer, and what waiters are told is
      an answer that was accepted for their challenge. */
  ghost predicate AnswersOk(s: State) {
    && (forall id :: TimesAccepted(s.accepted, id) + Open(s, id) <= TimesPrepared(s.prepared, id))
    && (forall id :: id in s.relays && s.relays[id].Answered? ==> Acceptance(id, s.relays[id].answer) in s.accepted)
    && (forall i :: 0 <= i < |s.settled| && s.settled[i].outcome.GotAnswer? ==>
          Acceptance(s.settled[i].challenge, s.settled[i].outcome.answer) in s.accepted)
  }

  lemma FinishKeepsAnswersOk(s: State, id: string, outcome: Outcome)
    requires AnswersOk(s)
    requires outcome.GotAnswer? ==> Acceptance(id, outcome.answer) in s.accepted
    ensures AnswersOk(Finish(s, id, outcome))
  {
  }

  lemma AcceptingKeepsCounts(s: State, id: string, answer: string, t: State)
    requires AnswersOk(s) && Takes(s, id)
    requires t.accepted == s.accepted + [Acceptance(id, answer)] && t.prepared == s.prepared
    requires !Takes(t, id) && forall other :: other != id ==> Takes(t, other) == Takes(s, other)
    ensures forall other :: TimesAccepted(t.accepted, other) + Open(t, other) <= TimesPrepared(t.prepared, other)
  {
    assert Front(t.accepted) == s.accepted;
  }

  lemma AnswerKeepsAnswersOk(s: State, id: string, answer: string)
    requires AnswersOk(s)
    ensures AnswersOk(ApplyAnswer(s, id, answer))
  {
    if Takes(s, id) {
      var t := ApplyAnswer(s, id, answer);
      AcceptingKeepsCounts(s, id, answer, t);
      assert forall a :: a in s.accepted ==> a in t.accepted;
      assert Acceptance(id, answer) in t.accepted;
    }
  }

  lemma WaitKeepsAnswersOk(s: State, id: string, aborted: bool)
    requires AnswersOk(s)
    ensures AnswersOk(ApplyWait(s, id, aborted))
  {
  }

  lemma PrepareKeepsAnswersOk(s: State, id: string)
    requires AnswersOk(s) && id !in s.relays
    ensures AnswersOk(ApplyPrepare(s, id))
  {
    assert Front(s.prepared + [id]) == s.prepared;
  }

  ghost predicate Invariant(s: State) {
    WaitersOk(s) && AnswersOk(s)
  }

  lemma StepKeepsAnswersOk(s: State, step: Step)
    requires AnswersOk(s) && Enabled(s, step)
    ensures AnswersOk(Perform(s, step))
  {
    match step
    case Prepare(id) => PrepareKeepsAnswersOk(s, id);
    case Answer(id, answer) => AnswerKeepsAnswersOk(s, id, answer);
    case Wait(id, aborted) => WaitKeepsAnswersOk(s, id, aborted);
    case Cancel(id) => FinishKeepsAnswersOk(s, id, Cancelled);
    case Timeout(id) => FinishKeepsAnswersOk(s, id, TimedOut);
    case Abort(id, _) => FinishKeepsAnswersOk(s, id, Cancelled);
  }

  lemma WaitKeepsWaitersOk(s: State, id: string, aborted: bool)
    requires WaitersOk(s)
    ensures WaitersOk(ApplyWait(s, id, aborted))
  {
    if id !in s.relays {
      SettledNewcomerIsOk(s, id, NotFound);
    } else if s.relays[id].Answered? {
      var t := s.(relays := s.relays - {id});
      SameWaitersOk(s, t);
      SettledNewcomerIsOk(t, id, GotAnswer(s.relays[id].answer));
    } else if aborted {
      FinishKeepsWaitersOk(s, id, Cancelled);
      SettledNewcomerIsOk(Finish(s, id, Cancelled), id, Cancelled);
    } else {
      QueuedNewcomerIsOk(s, id);
    }
  }

  lemma AnswerKeepsWaitersOk(s: State, id: string, answer: string)
    requires WaitersOk(s)
    ensures WaitersOk(ApplyAnswer(s, id, answer))
  {
    if Takes(s, id) {
      var t := s.(accepted := s.accepted + [Acceptance(id, answer)]);
      SameWaitersOk(s, t);
      if s.relays[id].waiters == [] {
        SameWaitersOk(s, ApplyAnswer(s, id, answer));
      } else {
        FinishKeepsWaitersOk(t, id, GotAnswer(answer));
      }
    }
  }

  lemma StepKeepsWaitersOk(s: State, step: Step)
    requires WaitersOk(s) && Enabled(s, step)
    ensures WaitersOk(Perform(s, step))
  {
    match step
    case Prepare(id) => SameWaitersOk(s, ApplyPrepare(s, id));
    case Answer(id, answer) => AnswerKeepsWaitersOk(s, id, answer);
    case Wait(id, aborted) => WaitKeepsWaitersOk(s, id, aborted);
    case Cancel(id) => FinishKeepsWaitersOk(s, id, Cancelled);
    case Timeout(id) => FinishKeepsWaitersOk(s, id, TimedOut);
    case Abort(id, _) => FinishKeepsWaitersOk(s, id, Cancelled);
  }

  // ------------------------------------------------------------------ whole runs

  ghost predicate StepsTo(before: State, step: Step, s: State) {
    Enabled(before, step) && Perform(before, step) == s
  }

  ghost predicate Reaches(steps: seq<Step>, s: State) {
    if steps == [] then s == State(map[], 0, map[], [], [], [])
    else exists before :: Reaches(Front(steps), before) && StepsTo(before, Last(steps), s)
  }

  lemma {:induction false} ReachableIsOk(steps: seq<Step>, s: State)
    requires Reaches(steps, s)
    ensures Invariant(s)
  {
    if steps != [] {
      var before :| Reaches(Front(steps), before) && StepsTo(before, Last(steps), s);
      ReachableIsOk(Front(steps), before);
      StepKeepsWaitersOk(before, Last(steps));
      StepKeepsAnswersOk(before, Last(steps));
    }
  }

  /** In every run each waiter is settled once, or still waits; and a challenge accepts at
      most one answer each time it is prepared. */
  lemma EachWaiterSettlesOnce(steps: seq<Step>, s: State, w: nat, id: string)
    requires Reaches(steps, s)
    ensures TimesSettled(s.settled, w) <= 1
    ensures w < s.nextWaiter ==> (TimesSettled(s.settled, w) == 1 <==> w !in s.waiting)
    ensures TimesAccepted(s.accepted, id) <= TimesPrepared(s.prepared, id)
  {
    ReachableIsOk(steps, s);
  }

  /** Any way a challenge ends, nobody is left waiting on it, and all get the same news. */
  lemma NobodyIsLeftBehind(s: State, id: string, outcome: Outcome, w: nat)
    requires WaitersOk(s)
    requires w in s.waiting && s.waiting[w] == id
    ensures Settlement(w, id, outcome) in Finish(s, id, outcome).settled
    ensures w !in Finish(s, id, outcome).waiting
  {
    QueuedIffWaiting(s, id, w);
    var ws := WaitersOf(s, id);
    var i :| 0 <= i < |ws| && ws[i] == w;
    assert Settle(ws, id, outcome)[i] == Settlement(w, id, outcome);
  }

  // ------------------------------------------- what one step tells, and what it leaves

  /** Those waiting on a challenge. */
  function Waiting(s: State, id: string): set<nat> {
    set w | w in s.waiting && s.waiting[w] == id
  }

  function SameNews(waiters: set<nat>, id: string, outcome: Outcome): set<Settlement> {
    set w | w in waiters :: Settlement(w, id, outcome)
  }

  /** What was told before stays told; this is told now. */
  predicate Tells(s: State, t: State, news: set<Settlement>) {
    && s.settled <= t.settled
    && (set i | |s.settled| <= i < |t.settled| :: t.settled[i]) == news
  }

  /** What the step tells whom: an answer reaches everyone waiting, a timeout and a
      cancellation likewise; a newcomer hears at once of a missing challenge, of an answer
      that is in, or of its own abort, which everyone waiting then hears of too. */
  function News(s: State, step: Step): set<Settlement> {
    match step
    case Prepare(_) => {}
    case Answer(id, answer) => SameNews(Waiting(s, id), id, GotAnswer(answer))
    case Cancel(id) => SameNews(Waiting(s, id), id, Cancelled)
    case Timeout(id) => SameNews(Waiting(s, id), id, TimedOut)
    case Abort(id, _) => SameNews(Waiting(s, id), id, Cancelled)
    case Wait(id, aborted) =>
      if id !in s.relays then {Settlement(s.nextWaiter, id, NotFound)}
      else if s.relays[id].Answered? then {Settlement(s.nextWaiter, id, GotAnswer(s.relays[id].answer))}
      else if aborted then SameNews(Waiting(s, id) + {s.nextWaiter}, id, Cancelled)
      else {}
  }

  lemma WaitingAreQueued(s: State, id: string)
    requires WaitersOk(s)
    ensures Waiting(s, id) == set w | w in WaitersOf(s, id)
  {
    forall w: nat
      ensures w in Waiting(s, id) <==> w in WaitersOf(s, id)
    {
      QueuedIffWaiting(s, id, w);
    }
  }

  lemma FinishTells(s: State, id: string, outcome: Outcome)
    requires WaitersOk(s)
    ensures Tells(s, Finish(s, id, outcome), SameNews(Waiting(s, id), id, outcome))
  {
    WaitingAreQueued(s, id);
    var t, ws, told := Finish(s, id, outcome), WaitersOf(s, id), Settle(WaitersOf(s, id), id, outcome);
    assert t.settled == s.settled + told;
    forall one
      ensures one in (set i | |s.settled| <= i < |t.settled| :: t.settled[i]) <==> one in told
    {
      if one in told {
        var i :| 0 <= i < |told| && told[i] == one;
        assert t.settled[|s.settled| + i] == one;
      }
    }
    forall one
      ensures one in told <==> one in SameNews(Waiting(s, id), id, outcome)
    {
      if one in SameNews(Waiting(s, id), id, outcome) {
        var i :| 0 <= i < |ws| && ws[i] == one.waiter;
        assert told[i] == one;
      }
    }
  }

  lemma TellsOne(s: State, t: State, one: Settlement)
    requires t.settled == s.settled + [one]
    ensures Tells(s, t, {one})
  {
    assert t.settled[|s.settled|] == one;
  }

  lemma AnswerTells(s: State, id: string, answer: string)
    requires WaitersOk(s)
    ensures Tells(s, ApplyAnswer(s, id, answer), SameNews(Waiting(s, id), id, GotAnswer(answer)))
  {
    WaitingAreQueued(s, id);
    var t := s.(accepted := s.accepted + [Acceptance(id, answer)]);
    if Takes(s, id) && s.relays[id].waiters != [] {
      SameWaitersOk(s, t);
      FinishTells(t, id, GotAnswer(answer));
    }
  }

  lemma WaitTells(s: State, id: string, aborted: bool)
    requires WaitersOk(s)
    ensures Tells(s, ApplyWait(s, id, aborted), News(s, Wait(id, aborted)))
  {
    var t := ApplyWait(s, id, aborted);
    if id !in s.relays {
      TellsOne(s, t, Settlement(s.nextWaiter, id, NotFound));
    } else if s.relays[id].Answered? {
      TellsOne(s, t, Settlement(s.nextWaiter, id, GotAnswer(s.relays[id].answer)));
    } else if aborted {
      FinishTells(s, id, Cancelled);
      var all, one := Finish(s, id, Cancelled), Settlement(s.nextWaiter, id, Cancelled);
      assert t.settled == all.settled + [one];
      assert forall i :: |s.settled| <= i < |all.settled| ==> t.settled[i] == all.settled[i];
      assert t.settled[|all.settled|] == one;
      assert (set i | |s.settled| <= i < |t.settled| :: t.settled[i]) == (set i | |s.settled| <= i < |all.settled| :: all.settled[i]) + {one};
    }
  }

  lemma StepTells(s: State, step: Step)
    requires WaitersOk(s) && Enabled(s, step)
    ensures Tells(s, Perform(s, step), News(s, step))
  {
    match step
    case Prepare(id) =>
    case Answer(id, answer) => AnswerTells(s, id, answer);
    case Wait(id, aborted) => WaitTells(s, id, aborted);
    case Cancel(id) => FinishTells(s, id, Cancelled);
    case Timeout(id) => FinishTells(s, id, TimedOut);
    case Abort(id, _) => FinishTells(s, id, Cancelled);
  }

  /** How a challenge goes on from one step: opened, answered before anyone waits, joined by
      a newcomer, and gone once it has told whoever was to hear. */
  function Challenge(s: State, step: Step, id: string): Option<Relay> {
    var now := if id in s.relays then Some(s.relays[id]) else None;
    match step
    case Prepare(other) => if other == id then Some(Pending([])) else now
    case Answer(other, answer) =>
      if other != id || now.None? || now.value.Answered? then now
      else if Waiting(s, id) == {} then Some(Answered(answer))
      else None
    case Wait(other, aborted) =>
      if other != id || now.None? then now
      else if now.value.Answered? || aborted then None
      else Some(Pending(now.value.waiters + [s.nextWaiter]))
    case Cancel(other) => if other == id then None else now
    case Timeout(other) => if other == id then None else now
    case Abort(other, _) => if other == id then None else now
  }

  lemma StepLeaves(s: State, step: Step, id: string)
    requires WaitersOk(s) && Enabled(s, step)
    ensures var t := Perform(s, step);
            Challenge(s, step, id) == if id in t.relays then Some(t.relays[id]) else None
  {
    WaitingAreQueued(s, id);
    if id in s.relays && s.relays[id].Pending? && s.relays[id].waiters != [] {
      assert s.relays[id].waiters[0] in Waiting(s, id);
    }
    match step
    case Prepare(_) =>
    case Answer(_, _) =>
    case Wait(_, _) =>
    case Cancel(_) =>
    case Timeout(_) =>
    case Abort(_, _) =>
  }

  // -------------------------------------------- an answer that came before any waiter

  /** The steps that end a challenge whose answer is in: whoever waits takes it, aborted or
      not; a timeout or a cancellation drops it. */
  predicate Ends(step: Step, id: string) {
    match step
    case Wait(other, _) => other == id
    case Cancel(other) => other == id
    case Timeout(other) => other == id
    case _ => false
  }

  function RunFrom(s: State, steps: seq<Step>): State {
    if steps == [] then s else Perform(RunFrom(s, Front(steps)), Last(steps))
  }

  predicate EnabledFrom(s: State, steps: seq<Step>) {
    steps == [] || (EnabledFrom(s, Front(steps)) && Enabled(RunFrom(s, Front(steps)), Last(steps)))
  }

  predicate Holds(s: State, id: string, answer: string) {
    id in s.relays && s.relays[id] == Answered(answer)
  }

  lemma OtherStepsHold(s: State, step: Step, id: string, answer: string)
    requires Holds(s, id, answer) && Enabled(s, step) && !Ends(step, id)
    ensures Holds(Perform(s, step), id, answer)
  {
    match step
    case Prepare(other) =>
    case Answer(other, _) =>
    case Wait(other, _) =>
    case Cancel(other) =>
    case Timeout(other) =>
    case Abort(other, _) =>
  }

  lemma {:induction false} AnswerIsHeld(s: State, steps: seq<Step>, id: string, answer: string)
    requires Holds(s, id, answer) && EnabledFrom(s, steps)
    requires forall i :: 0 <= i < |steps| ==> !Ends(steps[i], id)
    ensures Holds(RunFrom(s, steps), id, answer)
  {
    if steps != [] {
      assert forall i :: 0 <= i < |Front(steps)| ==> Front(steps)[i] == steps[i];
      AnswerIsHeld(s, Front(steps), id, answer);
      assert !Ends(steps[|steps| - 1], id);
      OtherStepsHold(RunFrom(s, Front(steps)), Last(steps), id, answer);
    }
  }

  /** Exactly when an answer accepted before anyone waited is delivered: whatever else
      happens, it is held until the first wait, cancellation or timeout of its challenge,
      and reaches a waiter if and only if that step is a wait. Either way it is then gone. */
  lemma AnswerIsDeliveredIff(s: State, steps: seq<Step>, id: string, answer: string)
    requires Holds(s, id, answer) && steps != [] && EnabledFrom(s, steps)
    requires forall i :: 0 <= i < |steps| - 1 ==> !Ends(steps[i], id)
    requires Ends(Last(steps), id)
    ensures var before, after := RunFrom(s, Front(steps)), RunFrom(s, steps);
            && (after.settled == before.settled + [Settlement(before.nextWaiter, id, GotAnswer(answer))] <==> Last(steps).Wait?)
            && (!Last(steps).Wait? ==> after.settled == before.settled)
            && id !in after.relays
  {
    AnswerIsHeld(s, Front(steps), id, answer);
    var before, after := RunFrom(s, Front(steps)), RunFrom(s, steps);
    if !Last(steps).Wait? {
      assert WaitersOf(before, id) == [];
      assert before.settled + [] == before.settled;
      assert |after.settled| == |before.settled|;
    }
  }

  /** So it can be lost: after a timeout, or a cancellation, whoever waits is told there is
      no such challenge. */
  lemma AcceptedAnswerCanBeLost(s: State, id: string, answer: string, ending: Step)
    requires Takes(s, id) && s.relays[id].waiters == []
    requires ending == Timeout(id) || ending == Cancel(id)
    ensures Acceptance(id, answer) in ApplyAnswer(s, id, answer).accepted
    ensures ApplyWait(Perform(ApplyAnswer(s, id, answer), ending), id, false).settled
         == s.settled + [Settlement(s.nextWaiter, id, NotFound)]
  {
    var accepted := ApplyAnswer(s, id, answer);
    assert WaitersOf(accepted, id) == [];
    assert accepted.settled + [] == s.settled;
  }

  // ------------------------------------------------------------------- the class

  class LocalCaptchaRelayCoordinator {
    var relays: map<string, Relay>
    var nextWaiter: nat
    var settled: seq<Settlement>
    ghost var waiting: map<nat, string>
    ghost var prepared: seq<string>
    ghost var accepted: seq<Acceptance>

    ghost function Contents(): State
      reads this
    {
      State(relays, nextWaiter, waiting, settled, prepared, accepted)
    }

    constructor ()
      ensures Contents() == State(map[], 0, map[], [], [], [])
    {
      relays, nextWaiter, waiting, settled, prepared, accepted := map[], 0, map[], [], [], [];
    }

    /** `ids` are the identifiers drawn; the first one free is taken. */
    method PrepareChallenge(ids: seq<string>) returns (id: string)
      requires exists i :: 0 <= i < |ids| && ids[i] !in relays
      modifies this
      ensures id !in old(relays) && exists i :: 0 <= i < |ids| && ids[i] == id && forall j :: 0 <= j < i ==> ids[j] in old(relays)
      ensures Contents() == Perform(old(Contents()), Prepare(id))
    {
      var i := 0;
      while ids[i] in relays
        invariant 0 <= i < |ids| && exists j :: i <= j < |ids| && ids[j] !in relays
        invariant forall j :: 0 <= j < i ==> ids[j] in relays
        decreases |ids| - i
      {
        i := i + 1;
      }
      id := ids[i];
      relays := relays[id := Pending([])];
      prepared := prepared + [id];
    }

    method AnswerChallenge(id: string, answer: string) returns (found: bool)
      modifies this
      ensures found <==> Takes(old(Contents()), id)
      ensures Contents() == Perform(old(Contents()), Answer(id, answer))
    {
      if id !in relays || !relays[id].Pending? {
        return false;
      }
      accepted := accepted + [Acceptance(id, answer)];
      if |relays[id].waiters| == 0 {
        relays := relays[id := Answered(answer)];
        return true;
      }
      Conclude(id, GotAnswer(answer));
      found := true;
    }

    /** Takes the relay away first, then settles its waiters one by one. */
    method Conclude(id: string, outcome: Outcome)
      modifies this
      ensures Contents() == Finish(old(Contents()), id, outcome)
    {
      var waiters := if id in relays && relays[id].Pending? then relays[id].waiters else [];
      relays := relays - {id};
      waiting := LeaveAll(waiting, id);
      for i := 0 to |waiters|
        invariant Contents() == old(Contents()).(relays := old(relays) - {id}, waiting := LeaveAll(old(waiting), id), settled := old(settled) + Settle(waiters[..i], id, outcome))
      {
        settled := settled + [Settlement(waiters[i], id, outcome)];
        assert Settle(waiters[..i + 1], id, outcome) == Settle(waiters[..i], id, outcome) + [Settlement(waiters[i], id, outcome)];
      }
      assert waiters[..|waiters|] == waiters;
    }

    method WaitFor(id: string, aborted: bool) returns (waiter: nat)
      modifies this
      ensures waiter == old(nextWaiter)
      ensures Contents() == Perform(old(Contents()), Wait(id, aborted))
    {
      waiter := nextWaiter;
      nextWaiter := nextWaiter + 1;
      if id !in relays {
        settled := settled + [Settlement(waiter, id, NotFound)];
      } else if relays[id].Answered? {
        settled := settled + [Settlement(waiter, id, GotAnswer(relays[id].answer))];
        relays := relays - {id};
      } else if aborted {
        Conclude(id, Cancelled);
        settled := settled + [Settlement(waiter, id, Cancelled)];
      } else {
        relays := relays[id := Pending(relays[id].waiters + [waiter])];
        waiting := waiting[waiter := id];
      }
    }
  }
}
