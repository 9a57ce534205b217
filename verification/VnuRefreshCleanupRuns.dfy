/** One cleanup inserted into a run of the VNU refresh authority: exactly when no later
    reply can tell. */
module VnuRefreshCleanupRuns {
  import opened Prelude
  import opened VnuRefreshControl
  import opened VnuRefreshInvariants
  import opened VnuRefreshCleanup
  import opened VnuRefreshRuns

  // ------------------------------------------------------------ continuations

  /** What storage keeps of a state. */
  function Kept(s: State): Option<State> {
    if Quiescent(s) then None else Some(s)
  }

  function StoredAfter(stored: Option<State>, e: Event): Option<State> {
    var t := Apply(stored, e.command, e.now);
    if t.changed then Kept(t.state) else stored
  }

  function Continue(stored: Option<State>, events: seq<Event>): Option<State>
    decreases |events|
  {
    if events == [] then stored else Continue(StoredAfter(stored, events[0]), events[1..])
  }

  type Answers = (Option<State>, Event) -> Reply

  function ReplyTo(): Answers {
    (stored: Option<State>, e: Event) => Apply(stored, e.command, e.now).reply
  }

  /** What a sequence of events is answered from a stored state on. */
  function AnswersFrom(answer: Answers, stored: Option<State>, events: seq<Event>): (replies: seq<Reply>)
    ensures |replies| == |events|
    decreases |events|
  {
    if events == [] then [] else [answer(stored, events[0])] + AnswersFrom(answer, StoredAfter(stored, events[0]), events[1..])
  }

  function RepliesFrom(stored: Option<State>, events: seq<Event>): (replies: seq<Reply>)
    ensures |replies| == |events|
  {
    AnswersFrom(ReplyTo(), stored, events)
  }

  lemma {:induction false} ContinueSplit(stored: Option<State>, xs: seq<Event>, ys: seq<Event>)
    ensures Continue(stored, xs + ys) == Continue(Continue(stored, xs), ys)
    decreases |xs|
  {
    if xs == [] {
      assert xs + ys == ys;
    } else {
      assert (xs + ys)[1..] == xs[1..] + ys;
      ContinueSplit(StoredAfter(stored, xs[0]), xs[1..], ys);
    }
  }

  lemma {:induction false} AnswersSplit(answer: Answers, stored: Option<State>, xs: seq<Event>, ys: seq<Event>)
    ensures AnswersFrom(answer, stored, xs + ys) == AnswersFrom(answer, stored, xs) + AnswersFrom(answer, Continue(stored, xs), ys)
    decreases |xs|
  {
    if xs == [] {
      assert xs + ys == ys;
    } else {
      assert (xs + ys)[1..] == xs[1..] + ys;
      AnswersSplit(answer, StoredAfter(stored, xs[0]), xs[1..], ys);
    }
  }

  lemma RepliesSplit(stored: Option<State>, xs: seq<Event>, ys: seq<Event>)
    ensures RepliesFrom(stored, xs + ys) == RepliesFrom(stored, xs) + RepliesFrom(Continue(stored, xs), ys)
    ensures Continue(stored, xs + ys) == Continue(Continue(stored, xs), ys)
  {
    ContinueSplit(stored, xs, ys);
    AnswersSplit(ReplyTo(), stored, xs, ys);
  }

  lemma StepStores(cell: Cell, e: Event)
    ensures Step(cell, e).stored == StoredAfter(cell.stored, e)
  {
  }

  lemma ContinueOnce(stored: Option<State>, events: seq<Event>, e: Event)
    ensures Continue(stored, events + [e]) == StoredAfter(Continue(stored, events), e)
  {
    RepliesSplit(stored, events, [e]);
    assert Continue(StoredAfter(Continue(stored, events), e), []) == StoredAfter(Continue(stored, events), e);
  }

  lemma {:induction false} ReplayContinues(run: seq<Event>)
    ensures Replay(run).stored == Continue(None, run)
  {
    if run != [] {
      ReplayContinues(Front(run));
      StepStores(Replay(Front(run)), Last(run));
      ContinueOnce(None, Front(run), Last(run));
      assert run == Front(run) + [Last(run)];
    }
  }

  lemma FirstReply(stored: Option<State>, events: seq<Event>)
    requires events != []
    ensures RepliesFrom(stored, events)[0] == Apply(stored, events[0].command, events[0].now).reply
  {
  }

  lemma RepliesOfTail(stored: Option<State>, events: seq<Event>, i: nat, j: nat)
    requires i <= j < |events|
    ensures RepliesFrom(Continue(stored, events[..i]), events[i..])[j - i] == RepliesFrom(stored, events)[j]
  {
    RepliesSplit(stored, events[..i], events[i..]);
    assert events == events[..i] + events[i..];
  }

  lemma ReplyInRun(run: seq<Event>, j: nat)
    requires j < |run|
    ensures RepliesFrom(None, run)[j] == ReplyAt(run, j)
  {
    RepliesOfTail(None, run, j, j);
    ReplayContinues(run[..j]);
    FirstReply(Continue(None, run[..j]), run[j..]);
  }

  /** A run is its prefix, continued. */
  lemma RunContinues(run: seq<Event>, i: nat, j: nat)
    requires i <= j < |run|
    ensures RepliesFrom(Replay(run[..i]).stored, run[i..])[j - i] == ReplyAt(run, j)
  {
    ReplyInRun(run, j);
    ReplayContinues(run[..i]);
    RepliesOfTail(None, run, i, j);
  }

  // ---------------------------------------------------------------- the guards

  /** A rotation whose new identifiers meet only tombstones the cleanup removes. */
  predicate StaleCollision(s: State, earlier: int, previous: LinkedPair, next: LinkedPair) {
    && previous.WellFormed() && next.WellFormed() && Rotates(previous, next)
    && s.Tombstones(next) && !CleanState(s, earlier).Tombstones(next)
  }

  /** A sign-in that is a free repeat on one side of the cleanup only. */
  predicate RepeatDiffers(s: State, earlier: int, pair: LinkedPair) {
    pair.WellFormed() && Repeats(s, pair) != Repeats(CleanState(s, earlier), pair)
  }

  predicate Guarded(s: State, earlier: int, e: Event) {
    && earlier <= e.now
    && (e.command.CompleteRefresh? ==> !StaleCollision(s, earlier, e.command.previous, e.command.next))
    && (e.command.ActivatePair? ==> !RepeatDiffers(s, earlier, e.command.pair))
  }

  predicate AllGuarded(s: State, earlier: int, events: seq<Event>) {
    forall i :: 0 <= i < |events| ==> Guarded(s, earlier, events[i])
  }

  /** The cleanup restarts a refresh window that had run out if and only if it also empties
      the state, which is then deleted. */
  predicate WindowSettled(s: State, earlier: int) {
    s.window.resetAt <= earlier <==> Quiescent(CleanState(s, earlier))
  }

  // ------------------------------------------------------------- invisibility

  lemma CleansAlike(s: State, earlier: int, now: int)
    requires Accepted(s) && earlier <= now && WindowSettled(s, earlier)
    ensures Clean(Kept(CleanState(s, earlier)), now) == CleanState(s, now)
  {
    LiveTwice(s, earlier, now);
    var c := CleanState(s, earlier);
    if Quiescent(c) {
      assert LiveAccess(s.revokedAccess, now) == LiveAccess(c.revokedAccess, now) == map[];
      assert LiveGrants(s.revokedGrants, now) == LiveGrants(c.revokedGrants, now) == map[];
      assert CleanState(s, now).window == RefreshWindow(0, now + WINDOW_MS);
    }
  }

  /** The two sides of an operation that looks only at the cleaned state. */
  predicate SameStep(left: Transition, right: Transition, a: Option<State>, b: Option<State>) {
    && left.reply == right.reply
    && (|| (left.state == right.state && left.changed == (a != Some(left.state)) && right.changed == (b != Some(left.state)))
        || (!left.changed && !right.changed))
  }

  lemma SignInSeesTheSame(a: Option<State>, b: Option<State>, s: State, pair: LinkedPair, now: int)
    ensures SameStep(Activate(a, s, pair, now), Activate(b, s, pair, now), a, b)
  {
  }

  lemma RefreshSeesTheSame(a: Option<State>, b: Option<State>, s: State, pair: LinkedPair, next: LinkedPair, terminal: bool, now: int)
    ensures SameStep(Begin(a, s, pair, now), Begin(b, s, pair, now), a, b)
    ensures SameStep(Complete(a, s, pair, next, now), Complete(b, s, pair, next, now), a, b)
    ensures SameStep(Abort(a, s, pair, terminal, now), Abort(b, s, pair, terminal, now), a, b)
  {
  }

  lemma LogoutsSeeTheSame(a: Option<State>, b: Option<State>, s: State, pair: LinkedPair, now: int)
    ensures SameStep(Logout(a, s, pair, now), Logout(b, s, pair, now), a, b)
    ensures SameStep(LinkedLogout(a, s, pair, now), LinkedLogout(b, s, pair, now), a, b)
  {
  }

  /** Stored states are never quiescent, so equal results are stored alike. */
  lemma StoredAlike(a: Option<State>, b: Option<State>, left: Transition, right: Transition)
    requires SameStep(left, right, a, b)
    requires (a.Some? ==> !Quiescent(a.value)) && (b.Some? ==> !Quiescent(b.value))
    ensures var a', b' := if left.changed then Kept(left.state) else a, if right.changed then Kept(right.state) else b;
            a' == b' || (a' == a && b' == b)
  {
  }

  lemma SignInAgrees(s: State, earlier: int, pair: LinkedPair, now: int)
    requires Accepted(s) && WindowSettled(s, earlier) && earlier <= now && !RepeatDiffers(s, earlier, pair)
    ensures var a, b := Some(s), Kept(CleanState(s, earlier));
            SameStep(ApplyActivatePair(a, pair, now), ApplyActivatePair(b, pair, now), a, b)
  {
    CleansAlike(s, earlier, now);
    SignInSeesTheSame(Some(s), Kept(CleanState(s, earlier)), CleanState(s, now), pair, now);
  }

  lemma CompletionAgrees(s: State, earlier: int, previous: LinkedPair, next: LinkedPair, now: int)
    requires Accepted(s) && WindowSettled(s, earlier) && earlier <= now && !StaleCollision(s, earlier, previous, next)
    ensures var a, b := Some(s), Kept(CleanState(s, earlier));
            SameStep(ApplyCompleteRefresh(a, previous, next, now), ApplyCompleteRefresh(b, previous, next, now), a, b)
  {
    CleansAlike(s, earlier, now);
    CleaningOnlyForgetsTombstones(s, earlier, next);
    RefreshSeesTheSame(Some(s), Kept(CleanState(s, earlier)), CleanState(s, now), previous, next, false, now);
  }

  lemma OthersAgree(s: State, earlier: int, pair: LinkedPair, terminal: bool, now: int)
    requires Accepted(s) && WindowSettled(s, earlier) && earlier <= now
    ensures var a, b := Some(s), Kept(CleanState(s, earlier));
            && SameStep(ApplyBeginRefresh(a, pair, now), ApplyBeginRefresh(b, pair, now), a, b)
            && SameStep(ApplyAbortRefresh(a, pair, terminal, now), ApplyAbortRefresh(b, pair, terminal, now), a, b)
            && SameStep(ApplyRevokeByAccess(a, pair, now), ApplyRevokeByAccess(b, pair, now), a, b)
            && SameStep(ApplyRevokeByGrant(a, pair, now), ApplyRevokeByGrant(b, pair, now), a, b)
  {
    CleansAlike(s, earlier, now);
    RefreshSeesTheSame(Some(s), Kept(CleanState(s, earlier)), CleanState(s, now), pair, pair, terminal, now);
    LogoutsSeeTheSame(Some(s), Kept(CleanState(s, earlier)), CleanState(s, now), pair, now);
  }

  lemma TransitionsAgree(s: State, earlier: int, e: Event)
    requires Accepted(s) && WindowSettled(s, earlier) && Guarded(s, earlier, e)
    requires !e.command.CheckAccess? && !e.command.Alarm?
    ensures var a, b := Some(s), Kept(CleanState(s, earlier));
            SameStep(Apply(a, e.command, e.now), Apply(b, e.command, e.now), a, b)
  {
    match e.command
    case ActivatePair(pair) => SignInAgrees(s, earlier, pair, e.now);
    case BeginRefresh(pair) => OthersAgree(s, earlier, pair, false, e.now);
    case CompleteRefresh(previous, next) => CompletionAgrees(s, earlier, previous, next, e.now);
    case AbortRefresh(pair, terminal) => OthersAgree(s, earlier, pair, terminal, e.now);
    case RevokeByAccess(pair) => OthersAgree(s, earlier, pair, false, e.now);
    case RevokeByGrant(proof) => OthersAgree(s, earlier, proof, false, e.now);
  }

  lemma StepStaysInvisible(s: State, earlier: int, e: Event)
    requires Accepted(s) && !Quiescent(s) && WindowSettled(s, earlier) && Guarded(s, earlier, e)
    ensures var a, b := Some(s), Kept(CleanState(s, earlier));
            && Apply(a, e.command, e.now).reply == Apply(b, e.command, e.now).reply
            && (StoredAfter(a, e) == StoredAfter(b, e) || (StoredAfter(a, e) == a && StoredAfter(b, e) == b))
  {
    var a, b := Some(s), Kept(CleanState(s, earlier));
    if e.command.CheckAccess? || e.command.Alarm? {
      CleansAlike(s, earlier, e.now);
    } else {
      TransitionsAgree(s, earlier, e);
      StoredAlike(a, b, Apply(a, e.command, e.now), Apply(b, e.command, e.now));
    }
  }

  /** From a state whose window the cleanup leaves settled, no guarded continuation of any
      length gets a different reply. */
  lemma {:induction false} ContinuationStaysInvisible(s: State, earlier: int, events: seq<Event>)
    requires Accepted(s) && !Quiescent(s) && WindowSettled(s, earlier) && AllGuarded(s, earlier, events)
    ensures RepliesFrom(Some(s), events) == RepliesFrom(Kept(CleanState(s, earlier)), events)
    decreases |events|
  {
    if events != [] {
      StepStaysInvisible(s, earlier, events[0]);
      var a, b := Some(s), Kept(CleanState(s, earlier));
      if StoredAfter(a, events[0]) == a && StoredAfter(b, events[0]) == b {
        assert forall i :: 0 <= i < |events[1..]| ==> events[1..][i] == events[i + 1];
        ContinuationStaysInvisible(s, earlier, events[1..]);
      }
    }
  }
}
