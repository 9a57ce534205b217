/** The proved rates are the best possible: runs that attain them. */
module VnuRefreshRatesAttained {
  import opened Prelude
  import opened FixedWindows
  import opened VnuRefreshControl
  import opened VnuRefreshRuns
  import opened VnuRefreshRates
  import opened VnuRefreshCleanupRuns

  /** One pair is active, and nothing was ever revoked. */
  function Sitting(q: LinkedPair, lease: Option<RefreshLease>, window: RefreshWindow, activations: Option<RefreshWindow>): State {
    State(Some(q), lease, map[], map[], window, activations)
  }

  function LeaseOf(q: LinkedPair, now: int): RefreshLease {
    RefreshLease(q, Min(now + LEASE_MS, q.grantExpiresAt))
  }

  function Used(w: RefreshWindow): RefreshWindow {
    RefreshWindow(w.count + 1, w.resetAt)
  }

  lemma SittingCleans(q: LinkedPair, lease: Option<RefreshLease>, window: RefreshWindow, activations: Option<RefreshWindow>, now: int)
    requires now < q.grantExpiresAt && (lease.Some? ==> lease == Some(LeaseOf(q, now)))
    ensures CleanState(Sitting(q, lease, window, activations), now)
         == Sitting(q, lease, LiveWindow(window, now), LiveActivations(activations, now))
  {
  }

  lemma SittingBegins(q: LinkedPair, window: RefreshWindow, activations: Option<RefreshWindow>, now: int)
    requires q.WellFormed() && now < q.grantExpiresAt && LiveWindow(window, now).count < ATTEMPT_LIMIT
    ensures var stored, e := Some(Sitting(q, None, window, activations)), Event(BeginRefresh(q), now, now);
            && Apply(stored, e.command, now).reply == BeginAccepted(LeaseOf(q, now).expiresAt)
            && StoredAfter(stored, e)
               == Some(Sitting(q, Some(LeaseOf(q, now)), Used(LiveWindow(window, now)), LiveActivations(activations, now)))
            && RefreshAt()(stored, e) == [now] && SignInAt()(stored, e) == []
  {
    SittingCleans(q, None, window, activations, now);
  }

  lemma SittingAborts(q: LinkedPair, window: RefreshWindow, activations: Option<RefreshWindow>, now: int)
    requires q.WellFormed() && now < q.grantExpiresAt && now < window.resetAt
    ensures var stored, e := Some(Sitting(q, Some(LeaseOf(q, now)), window, activations)), Event(AbortRefresh(q, false), now, now);
            && Apply(stored, e.command, now).reply == Aborted
            && StoredAfter(stored, e) == Some(Sitting(q, None, window, LiveActivations(activations, now)))
            && RefreshAt()(stored, e) == []
  {
    SittingCleans(q, Some(LeaseOf(q, now)), window, activations, now);
  }

  function Another(activations: Option<RefreshWindow>, now: int): RefreshWindow {
    if activations.Some? then Used(activations.value) else RefreshWindow(1, now + ACTIVATION_WINDOW_MS)
  }

  /** Signing in again while a refresh is under way counts, and ends the lease. */
  lemma SittingSignsIn(q: LinkedPair, window: RefreshWindow, activations: Option<RefreshWindow>, now: int)
    requires q.WellFormed() && now < q.grantExpiresAt && now < window.resetAt
    requires activations == LiveActivations(activations, now) && (activations.Some? ==> activations.value.count < ACTIVATION_LIMIT)
    ensures var stored, e := Some(Sitting(q, Some(LeaseOf(q, now)), window, activations)), Event(ActivatePair(q), now, now);
            && Apply(stored, e.command, now).reply == Activated && Apply(stored, e.command, now).changed
            && StoredAfter(stored, e) == Some(Sitting(q, None, window, Some(Another(activations, now))))
            && SignInAt()(stored, e) == [now]
  {
    SittingCleans(q, Some(LeaseOf(q, now)), window, activations, now);
  }

  // ----------------------------------------------- what a continuation adds to a run

  type Outputs = (Option<State>, Event) -> seq<int>

  /** What a continuation outputs, event by event. */
  function Forward(out: Outputs, stored: Option<State>, events: seq<Event>): seq<int>
    decreases |events|
  {
    if events == [] then []
    else out(stored, events[0]) + Forward(out, StoredAfter(stored, events[0]), events[1..])
  }

  function Onward(stored: Option<State>, events: seq<Event>): Option<State> {
    if events == [] then stored else StoredAfter(Onward(stored, Front(events)), Last(events))
  }

  /** The same, taken apart from the end, as runs are. */
  function Collected(out: Outputs, stored: Option<State>, events: seq<Event>): seq<int> {
    if events == [] then []
    else Collected(out, stored, Front(events)) + out(Onward(stored, Front(events)), Last(events))
  }

  lemma {:induction false} ForwardExtends(out: Outputs, stored: Option<State>, events: seq<Event>, e: Event)
    ensures Forward(out, stored, events + [e]) == Forward(out, stored, events) + out(Continue(stored, events), e)
    ensures Continue(stored, events + [e]) == StoredAfter(Continue(stored, events), e)
    decreases |events|
  {
    var all := events + [e];
    if events == [] {
      assert all == [e] && all[1..] == [];
      assert Forward(out, stored, all) == out(stored, e) + Forward(out, StoredAfter(stored, e), []);
    } else {
      assert all[0] == events[0] && all[1..] == events[1..] + [e];
      ForwardExtends(out, StoredAfter(stored, events[0]), events[1..], e);
    }
  }

  lemma {:induction false} CollectedIsForward(out: Outputs, stored: Option<State>, events: seq<Event>)
    ensures Collected(out, stored, events) == Forward(out, stored, events)
    ensures Onward(stored, events) == Continue(stored, events)
  {
    if events != [] {
      CollectedIsForward(out, stored, Front(events));
      ForwardExtends(out, stored, Front(events), Last(events));
      assert events == Front(events) + [Last(events)];
    }
  }

  function RefreshAt(): Outputs {
    (stored: Option<State>, e: Event) => if e.command.BeginRefresh? then NextRefreshTimes([], stored, e) else []
  }

  function SignInAt(): Outputs {
    (stored: Option<State>, e: Event) => if e.command.ActivatePair? then NextActivationTimes([], stored, e) else []
  }

  lemma RefreshesOnly(stored: Option<State>, e: Event)
    ensures !e.command.BeginRefresh? ==> NextRefreshTimes([], stored, e) == []
  {
    if Apply(stored, e.command, e.now).reply.BeginAccepted? {
      OnlyBeginsAreAccepted(stored, e.command, e.now);
    }
  }

  lemma SignInsOnly(stored: Option<State>, e: Event)
    ensures !e.command.ActivatePair? ==> NextActivationTimes([], stored, e) == []
  {
    if Apply(stored, e.command, e.now).changed {
      ActivationEffect(stored, e.command, e.now);
    }
  }

  lemma {:induction false} TimesAreCollected(run: seq<Event>)
    ensures RefreshTimes(run) == Collected(RefreshAt(), None, run)
    ensures Replay(run).stored == Onward(None, run)
    decreases |run|
  {
    if run != [] {
      TimesAreCollected(Front(run));
      RefreshesOnly(Replay(Front(run)).stored, Last(run));
    }
  }

  lemma {:induction false} SignInTimesAreCollected(run: seq<Event>)
    ensures ActivationTimes(run) == Collected(SignInAt(), None, run)
    ensures Replay(run).stored == Onward(None, run)
    decreases |run|
  {
    if run != [] {
      SignInTimesAreCollected(Front(run));
      SignInsOnly(Replay(Front(run)).stored, Last(run));
    }
  }

  lemma TimesFromTheStart(run: seq<Event>)
    ensures RefreshTimes(run) == Forward(RefreshAt(), None, run)
    ensures ActivationTimes(run) == Forward(SignInAt(), None, run)
  {
    TimesAreCollected(run);
    SignInTimesAreCollected(run);
    CollectedIsForward(RefreshAt(), None, run);
    CollectedIsForward(SignInAt(), None, run);
  }

  /** Every event acts on the present, and signs in only the pair that is active. */
  predicate Plain(stored: Option<State>, clock: int, events: seq<Event>)
    decreases |events|
  {
    events == [] ||
    (&& clock <= events[0].now == events[0].clock <= MAX_TIME && !events[0].command.Alarm?
     && (events[0].command.ActivatePair? ==> stored.Some? && stored.value.active == Some(events[0].command.pair))
     && Plain(StoredAfter(stored, events[0]), events[0].clock, events[1..]))
  }

  lemma {:induction false} PlainStaysValid(run: seq<Event>, events: seq<Event>)
    requires ValidRun(run) && Plain(Replay(run).stored, ClockAfter(run), events)
    ensures ValidRun(run + events)
    decreases |events|
  {
    if events == [] {
      assert run + events == run;
    } else {
      var longer := run + [events[0]];
      assert Front(longer) == run && Last(longer) == events[0];
      assert Replay(longer).stored == StoredAfter(Replay(run).stored, events[0]);
      PlainStaysValid(longer, events[1..]);
      assert run + events == longer + events[1..];
    }
  }

  /** The state a first sign-in at 1000 leaves. */
  function SignedIn(q: LinkedPair): State {
    Sitting(q, None, RefreshWindow(0, 901_000), Some(RefreshWindow(1, 901_000)))
  }

  function FirstSignIn(q: LinkedPair): Event {
    Event(ActivatePair(q), 1000, 1000)
  }

  lemma FirstSignInStores(q: LinkedPair)
    requires q.WellFormed() && q.grantExpiresAt > 2_000_000
    ensures StoredAfter(None, FirstSignIn(q)) == Some(SignedIn(q))
    ensures Replay([FirstSignIn(q)]).stored == Some(SignedIn(q))
    ensures ValidRun([FirstSignIn(q)]) && ClockAfter([FirstSignIn(q)]) == 1000
    ensures NextRefreshTimes([], None, FirstSignIn(q)) == [] && NextActivationTimes([], None, FirstSignIn(q)) == [1000]
  {
    assert Front([FirstSignIn(q)]) == [];
    assert [] + [1000] == [1000];
  }

  lemma ThenValid(q: LinkedPair, events: seq<Event>)
    requires q.WellFormed() && q.grantExpiresAt > 2_000_000
    requires Plain(Some(SignedIn(q)), 1000, events)
    ensures ValidRun([FirstSignIn(q)] + events)
  {
    FirstSignInStores(q);
    PlainStaysValid([FirstSignIn(q)], events);
  }

  lemma ThenTimes(q: LinkedPair, events: seq<Event>)
    requires q.WellFormed() && q.grantExpiresAt > 2_000_000
    ensures RefreshTimes([FirstSignIn(q)] + events) == Forward(RefreshAt(), Some(SignedIn(q)), events)
    ensures ActivationTimes([FirstSignIn(q)] + events) == [1000] + Forward(SignInAt(), Some(SignedIn(q)), events)
  {
    var run := [FirstSignIn(q)] + events;
    FirstSignInStores(q);
    TimesFromTheStart(run);
    assert run[0] == FirstSignIn(q) && run[1..] == events;
  }

  lemma TwoOutputs(out: Outputs, stored: Option<State>, first: Event, second: Event, rest: seq<Event>)
    ensures var once := StoredAfter(stored, first);
            Forward(out, stored, [first, second] + rest) == out(stored, first) + (out(once, second) + Forward(out, StoredAfter(once, second), rest))
  {
    var events := [first, second] + rest;
    assert events[0] == first && events[1..] == [second] + rest;
    assert ([second] + rest)[0] == second && ([second] + rest)[1..] == rest;
  }

  lemma TwoPlain(stored: Option<State>, clock: int, first: Event, second: Event, rest: seq<Event>)
    requires Plain(stored, clock, [first]) && Plain(StoredAfter(stored, first), first.clock, [second])
    requires Plain(StoredAfter(StoredAfter(stored, first), second), second.clock, rest)
    ensures Plain(stored, clock, [first, second] + rest)
  {
    var events := [first, second] + rest;
    assert events[0] == first && events[1..] == [second] + rest;
    assert ([second] + rest)[0] == second && ([second] + rest)[1..] == rest;
  }

  // ------------------------------------------------------------------- refreshes

  /** Refreshes begun and given up, so many at each instant of the list. */
  function Refreshes(q: LinkedPair, times: seq<int>): seq<Event> {
    if times == [] then []
    else Round(q, times[0]) + Refreshes(q, times[1..])
  }

  /** The window takes every begin of the list. */
  predicate Takes(window: RefreshWindow, times: seq<int>)
    decreases |times|
  {
    times == [] ||
    (LiveWindow(window, times[0]).count < ATTEMPT_LIMIT && Takes(Used(LiveWindow(window, times[0])), times[1..]))
  }

  function Round(q: LinkedPair, now: int): seq<Event> {
    [Event(BeginRefresh(q), now, now), Event(AbortRefresh(q, false), now, now)]
  }

  lemma RefreshRoundIsPlain(q: LinkedPair, window: RefreshWindow, activations: Option<RefreshWindow>, clock: int, now: int, rest: seq<Event>)
    requires q.WellFormed() && clock <= now < q.grantExpiresAt && now <= MAX_TIME && LiveWindow(window, now).count < ATTEMPT_LIMIT
    requires Plain(Some(Sitting(q, None, Used(LiveWindow(window, now)), LiveActivations(activations, now))), now, rest)
    ensures Plain(Some(Sitting(q, None, window, activations)), clock, Round(q, now) + rest)
  {
    SittingBegins(q, window, activations, now);
    SittingAborts(q, Used(LiveWindow(window, now)), LiveActivations(activations, now), now);
    TwoPlain(Some(Sitting(q, None, window, activations)), clock, Round(q, now)[0], Round(q, now)[1], rest);
  }

  lemma RefreshRoundCounts(q: LinkedPair, window: RefreshWindow, activations: Option<RefreshWindow>, now: int, rest: seq<Event>)
    requires q.WellFormed() && now < q.grantExpiresAt && LiveWindow(window, now).count < ATTEMPT_LIMIT
    ensures Forward(RefreshAt(), Some(Sitting(q, None, window, activations)), Round(q, now) + rest)
         == [now] + Forward(RefreshAt(), Some(Sitting(q, None, Used(LiveWindow(window, now)), LiveActivations(activations, now))), rest)
  {
    SittingBegins(q, window, activations, now);
    SittingAborts(q, Used(LiveWindow(window, now)), LiveActivations(activations, now), now);
    TwoOutputs(RefreshAt(), Some(Sitting(q, None, window, activations)), Round(q, now)[0], Round(q, now)[1], rest);
  }

  lemma {:induction false} RefreshesArePlain(q: LinkedPair, window: RefreshWindow, activations: Option<RefreshWindow>, clock: int, times: seq<int>)
    requires q.WellFormed() && Takes(window, times) && Sorted(times)
    requires forall i :: 0 <= i < |times| ==> clock <= times[i] < q.grantExpiresAt && times[i] <= MAX_TIME
    ensures Plain(Some(Sitting(q, None, window, activations)), clock, Refreshes(q, times))
    decreases |times|
  {
    if times != [] {
      var now, rest := times[0], times[1..];
      RefreshesArePlain(q, Used(LiveWindow(window, now)), LiveActivations(activations, now), now, rest);
      RefreshRoundIsPlain(q, window, activations, clock, now, Refreshes(q, rest));
    }
  }

  lemma {:induction false} RefreshesCount(q: LinkedPair, window: RefreshWindow, activations: Option<RefreshWindow>, times: seq<int>)
    requires q.WellFormed() && Takes(window, times) && forall i :: 0 <= i < |times| ==> times[i] < q.grantExpiresAt
    ensures Forward(RefreshAt(), Some(Sitting(q, None, window, activations)), Refreshes(q, times)) == times
    decreases |times|
  {
    if times != [] {
      var now, rest := times[0], times[1..];
      RefreshesCount(q, Used(LiveWindow(window, now)), LiveActivations(activations, now), rest);
      RefreshRoundCounts(q, window, activations, now, Refreshes(q, rest));
      assert times == [now] + rest;
    }
  }

  /** Ten refreshes in one closed quarter of an hour. */
  lemma RefreshRateIsAttained(q: LinkedPair) returns (run: seq<Event>)
    requires q.WellFormed() && q.grantExpiresAt > 2_000_000
    ensures ValidRun(run)
    ensures CountIn(RefreshTimes(run), 1000, 1000 + WINDOW_MS) == 10
  {
    var times := TenTimes();
    run := [FirstSignIn(q)] + Refreshes(q, times);
    RefreshesArePlain(q, RefreshWindow(0, 901_000), Some(RefreshWindow(1, 901_000)), 1000, times);
    RefreshesCount(q, RefreshWindow(0, 901_000), Some(RefreshWindow(1, 901_000)), times);
    ThenValid(q, Refreshes(q, times));
    ThenTimes(q, Refreshes(q, times));
    CountAll(times, 1000, 901_000);
  }

  lemma TenTimes() returns (times: seq<int>)
    ensures |times| == 10 && Sorted(times) && forall i :: 0 <= i < 10 ==> 1000 <= times[i] <= 901_000
    ensures Takes(RefreshWindow(0, 901_000), times)
  {
    times := [1000, 1000, 1000, 1000, 1000, 901_000, 901_000, 901_000, 901_000, 901_000];
    TenAreTaken(times);
  }

  lemma TakesOne(window: RefreshWindow, times: seq<int>)
    requires times != [] && LiveWindow(window, times[0]).count < ATTEMPT_LIMIT && Takes(Used(LiveWindow(window, times[0])), times[1..])
    ensures Takes(window, times)
  {
  }

  lemma TenAreTaken(times: seq<int>)
    requires times == [1000, 1000, 1000, 1000, 1000, 901_000, 901_000, 901_000, 901_000, 901_000]
    ensures Takes(RefreshWindow(0, 901_000), times)
  {
    FiveAreTaken(RefreshWindow(5, 901_000), 901_000, times[5..], 5);
    TakesOne(RefreshWindow(4, 901_000), times[4..]);
    TakesOne(RefreshWindow(3, 901_000), times[3..]);
    TakesOne(RefreshWindow(2, 901_000), times[2..]);
    TakesOne(RefreshWindow(1, 901_000), times[1..]);
    TakesOne(RefreshWindow(0, 901_000), times);
  }

  lemma {:induction false} FiveAreTaken(window: RefreshWindow, now: int, times: seq<int>, n: nat)
    requires |times| == n <= ATTEMPT_LIMIT && forall i :: 0 <= i < n ==> times[i] == now
    requires LiveWindow(window, now).count + n <= ATTEMPT_LIMIT
    ensures Takes(window, times)
    decreases n
  {
    if n > 0 {
      FiveAreTaken(Used(LiveWindow(window, now)), now, times[1..], n - 1);
    }
  }

  // -------------------------------------------------------------------- sign-ins

  /** Sign-ins that count because a refresh is under way. */
  function SignInRounds(q: LinkedPair, times: seq<int>): seq<Event> {
    if times == [] then []
    else SignInRound(q, times[0]) + SignInRounds(q, times[1..])
  }

  /** The two windows take every round of the list. */
  predicate TakesBoth(window: RefreshWindow, activations: Option<RefreshWindow>, times: seq<int>)
    decreases |times|
  {
    times == [] ||
    (var live := LiveActivations(activations, times[0]);
     && LiveWindow(window, times[0]).count < ATTEMPT_LIMIT
     && (live.Some? ==> live.value.count < ACTIVATION_LIMIT)
     && TakesBoth(Used(LiveWindow(window, times[0])), Some(Another(live, times[0])), times[1..]))
  }

  function SignInRound(q: LinkedPair, now: int): seq<Event> {
    [Event(BeginRefresh(q), now, now), Event(ActivatePair(q), now, now)]
  }

  lemma SignInRoundIsPlain(q: LinkedPair, window: RefreshWindow, activations: Option<RefreshWindow>, clock: int, now: int, rest: seq<Event>)
    requires q.WellFormed() && clock <= now < q.grantExpiresAt && now <= MAX_TIME && LiveWindow(window, now).count < ATTEMPT_LIMIT
    requires var live := LiveActivations(activations, now); live.Some? ==> live.value.count < ACTIVATION_LIMIT
    requires Plain(Some(Sitting(q, None, Used(LiveWindow(window, now)), Some(Another(LiveActivations(activations, now), now)))), now, rest)
    ensures Plain(Some(Sitting(q, None, window, activations)), clock, SignInRound(q, now) + rest)
  {
    SittingBegins(q, window, activations, now);
    SittingSignsIn(q, Used(LiveWindow(window, now)), LiveActivations(activations, now), now);
    TwoPlain(Some(Sitting(q, None, window, activations)), clock, SignInRound(q, now)[0], SignInRound(q, now)[1], rest);
  }

  lemma SignInRoundCounts(q: LinkedPair, window: RefreshWindow, activations: Option<RefreshWindow>, now: int, rest: seq<Event>)
    requires q.WellFormed() && now < q.grantExpiresAt && LiveWindow(window, now).count < ATTEMPT_LIMIT
    requires var live := LiveActivations(activations, now); live.Some? ==> live.value.count < ACTIVATION_LIMIT
    ensures Forward(SignInAt(), Some(Sitting(q, None, window, activations)), SignInRound(q, now) + rest)
         == [now] + Forward(SignInAt(), Some(Sitting(q, None, Used(LiveWindow(window, now)), Some(Another(LiveActivations(activations, now), now)))), rest)
  {
    SittingBegins(q, window, activations, now);
    SittingSignsIn(q, Used(LiveWindow(window, now)), LiveActivations(activations, now), now);
    TwoOutputs(SignInAt(), Some(Sitting(q, None, window, activations)), SignInRound(q, now)[0], SignInRound(q, now)[1], rest);
  }

  lemma {:induction false} RoundsArePlain(q: LinkedPair, window: RefreshWindow, activations: Option<RefreshWindow>, clock: int, times: seq<int>)
    requires q.WellFormed() && TakesBoth(window, activations, times) && Sorted(times)
    requires forall i :: 0 <= i < |times| ==> clock <= times[i] < q.grantExpiresAt && times[i] <= MAX_TIME
    ensures Plain(Some(Sitting(q, None, window, activations)), clock, SignInRounds(q, times))
    decreases |times|
  {
    if times != [] {
      var now, rest := times[0], times[1..];
      RoundsArePlain(q, Used(LiveWindow(window, now)), Some(Another(LiveActivations(activations, now), now)), now, rest);
      SignInRoundIsPlain(q, window, activations, clock, now, SignInRounds(q, rest));
    }
  }

  lemma {:induction false} RoundsCount(q: LinkedPair, window: RefreshWindow, activations: Option<RefreshWindow>, times: seq<int>)
    requires q.WellFormed() && TakesBoth(window, activations, times) && forall i :: 0 <= i < |times| ==> times[i] < q.grantExpiresAt
    ensures Forward(SignInAt(), Some(Sitting(q, None, window, activations)), SignInRounds(q, times)) == times
    decreases |times|
  {
    if times != [] {
      var now, rest := times[0], times[1..];
      RoundsCount(q, Used(LiveWindow(window, now)), Some(Another(LiveActivations(activations, now), now)), rest);
      SignInRoundCounts(q, window, activations, now, SignInRounds(q, rest));
      assert times == [now] + rest;
    }
  }

  /** Ten sign-ins that change something in one closed quarter of an hour. */
  lemma ActivationRateIsAttained(q: LinkedPair) returns (run: seq<Event>)
    requires q.WellFormed() && q.grantExpiresAt > 2_000_000
    ensures ValidRun(run)
    ensures CountIn(ActivationTimes(run), 1000, 1000 + ACTIVATION_WINDOW_MS) == 10
  {
    var times := NineTimes();
    run := [FirstSignIn(q)] + SignInRounds(q, times);
    RoundsArePlain(q, RefreshWindow(0, 901_000), Some(RefreshWindow(1, 901_000)), 1000, times);
    RoundsCount(q, RefreshWindow(0, 901_000), Some(RefreshWindow(1, 901_000)), times);
    ThenValid(q, SignInRounds(q, times));
    ThenTimes(q, SignInRounds(q, times));
    CountAll([1000] + times, 1000, 901_000);
  }

  lemma NineTimes() returns (times: seq<int>)
    ensures |times| == 9 && Sorted(times) && forall i :: 0 <= i < 9 ==> 1000 <= times[i] <= 901_000
    ensures TakesBoth(RefreshWindow(0, 901_000), Some(RefreshWindow(1, 901_000)), times)
  {
    times := [1000, 1000, 1000, 1000, 901_000, 901_000, 901_000, 901_000, 901_000];
    NineAreTaken(times);
  }

  lemma TakesOneRound(window: RefreshWindow, activations: Option<RefreshWindow>, times: seq<int>)
    requires times != []
    requires var live := LiveActivations(activations, times[0]);
             && LiveWindow(window, times[0]).count < ATTEMPT_LIMIT && (live.Some? ==> live.value.count < ACTIVATION_LIMIT)
             && TakesBoth(Used(LiveWindow(window, times[0])), Some(Another(live, times[0])), times[1..])
    ensures TakesBoth(window, activations, times)
  {
  }

  lemma NineAreTaken(times: seq<int>)
    requires times == [1000, 1000, 1000, 1000, 901_000, 901_000, 901_000, 901_000, 901_000]
    ensures TakesBoth(RefreshWindow(0, 901_000), Some(RefreshWindow(1, 901_000)), times)
  {
    RoundsAreTaken(RefreshWindow(4, 901_000), Some(RefreshWindow(5, 901_000)), 901_000, times[4..], 5);
    TakesOneRound(RefreshWindow(3, 901_000), Some(RefreshWindow(4, 901_000)), times[3..]);
    TakesOneRound(RefreshWindow(2, 901_000), Some(RefreshWindow(3, 901_000)), times[2..]);
    TakesOneRound(RefreshWindow(1, 901_000), Some(RefreshWindow(2, 901_000)), times[1..]);
    TakesOneRound(RefreshWindow(0, 901_000), Some(RefreshWindow(1, 901_000)), times);
  }

  lemma {:induction false} RoundsAreTaken(window: RefreshWindow, activations: Option<RefreshWindow>, now: int, times: seq<int>, n: nat)
    requires |times| == n && forall i :: 0 <= i < n ==> times[i] == now
    requires LiveWindow(window, now).count + n <= ATTEMPT_LIMIT
    requires var live := LiveActivations(activations, now); (if live.Some? then live.value.count else 0) + n <= ACTIVATION_LIMIT
    ensures TakesBoth(window, activations, times)
    decreases n
  {
    if n > 0 {
      RoundsAreTaken(Used(LiveWindow(window, now)), Some(Another(LiveActivations(activations, now), now)), now, times[1..], n - 1);
    }
  }
}
