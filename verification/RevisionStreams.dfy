/** In-process revision streams (apps/worker/src/policy/feature-policy-store.ts): one
    event stream per subscriber, fed by publications. */
module RevisionStreams {
  import opened Prelude
  import opened PolicyRuntime

  const MAX_SUBSCRIBERS: nat := 256

  /** `had` is the revision the subscriber said it has, or -1; `emitted` is everything
      written to the stream so far. */
  datatype Stream = Stream(had: int, seen: int, open: bool, emitted: seq<int>)

  /** The newest revision that has reached the subscriber. */
  function Told(t: Stream): int {
    if t.emitted == [] then t.had else Max(t.had, Last(t.emitted))
  }

  datatype Events = Events(highestRevision: int, activeStreams: int, streams: seq<Stream>)

  function Emit(t: Stream, revision: int, broken: bool): Stream {
    if !t.open || revision <= t.seen then t
    else if broken then t.(seen := revision, open := false)
    else t.(seen := revision, emitted := t.emitted + [revision])
  }

  function OpenCount(streams: seq<Stream>): nat {
    if streams == [] then 0 else OpenCount(Front(streams)) + if Last(streams).open then 1 else 0
  }

  /** `broken[i]` when writing to stream i fails. */
  function EmitAll(streams: seq<Stream>, revision: int, broken: seq<bool>): (r: seq<Stream>)
    requires |broken| == |streams|
    ensures |r| == |streams|
    ensures forall i :: 0 <= i < |streams| ==> r[i] == Emit(streams[i], revision, broken[i])
  {
    seq(|streams|, i requires 0 <= i < |streams| => Emit(streams[i], revision, broken[i]))
  }

  function AfterPublish(e: Events, revision: int, broken: seq<bool>): Events
    requires |broken| == |e.streams|
  {
    if !IsRevision(revision) then e
    else
      var streams := EmitAll(e.streams, revision, broken);
      Events(Max(e.highestRevision, revision), e.activeStreams - (OpenCount(e.streams) - OpenCount(streams)), streams)
  }

  function NewStream(e: Events, lastRevision: Option<int>, currentRevision: int): Stream {
    var current := Max(currentRevision, e.highestRevision);
    var had := if lastRevision.Some? && IsRevision(lastRevision.value) then lastRevision.value else -1;
    if IsRevision(current) && current > had then Stream(had, current, true, [current]) else Stream(had, had, true, [])
  }

  function AfterOpen(e: Events, lastRevision: Option<int>, currentRevision: int): Events {
    if e.activeStreams >= MAX_SUBSCRIBERS then e
    else e.(activeStreams := e.activeStreams + 1, streams := e.streams + [NewStream(e, lastRevision, currentRevision)])
  }

  function AfterClose(e: Events, i: nat): Events {
    if i < |e.streams| && e.streams[i].open then
      e.(activeStreams := e.activeStreams - 1, streams := e.streams[i := e.streams[i].(open := false)])
    else e
  }

  predicate Increasing(ns: seq<int>) {
    forall i, j :: 0 <= i < j < |ns| ==> ns[i] < ns[j]
  }

  predicate StreamOk(t: Stream, highest: int) {
    && Increasing(t.emitted)
    && (forall i :: 0 <= i < |t.emitted| ==> IsRevision(t.emitted[i]) && t.emitted[i] <= t.seen)
    && (t.emitted != [] ==> t.had < t.emitted[0])
    && (t.open ==> highest <= t.seen == Told(t))
  }

  predicate EventsOk(e: Events) {
    && -1 <= e.highestRevision
    && e.activeStreams == OpenCount(e.streams) <= MAX_SUBSCRIBERS
    && forall i :: 0 <= i < |e.streams| ==> StreamOk(e.streams[i], e.highestRevision)
  }

  // ------------------------------------------------------------------- counting

  lemma {:induction false} OpenCountChanges(before: seq<Stream>, i: nat, t: Stream)
    requires i < |before|
    ensures OpenCount(before[i := t]) == OpenCount(before) - (if before[i].open then 1 else 0) + (if t.open then 1 else 0)
  {
    if i < |before| - 1 {
      OpenCountChanges(Front(before), i, t);
      assert Front(before[i := t]) == Front(before)[i := t];
    } else {
      assert Front(before[i := t]) == Front(before);
    }
  }

  lemma {:induction false} OpenCountOfFewer(before: seq<Stream>, after: seq<Stream>)
    requires |before| == |after|
    requires forall i :: 0 <= i < |before| && after[i].open ==> before[i].open
    ensures OpenCount(after) <= OpenCount(before)
  {
    if before != [] {
      OpenCountOfFewer(Front(before), Front(after));
    }
  }

  // ----------------------------------------------------------------- preservation

  lemma EmittingKeepsStreamOk(t: Stream, highest: int, revision: int, broken: bool)
    requires StreamOk(t, highest) && IsRevision(revision)
    ensures StreamOk(Emit(t, revision, broken), Max(highest, revision))
  {
  }

  lemma PublishKeepsOk(e: Events, revision: int, broken: seq<bool>)
    requires EventsOk(e) && |broken| == |e.streams|
    ensures EventsOk(AfterPublish(e, revision, broken))
  {
    if IsRevision(revision) {
      var streams := EmitAll(e.streams, revision, broken);
      OpenCountOfFewer(e.streams, streams);
      forall i | 0 <= i < |streams|
        ensures StreamOk(streams[i], Max(e.highestRevision, revision))
      {
        EmittingKeepsStreamOk(e.streams[i], e.highestRevision, revision, broken[i]);
      }
    }
  }

  lemma OpenKeepsOk(e: Events, lastRevision: Option<int>, currentRevision: int)
    requires EventsOk(e) && e.highestRevision <= MAX_SAFE_INTEGER && currentRevision <= MAX_SAFE_INTEGER
    ensures EventsOk(AfterOpen(e, lastRevision, currentRevision))
    ensures e.activeStreams < MAX_SUBSCRIBERS ==> currentRevision <= NewStream(e, lastRevision, currentRevision).seen
  {
    var t := NewStream(e, lastRevision, currentRevision);
    assert Front(e.streams + [t]) == e.streams;
    assert StreamOk(t, e.highestRevision);
  }

  lemma CloseKeepsOk(e: Events, i: nat)
    requires EventsOk(e)
    ensures EventsOk(AfterClose(e, i))
  {
    if i < |e.streams| && e.streams[i].open {
      OpenCountChanges(e.streams, i, e.streams[i].(open := false));
    }
  }

  // -------------------------------------------------------------------- the class

  /** Every listener in turn; one whose write fails closes its stream. */
  method CallListeners(before: seq<Stream>, active: int, revision: int, broken: seq<bool>) returns (streams: seq<Stream>, activeStreams: int)
    requires |broken| == |before|
    ensures streams == EmitAll(before, revision, broken)
    ensures activeStreams == active - (OpenCount(before) - OpenCount(streams))
  {
    streams, activeStreams := before, active;
    for i := 0 to |before|
      invariant |streams| == |before|
      invariant forall k :: 0 <= k < i ==> streams[k] == Emit(before[k], revision, broken[k])
      invariant forall k :: i <= k < |before| ==> streams[k] == before[k]
      invariant activeStreams == active - (OpenCount(before) - OpenCount(streams))
    {
      var t := Emit(streams[i], revision, broken[i]);
      OpenCountChanges(streams, i, t);
      if !t.open && streams[i].open {
        activeStreams := activeStreams - 1;
      }
      streams := streams[i := t];
    }
  }

  class InProcessFeaturePolicyEvents {
    var highestRevision: int
    var activeStreams: int
    var streams: seq<Stream>

    function Contents(): Events
      reads this
    {
      Events(highestRevision, activeStreams, streams)
    }

    predicate Valid()
      reads this
    {
      EventsOk(Contents()) && highestRevision <= MAX_SAFE_INTEGER
    }

    constructor ()
      ensures Valid() && Contents() == Events(-1, 0, [])
    {
      highestRevision, activeStreams, streams := -1, 0, [];
    }

    method Publish(revision: int, broken: seq<bool>)
      requires Valid() && |broken| == |streams|
      modifies this
      ensures Valid()
      ensures Contents() == AfterPublish(old(Contents()), revision, broken)
    {
      ghost var before := Contents();
      PublishKeepsOk(before, revision, broken);
      if !IsRevision(revision) {
        return;
      }
      highestRevision := Max(highestRevision, revision);
      streams, activeStreams := CallListeners(streams, activeStreams, revision, broken);
    }

    /** `aborted` when the caller's signal had already fired. */
    method OpenStream(lastRevision: Option<int>, aborted: bool, currentRevision: int) returns (accepted: bool)
      requires Valid() && currentRevision <= MAX_SAFE_INTEGER
      modifies this
      ensures Valid()
      ensures accepted <==> old(activeStreams) < 256
      ensures var after := AfterOpen(old(Contents()), lastRevision, currentRevision);
              Contents() == if accepted && aborted then AfterClose(after, |after.streams| - 1) else after
    {
      OpenKeepsOk(Contents(), lastRevision, currentRevision);
      if activeStreams >= MAX_SUBSCRIBERS {
        return false;
      }
      var t := NewStream(Contents(), lastRevision, currentRevision);
      activeStreams := activeStreams + 1;
      streams := streams + [t];
      if aborted {
        CloseStream(|streams| - 1);
      }
      accepted := true;
    }

    /** Abort, cancel or a failed write; only the first counts. */
    method CloseStream(i: nat)
      requires Valid() && i < |streams|
      modifies this
      ensures Valid()
      ensures Contents() == AfterClose(old(Contents()), i)
    {
      CloseKeepsOk(Contents(), i);
      if !streams[i].open {
        return;
      }
      streams := streams[i := streams[i].(open := false)];
      activeStreams := activeStreams - 1;
    }
  }

  // ------------------------------------------------- one operation, stream by stream

  function OpenOnes(streams: seq<Stream>): set<nat> {
    set i: nat | i < |streams| && streams[i].open
  }

  lemma {:induction false} OpenCountIs(streams: seq<Stream>)
    ensures OpenCount(streams) == |OpenOnes(streams)|
  {
    if streams != [] {
      OpenCountIs(Front(streams));
      var last: nat := |streams| - 1;
      assert OpenOnes(streams) == OpenOnes(Front(streams)) + if streams[last].open then {last} else {};
    }
  }

  /** A publication is written once to every open stream that has seen less, and a stream it
      cannot be written to is closed; no other stream notices. */
  lemma PublishReaches(e: Events, revision: int, broken: seq<bool>)
    requires EventsOk(e) && |broken| == |e.streams|
    ensures var after := AfterPublish(e, revision, broken);
            if revision < 0 || !SafeInteger(revision) then after == e
            else
              && |after.streams| == |e.streams|
              && (forall i :: 0 <= i < |e.streams| ==>
                    var t, u := e.streams[i], after.streams[i];
                    if t.open && t.seen < revision then
                      && u.had == t.had && u.seen == revision && u.open == !broken[i]
                      && u.emitted == t.emitted + if broken[i] then [] else [revision]
                    else u == t)
              && after.highestRevision >= revision && after.highestRevision >= e.highestRevision
              && after.highestRevision in {revision, e.highestRevision}
              && after.activeStreams == |OpenOnes(after.streams)|
  {
    PublishKeepsOk(e, revision, broken);
    OpenCountIs(AfterPublish(e, revision, broken).streams);
  }

  /** Below 256 streams one more opens, and is told of the newest revision known here or to
      the caller, exactly if that is newer than the one it says it had. */
  lemma OpeningTells(e: Events, lastRevision: Option<int>, currentRevision: int)
    requires EventsOk(e) && e.highestRevision <= MAX_SAFE_INTEGER && currentRevision <= MAX_SAFE_INTEGER
    ensures var after := AfterOpen(e, lastRevision, currentRevision);
            if |OpenOnes(e.streams)| >= 256 then after == e
            else
              && |after.streams| == |e.streams| + 1 && after.streams[..|e.streams|] == e.streams
              && after.highestRevision == e.highestRevision && after.activeStreams == e.activeStreams + 1
              && var t := Last(after.streams);
                 && t.open && t.seen == Told(t)
                 && t.had == (match lastRevision case Some(n) => if 0 <= n && SafeInteger(n) then n else -1 case None => -1)
                 && Told(t) >= t.had && Told(t) >= currentRevision && Told(t) >= e.highestRevision
                 && (Told(t) == t.had ==> t.emitted == [])
                 && (Told(t) != t.had ==> t.emitted == [Told(t)] && Told(t) in {currentRevision, e.highestRevision})
  {
    OpenCountIs(e.streams);
  }

  lemma ClosingIs(e: Events, i: nat)
    requires EventsOk(e)
    ensures var after := AfterClose(e, i);
            && after.highestRevision == e.highestRevision && |after.streams| == |e.streams|
            && OpenOnes(after.streams) == OpenOnes(e.streams) - {i}
            && after.activeStreams == |OpenOnes(after.streams)|
            && forall k :: 0 <= k < |e.streams| ==>
                 after.streams[k] == if k == i then e.streams[k].(open := false) else e.streams[k]
  {
    CloseKeepsOk(e, i);
    OpenCountIs(AfterClose(e, i).streams);
  }

  // --------------------------------------------------------------------- whole runs

  datatype Step =
    | Publish(revision: int, broken: seq<bool>)
    | Open(lastRevision: Option<int>, currentRevision: int)
    | Close(i: nat)

  predicate Fits(e: Events, step: Step) {
    match step
    case Publish(_, broken) => |broken| == |e.streams|
    case Open(_, current) => current <= MAX_SAFE_INTEGER
    case Close(_) => true
  }

  function Perform(e: Events, step: Step): Events
    requires Fits(e, step)
  {
    match step
    case Publish(revision, broken) => AfterPublish(e, revision, broken)
    case Open(last, current) => AfterOpen(e, last, current)
    case Close(i) => AfterClose(e, i)
  }

  ghost predicate StepsTo(before: Events, step: Step, e: Events) {
    Fits(before, step) && Perform(before, step) == e
  }

  ghost predicate Reaches(steps: seq<Step>, e: Events) {
    if steps == [] then e == Events(-1, 0, [])
    else exists before :: Reaches(Front(steps), before) && StepsTo(before, Last(steps), e)
  }

  /** One stream over one step: nothing written is unwritten, and what is added comes later. */
  predicate Continues(t: Stream, u: Stream) {
    && t.had == u.had && t.seen <= u.seen
    && t.emitted <= u.emitted
    && (u.open ==> t.open)
    && (!t.open ==> u == t)
  }

  lemma StepKeepsOk(e: Events, step: Step)
    requires EventsOk(e) && e.highestRevision <= MAX_SAFE_INTEGER && Fits(e, step)
    ensures EventsOk(Perform(e, step)) && Perform(e, step).highestRevision <= MAX_SAFE_INTEGER
    ensures e.highestRevision <= Perform(e, step).highestRevision
    ensures |e.streams| <= |Perform(e, step).streams|
    ensures forall i :: 0 <= i < |e.streams| ==> Continues(e.streams[i], Perform(e, step).streams[i])
  {
    match step
    case Publish(revision, broken) => PublishKeepsOk(e, revision, broken);
    case Open(last, current) => OpenKeepsOk(e, last, current);
    case Close(i) => CloseKeepsOk(e, i);
  }

  lemma {:induction false} ReachableIsOk(steps: seq<Step>, e: Events)
    requires Reaches(steps, e)
    ensures EventsOk(e) && e.highestRevision <= MAX_SAFE_INTEGER
  {
    if steps != [] {
      var before :| Reaches(Front(steps), before) && StepsTo(before, Last(steps), e);
      ReachableIsOk(Front(steps), before);
      StepKeepsOk(before, Last(steps));
    }
  }

  lemma {:induction false} PublishedIsAtMostHighest(steps: seq<Step>, e: Events, k: nat)
    requires Reaches(steps, e) && k < |steps| && steps[k].Publish? && IsRevision(steps[k].revision)
    ensures steps[k].revision <= e.highestRevision
  {
    var before :| Reaches(Front(steps), before) && StepsTo(before, Last(steps), e);
    if k < |steps| - 1 {
      assert Front(steps)[k] == steps[k];
      PublishedIsAtMostHighest(Front(steps), before, k);
      ReachableIsOk(Front(steps), before);
      StepKeepsOk(before, Last(steps));
    }
  }

  /** A revision the stream may speak of: one published in some step, or one that was current
      when a stream was opened. */
  predicate Heard(steps: seq<Step>, revision: int) {
    exists k :: 0 <= k < |steps| &&
      match steps[k]
      case Publish(published, _) => published == revision
      case Open(_, current) => current == revision
      case Close(_) => false
  }

  lemma HeardStays(steps: seq<Step>, revision: int)
    requires steps != [] && Heard(Front(steps), revision)
    ensures Heard(steps, revision)
  {
    var k :| 0 <= k < |Front(steps)| &&
      match Front(steps)[k]
      case Publish(published, _) => published == revision
      case Open(_, current) => current == revision
      case Close(_) => false;
    assert steps[k] == Front(steps)[k];
  }

  /** Nothing is made up: all that is ever written to a stream has been heard of, and so has
      the highest revision. */
  lemma {:induction false} WrittenWasHeard(steps: seq<Step>, e: Events)
    requires Reaches(steps, e)
    ensures e.highestRevision == -1 || Heard(steps, e.highestRevision)
    ensures forall i, j :: 0 <= i < |e.streams| && 0 <= j < |e.streams[i].emitted| ==> Heard(steps, e.streams[i].emitted[j])
  {
    if steps != [] {
      var before :| Reaches(Front(steps), before) && StepsTo(before, Last(steps), e);
      WrittenWasHeard(Front(steps), before);
      forall revision | Heard(Front(steps), revision)
        ensures Heard(steps, revision)
      {
        HeardStays(steps, revision);
      }
      assert steps[|steps| - 1] == Last(steps);
      match Last(steps)
      case Publish(revision, _) => assert Heard(steps, revision);
      case Open(_, current) => assert Heard(steps, current);
      case Close(_) =>
    }
  }

  /** No wake-up is lost: at any instant the newest revision that has reached the subscriber
      of an open stream - the one it had, or the last one written to it - is at least every
      revision published so far, whether before or after the stream was opened. Revisions
      are written in strictly increasing order, all newer than the one it had; and the
      streams counted are those open, at most 256. */
  lemma NoWakeUpIsLost(steps: seq<Step>, e: Events, i: nat, k: nat)
    requires Reaches(steps, e) && i < |e.streams|
    requires k < |steps| && steps[k].Publish? && IsRevision(steps[k].revision)
    ensures e.streams[i].open ==> steps[k].revision <= Told(e.streams[i])
    ensures Increasing(e.streams[i].emitted) && (e.streams[i].emitted != [] ==> e.streams[i].had < e.streams[i].emitted[0])
    ensures e.activeStreams == |OpenOnes(e.streams)| <= 256
  {
    ReachableIsOk(steps, e);
    PublishedIsAtMostHighest(steps, e, k);
    assert StreamOk(e.streams[i], e.highestRevision);
    OpenCountIs(e.streams);
  }
}
