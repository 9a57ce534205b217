/** The feature-policy runtime's fallback cache
    (apps/worker/src/policy/feature-policy-store.ts), under slow reads, publications here
    and elsewhere, and notifications in any order. */
module PolicyRuntime {
  import opened Prelude
  import opened PolicyHistory

  predicate IsRevision(n: int) {
    0 <= n <= MAX_SAFE_INTEGER
  }

  datatype Cache = Cache(cached: Option<Snapshot>, highestNotified: int)

  function Invalidated(c: Cache, revision: int): Cache {
    if !IsRevision(revision) then c
    else
      Cache(
        if c.cached.Some? && revision > c.cached.value.revision then None else c.cached,
        Max(c.highestNotified, revision))
  }

  /** What a finished read or publication offers the cache. */
  function Offered(c: Cache, snapshot: Snapshot): Cache {
    if snapshot.revision >= c.highestNotified then c.(cached := Some(snapshot)) else c
  }

  // ------------------------------------------------- what the cache holds, in one line

  /** What reaches a cache: snapshots read or published, and notifications. */
  datatype News = Offer(snapshot: Snapshot) | Notice(revision: int)

  function After(news: seq<News>): Cache {
    if news == [] then Cache(None, 0)
    else
      match Last(news)
      case Offer(snapshot) => Offered(After(Front(news)), snapshot)
      case Notice(revision) => Invalidated(After(Front(news)), revision)
  }

  /** No notification among the first `n` is for a newer revision. */
  predicate UpToDate(news: seq<News>, n: nat, revision: int)
    requires n <= |news|
  {
    0 <= revision && forall i :: 0 <= i < n && news[i].Notice? && IsRevision(news[i].revision) ==> news[i].revision <= revision
  }

  /** The snapshot offered at position `k` was up to date when it came. */
  predicate Accepted(news: seq<News>, k: nat) {
    k < |news| && news[k].Offer? && UpToDate(news, k, news[k].snapshot.revision)
  }

  /** It still is, and is the last such one. */
  predicate Kept(news: seq<News>, k: nat) {
    && Accepted(news, k) && UpToDate(news, |news|, news[k].snapshot.revision)
    && forall j :: k < j < |news| ==> !Accepted(news, j)
  }

  lemma SameUpToDate(news: seq<News>, n: nat, revision: int)
    requires news != [] && n < |news|
    ensures UpToDate(news, n, revision) <==> UpToDate(Front(news), n, revision)
    ensures UpToDate(news, |news|, revision) <==>
              && UpToDate(news, |news| - 1, revision)
              && (Last(news).Notice? && IsRevision(Last(news).revision) ==> Last(news).revision <= revision)
  {
    assert forall i :: 0 <= i < n ==> news[i] == Front(news)[i];
  }

  lemma SameAccepted(news: seq<News>, k: nat)
    requires news != [] && k < |news| - 1
    ensures Accepted(news, k) <==> Accepted(Front(news), k)
  {
    assert news[k] == Front(news)[k];
    if news[k].Offer? {
      SameUpToDate(news, k, news[k].snapshot.revision);
    }
  }

  lemma {:induction false} FloorIsTheHighest(news: seq<News>, revision: int)
    ensures After(news).highestNotified <= revision <==> UpToDate(news, |news|, revision)
  {
    if news != [] {
      FloorIsTheHighest(Front(news), revision);
      SameUpToDate(news, |news| - 1, revision);
    }
  }

  lemma KeptNext(news: seq<News>, k: nat)
    requires news != [] && k < |news| - 1
    ensures Kept(news, k) <==>
              && Kept(Front(news), k) && !Accepted(news, |news| - 1)
              && (Last(news).Notice? && IsRevision(Last(news).revision) ==> Last(news).revision <= news[k].snapshot.revision)
  {
    var front := Front(news);
    forall j: nat | j < |front|
      ensures Accepted(news, j) <==> Accepted(front, j)
    {
      SameAccepted(news, j);
    }
    assert news[k] == front[k];
    if news[k].Offer? {
      SameUpToDate(news, |front|, news[k].snapshot.revision);
    }
  }

  /** Whatever came in whatever order, the cache holds the last snapshot that was up to date
      when it came, if no notification has outdated it since; otherwise it is empty. */
  lemma {:induction false} CacheIs(news: seq<News>)
    ensures After(news).cached.Some? <==> exists k: nat :: Kept(news, k)
    ensures forall k: nat :: Kept(news, k) ==> After(news).cached == Some(news[k].snapshot)
  {
    if news != [] {
      var front, last := Front(news), |news| - 1;
      CacheIs(front);
      forall k: nat | k < last
        ensures Kept(news, k) <==>
                  && Kept(front, k) && !Accepted(news, last)
                  && (Last(news).Notice? && IsRevision(Last(news).revision) ==> Last(news).revision <= news[k].snapshot.revision)
      {
        KeptNext(news, k);
      }
      if Last(news).Offer? {
        FloorIsTheHighest(front, Last(news).snapshot.revision);
        SameUpToDate(news, last, Last(news).snapshot.revision);
        assert Kept(news, last) <==> Accepted(news, last);
      }
      if k: nat :| Kept(front, k) {
        assert After(front).cached == Some(news[k].snapshot);
        assert !Accepted(news, last) && After(news).cached == After(front).cached ==> Kept(news, k);
      }
      assert forall k: nat :: Kept(news, k) && k < last ==> Kept(front, k) && front[k] == news[k];
    }
  }

  class FeaturePolicyRuntime {
    var cached: Option<Snapshot>
    var highestNotified: int

    function Contents(): Cache
      reads this
    {
      Cache(cached, highestNotified)
    }

    constructor ()
      ensures Contents() == Cache(None, 0)
    {
      cached, highestNotified := None, 0;
    }

    method Invalidate(revision: int)
      modifies this
      ensures Contents() == Invalidated(old(Contents()), revision)
    {
      if !IsRevision(revision) {
        return;
      }
      highestNotified := Max(highestNotified, revision);
      if cached.Some? && revision > cached.value.revision {
        cached := None;
      }
    }

    /** current(): `read` is what the store's read came back with, if it did and validated. */
    method Current(read: Option<Snapshot>) returns (answer: Option<Snapshot>)
      modifies this
      ensures read.Some? ==> answer == read && Contents() == Offered(old(Contents()), read.value)
      ensures read.None? ==> answer == cached && Contents() == old(Contents())
    {
      if read.None? {
        return cached;
      }
      if read.value.revision >= highestNotified {
        cached := read;
      }
      answer := read;
    }

    /** publish(), once the store has answered. */
    method FinishPublish(entry: Entry)
      requires entry.snapshot.revision == entry.revision
      modifies this
      ensures Contents() == Offered(old(Contents()), entry.snapshot)
    {
      if entry.revision >= highestNotified {
        cached := Some(entry.snapshot);
      }
    }
  }

  // ------------------------------------------------------------ any interleaving

  /** A store read under way: what it will deliver, and what had been notified when asked. */
  datatype Read = Read(snapshot: Snapshot, notifiedBefore: int)

  datatype System = System(log: Log, cache: Cache, asked: seq<Read>, finishing: seq<Entry>)

  datatype Step =
    | PublishElsewhere(p: Publication, at: int)
    | PublishHere(p: Publication, at: int)
    | FinishPublish(i: nat)
    | AskStore
    | FinishRead(i: nat)
    | Notify(revision: int)

  function Perform(s: System, step: Step): System {
    match step
    case PublishElsewhere(p, at) => s.(log := Published(s.log, p, at))
    case PublishHere(p, at) =>
      var reply := PublishReply(s.log, p, at);
      s.(log := Published(s.log, p, at), finishing := if reply.Ok? then s.finishing + [reply.value] else s.finishing)
    case FinishPublish(i) => if i < |s.finishing| then s.(cache := Offered(s.cache, s.finishing[i].snapshot)) else s
    case AskStore => s.(asked := s.asked + [Read(s.log.current, s.cache.highestNotified)])
    case FinishRead(i) => if i < |s.asked| then s.(cache := Offered(s.cache, s.asked[i].snapshot)) else s
    case Notify(revision) => s.(cache := Invalidated(s.cache, revision))
  }

  function Run(empty: Policy, steps: seq<Step>): System {
    if steps == [] then System(Log(Snapshot(empty, 0), []), Cache(None, 0), [], [])
    else Perform(Run(empty, Front(steps)), Last(steps))
  }

  /** The snapshot the log once had as its current one. */
  predicate Recorded(log: Log, empty: Policy, s: Snapshot) {
    && 0 <= s.revision <= |log.entries|
    && s == if s.revision == 0 then Snapshot(empty, 0) else log.entries[|log.entries| - s.revision].snapshot
  }

  ghost predicate Invariant(empty: Policy, s: System) {
    && LogOk(s.log)
    && (s.log.entries == [] ==> s.log.current == Snapshot(empty, 0))
    && (s.cache.cached.Some? ==> Recorded(s.log, empty, s.cache.cached.value) && s.cache.highestNotified <= s.cache.cached.value.revision)
    && (forall i :: 0 <= i < |s.asked| ==> Recorded(s.log, empty, s.asked[i].snapshot))
    && (forall i :: 0 <= i < |s.finishing| ==> Recorded(s.log, empty, s.finishing[i].snapshot))
  }

  lemma StaysRecorded(log: Log, empty: Policy, s: Snapshot, p: Publication, at: int)
    requires LogOk(log) && Recorded(log, empty, s)
    ensures Recorded(Published(log, p, at), empty, s)
  {
  }

  lemma PublishingKeepsInvariant(empty: Policy, s: System, p: Publication, at: int)
    requires Invariant(empty, s)
    ensures Invariant(empty, s.(log := Published(s.log, p, at)))
    ensures PublishReply(s.log, p, at).Ok? ==> Recorded(Published(s.log, p, at), empty, PublishReply(s.log, p, at).value.snapshot)
  {
    PublishingKeepsTheLog(s.log, p, at);
    forall x | Recorded(s.log, empty, x)
      ensures Recorded(Published(s.log, p, at), empty, x)
    {
      StaysRecorded(s.log, empty, x, p, at);
    }
  }

  lemma StepKeepsInvariant(empty: Policy, s: System, step: Step)
    requires Invariant(empty, s)
    ensures Invariant(empty, Perform(s, step))
  {
    match step
    case PublishElsewhere(p, at) => PublishingKeepsInvariant(empty, s, p, at);
    case PublishHere(p, at) => PublishingKeepsInvariant(empty, s, p, at);
    case _ =>
  }

  lemma {:induction false} InvariantHolds(empty: Policy, steps: seq<Step>)
    ensures Invariant(empty, Run(empty, steps))
  {
    if steps != [] {
      InvariantHolds(empty, Front(steps));
      StepKeepsInvariant(empty, Run(empty, Front(steps)), Last(steps));
    }
  }

  lemma {:induction false} NotifiedIsHighest(empty: Policy, steps: seq<Step>, i: nat)
    requires i < |steps| && steps[i].Notify? && IsRevision(steps[i].revision)
    ensures steps[i].revision <= Run(empty, steps).cache.highestNotified
  {
    if i < |steps| - 1 {
      NotifiedIsHighest(empty, Front(steps), i);
    }
  }

  /** However reads, publications and notifications interleave, what an outage falls back
      on is a policy that was once published (or the empty one), and never one older than
      a revision this runtime has been notified of. */
  lemma FallbackIsNeverStale(empty: Policy, steps: seq<Step>, i: nat)
    requires i < |steps| && steps[i].Notify? && IsRevision(steps[i].revision)
    requires Run(empty, steps).cache.cached.Some?
    ensures steps[i].revision <= Run(empty, steps).cache.cached.value.revision
    ensures Recorded(Run(empty, steps).log, empty, Run(empty, steps).cache.cached.value)
  {
    InvariantHolds(empty, steps);
    NotifiedIsHighest(empty, steps, i);
  }

  // ---------------------------------------------- reads that do come back

  /** Every notification is for a revision the store already holds. */
  predicate Genuine(empty: Policy, steps: seq<Step>) {
    steps == [] ||
    (Genuine(empty, Front(steps)) && (Last(steps).Notify? ==> Last(steps).revision <= Run(empty, Front(steps)).log.current.revision))
  }

  ghost predicate ReadsAreFresh(s: System) {
    && s.cache.highestNotified <= s.log.current.revision
    && forall i :: 0 <= i < |s.asked| ==> s.asked[i].notifiedBefore <= s.asked[i].snapshot.revision
  }

  lemma StepKeepsReadsFresh(s: System, step: Step)
    requires LogOk(s.log) && ReadsAreFresh(s)
    requires step.Notify? ==> step.revision <= s.log.current.revision
    ensures ReadsAreFresh(Perform(s, step))
  {
  }

  /** With genuine notifications, a successful current() is never older than what had been
      notified when it was called. */
  lemma {:induction false} ReadsStayFresh(empty: Policy, steps: seq<Step>)
    requires Genuine(empty, steps)
    ensures ReadsAreFresh(Run(empty, steps))
  {
    if steps != [] {
      InvariantHolds(empty, Front(steps));
      ReadsStayFresh(empty, Front(steps));
      StepKeepsReadsFresh(Run(empty, Front(steps)), Last(steps));
    }
  }

  // ------------------------------------------------------ what is not promised

  /** Exactly when one step moves the cache back: a read or publication finishes that is
      older than the cached snapshot, before a notification has ruled it out. */
  lemma CacheRegressesIff(s: System, step: Step)
    requires s.cache.cached.Some?
    ensures var after := Perform(s, step).cache.cached;
            after.Some? && after.value.revision < s.cache.cached.value.revision <==>
              || (step.FinishRead? && step.i < |s.asked|
                  && s.cache.highestNotified <= s.asked[step.i].snapshot.revision < s.cache.cached.value.revision)
              || (step.FinishPublish? && step.i < |s.finishing|
                  && s.cache.highestNotified <= s.finishing[step.i].snapshot.revision < s.cache.cached.value.revision)
  {
  }

  /** It does happen: a read asked for before this runtime's own publication ends after it. */
  lemma CacheCanRegress(empty: Policy, policy: Policy)
    ensures var steps := [AskStore, PublishHere(Publication(0, policy, "change", "admin"), 1), Step.FinishPublish(0)];
            && Run(empty, steps).cache.cached == Some(Snapshot(policy, 1))
            && Run(empty, steps + [FinishRead(0)]).cache.cached == Some(Snapshot(empty, 0))
  {
    var ask, publish, finish := AskStore, PublishHere(Publication(0, policy, "change", "admin"), 1), Step.FinishPublish(0);
    RunExtends(empty, [], ask);
    RunExtends(empty, [ask], publish);
    RunExtends(empty, [ask, publish], finish);
    RunExtends(empty, [ask, publish, finish], FinishRead(0));
    assert [] + [ask] == [ask] && [ask] + [publish] == [ask, publish] && [ask, publish] + [finish] == [ask, publish, finish];
    assert Run(empty, [ask]).asked == [Read(Snapshot(empty, 0), 0)];
  }

  lemma RunExtends(empty: Policy, steps: seq<Step>, step: Step)
    ensures Run(empty, steps + [step]) == Perform(Run(empty, steps), step)
  {
    assert Front(steps + [step]) == steps;
  }
}
