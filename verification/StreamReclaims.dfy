/** Which pending entries a reclaim hands out
    (apps/automation-worker/src/transport/broker.ts:139-154), one call and many. */
module StreamReclaims {
  import opened Prelude
  import opened StreamGroups

  function IdleCount(ps: seq<Pending>, minIdleMs: int, now: int): nat {
    if ps == [] then 0 else IdleCount(Front(ps), minIdleMs, now) + if Reclaimable(Last(ps), minIdleMs, now) then 1 else 0
  }

  /** How many idle entries precede position `i` in insertion order. */
  function IdleBefore(ps: seq<Pending>, i: nat, minIdleMs: int, now: int): nat
    requires i <= |ps|
  {
    IdleCount(ps[..i], minIdleMs, now)
  }

  /** The entry is idle and among the first `count` that are. */
  predicate Taken(ps: seq<Pending>, i: nat, count: nat, minIdleMs: int, now: int)
    requires i < |ps|
  {
    Reclaimable(ps[i], minIdleMs, now) && IdleBefore(ps, i, minIdleMs, now) < count
  }

  lemma {:induction false} ReclaimedSize(ps: seq<Pending>, consumer: string, count: nat, minIdleMs: int, now: int)
    ensures |Reclaimed(ps, consumer, count, minIdleMs, now)| == Min(count, IdleCount(ps, minIdleMs, now))
  {
    if ps != [] {
      ReclaimedSize(Front(ps), consumer, count, minIdleMs, now);
    }
  }

  /** The rule of one reclaim: exactly the first `count` idle entries are redelivered, to the
      caller and with one more delivery, and handed out in insertion order. */
  lemma {:induction false} ReclaimRule(ps: seq<Pending>, consumer: string, count: nat, minIdleMs: int, now: int, i: nat)
    requires i < |ps|
    ensures AfterReclaim(ps, consumer, count, minIdleMs, now)[i] ==
            if Taken(ps, i, count, minIdleMs, now) then Redeliver(ps[i], consumer, now) else ps[i]
    ensures Taken(ps, i, count, minIdleMs, now) ==>
              && IdleBefore(ps, i, minIdleMs, now) < |Reclaimed(ps, consumer, count, minIdleMs, now)|
              && Reclaimed(ps, consumer, count, minIdleMs, now)[IdleBefore(ps, i, minIdleMs, now)] == Redeliver(ps[i], consumer, now)
  {
    ReclaimedSize(Front(ps), consumer, count, minIdleMs, now);
    if i < |ps| - 1 {
      assert Front(ps)[..i] == ps[..i];
      ReclaimRule(Front(ps), consumer, count, minIdleMs, now, i);
    } else {
      assert ps[..i] == Front(ps);
    }
  }

  /** Everything handed out is one of those. */
  lemma {:induction false} HandedOut(ps: seq<Pending>, consumer: string, count: nat, minIdleMs: int, now: int, k: nat) returns (i: nat)
    requires k < |Reclaimed(ps, consumer, count, minIdleMs, now)|
    ensures i < |ps| && Taken(ps, i, count, minIdleMs, now) && IdleBefore(ps, i, minIdleMs, now) == k
    ensures Reclaimed(ps, consumer, count, minIdleMs, now)[k] == Redeliver(ps[i], consumer, now)
  {
    ReclaimedSize(Front(ps), consumer, count, minIdleMs, now);
    if k < |Reclaimed(Front(ps), consumer, count, minIdleMs, now)| {
      i := HandedOut(Front(ps), consumer, count, minIdleMs, now, k);
      assert Front(ps)[..i] == ps[..i];
    } else {
      i := |ps| - 1;
      assert ps[..i] == Front(ps);
    }
  }

  /** Nobody has had the entry for a whole idle period. */
  predicate Unclaimed(p: Pending, minIdleMs: int, now: int) {
    p.claimedAt + minIdleMs <= now
  }

  function UnclaimedBefore(ps: seq<Pending>, i: nat, minIdleMs: int, now: int): set<nat>
    requires i <= |ps|
  {
    set j: nat | j < i && Unclaimed(ps[j], minIdleMs, now)
  }

  lemma {:induction false} IdleBeforeCounts(ps: seq<Pending>, i: nat, minIdleMs: int, now: int)
    requires i <= |ps|
    ensures IdleBefore(ps, i, minIdleMs, now) == |UnclaimedBefore(ps, i, minIdleMs, now)|
  {
    if i > 0 {
      IdleBeforeCounts(ps, i - 1, minIdleMs, now);
      assert Front(ps[..i]) == ps[..i - 1] && Last(ps[..i]) == ps[i - 1];
      var less, more := UnclaimedBefore(ps, i - 1, minIdleMs, now), UnclaimedBefore(ps, i, minIdleMs, now);
      assert more == less + if Unclaimed(ps[i - 1], minIdleMs, now) then {i - 1} else {};
    }
  }

  /** What a reclaim leaves in each place: an entry unclaimed for the idle period, with fewer
      than `count` such ones before it, is the caller's from now on, delivered once more;
      any other is as it was. */
  lemma RedeliveredIs(ps: seq<Pending>, consumer: string, count: nat, minIdleMs: int, now: int, i: nat)
    requires i < |ps|
    ensures var p, after := ps[i], AfterReclaim(ps, consumer, count, minIdleMs, now)[i];
            if Unclaimed(p, minIdleMs, now) && |UnclaimedBefore(ps, i, minIdleMs, now)| < count then
              && after.consumer == consumer && after.claimedAt == now
              && after.deliveryCount == p.deliveryCount + 1 && after.idleMs == Some(0)
              && after.id == p.id && after.fields == p.fields
            else after == p
  {
    IdleBeforeCounts(ps, i, minIdleMs, now);
    ReclaimRule(ps, consumer, count, minIdleMs, now, i);
  }

  // -------------------------------------------------------------- many reclaims

  datatype Call = Call(consumer: string, now: int)

  /** The pending list after a series of reclaims under one configuration. */
  function AfterCalls(ps: seq<Pending>, calls: seq<Call>, count: nat, minIdleMs: int): (r: seq<Pending>)
    ensures |r| == |ps|
  {
    if calls == [] then ps
    else AfterReclaim(AfterCalls(ps, Front(calls), count, minIdleMs), Last(calls).consumer, count, minIdleMs, Last(calls).now)
  }

  /** Call `k` of the series redelivers the entry at position `i`. */
  predicate TakenBy(ps: seq<Pending>, calls: seq<Call>, count: nat, minIdleMs: int, k: nat, i: nat)
    requires k < |calls| && i < |ps|
  {
    Taken(AfterCalls(ps, calls[..k], count, minIdleMs), i, count, minIdleMs, calls[k].now)
  }

  /** How many calls of the series redeliver the entry at position `i`. */
  function TimesTaken(ps: seq<Pending>, calls: seq<Call>, count: nat, minIdleMs: int, i: nat): nat
    requires i < |ps|
  {
    if calls == [] then 0
    else TimesTaken(ps, Front(calls), count, minIdleMs, i) + if TakenBy(ps, calls, count, minIdleMs, |calls| - 1, i) then 1 else 0
  }

  /** Call `k` takes the entry, and none after it does. */
  predicate LastTakenBy(ps: seq<Pending>, calls: seq<Call>, count: nat, minIdleMs: int, k: nat, i: nat)
    requires i < |ps|
  {
    && k < |calls| && TakenBy(ps, calls, count, minIdleMs, k, i)
    && forall j :: k < j < |calls| ==> !TakenBy(ps, calls, count, minIdleMs, j, i)
  }

  /** The last call takes the entry or leaves it as it was. */
  lemma LastCall(ps: seq<Pending>, calls: seq<Call>, count: nat, minIdleMs: int, i: nat)
    requires i < |ps| && calls != []
    ensures var before, after := AfterCalls(ps, Front(calls), count, minIdleMs)[i], AfterCalls(ps, calls, count, minIdleMs)[i];
            if TakenBy(ps, calls, count, minIdleMs, |calls| - 1, i) then
              after.deliveryCount == before.deliveryCount + 1 && after.consumer == Last(calls).consumer && after.claimedAt == Last(calls).now
            else after == before
  {
    assert calls[..|calls| - 1] == Front(calls);
    ReclaimRule(AfterCalls(ps, Front(calls), count, minIdleMs), Last(calls).consumer, count, minIdleMs, Last(calls).now, i);
  }

  lemma TakenEarlier(ps: seq<Pending>, calls: seq<Call>, count: nat, minIdleMs: int, k: nat, i: nat)
    requires i < |ps| && k < |calls| - 1
    ensures TakenBy(ps, calls, count, minIdleMs, k, i) <==> TakenBy(ps, Front(calls), count, minIdleMs, k, i)
  {
    assert Front(calls)[..k] == calls[..k];
  }

  /** However often and by whomever it is reclaimed, an entry's count says how many deliveries
      it has had ... */
  lemma {:induction false} DeliveriesAreCounted(ps: seq<Pending>, calls: seq<Call>, count: nat, minIdleMs: int, i: nat)
    requires i < |ps|
    ensures AfterCalls(ps, calls, count, minIdleMs)[i].deliveryCount == ps[i].deliveryCount + TimesTaken(ps, calls, count, minIdleMs, i)
  {
    if calls != [] {
      DeliveriesAreCounted(ps, Front(calls), count, minIdleMs, i);
      LastCall(ps, calls, count, minIdleMs, i);
    }
  }

  /** ... and it belongs to the one who took it last, since then. */
  lemma {:induction false} LastTakerOwns(ps: seq<Pending>, calls: seq<Call>, count: nat, minIdleMs: int, k: nat, i: nat)
    requires i < |ps| && LastTakenBy(ps, calls, count, minIdleMs, k, i)
    ensures AfterCalls(ps, calls, count, minIdleMs)[i].consumer == calls[k].consumer
    ensures AfterCalls(ps, calls, count, minIdleMs)[i].claimedAt == calls[k].now
  {
    LastCall(ps, calls, count, minIdleMs, i);
    if k < |calls| - 1 {
      assert !TakenBy(ps, calls, count, minIdleMs, |calls| - 1, i);
      forall j: nat | k <= j < |calls| - 1
        ensures TakenBy(ps, calls, count, minIdleMs, j, i) <==> TakenBy(ps, Front(calls), count, minIdleMs, j, i)
      {
        TakenEarlier(ps, calls, count, minIdleMs, j, i);
      }
      LastTakerOwns(ps, Front(calls), count, minIdleMs, k, i);
    }
  }

  // --------------------------------------------------- reached in one idle period

  /** Entries claimed before `since`. */
  function OldCount(ps: seq<Pending>, since: int): nat {
    if ps == [] then 0 else OldCount(Front(ps), since) + if Last(ps).claimedAt < since then 1 else 0
  }

  lemma {:induction false} IdleAreOld(ps: seq<Pending>, minIdleMs: int, now: int, since: int)
    requires now < since + minIdleMs
    ensures IdleCount(ps, minIdleMs, now) <= OldCount(ps, since) <= |ps|
  {
    if ps != [] {
      IdleAreOld(Front(ps), minIdleMs, now, since);
    }
  }

  lemma {:induction false} ReclaimSpendsOld(ps: seq<Pending>, consumer: string, count: nat, minIdleMs: int, now: int, since: int)
    requires since <= now < since + minIdleMs
    ensures OldCount(AfterReclaim(ps, consumer, count, minIdleMs, now), since)
         == OldCount(ps, since) - Min(count, IdleCount(ps, minIdleMs, now))
  {
    if ps != [] {
      ReclaimSpendsOld(Front(ps), consumer, count, minIdleMs, now, since);
      ReclaimedSize(Front(ps), consumer, count, minIdleMs, now);
      assert Front(AfterReclaim(ps, consumer, count, minIdleMs, now)) == AfterReclaim(Front(ps), consumer, count, minIdleMs, now);
    }
  }

  lemma ReclaimOfPrefix(ps: seq<Pending>, consumer: string, count: nat, minIdleMs: int, now: int, i: nat)
    requires i <= |ps|
    ensures AfterReclaim(ps, consumer, count, minIdleMs, now)[..i] == AfterReclaim(ps[..i], consumer, count, minIdleMs, now)
  {
    forall k | 0 <= k < i
      ensures AfterReclaim(ps, consumer, count, minIdleMs, now)[k] == AfterReclaim(ps[..i], consumer, count, minIdleMs, now)[k]
    {
      ReclaimRule(ps, consumer, count, minIdleMs, now, k);
      ReclaimRule(ps[..i], consumer, count, minIdleMs, now, k);
      assert ps[..i][..k] == ps[..k];
    }
  }

  predicate Within(calls: seq<Call>, since: int, until: int) {
    forall k :: 0 <= k < |calls| ==> since <= calls[k].now < until
  }

  /** A call that passes over an idle entry spends `count` of those before it. */
  lemma PassedOnce(ps: seq<Pending>, call: Call, count: nat, minIdleMs: int, since: int, i: nat)
    requires i < |ps| && since - ps[i].claimedAt >= minIdleMs && since <= call.now < since + minIdleMs
    requires !Taken(ps, i, count, minIdleMs, call.now)
    ensures var after := AfterReclaim(ps, call.consumer, count, minIdleMs, call.now);
            after[i] == ps[i] && OldCount(after[..i], since) + count <= OldCount(ps[..i], since)
  {
    ReclaimRule(ps, call.consumer, count, minIdleMs, call.now, i);
    ReclaimOfPrefix(ps, call.consumer, count, minIdleMs, call.now, i);
    ReclaimSpendsOld(ps[..i], call.consumer, count, minIdleMs, call.now, since);
    IdleAreOld(ps[..i], minIdleMs, call.now, since);
  }

  lemma Product(n: nat, count: nat)
    requires n > 0
    ensures n * count == (n - 1) * count + count
  {
  }

  lemma {:induction false} PassedOver(ps: seq<Pending>, calls: seq<Call>, count: nat, minIdleMs: int, since: int, i: nat)
    requires i < |ps| && since - ps[i].claimedAt >= minIdleMs && Within(calls, since, since + minIdleMs)
    requires forall k :: 0 <= k < |calls| ==> !TakenBy(ps, calls, count, minIdleMs, k, i)
    ensures AfterCalls(ps, calls, count, minIdleMs)[i] == ps[i]
    ensures OldCount(AfterCalls(ps, calls, count, minIdleMs)[..i], since) + |calls| * count <= i
  {
    if calls == [] {
      OldIsAtMost(ps[..i], since);
    } else {
      var front := Front(calls);
      forall k | 0 <= k < |front|
        ensures !TakenBy(ps, front, count, minIdleMs, k, i)
      {
        assert front[..k] == calls[..k];
        assert !TakenBy(ps, calls, count, minIdleMs, k, i);
      }
      PassedOver(ps, front, count, minIdleMs, since, i);
      assert calls[..|front|] == front && !TakenBy(ps, calls, count, minIdleMs, |front|, i);
      PassedOnce(AfterCalls(ps, front, count, minIdleMs), Last(calls), count, minIdleMs, since, i);
      Product(|calls|, count);
    }
  }

  lemma {:induction false} OldIsAtMost(ps: seq<Pending>, since: int)
    ensures OldCount(ps, since) <= |ps|
  {
    if ps != [] {
      OldIsAtMost(Front(ps), since);
    }
  }

  /** Enough reclaims inside one idle period reach every entry that was idle when it began:
      position `i` takes at most i / count + 1 of them, whoever makes them. */
  lemma ReachedWithinAnIdlePeriod(ps: seq<Pending>, calls: seq<Call>, count: nat, minIdleMs: int, since: int, i: nat)
    requires i < |ps| && since - ps[i].claimedAt >= minIdleMs && Within(calls, since, since + minIdleMs)
    requires i < |calls| * count
    ensures exists k :: 0 <= k < |calls| && TakenBy(ps, calls, count, minIdleMs, k, i)
  {
    if forall k :: 0 <= k < |calls| ==> !TakenBy(ps, calls, count, minIdleMs, k, i) {
      PassedOver(ps, calls, count, minIdleMs, since, i);
    }
  }

  // ------------------------------------------------------------------ starvation

  predicate AllIdle(ps: seq<Pending>, minIdleMs: int, now: int) {
    forall i :: 0 <= i < |ps| ==> Reclaimable(ps[i], minIdleMs, now)
  }

  /** A slow caller: each reclaim comes when everything is idle again. */
  predicate Spaced(calls: seq<Call>, minIdleMs: int) {
    forall k :: 0 < k < |calls| ==> calls[k - 1].now + minIdleMs <= calls[k].now
  }

  lemma {:induction false} IdleCountAll(ps: seq<Pending>, minIdleMs: int, now: int)
    requires AllIdle(ps, minIdleMs, now)
    ensures IdleCount(ps, minIdleMs, now) == |ps|
  {
    if ps != [] {
      assert Reclaimable(ps[|ps| - 1], minIdleMs, now);
      IdleCountAll(Front(ps), minIdleMs, now);
    }
  }

  lemma TakenWhenAllIdle(ps: seq<Pending>, i: nat, count: nat, minIdleMs: int, now: int)
    requires i < |ps| && AllIdle(ps, minIdleMs, now)
    ensures Taken(ps, i, count, minIdleMs, now) <==> i < count
  {
    IdleCountAll(ps[..i], minIdleMs, now);
  }

  lemma {:induction false} StillAllIdle(ps: seq<Pending>, calls: seq<Call>, count: nat, minIdleMs: int, now: int)
    requires 0 <= minIdleMs && Spaced(calls, minIdleMs)
    requires AllIdle(ps, minIdleMs, if calls == [] then now else calls[0].now)
    requires calls != [] ==> Last(calls).now + minIdleMs <= now
    ensures AllIdle(AfterCalls(ps, calls, count, minIdleMs), minIdleMs, now)
  {
    if calls != [] {
      var front, call := Front(calls), Last(calls);
      assert forall k :: 0 <= k < |front| ==> front[k] == calls[k];
      assert Spaced(front, minIdleMs);
      if front != [] {
        assert calls[|calls| - 2].now + minIdleMs <= calls[|calls| - 1].now;
      }
      StillAllIdle(ps, front, count, minIdleMs, call.now);
      var before := AfterCalls(ps, front, count, minIdleMs);
      forall i | 0 <= i < |ps|
        ensures Reclaimable(AfterCalls(ps, calls, count, minIdleMs)[i], minIdleMs, now)
      {
        ReclaimRule(before, call.consumer, count, minIdleMs, call.now, i);
        assert Reclaimable(before[i], minIdleMs, call.now);
      }
    }
  }

  /** Exactly who starves under a slow caller while nothing is acknowledged: every call takes
      the same first `count` entries, so an entry is ever redelivered if and only if it is
      one of them. */
  lemma StarvesIff(ps: seq<Pending>, calls: seq<Call>, count: nat, minIdleMs: int, k: nat, i: nat)
    requires 0 <= minIdleMs && Spaced(calls, minIdleMs) && k < |calls| && i < |ps|
    requires AllIdle(ps, minIdleMs, calls[0].now)
    ensures TakenBy(ps, calls, count, minIdleMs, k, i) <==> i < count
  {
    var earlier := calls[..k];
    assert forall j :: 0 <= j < k ==> earlier[j] == calls[j];
    assert Spaced(earlier, minIdleMs);
    if k > 0 {
      assert calls[k - 1].now + minIdleMs <= calls[k].now;
    }
    StillAllIdle(ps, earlier, count, minIdleMs, calls[k].now);
    TakenWhenAllIdle(AfterCalls(ps, earlier, count, minIdleMs), i, count, minIdleMs, calls[k].now);
  }
}
