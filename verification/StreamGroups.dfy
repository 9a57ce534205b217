/** One consumer group of a job stream (apps/automation-worker/src/transport/broker.ts),
    as a value: deliveries, redeliveries and acknowledgements. */
module StreamGroups {
  import opened Prelude

  type Fields = map<string, string>

  /** A stream entry; its number stands for the identifier `<number>-0`. */
  datatype Entry = Entry(id: nat, fields: Fields)

  datatype Pending = Pending(id: nat, fields: Fields, deliveryCount: nat, idleMs: Option<int>, consumer: string, claimedAt: int)

  datatype Message = Message(id: nat, fields: Fields, deliveryCount: nat)

  /** `pending` lists the pending map in its insertion order. */
  datatype Group = Group(lastIndex: int, pending: seq<Pending>)

  function ToMessage(p: Pending): Message {
    Message(p.id, p.fields, p.deliveryCount)
  }

  function ToMessages(ps: seq<Pending>): seq<Message> {
    seq(|ps|, i requires 0 <= i < |ps| => ToMessage(ps[i]))
  }

  predicate Fits(entries: seq<Entry>, g: Group) {
    -1 <= g.lastIndex < |entries|
  }

  function Deliver(e: Entry, consumer: string, now: int): Pending {
    Pending(e.id, e.fields, 1, None, consumer, now)
  }

  /** How many entries a read of `count` delivers. */
  function ReadSize(entries: seq<Entry>, g: Group, count: nat): nat
    requires Fits(entries, g)
  {
    Min(count, |entries| - (g.lastIndex + 1))
  }

  /** The entries never delivered before that the read claims. */
  function FreshDeliveries(entries: seq<Entry>, g: Group, consumer: string, count: nat, now: int): (ps: seq<Pending>)
    requires Fits(entries, g)
    ensures |ps| == ReadSize(entries, g, count)
    ensures forall i :: 0 <= i < |ps| ==> ps[i] == Deliver(entries[g.lastIndex + 1 + i], consumer, now)
  {
    seq(ReadSize(entries, g, count),
        i requires 0 <= i < ReadSize(entries, g, count) => Deliver(entries[g.lastIndex + 1 + i], consumer, now))
  }

  function Read(entries: seq<Entry>, g: Group, consumer: string, count: nat, now: int): Group
    requires Fits(entries, g)
  {
    Group(g.lastIndex + ReadSize(entries, g, count), g.pending + FreshDeliveries(entries, g, consumer, count, now))
  }

  /** What a read leaves: everything pending stays where it is, and the next entries follow
      it in order, as the consumer's from now on and delivered once. */
  lemma ReadDelivers(entries: seq<Entry>, g: Group, consumer: string, count: nat, now: int)
    requires Fits(entries, g)
    ensures var after := Read(entries, g, consumer, count, now);
            var size := after.lastIndex - g.lastIndex;
            && 0 <= size <= count && after.lastIndex < |entries|
            && (size == count || after.lastIndex == |entries| - 1)
            && |after.pending| == |g.pending| + size
            && after.pending[..|g.pending|] == g.pending
            && forall i :: |g.pending| <= i < |after.pending| ==>
                 var p, e := after.pending[i], entries[g.lastIndex + 1 + i - |g.pending|];
                 && p.id == e.id && p.fields == e.fields
                 && p.deliveryCount == 1 && p.idleMs == None && p.consumer == consumer && p.claimedAt == now
  {
  }

  predicate Reclaimable(p: Pending, minIdleMs: int, now: int) {
    now - p.claimedAt >= minIdleMs
  }

  function Redeliver(p: Pending, consumer: string, now: int): Pending {
    p.(consumer := consumer, claimedAt := now, deliveryCount := p.deliveryCount + 1, idleMs := Some(0))
  }

  /** How many of the first entries are redelivered when at most `count` may be. */
  function Reclaimed(ps: seq<Pending>, consumer: string, count: nat, minIdleMs: int, now: int): seq<Pending> {
    if ps == [] then []
    else
      var earlier := Reclaimed(Front(ps), consumer, count, minIdleMs, now);
      if |earlier| < count && Reclaimable(Last(ps), minIdleMs, now) then earlier + [Redeliver(Last(ps), consumer, now)]
      else earlier
  }

  function AfterReclaim(ps: seq<Pending>, consumer: string, count: nat, minIdleMs: int, now: int): (r: seq<Pending>)
    ensures |r| == |ps|
    ensures forall i :: 0 <= i < |ps| ==> r[i].id == ps[i].id && r[i].fields == ps[i].fields
  {
    if ps == [] then []
    else
      var taken := |Reclaimed(Front(ps), consumer, count, minIdleMs, now)| < count && Reclaimable(Last(ps), minIdleMs, now);
      AfterReclaim(Front(ps), consumer, count, minIdleMs, now) +
      [if taken then Redeliver(Last(ps), consumer, now) else Last(ps)]
  }

  function Without(ps: seq<Pending>, id: nat): seq<Pending> {
    if ps == [] then []
    else Without(Front(ps), id) + (if Last(ps).id == id then [] else [Last(ps)])
  }

  function Ack(g: Group, id: nat): Group {
    g.(pending := Without(g.pending, id))
  }

  /** Acknowledging counts only for an entry that is pending. */
  function AckedBy(g: Group, acked: set<nat>, id: nat): set<nat> {
    if id in PendingIds(g.pending) then acked + {id} else acked
  }

  // ---------------------------------------------------------------- invariants

  function PendingIds(ps: seq<Pending>): set<nat> {
    set i | 0 <= i < |ps| :: ps[i].id
  }

  function EntryIds(entries: seq<Entry>): set<nat> {
    set i | 0 <= i < |entries| :: entries[i].id
  }

  predicate Increasing(entries: seq<Entry>) {
    forall i, j :: 0 <= i < j < |entries| ==> entries[i].id < entries[j].id
  }

  predicate NoDuplicates(ps: seq<Pending>) {
    forall i, j :: 0 <= i < j < |ps| ==> ps[i].id != ps[j].id
  }

  /** Each entry is exactly one of undelivered, pending and acknowledged. */
  predicate Partitioned(entries: seq<Entry>, g: Group, acked: set<nat>) {
    && Fits(entries, g)
    && Increasing(entries)
    && NoDuplicates(g.pending)
    && PendingIds(g.pending) !! acked
    && PendingIds(g.pending) + acked == EntryIds(entries[..g.lastIndex + 1])
  }

  lemma SplitIds(entries: seq<Entry>, n: nat, m: nat)
    requires n <= m <= |entries|
    ensures EntryIds(entries[..m]) == EntryIds(entries[..n]) + EntryIds(entries[n..m])
  {
    assert entries[..m] == entries[..n] + entries[n..m];
    forall id | id in EntryIds(entries[..m])
      ensures id in EntryIds(entries[..n]) + EntryIds(entries[n..m])
    {
      var i :| 0 <= i < m && entries[..m][i].id == id;
      assert i < n ==> entries[..n][i].id == id;
      assert i >= n ==> entries[n..m][i - n].id == id;
    }
    forall id | id in EntryIds(entries[..n]) + EntryIds(entries[n..m])
      ensures id in EntryIds(entries[..m])
    {
      if id in EntryIds(entries[..n]) {
        var i :| 0 <= i < n && entries[..n][i].id == id;
        assert entries[..m][i].id == id;
      } else {
        var i :| 0 <= i < m - n && entries[n..m][i].id == id;
        assert entries[..m][n + i].id == id;
      }
    }
  }

  lemma IdsOfConcat(ps: seq<Pending>, qs: seq<Pending>)
    ensures PendingIds(ps + qs) == PendingIds(ps) + PendingIds(qs)
  {
    forall id | id in PendingIds(ps) + PendingIds(qs)
      ensures id in PendingIds(ps + qs)
    {
      if id in PendingIds(ps) {
        var i :| 0 <= i < |ps| && ps[i].id == id;
        assert (ps + qs)[i].id == id;
      } else {
        var i :| 0 <= i < |qs| && qs[i].id == id;
        assert (ps + qs)[|ps| + i].id == id;
      }
    }
  }

  lemma LaterIdsAreNew(entries: seq<Entry>, n: nat, m: nat)
    requires Increasing(entries) && n <= m <= |entries|
    ensures EntryIds(entries[..n]) !! EntryIds(entries[n..m])
  {
    forall i, j | 0 <= i < n && 0 <= j < m - n
      ensures entries[..n][i].id < entries[n..m][j].id
    {
      assert entries[i].id < entries[n + j].id;
    }
  }

  lemma FreshIds(entries: seq<Entry>, g: Group, consumer: string, count: nat, now: int)
    requires Fits(entries, g)
    ensures var n := g.lastIndex + 1;
            PendingIds(FreshDeliveries(entries, g, consumer, count, now)) == EntryIds(entries[n..n + ReadSize(entries, g, count)])
  {
    var n := g.lastIndex + 1;
    var ps := FreshDeliveries(entries, g, consumer, count, now);
    var es := entries[n..n + ReadSize(entries, g, count)];
    assert forall i :: 0 <= i < |ps| ==> ps[i].id == es[i].id;
    forall id | id in PendingIds(ps)
      ensures id in EntryIds(es)
    {
      var i :| 0 <= i < |ps| && ps[i].id == id;
      assert es[i].id == id;
    }
    forall id | id in EntryIds(es)
      ensures id in PendingIds(ps)
    {
      var i :| 0 <= i < |es| && es[i].id == id;
      assert ps[i].id == id;
    }
  }

  lemma FreshIdsIncrease(entries: seq<Entry>, g: Group, consumer: string, count: nat, now: int, i: nat, j: nat)
    requires Fits(entries, g) && Increasing(entries)
    requires i < j < ReadSize(entries, g, count)
    ensures var ps := FreshDeliveries(entries, g, consumer, count, now); ps[i].id < ps[j].id
  {
    assert entries[g.lastIndex + 1 + i].id < entries[g.lastIndex + 1 + j].id;
  }

  /** A read, aborted or not, only moves undelivered entries to pending. */
  lemma ReadKeepsPartition(entries: seq<Entry>, g: Group, acked: set<nat>, consumer: string, count: nat, now: int)
    requires Partitioned(entries, g, acked)
    ensures Partitioned(entries, Read(entries, g, consumer, count, now), acked)
  {
    var n := g.lastIndex + 1;
    var m := n + ReadSize(entries, g, count);
    var fresh_ := FreshDeliveries(entries, g, consumer, count, now);
    SplitIds(entries, n, m);
    LaterIdsAreNew(entries, n, m);
    FreshIds(entries, g, consumer, count, now);
    IdsOfConcat(g.pending, fresh_);
    forall i, j | 0 <= i < j < |g.pending + fresh_|
      ensures (g.pending + fresh_)[i].id != (g.pending + fresh_)[j].id
    {
      if i < |g.pending| <= j {
        assert g.pending[i].id in PendingIds(g.pending);
        assert fresh_[j - |g.pending|].id in PendingIds(fresh_);
      } else if i >= |g.pending| {
        FreshIdsIncrease(entries, g, consumer, count, now, i - |g.pending|, j - |g.pending|);
      }
    }
  }

  lemma SameIds(ps: seq<Pending>, qs: seq<Pending>)
    requires |ps| == |qs| && forall i :: 0 <= i < |ps| ==> ps[i].id == qs[i].id
    ensures PendingIds(ps) == PendingIds(qs)
    ensures NoDuplicates(ps) ==> NoDuplicates(qs)
  {
    assert forall id :: id in PendingIds(ps) ==> exists i :: 0 <= i < |qs| && qs[i].id == id;
    assert forall id :: id in PendingIds(qs) ==> exists i :: 0 <= i < |ps| && ps[i].id == id;
  }

  /** A reclaim, aborted or not, neither loses nor invents a pending entry. */
  lemma ReclaimKeepsPartition(entries: seq<Entry>, g: Group, acked: set<nat>, consumer: string, count: nat, minIdleMs: int, now: int)
    requires Partitioned(entries, g, acked)
    ensures Partitioned(entries, g.(pending := AfterReclaim(g.pending, consumer, count, minIdleMs, now)), acked)
  {
    SameIds(g.pending, AfterReclaim(g.pending, consumer, count, minIdleMs, now));
  }

  lemma {:induction false} WithoutIds(ps: seq<Pending>, id: nat)
    ensures PendingIds(Without(ps, id)) == PendingIds(ps) - {id}
    ensures NoDuplicates(ps) ==> NoDuplicates(Without(ps, id))
  {
    if ps != [] {
      WithoutIds(Front(ps), id);
      assert ps == Front(ps) + [Last(ps)];
      IdsOfConcat(Front(ps), [Last(ps)]);
      var kept := if Last(ps).id == id then [] else [Last(ps)];
      IdsOfConcat(Without(Front(ps), id), kept);
      assert PendingIds([Last(ps)]) == {Last(ps).id} by {
        assert [Last(ps)][0].id == Last(ps).id;
      }
      if NoDuplicates(ps) && kept != [] {
        var rest := Without(Front(ps), id);
        forall i | 0 <= i < |rest|
          ensures rest[i].id != Last(ps).id
        {
          assert rest[i].id in PendingIds(rest);
          var k :| 0 <= k < |Front(ps)| && Front(ps)[k].id == rest[i].id;
          assert ps[k].id != ps[|ps| - 1].id;
        }
      }
    }
  }

  /** Acknowledging moves a pending entry to acknowledged, and ignores any other. */
  lemma AckKeepsPartition(entries: seq<Entry>, g: Group, acked: set<nat>, id: nat)
    requires Partitioned(entries, g, acked)
    ensures Partitioned(entries, Ack(g, id), AckedBy(g, acked, id))
  {
    WithoutIds(g.pending, id);
  }

  lemma AddKeepsPartition(entries: seq<Entry>, g: Group, acked: set<nat>, e: Entry)
    requires Partitioned(entries, g, acked)
    requires forall i :: 0 <= i < |entries| ==> entries[i].id < e.id
    ensures Partitioned(entries + [e], g, acked)
  {
    assert (entries + [e])[..g.lastIndex + 1] == entries[..g.lastIndex + 1];
  }

  // ------------------------------------------------------------- group runs

  /** Anything that can happen to one stream and one of its groups. Identifiers are drawn
      from one sequence that other streams share. */
  datatype GroupOp =
    | AddOp(fields: Fields)
    | AddElsewhereOp
    | ReadOp(consumer: string, count: nat)
    | ReclaimOp(consumer: string, count: nat, minIdleMs: int)
    | AckOp(id: nat)

  datatype GroupRun = GroupRun(sequence: nat, entries: seq<Entry>, group: Group, acked: set<nat>, delivered: seq<nat>)

  function IdsOf(entries: seq<Entry>): (ids: seq<nat>)
    ensures |ids| == |entries|
    ensures forall i :: 0 <= i < |ids| ==> ids[i] == entries[i].id
  {
    seq(|entries|, i requires 0 <= i < |entries| => entries[i].id)
  }

  /** `delivered` records first deliveries in the order they are made. */
  function StepGroup(r: GroupRun, op: GroupOp, now: int): GroupRun
    requires Fits(r.entries, r.group)
  {
    match op
    case AddOp(fields) => r.(sequence := r.sequence + 1, entries := r.entries + [Entry(r.sequence + 1, fields)])
    case AddElsewhereOp => r.(sequence := r.sequence + 1)
    case ReadOp(consumer, count) =>
      var n := r.group.lastIndex + 1;
      r.(group := Read(r.entries, r.group, consumer, count, now),
         delivered := r.delivered + IdsOf(r.entries[n..n + ReadSize(r.entries, r.group, count)]))
    case ReclaimOp(consumer, count, minIdleMs) =>
      r.(group := r.group.(pending := AfterReclaim(r.group.pending, consumer, count, minIdleMs, now)))
    case AckOp(id) =>
      r.(group := Ack(r.group, id), acked := AckedBy(r.group, r.acked, id))
  }

  predicate RunOk(r: GroupRun) {
    && Partitioned(r.entries, r.group, r.acked)
    && r.delivered == IdsOf(r.entries[..r.group.lastIndex + 1])
    && forall i :: 0 <= i < |r.entries| ==> r.entries[i].id <= r.sequence
  }

  /** Whatever producers and consumers do, in any order and at any time: entries stay
      partitioned, acknowledgements are never taken back, and first deliveries follow
      the stream without gap or repeat. */
  lemma StepKeepsRunOk(r: GroupRun, op: GroupOp, now: int)
    requires RunOk(r)
    ensures RunOk(StepGroup(r, op, now))
    ensures r.acked <= StepGroup(r, op, now).acked
    ensures r.delivered <= StepGroup(r, op, now).delivered
  {
    match op
    case AddOp(fields) =>
      AddKeepsPartition(r.entries, r.group, r.acked, Entry(r.sequence + 1, fields));
      assert (r.entries + [Entry(r.sequence + 1, fields)])[..r.group.lastIndex + 1] == r.entries[..r.group.lastIndex + 1];
    case AddElsewhereOp =>
    case ReadOp(consumer, count) =>
      ReadKeepsPartition(r.entries, r.group, r.acked, consumer, count, now);
    case ReclaimOp(consumer, count, minIdleMs) =>
      ReclaimKeepsPartition(r.entries, r.group, r.acked, consumer, count, minIdleMs, now);
    case AckOp(id) =>
      AckKeepsPartition(r.entries, r.group, r.acked, id);
  }
}
