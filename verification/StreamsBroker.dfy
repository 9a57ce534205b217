/** InMemoryStreamsBroker (apps/automation-worker/src/transport/broker.ts:111-171): streams
    and groups updated in place. */
module StreamsBroker {
  import opened Prelude
  import opened StreamGroups

  datatype BrokerError = GroupNotCreated

  /** The source joins the two names with a colon. */
  type GroupKey = (string, string)

  /** Every group partitions its own stream's entries. */
  ghost predicate BrokerOk(streams: map<string, seq<Entry>>, groups: map<GroupKey, Group>, acked: map<GroupKey, set<nat>>, sequence: nat) {
    && acked.Keys == groups.Keys
    && (forall key :: key in groups ==> key.0 in streams && Partitioned(streams[key.0], groups[key], acked[key]))
    && (forall stream :: stream in streams ==> StreamOk(streams[stream], sequence))
  }

  predicate StreamOk(entries: seq<Entry>, sequence: nat) {
    Increasing(entries) && forall i :: 0 <= i < |entries| ==> entries[i].id <= sequence
  }

  lemma UpdatingAGroup(streams: map<string, seq<Entry>>, groups: map<GroupKey, Group>, acked: map<GroupKey, set<nat>>, sequence: nat, key: GroupKey, g: Group, a: set<nat>)
    requires BrokerOk(streams, groups, acked, sequence)
    requires key.0 in streams && Partitioned(streams[key.0], g, a)
    ensures BrokerOk(streams, groups[key := g], acked[key := a], sequence)
  {
  }

  lemma UpdatingAStream(streams: map<string, seq<Entry>>, groups: map<GroupKey, Group>, acked: map<GroupKey, set<nat>>, sequence: nat, stream: string, e: Entry)
    requires BrokerOk(streams, groups, acked, sequence) && sequence < e.id
    ensures var entries := if stream in streams then streams[stream] else [];
            BrokerOk(streams[stream := entries + [e]], groups, acked, e.id)
  {
    var entries := if stream in streams then streams[stream] else [];
    forall key | key in groups && key.0 == stream
      ensures Partitioned(entries + [e], groups[key], acked[key])
    {
      AddKeepsPartition(entries, groups[key], acked[key], e);
    }
  }

  /** The delivery loop of readGroup. */
  method DeliverNext(entries: seq<Entry>, start: Group, consumer: string, count: nat, now: int) returns (g: Group, output: seq<Message>)
    requires Fits(entries, start)
    ensures g == Read(entries, start, consumer, count, now)
    ensures output == ToMessages(FreshDeliveries(entries, start, consumer, count, now))
  {
    ghost var deliveries := FreshDeliveries(entries, start, consumer, count, now);
    g := start;
    output := [];
    var index := start.lastIndex + 1;
    while index < |entries| && |output| < count
      invariant index == start.lastIndex + 1 + |output| && |output| <= |deliveries|
      invariant g == Group(index - 1, start.pending + deliveries[..|output|])
      invariant output == ToMessages(deliveries[..|output|])
    {
      var message := Deliver(entries[index], consumer, now);
      assert deliveries[..|output| + 1] == deliveries[..|output|] + [message];
      g := Group(index, g.pending + [message]);
      output := output + [ToMessage(message)];
      index := index + 1;
    }
    assert deliveries[..|output|] == deliveries;
  }

  /** The redelivery loop of reclaimPending; it stops looking once it has enough. */
  method RedeliverIdle(start: seq<Pending>, consumer: string, count: nat, minIdleMs: int, now: int) returns (pending: seq<Pending>, output: seq<Pending>)
    ensures pending == AfterReclaim(start, consumer, count, minIdleMs, now)
    ensures output == Reclaimed(start, consumer, count, minIdleMs, now)
  {
    pending := [];
    output := [];
    var i := 0;
    while i < |start|
      invariant 0 <= i <= |start|
      invariant pending == AfterReclaim(start[..i], consumer, count, minIdleMs, now)
      invariant output == Reclaimed(start[..i], consumer, count, minIdleMs, now)
    {
      if |output| >= count {
        FullStaysFull(start, consumer, count, minIdleMs, now, i);
        pending := pending + start[i..];
        return;
      }
      assert Front(start[..i + 1]) == start[..i];
      var entry := start[i];
      if now - entry.claimedAt >= minIdleMs {
        entry := Redeliver(entry, consumer, now);
        output := output + [entry];
      }
      pending := pending + [entry];
      i := i + 1;
    }
    assert start[..i] == start;
  }

  lemma {:induction false} FullStaysFull(ps: seq<Pending>, consumer: string, count: nat, minIdleMs: int, now: int, i: nat)
    requires i <= |ps| && |Reclaimed(ps[..i], consumer, count, minIdleMs, now)| >= count
    ensures Reclaimed(ps, consumer, count, minIdleMs, now) == Reclaimed(ps[..i], consumer, count, minIdleMs, now)
    ensures AfterReclaim(ps, consumer, count, minIdleMs, now) == AfterReclaim(ps[..i], consumer, count, minIdleMs, now) + ps[i..]
  {
    if i == |ps| {
      assert ps[..i] == ps;
    } else {
      assert Front(ps)[..i] == ps[..i];
      FullStaysFull(Front(ps), consumer, count, minIdleMs, now, i);
      assert ps[i..] == Front(ps)[i..] + [Last(ps)];
    }
  }

  class InMemoryStreamsBroker {
    var streams: map<string, seq<Entry>>
    var groups: map<GroupKey, Group>
    var sequence: nat
    ghost var acked: map<GroupKey, set<nat>>

    ghost predicate Valid()
      reads this
    {
      BrokerOk(streams, groups, acked, sequence)
    }

    constructor ()
      ensures Valid() && streams == map[] && groups == map[] && sequence == 0
    {
      streams := map[];
      groups := map[];
      sequence := 0;
      acked := map[];
    }

    method EnsureGroup(stream: string, group: string)
      requires Valid()
      modifies this
      ensures Valid() && sequence == old(sequence)
      ensures streams == if stream in old(streams) then old(streams) else old(streams)[stream := []]
      ensures groups == if (stream, group) in old(groups) then old(groups) else old(groups)[(stream, group) := Group(-1, [])]
      ensures acked == if (stream, group) in old(groups) then old(acked) else old(acked)[(stream, group) := {}]
    {
      if stream !in streams {
        streams := streams[stream := []];
      }
      if (stream, group) !in groups {
        groups := groups[(stream, group) := Group(-1, [])];
        acked := acked[(stream, group) := {}];
        assert EntryIds(streams[stream][..0]) == {};
      }
    }

    /** Delivers the next entries. An aborted read has claimed them all the same. */
    method ReadGroup(stream: string, group: string, consumer: string, count: nat, aborted: bool, now: int)
      returns (r: Result<seq<Message>, BrokerError>)
      requires Valid()
      modifies this
      ensures Valid()
      ensures streams == old(streams) && sequence == old(sequence) && acked == old(acked)
      ensures (stream, group) !in old(groups) ==> r == Err(GroupNotCreated) && groups == old(groups)
      ensures (stream, group) in old(groups) ==>
                var g := old(groups)[(stream, group)];
                && groups == old(groups)[(stream, group) := Read(streams[stream], g, consumer, count, now)]
                && r == Ok(if aborted then [] else ToMessages(FreshDeliveries(streams[stream], g, consumer, count, now)))
    {
      var key := (stream, group);
      if key !in groups {
        return Err(GroupNotCreated);
      }
      ReadKeepsPartition(streams[stream], groups[key], acked[key], consumer, count, now);
      var g, output := DeliverNext(streams[stream], groups[key], consumer, count, now);
      UpdatingAGroup(streams, groups, acked, sequence, key, g, acked[key]);
      assert acked[key := acked[key]] == acked;
      groups := groups[key := g];
      r := Ok(if aborted then [] else output);
    }

    /** Redelivers entries that have been idle long enough, to whoever asks. */
    method ReclaimPending(stream: string, group: string, consumer: string, count: nat, minIdleMs: int, aborted: bool, now: int)
      returns (r: Result<seq<Message>, BrokerError>)
      requires Valid()
      modifies this
      ensures Valid()
      ensures streams == old(streams) && sequence == old(sequence) && acked == old(acked)
      ensures (stream, group) !in old(groups) ==> r == Err(GroupNotCreated) && groups == old(groups)
      ensures (stream, group) in old(groups) ==>
                var g := old(groups)[(stream, group)];
                && groups == old(groups)[(stream, group) := g.(pending := AfterReclaim(g.pending, consumer, count, minIdleMs, now))]
                && r == Ok(if aborted then [] else ToMessages(Reclaimed(g.pending, consumer, count, minIdleMs, now)))
    {
      var key := (stream, group);
      if key !in groups {
        return Err(GroupNotCreated);
      }
      var g := groups[key];
      ReclaimKeepsPartition(streams[stream], g, acked[key], consumer, count, minIdleMs, now);
      var pending, output := RedeliverIdle(g.pending, consumer, count, minIdleMs, now);
      UpdatingAGroup(streams, groups, acked, sequence, key, g.(pending := pending), acked[key]);
      assert acked[key := acked[key]] == acked;
      groups := groups[key := g.(pending := pending)];
      r := Ok(if aborted then [] else ToMessages(output));
    }

    method Ack(stream: string, group: string, messageId: nat)
      requires Valid()
      modifies this
      ensures Valid()
      ensures streams == old(streams) && sequence == old(sequence)
      ensures (stream, group) !in old(groups) ==> groups == old(groups) && acked == old(acked)
      ensures (stream, group) in old(groups) ==>
                var g := old(groups)[(stream, group)];
                && groups == old(groups)[(stream, group) := StreamGroups.Ack(g, messageId)]
                && acked == old(acked)[(stream, group) := AckedBy(g, old(acked)[(stream, group)], messageId)]
    {
      var key := (stream, group);
      if key in groups {
        var g := groups[key];
        AckKeepsPartition(streams[stream], g, acked[key], messageId);
        UpdatingAGroup(streams, groups, acked, sequence, key, StreamGroups.Ack(g, messageId), AckedBy(g, acked[key], messageId));
        acked := acked[key := AckedBy(g, acked[key], messageId)];
        groups := groups[key := StreamGroups.Ack(g, messageId)];
      }
    }

    method Add(stream: string, fields: Fields) returns (id: nat)
      requires Valid()
      modifies this
      ensures Valid()
      ensures id == old(sequence) + 1 && sequence == id && groups == old(groups) && acked == old(acked)
      ensures streams == old(streams)[stream := (if stream in old(streams) then old(streams)[stream] else []) + [Entry(id, fields)]]
    {
      UpdatingAStream(streams, groups, acked, sequence, stream, Entry(sequence + 1, fields));
      sequence := sequence + 1;
      id := sequence;
      var entries := if stream in streams then streams[stream] else [];
      streams := streams[stream := entries + [Entry(id, fields)]];
    }
  }
}
