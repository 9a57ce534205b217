/** The Durable Object around the refresh authority
    (apps/worker/src/vnu/vnu-refresh-control-durable-object.ts): each operation is one
    storage transaction that writes, deletes and reschedules in place. */
module VnuRefreshDurableObject {
  import opened Prelude
  import opened VnuRefreshControl
  import opened VnuRefreshInvariants
  import opened VnuRefreshRuns

  class RefreshControlObject {
    var stored: Option<State>
    var alarm: Option<int>

    function Contents(): Cell
      reads this
    {
      Cell(stored, alarm)
    }

    /** What is stored can be read back, is worth keeping, and is due to be cleaned. */
    ghost predicate Valid()
      reads this
    {
      CellOk(Contents())
    }

    constructor ()
      ensures Valid() && Contents() == Cell(None, None)
    {
      stored := None;
      alarm := None;
    }

    /** The storage writes of one transaction. */
    method Write(state: State)
      modifies this
      ensures Contents() == Cell(if Quiescent(state) then None else Some(state), NextAlarm(state))
    {
      if Quiescent(state) {
        stored := None;
      } else {
        stored := Some(state);
      }
      alarm := NextAlarm(state);
    }

    /** One mutating operation. A state that cannot be read back aborts the transaction. */
    method Mutate(command: Command, now: int) returns (reply: Reply)
      requires ClockOk(now)
      modifies this
      ensures !old(StoredOk(stored)) ==> reply == Threw(InvalidState) && Contents() == old(Contents())
      ensures old(StoredOk(stored)) ==>
                && reply == Apply(old(stored), command, now).reply
                && Contents() == Persist(old(Contents()), Apply(old(stored), command, now))
      ensures old(Valid()) && old(FreshFor(stored, command, now)) && !command.Alarm? ==> Valid()
    {
      if stored.Some? && !Accepted(stored.value) {
        return Threw(InvalidState);
      }
      ghost var before := Contents();
      var output := Apply(stored, command, now);
      if output.changed {
        Write(output.state);
      }
      reply := output.reply;
      if CellOk(before) && FreshFor(before.stored, command, now) && !command.Alarm? {
        assert Contents() == Step(before, Event(command, now, now));
        StepKeepsCellOk(before, Event(command, now, now));
      }
    }

    /** The first half of an access check reads outside any transaction, with the clock
        reading `now`, and answers if there is nothing to clean. */
    method PeekAccess(access: LinkedPair, now: int) returns (answer: Option<Reply>)
      requires ClockOk(now)
      ensures !StoredOk(stored) ==> answer == Some(Threw(InvalidState))
      ensures StoredOk(stored) ==>
                && (answer.None? <==> ApplyCheckAccess(stored, access, now).changed)
                // An answer is that of a whole check at this moment, which stores nothing.
                && (answer.Some? ==> Contents() == Step(Contents(), Event(VnuRefreshControl.CheckAccess(access), now, now))
                                     && answer.value == ApplyCheckAccess(stored, access, now).reply)
    {
      if stored.Some? && !Accepted(stored.value) {
        return Some(Threw(InvalidState));
      }
      var checked := ApplyCheckAccess(stored, access, now);
      answer := if checked.changed then None else Some(checked.reply);
    }

    /** The second half checks again inside a transaction, still with the first reading of
        the clock. Any steps may have come between: what it finds stored may be anything
        valid, and `clock` any later instant. */
    method CheckAccess(access: LinkedPair, now: int, clock: int) returns (reply: Reply)
      requires ClockOk(now) && now <= clock <= MAX_TIME
      modifies this
      ensures !old(StoredOk(stored)) ==> reply == Threw(InvalidState) && Contents() == old(Contents())
      ensures old(StoredOk(stored)) ==>
                && reply == ApplyCheckAccess(old(stored), access, now).reply
                && Contents() == Step(old(Contents()), Event(VnuRefreshControl.CheckAccess(access), now, clock))
      ensures old(Valid()) ==> Valid()
    {
      reply := Mutate(VnuRefreshControl.CheckAccess(access), now);
    }

    /** The platform removes a due alarm and runs the handler. */
    method FireAlarm(now: int)
      requires Valid() && ClockOk(now)
      requires alarm.Some? && alarm.value <= now
      modifies this
      ensures Valid()
      ensures Contents() == Step(old(Contents()), Event(Alarm, now, now))
      ensures stored == (var s := Clean(old(stored), now); if Quiescent(s) then None else Some(s))
    {
      ghost var before := Contents();
      AlarmStores(before, now);
      StepKeepsCellOk(before, Event(Alarm, now, now));
      alarm := None;
      var _ := Mutate(Alarm, now);
      assert Contents() == Step(before, Event(Alarm, now, now));
    }
  }

  /** A due alarm finds something to clean, and stores the rest, if any. */
  lemma AlarmStores(cell: Cell, now: int)
    requires CellOk(cell) && cell.alarm.Some? && cell.alarm.value <= now
    ensures var s := Clean(cell.stored, now);
            Step(cell, Event(Alarm, now, now)).stored == if Quiescent(s) then None else Some(s)
  {
    DueAlarmChanges(cell.stored.value, now);
  }
}
