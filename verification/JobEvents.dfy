/** Job events: the cursor that validates them (packages/automation-protocol/src/index.ts:511-545)
    and the writer that numbers them (apps/automation-worker/src/transport/events.ts:43-77). */
module JobEvents {
  import opened Prelude

  datatype EventType = StartedEvent | ProgressEvent | ChallengeRequired | Heartbeat | Succeeded | FailedEvent | CancelledEvent

  predicate IsTerminal(kind: EventType) {
    kind == Succeeded || kind == FailedEvent || kind == CancelledEvent
  }

  /** `fieldsOk` tells whether the event's own fields satisfy the schema of its type. */
  datatype Event = Event(kind: EventType, jobId: string, accountId: string, fence: int, sequence: int, emittedAt: int, expiresAt: int, fieldsOk: bool)

  /** assertAutomationEvent, identifiers taken as opaque */
  predicate WellFormed(e: Event) {
    && e.fieldsOk
    && 0 < e.fence <= MAX_SAFE_INTEGER
    && 0 <= e.sequence <= MAX_SAFE_INTEGER
    && e.emittedAt < e.expiresAt
  }

  datatype Cursor = Cursor(jobId: string, accountId: string, fence: int, lastSequence: int, terminal: bool)

  datatype EventError =
    | InvalidEvent
    | EventExpired
    | JobMismatch
    | AccountMismatch
    | FenceMismatch
    | AfterTerminal
    | SequenceMismatch

  /** validateNextAutomationEvent: the first failing check decides the error. */
  function ValidateNext(e: Event, cursor: Cursor, now: int): Result<Cursor, EventError> {
    if !WellFormed(e) then Err(InvalidEvent)
    else if e.expiresAt <= now then Err(EventExpired)
    else if e.jobId != cursor.jobId then Err(JobMismatch)
    else if e.accountId != cursor.accountId then Err(AccountMismatch)
    else if e.fence != cursor.fence then Err(FenceMismatch)
    else if cursor.terminal then Err(AfterTerminal)
    else if e.sequence != cursor.lastSequence + 1 then Err(SequenceMismatch)
    else Ok(cursor.(lastSequence := e.sequence, terminal := IsTerminal(e.kind)))
  }

  /** What each error says of an event. */
  predicate Applies(error: EventError, e: Event, cursor: Cursor, now: int) {
    match error
    case InvalidEvent =>
      !e.fieldsOk || e.fence < 1 || !SafeInteger(e.fence) || e.sequence < 0 || !SafeInteger(e.sequence) || e.expiresAt <= e.emittedAt
    case EventExpired => e.expiresAt <= now
    case JobMismatch => e.jobId != cursor.jobId
    case AccountMismatch => e.accountId != cursor.accountId
    case FenceMismatch => e.fence != cursor.fence
    case AfterTerminal => cursor.terminal
    case SequenceMismatch => e.sequence - cursor.lastSequence != 1
  }

  const PRECEDENCE: seq<EventError> :=
    [InvalidEvent, EventExpired, JobMismatch, AccountMismatch, FenceMismatch, AfterTerminal, SequenceMismatch]

  predicate IsFirstError(i: int, e: Event, cursor: Cursor, now: int) {
    && 0 <= i < |PRECEDENCE| && Applies(PRECEDENCE[i], e, cursor, now)
    && forall j :: 0 <= j < i ==> !Applies(PRECEDENCE[j], e, cursor, now)
  }

  /** An event is refused exactly when some error applies, and with the first that does; an
      accepted one moves the cursor onto itself, which ends the job if it is terminal. */
  lemma RefusedWithTheFirstError(e: Event, cursor: Cursor, now: int)
    ensures ValidateNext(e, cursor, now).Err? <==> exists i :: IsFirstError(i, e, cursor, now)
    ensures forall i :: IsFirstError(i, e, cursor, now) ==> ValidateNext(e, cursor, now) == Err(PRECEDENCE[i])
    ensures var next := ValidateNext(e, cursor, now);
            next.Ok? ==> next.value == Cursor(e.jobId, e.accountId, e.fence, e.sequence, e.kind in {Succeeded, FailedEvent, CancelledEvent})
  {
    if ValidateNext(e, cursor, now).Err? {
      var at: nat :=
        match ValidateNext(e, cursor, now).error
        case InvalidEvent => 0
        case EventExpired => 1
        case JobMismatch => 2
        case AccountMismatch => 3
        case FenceMismatch => 4
        case AfterTerminal => 5
        case SequenceMismatch => 6;
      assert IsFirstError(at, e, cursor, now);
    }
  }

  function Fold(events: seq<Event>, cursor: Cursor, now: int): Result<Cursor, EventError> {
    if events == [] then Ok(cursor)
    else
      var next := ValidateNext(events[0], cursor, now);
      if next.Err? then next else Fold(events[1..], next.value, now)
  }

  /** validateAutomationEventSequence */
  method ValidateSequence(events: seq<Event>, cursor: Cursor, now: int) returns (r: Result<Cursor, EventError>)
    ensures r == Fold(events, cursor, now)
  {
    var next := cursor;
    var i := 0;
    while i < |events|
      invariant 0 <= i <= |events|
      invariant Fold(events, cursor, now) == Fold(events[i..], next, now)
    {
      var validated := ValidateNext(events[i], next, now);
      assert events[i..][0] == events[i] && events[i..][1..] == events[i + 1..];
      if validated.Err? {
        return validated;
      }
      next := validated.value;
      i := i + 1;
    }
    r := Ok(next);
  }

  /** Everything the fold asks of the event at position `i`, except about other events. */
  predicate Acceptable(e: Event, i: nat, cursor: Cursor, now: int) {
    && WellFormed(e) && now < e.expiresAt
    && e.jobId == cursor.jobId && e.accountId == cursor.accountId && e.fence == cursor.fence
    && e.sequence == cursor.lastSequence + 1 + i
  }

  /** Identities match, sequences are contiguous from the cursor, nothing has expired, and
      nothing follows a terminal event. */
  predicate AcceptableList(events: seq<Event>, cursor: Cursor, now: int) {
    && (forall i :: 0 <= i < |events| ==> Acceptable(events[i], i, cursor, now))
    && (forall i :: 0 <= i < |events| - 1 ==> !IsTerminal(events[i].kind))
    && (cursor.terminal ==> events == [])
  }

  function Advance(events: seq<Event>, cursor: Cursor): Cursor {
    if events == [] then cursor
    else cursor.(lastSequence := cursor.lastSequence + |events|, terminal := IsTerminal(Last(events).kind))
  }

  /** The fold accepts exactly the acceptable lists, and then the cursor stands at the end. */
  lemma {:induction false} FoldAccepts(events: seq<Event>, cursor: Cursor, now: int)
    ensures Fold(events, cursor, now).Ok? <==> AcceptableList(events, cursor, now)
    ensures Fold(events, cursor, now).Ok? ==> Fold(events, cursor, now).value == Advance(events, cursor)
  {
    if events != [] {
      var next := ValidateNext(events[0], cursor, now);
      if next.Ok? {
        FoldAccepts(events[1..], next.value, now);
        if AcceptableList(events[1..], next.value, now) {
          forall i | 0 <= i < |events|
            ensures Acceptable(events[i], i, cursor, now)
            ensures i < |events| - 1 ==> !IsTerminal(events[i].kind)
          {
            if i > 0 {
              assert Acceptable(events[1..][i - 1], i - 1, next.value, now);
              assert i < |events| - 1 ==> !IsTerminal(events[1..][i - 1].kind);
            }
          }
        }
        if AcceptableList(events, cursor, now) {
          forall i | 0 <= i < |events[1..]|
            ensures Acceptable(events[1..][i], i, next.value, now)
            ensures i < |events[1..]| - 1 ==> !IsTerminal(events[1..][i].kind)
          {
            assert Acceptable(events[i + 1], i + 1, cursor, now);
          }
          assert |events| > 1 ==> !IsTerminal(events[0].kind);
        }
      } else {
        assert !AcceptableList(events, cursor, now) by {
          assert !Acceptable(events[0], 0, cursor, now) || cursor.terminal;
        }
      }
    }
  }

  /** Folding composes over concatenation. */
  lemma {:induction false} FoldComposes(left: seq<Event>, right: seq<Event>, cursor: Cursor, now: int)
    ensures Fold(left + right, cursor, now) ==
            if Fold(left, cursor, now).Err? then Fold(left, cursor, now)
            else Fold(right, Fold(left, cursor, now).value, now)
  {
    if left == [] {
      assert left + right == right;
    } else {
      assert (left + right)[1..] == left[1..] + right;
      var next := ValidateNext(left[0], cursor, now);
      if next.Ok? {
        FoldComposes(left[1..], right, next.value, now);
      }
    }
  }

  // ------------------------------------------------------------------ the writer

  datatype Job = Job(jobId: string, accountId: string, fence: int, expiresAt: int)

  /** A queued emit. */
  datatype Emit = Emit(kind: EventType, fieldsOk: bool)

  function EventFor(job: Job, ttlMs: int, emit: Emit, sequence: int, now: int): Event {
    Event(emit.kind, job.jobId, job.accountId, job.fence, sequence, now, Min(job.expiresAt, now + ttlMs), emit.fieldsOk)
  }

  /** What a writer's published list always looks like. */
  predicate WrittenBy(job: Job, published: seq<Event>) {
    forall i :: 0 <= i < |published| ==>
      && WellFormed(published[i])
      && published[i].jobId == job.jobId && published[i].accountId == job.accountId && published[i].fence == job.fence
      && published[i].sequence == i
      && published[i].expiresAt <= job.expiresAt
  }

  class JobEventWriter {
    const job: Job
    const ttlMs: int
    var sequence: nat
    /** Emits waiting for the one before them, first come first served. */
    var tail: seq<Emit>
    /** What this writer has published, as the sink received it. */
    var published: seq<Event>

    ghost predicate Valid()
      reads this
    {
      WrittenBy(job, published) && sequence == |published|
    }

    constructor (job: Job, ttlMs: int)
      ensures Valid() && this.job == job && this.ttlMs == ttlMs && tail == [] && published == []
    {
      this.job := job;
      this.ttlMs := ttlMs;
      this.sequence := 0;
      this.tail := [];
      this.published := [];
    }

    /** A caller asks for an event; it waits its turn. */
    method EmitEvent(emit: Emit)
      requires Valid()
      modifies this
      ensures Valid() && tail == old(tail) + [emit] && published == old(published) && sequence == old(sequence)
    {
      tail := tail + [emit];
    }

    /** The first waiting emit runs. An event outside the schema or its time window is
        refused before publishing; publishing itself may fail. Either way the next emit
        still runs, and only a published event uses up its number. */
    method RunNext(now: int, publishFails: bool) returns (accepted: bool)
      requires Valid() && tail != []
      modifies this
      ensures Valid() && tail == old(tail)[1..]
      ensures accepted <==> WellFormed(EventFor(job, ttlMs, old(tail)[0], old(sequence), now)) && !publishFails
      ensures published == if accepted then old(published) + [EventFor(job, ttlMs, old(tail)[0], old(sequence), now)] else old(published)
      ensures sequence == if accepted then old(sequence) + 1 else old(sequence)
    {
      var event := EventFor(job, ttlMs, tail[0], sequence, now);
      tail := tail[1..];
      if !WellFormed(event) || publishFails {
        return false;
      }
      published := published + [event];
      sequence := sequence + 1;
      accepted := true;
    }
  }

  /** Exactly when an emit is well formed, and what it says: the writer's own job and number,
      now, and the earlier of the deadline and the time to live. */
  lemma EmittedIs(job: Job, ttlMs: int, emit: Emit, sequence: nat, now: int)
    ensures var e := EventFor(job, ttlMs, emit, sequence, now);
            && (WellFormed(e) <==>
                  emit.fieldsOk && 1 <= job.fence && SafeInteger(job.fence) && SafeInteger(sequence) && 0 < ttlMs && now < job.expiresAt)
            && e.kind == emit.kind && e.jobId == job.jobId && e.accountId == job.accountId && e.fence == job.fence
            && e.sequence == sequence && e.emittedAt == now
            && e.expiresAt <= job.expiresAt && e.expiresAt <= now + ttlMs && e.expiresAt in {job.expiresAt, now + ttlMs}
  {
  }

  function StartCursor(job: Job): Cursor {
    Cursor(job.jobId, job.accountId, job.fence, -1, false)
  }

  /** A reader with a fresh cursor accepts everything a writer published exactly when
      none of it has expired and no terminal event precedes another event. */
  lemma WriterAndCursorAgree(job: Job, published: seq<Event>, now: int)
    requires WrittenBy(job, published)
    ensures Fold(published, StartCursor(job), now).Ok? <==>
              && (forall i :: 0 <= i < |published| ==> now < published[i].expiresAt)
              && (forall i :: 0 <= i < |published| - 1 ==> !IsTerminal(published[i].kind))
  {
    FoldAccepts(published, StartCursor(job), now);
    var cursor := StartCursor(job);
    if forall i :: 0 <= i < |published| ==> now < published[i].expiresAt {
      forall i | 0 <= i < |published|
        ensures Acceptable(published[i], i, cursor, now)
      {
        assert now < published[i].expiresAt;
      }
    }
    if AcceptableList(published, cursor, now) {
      forall i | 0 <= i < |published|
        ensures now < published[i].expiresAt
      {
        assert Acceptable(published[i], i, cursor, now);
      }
    }
  }

  /** Once the job's own deadline has passed, the writer publishes nothing more. */
  lemma NothingAfterTheDeadline(job: Job, ttlMs: int, emit: Emit, sequence: int, now: int)
    requires job.expiresAt <= now
    ensures !WellFormed(EventFor(job, ttlMs, emit, sequence, now))
  {
  }
}
