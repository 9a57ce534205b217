/** The admin login limiter (apps/worker/src/policy/feature-policy-durable-object.ts:176-232):
    one counting window a bucket, in a table of bounded size. */
module AdminLoginWindows {
  import opened Prelude
  import opened FixedWindows

  const MAX_BUCKETS: nat := 10_000

  datatype Row = Row(attempts: int, resetAt: int)

  datatype Verdict = Allowed | Denied(retryAfterSeconds: int) | Threw

  /** `hashOk` tells whether the bucket's hash has its shape. */
  datatype Attempt = Attempt(bucket: string, hashOk: bool, limit: int, windowMs: int)

  predicate Usable(a: Attempt, now: int) {
    && a.hashOk
    && 0 < a.limit <= MAX_SAFE_INTEGER
    && 0 < a.windowMs <= MAX_SAFE_INTEGER
    && SafeInteger(now + a.windowMs)
  }

  function LiveRows(rows: map<string, Row>, now: int): map<string, Row> {
    map b | b in rows && rows[b].resetAt > now :: rows[b]
  }

  function Resets(rows: map<string, Row>): set<int> {
    set b | b in rows :: rows[b].resetAt
  }

  /** The verdict in terms of the rows that have not run out. */
  function Judge(live: map<string, Row>, a: Attempt, now: int): Verdict {
    if a.bucket in live then
      if live[a.bucket].attempts >= a.limit then Denied(RetryAfterSeconds(live[a.bucket].resetAt, now)) else Allowed
    else if |live| >= MAX_BUCKETS then
      var earliest := Earliest(Resets(live));
      Denied(RetryAfterSeconds(if earliest.Some? then earliest.value else now, now))
    else Allowed
  }

  function Counted(live: map<string, Row>, a: Attempt, now: int): map<string, Row> {
    if a.bucket in live then live[a.bucket := Row(live[a.bucket].attempts + 1, live[a.bucket].resetAt)]
    else live[a.bucket := Row(1, now + a.windowMs)]
  }

  function VerdictOn(rows: map<string, Row>, a: Attempt, now: int): Verdict {
    if !Usable(a, now) then Threw else Judge(LiveRows(rows, now), a, now)
  }

  function After(rows: map<string, Row>, a: Attempt, now: int): map<string, Row> {
    if !Usable(a, now) then rows
    else if Judge(LiveRows(rows, now), a, now).Allowed? then Counted(LiveRows(rows, now), a, now)
    else LiveRows(rows, now)
  }

  class LoginLimiter {
    var rows: map<string, Row>

    constructor ()
      ensures rows == map[]
    {
      rows := map[];
    }

    method ConsumeAdminLoginAttempt(a: Attempt, now: int) returns (verdict: Verdict)
      modifies this
      ensures verdict == VerdictOn(old(rows), a, now)
      ensures rows == After(old(rows), a, now)
      ensures old(|rows|) <= MAX_BUCKETS ==> |rows| <= MAX_BUCKETS
    {
      if |rows| <= MAX_BUCKETS {
        TableStaysBounded(rows, a, now);
      }
      if !Usable(a, now) {
        return Threw;
      }
      rows := LiveRows(rows, now);
      if a.bucket in rows {
        if rows[a.bucket].attempts >= a.limit {
          return Denied(RetryAfterSeconds(rows[a.bucket].resetAt, now));
        }
        rows := rows[a.bucket := Row(rows[a.bucket].attempts + 1, rows[a.bucket].resetAt)];
        return Allowed;
      }
      if |rows| >= MAX_BUCKETS {
        var earliest := Earliest(Resets(rows));
        return Denied(RetryAfterSeconds(if earliest.Some? then earliest.value else now, now));
      }
      rows := rows[a.bucket := Row(1, now + a.windowMs)];
      verdict := Allowed;
    }
  }

  lemma LiveIsSmaller(rows: map<string, Row>, now: int)
    ensures |LiveRows(rows, now)| <= |rows|
    ensures (exists b :: b in rows && rows[b].resetAt <= now) ==> |LiveRows(rows, now)| < |rows|
  {
    var live := LiveRows(rows, now).Keys;
    ProperSubsetIsSmaller(live, rows.Keys);
    if b :| b in rows && rows[b].resetAt <= now {
      assert b !in live;
    }
  }

  lemma TableStaysBounded(rows: map<string, Row>, a: Attempt, now: int)
    requires |rows| <= MAX_BUCKETS
    ensures |After(rows, a, now)| <= MAX_BUCKETS
  {
    LiveIsSmaller(rows, now);
    var live := LiveRows(rows, now);
    if a.bucket in live {
      assert Counted(live, a, now).Keys == live.Keys;
      assert |Counted(live, a, now)| == |Counted(live, a, now).Keys| && |live| == |live.Keys|;
    } else {
      assert Counted(live, a, now).Keys == live.Keys + {a.bucket};
    }
  }

  /** Waiting the quoted delay, with no step in between, always gets the attempt through:
      neither the bucket's own window nor a full table refuses it again. */
  lemma WaitingTheQuotedDelayWorks(rows: map<string, Row>, a: Attempt, now: int, later: int)
    requires |rows| <= MAX_BUCKETS && Usable(a, now) && Usable(a, later)
    requires VerdictOn(rows, a, now).Denied? && later >= now + 1000 * VerdictOn(rows, a, now).retryAfterSeconds
    ensures VerdictOn(rows, a, later) == Allowed
  {
    var live := LiveRows(rows, now);
    if a.bucket in live {
      QuotedDelayIsTight(live[a.bucket].resetAt, now);
      assert rows[a.bucket].resetAt <= later;
    } else {
      var earliest := Earliest(Resets(live));
      FullTableHasAReset(live);
      var b :| b in live && live[b].resetAt == earliest.value;
      QuotedDelayIsTight(earliest.value, now);
      assert b in rows && rows[b].resetAt <= later;
    }
    LiveIsSmaller(rows, later);
    assert a.bucket !in LiveRows(rows, later);
  }

  lemma FullTableHasAReset(live: map<string, Row>)
    requires |live| > 0
    ensures Earliest(Resets(live)).Some?
  {
    assert live.Keys != {};
    var b :| b in live;
    assert live[b].resetAt in Resets(live);
  }

  // ------------------------------------------ one attempt, told from the rows alone

  /** The buckets whose window has not run out. */
  function Counting(rows: map<string, Row>, now: int): set<string> {
    set b | b in rows && now < rows[b].resetAt
  }

  predicate Fits(a: Attempt, now: int) {
    && a.hashOk
    && 1 <= a.limit && SafeInteger(a.limit)
    && 1 <= a.windowMs && SafeInteger(a.windowMs) && SafeInteger(now + a.windowMs)
  }

  /** The first of the windows to run out. */
  predicate RunsOutFirst(rows: map<string, Row>, now: int, b: string) {
    b in Counting(rows, now) && forall other :: other in Counting(rows, now) ==> rows[b].resetAt <= rows[other].resetAt
  }

  /** A bucket gets through below its limit, and a new one while fewer than ten thousand
      count; the delay covers the bucket's own window, or the first to run out. */
  lemma AttemptVerdict(rows: map<string, Row>, a: Attempt, now: int)
    ensures var verdict := VerdictOn(rows, a, now);
            if !Fits(a, now) then verdict == Threw
            else if a.bucket in Counting(rows, now) then
              if rows[a.bucket].attempts < a.limit then verdict == Allowed
              else verdict.Denied? && Covers(verdict.retryAfterSeconds, rows[a.bucket].resetAt, now)
            else if |Counting(rows, now)| < 10_000 then verdict == Allowed
            else
              verdict.Denied? && exists b :: RunsOutFirst(rows, now, b) && Covers(verdict.retryAfterSeconds, rows[b].resetAt, now)
  {
    var live := LiveRows(rows, now);
    assert live.Keys == Counting(rows, now) && |live| == |live.Keys|;
    if a.bucket in live {
      QuotedDelayIsTight(live[a.bucket].resetAt, now);
    } else if |live| >= 10_000 {
      FullTableHasAReset(live);
      var earliest := Earliest(Resets(live));
      var b :| b in live && live[b].resetAt == earliest.value;
      forall other | other in Counting(rows, now)
        ensures rows[b].resetAt <= rows[other].resetAt
      {
        assert live[other].resetAt in Resets(live);
      }
      assert RunsOutFirst(rows, now, b);
      QuotedDelayIsTight(earliest.value, now);
    }
  }

  /** Only an allowed attempt counts, in its own bucket and without moving the window; what
      has run out is dropped by any attempt that fits. */
  lemma AttemptStores(rows: map<string, Row>, a: Attempt, now: int)
    ensures var after := After(rows, a, now);
            if !Fits(a, now) then after == rows
            else
              && (forall b :: b in rows.Keys + after.Keys && (b != a.bucket || VerdictOn(rows, a, now).Denied?) ==>
                    && (b in after <==> b in Counting(rows, now))
                    && (b in after ==> after[b] == rows[b]))
              && (VerdictOn(rows, a, now).Allowed? ==>
                    && a.bucket in after
                    && after[a.bucket] == if a.bucket in Counting(rows, now) then Row(rows[a.bucket].attempts + 1, rows[a.bucket].resetAt)
                                          else Row(1, now + a.windowMs))
  {
  }

  // -------------------------------------------------------------------- whole runs

  datatype Event = Event(attempt: Attempt, now: int)

  function Replay(run: seq<Event>): map<string, Row> {
    if run == [] then map[] else After(Replay(Front(run)), Last(run).attempt, Last(run).now)
  }

  function Clock(run: seq<Event>): int {
    if run == [] then 0 else Last(run).now
  }

  predicate ValidRun(run: seq<Event>) {
    run == [] || (ValidRun(Front(run)) && Clock(Front(run)) <= Last(run).now)
  }

  function NextTimes(times: seq<int>, rows: map<string, Row>, e: Event, bucket: string): seq<int> {
    if e.attempt.bucket == bucket && VerdictOn(rows, e.attempt, e.now).Allowed? then times + [e.now] else times
  }

  /** When attempts of one bucket were allowed. */
  function AllowedTimes(run: seq<Event>, bucket: string): seq<int> {
    if run == [] then [] else NextTimes(AllowedTimes(Front(run), bucket), Replay(Front(run)), Last(run), bucket)
  }

  /** One configuration throughout. */
  predicate Configured(run: seq<Event>, limit: nat, windowMs: nat) {
    forall i :: 0 <= i < |run| ==> run[i].attempt.limit == limit && run[i].attempt.windowMs == windowMs
  }

  function RowOf(rows: map<string, Row>, bucket: string): Option<Row> {
    if bucket in rows then Some(rows[bucket]) else None
  }

  predicate Accounted(times: seq<int>, row: Option<Row>, clock: int, limit: nat, span: int) {
    && (forall i :: 0 <= i < |times| ==> times[i] <= clock)
    && match row
       case Some(r) => Tracks(times, r.attempts, r.resetAt, limit, span) && r.resetAt <= clock + span
       case None => Tracks(times, 0, clock + span, limit, span)
  }

  /** Deleting what has run out, on anyone's attempt, forgets nothing that matters. */
  lemma DeletingKeepsAccounts(times: seq<int>, rows: map<string, Row>, bucket: string, clock: int, now: int, limit: nat, span: nat)
    requires Accounted(times, RowOf(rows, bucket), clock, limit, span) && clock <= now
    ensures Accounted(times, RowOf(LiveRows(rows, now), bucket), now, limit, span)
  {
    if bucket in rows && rows[bucket].resetAt <= now {
      Restart(times, rows[bucket].attempts, rows[bucket].resetAt, limit, span, now);
    } else if bucket !in rows {
      ForgetUnused(times, clock + span, now + span, limit, span);
    }
  }

  lemma CountingKeepsAccounts(times: seq<int>, live: map<string, Row>, a: Attempt, now: int, limit: nat, span: nat)
    requires Accounted(times, RowOf(live, a.bucket), now, limit, span)
    requires a.limit == limit && a.windowMs == span && 0 < limit && 0 < span
    requires Judge(live, a, now).Allowed? && (a.bucket in live ==> live[a.bucket].resetAt > now)
    ensures Accounted(times + [now], RowOf(Counted(live, a, now), a.bucket), now, limit, span)
  {
    if a.bucket in live {
      Grant(times, live[a.bucket].attempts, live[a.bucket].resetAt, limit, span, now);
    } else {
      Grant(times, 0, now + span, limit, span, now);
    }
  }

  lemma StepKeepsAccounts(times: seq<int>, rows: map<string, Row>, e: Event, bucket: string, clock: int, limit: nat, span: nat)
    requires Accounted(times, RowOf(rows, bucket), clock, limit, span) && clock <= e.now
    requires e.attempt.limit == limit && e.attempt.windowMs == span
    ensures Accounted(NextTimes(times, rows, e, bucket), RowOf(After(rows, e.attempt, e.now), bucket), e.now, limit, span)
  {
    DeletingKeepsAccounts(times, rows, bucket, clock, e.now, limit, span);
    var live := LiveRows(rows, e.now);
    if !Usable(e.attempt, e.now) {
      if bucket !in rows {
        ForgetUnused(times, clock + span, e.now + span, limit, span);
      }
    } else if VerdictOn(rows, e.attempt, e.now).Allowed? {
      if e.attempt.bucket == bucket {
        CountingKeepsAccounts(times, live, e.attempt, e.now, limit, span);
      } else {
        assert RowOf(Counted(live, e.attempt, e.now), bucket) == RowOf(live, bucket);
      }
    }
  }

  lemma {:induction false} AttemptsAccounted(run: seq<Event>, bucket: string, limit: nat, span: nat)
    requires ValidRun(run) && Configured(run, limit, span)
    ensures Accounted(AllowedTimes(run, bucket), RowOf(Replay(run), bucket), Clock(run), limit, span)
  {
    if run == [] {
      NoGrantsYet(span, limit, span);
    } else {
      assert forall i :: 0 <= i < |Front(run)| ==> Front(run)[i] == run[i];
      AttemptsAccounted(Front(run), bucket, limit, span);
      assert Last(run) == run[|run| - 1];
      StepKeepsAccounts(AllowedTimes(Front(run), bucket), Replay(Front(run)), Last(run), bucket, Clock(Front(run)), limit, span);
    }
  }

  lemma AccountedIsSpaced(times: seq<int>, row: Option<Row>, clock: int, limit: nat, span: int)
    requires Accounted(times, row, clock, limit, span)
    ensures Sorted(times) && Spaced(times, limit, span)
  {
  }

  /** Under one configuration no closed interval of one window lets a bucket through more
      than twice its limit, however other buckets come and go. */
  lemma {:induction false} LoginRateHolds(run: seq<Event>, bucket: string, limit: nat, span: nat, lo: int)
    requires ValidRun(run) && Configured(run, limit, span)
    ensures CountIn(AllowedTimes(run, bucket), lo, lo + span) <= 2 * limit
  {
    AttemptsAccounted(run, bucket, limit, span);
    AccountedIsSpaced(AllowedTimes(run, bucket), RowOf(Replay(run), bucket), Clock(run), limit, span);
    IntervalBound(AllowedTimes(run, bucket), lo, limit, span);
  }
}
