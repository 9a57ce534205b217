/** The feature-policy log (apps/worker/src/policy/feature-policy-store.ts and
    feature-policy-durable-object.ts): compare-and-swap publication and stable pages. */
module PolicyHistory {
  import opened Prelude

  const MAX_HISTORY_LIMIT: nat := 100

  type Policy = string

  datatype Publication = Publication(baseRevision: int, policy: Policy, reason: string, actor: string)

  datatype Snapshot = Snapshot(policy: Policy, revision: int)

  datatype Entry = Entry(revision: int, baseRevision: int, actor: string, reason: string, publishedAt: int, snapshot: Snapshot)

  /** The log as the in-memory store keeps it, newest entry first. */
  datatype Log = Log(current: Snapshot, entries: seq<Entry>)

  datatype PublishError = Conflict(currentRevision: int) | RevisionOverflow | RevisionNotFound

  /** Revisions are n, n-1, .., 1, each based on the one before. */
  predicate GapFree(entries: seq<Entry>) {
    && |entries| <= MAX_SAFE_INTEGER
    && forall i :: 0 <= i < |entries| ==>
         && entries[i].revision == |entries| - i
         && entries[i].baseRevision == entries[i].revision - 1
         && entries[i].snapshot.revision == entries[i].revision
  }

  predicate LogOk(log: Log) {
    && GapFree(log.entries)
    && log.current.revision == |log.entries|
    && (log.entries != [] ==> log.current == log.entries[0].snapshot)
  }

  function EntryFor(p: Publication, revision: int, at: int): Entry {
    Entry(revision, p.baseRevision, p.actor, p.reason, at, Snapshot(p.policy, revision))
  }

  function PublishReply(log: Log, p: Publication, at: int): Result<Entry, PublishError> {
    if p.baseRevision != log.current.revision then Err(Conflict(log.current.revision))
    else if log.current.revision + 1 > MAX_SAFE_INTEGER then Err(RevisionOverflow)
    else Ok(EntryFor(p, log.current.revision + 1, at))
  }

  function Published(log: Log, p: Publication, at: int): Log {
    var reply := PublishReply(log, p, at);
    if reply.Err? then log else Log(reply.value.snapshot, [reply.value] + log.entries)
  }

  /** A publication appends one entry or nothing; what was there stays. */
  lemma PublishingKeepsTheLog(log: Log, p: Publication, at: int)
    requires LogOk(log)
    ensures LogOk(Published(log, p, at))
    ensures var reply := PublishReply(log, p, at);
            && (reply.Ok? <==> p.baseRevision == |log.entries| && |log.entries| < MAX_SAFE_INTEGER)
            && Published(log, p, at).entries == (if reply.Ok? then [reply.value] else []) + log.entries
            && (reply.Ok? ==> reply.value.revision == p.baseRevision + 1 && Published(log, p, at).current == Snapshot(p.policy, p.baseRevision + 1))
  {
  }

  /** The entry a publication appends says who changed what, why, when and on which base;
      any other publication is told the revision it should have been based on. */
  lemma PublicationIs(log: Log, p: Publication, at: int)
    requires LogOk(log)
    ensures var reply := PublishReply(log, p, at);
            if p.baseRevision != |log.entries| then reply == Err(Conflict(|log.entries|))
            else if |log.entries| == MAX_SAFE_INTEGER then reply == Err(RevisionOverflow)
            else
              && reply.Ok?
              && Published(log, p, at) == Log(reply.value.snapshot, [reply.value] + log.entries)
              && reply.value.actor == p.actor && reply.value.reason == p.reason && reply.value.publishedAt == at
              && reply.value.baseRevision == |log.entries| && reply.value.revision == |log.entries| + 1
              && reply.value.snapshot.policy == p.policy && reply.value.snapshot.revision == |log.entries| + 1
  {
  }

  // --------------------------------------------------------- concurrent publishers

  datatype Attempt = Attempt(publication: Publication, at: int)

  /** The store serializes its publishers: some order of attempts, one after the other. */
  function After(log: Log, attempts: seq<Attempt>): Log {
    if attempts == [] then log
    else Published(After(log, Front(attempts)), Last(attempts).publication, Last(attempts).at)
  }

  function ReplyTo(log: Log, attempts: seq<Attempt>, i: nat): Result<Entry, PublishError>
    requires i < |attempts|
  {
    PublishReply(After(log, attempts[..i]), attempts[i].publication, attempts[i].at)
  }

  lemma {:induction false} LogStaysOk(log: Log, attempts: seq<Attempt>)
    requires LogOk(log)
    ensures LogOk(After(log, attempts))
    ensures After(log, attempts).current.revision >= log.current.revision
  {
    if attempts != [] {
      LogStaysOk(log, Front(attempts));
      PublishingKeepsTheLog(After(log, Front(attempts)), Last(attempts).publication, Last(attempts).at);
    }
  }

  lemma {:induction false} RevisionsGrow(log: Log, attempts: seq<Attempt>, i: nat)
    requires LogOk(log) && i <= |attempts|
    ensures After(log, attempts[..i]).current.revision <= After(log, attempts).current.revision
    decreases |attempts|
  {
    if i == |attempts| {
      assert attempts[..i] == attempts;
    } else {
      RevisionsGrow(log, Front(attempts), i);
      assert Front(attempts)[..i] == attempts[..i];
      LogStaysOk(log, Front(attempts));
      PublishingKeepsTheLog(After(log, Front(attempts)), Last(attempts).publication, Last(attempts).at);
    }
  }

  /** Winners of one base: never two. */
  lemma AtMostOneWins(log: Log, attempts: seq<Attempt>, i: nat, j: nat)
    requires LogOk(log) && i < j < |attempts|
    requires ReplyTo(log, attempts, i).Ok? && ReplyTo(log, attempts, j).Ok?
    ensures attempts[i].publication.baseRevision < attempts[j].publication.baseRevision
  {
    var upTo := attempts[..i + 1];
    assert Front(upTo) == attempts[..i] && Last(upTo) == attempts[i];
    LogStaysOk(log, attempts[..i]);
    PublishingKeepsTheLog(After(log, attempts[..i]), attempts[i].publication, attempts[i].at);
    RevisionsGrow(log, attempts[..j], i + 1);
    assert attempts[..j][..i + 1] == upTo;
    LogStaysOk(log, attempts[..j]);
  }

  // ------------------------------------------------------------------------ pages

  datatype HistoryInput = HistoryInput(beforeRevision: Option<int>, limit: int)

  datatype HistoryPage = HistoryPage(items: seq<Entry>, nextBeforeRevision: Option<int>)

  datatype HistoryError = InvalidHistory

  predicate InputOk(input: HistoryInput) {
    && 0 < input.limit <= MAX_SAFE_INTEGER
    && (input.beforeRevision.Some? ==> 0 < input.beforeRevision.value <= MAX_SAFE_INTEGER)
  }

  function PageSize(input: HistoryInput): int {
    Min(input.limit, MAX_HISTORY_LIMIT)
  }

  function Earlier(entries: seq<Entry>, before: int): seq<Entry> {
    if entries == [] then []
    else if entries[0].revision < before then [entries[0]] + Earlier(entries[1..], before)
    else Earlier(entries[1..], before)
  }

  function Page(items: seq<Entry>, more: bool): HistoryPage {
    HistoryPage(items, if more && items != [] then Some(Last(items).revision) else None)
  }

  /** Filter, then slice: the in-memory store. */
  function MemoryPage(entries: seq<Entry>, input: HistoryInput): Result<HistoryPage, HistoryError> {
    if !InputOk(input) then Err(InvalidHistory)
    else
      var eligible := if input.beforeRevision.None? then entries else Earlier(entries, input.beforeRevision.value);
      var items := eligible[..Min(PageSize(input), |eligible|)];
      Ok(Page(items, |eligible| > |items|))
  }

  /** `revision < before ORDER BY revision DESC LIMIT n` over rows held in key order. */
  function Select(rows: seq<Entry>, before: int, n: nat): (r: seq<Entry>)
    ensures |r| <= n
  {
    if rows == [] || n == 0 then []
    else if Last(rows).revision < before then [Last(rows)] + Select(Front(rows), before, n - 1)
    else Select(Front(rows), before, n)
  }

  /** One row more than asked for tells whether there is another page. */
  function SqlPage(rows: seq<Entry>, input: HistoryInput): Result<HistoryPage, HistoryError> {
    if !InputOk(input) then Err(InvalidHistory)
    else
      var before := if input.beforeRevision.None? then MAX_SAFE_INTEGER else input.beforeRevision.value;
      var found := Select(rows, before, PageSize(input) + 1);
      Ok(Page(found[..Min(PageSize(input), |found|)], |found| > PageSize(input)))
  }

  /** A page is refused for a limit or a bound that is not a positive safe integer, by both
      stores alike; no page has more entries than asked for, nor than a hundred. */
  lemma PagesAreBounded(entries: seq<Entry>, input: HistoryInput)
    ensures MemoryPage(entries, input).Err? <==>
              || input.limit < 1 || !SafeInteger(input.limit)
              || (input.beforeRevision.Some? && (input.beforeRevision.value < 1 || !SafeInteger(input.beforeRevision.value)))
    ensures SqlPage(entries, input).Err? <==> MemoryPage(entries, input).Err?
    ensures PageSize(input) <= input.limit && PageSize(input) <= 100 && (PageSize(input) == input.limit || PageSize(input) == 100)
    ensures MemoryPage(entries, input).Ok? ==> |MemoryPage(entries, input).value.items| <= PageSize(input)
    ensures SqlPage(entries, input).Ok? ==> |SqlPage(entries, input).value.items| <= PageSize(input)
  {
  }

  function Reversed(entries: seq<Entry>): (r: seq<Entry>)
    ensures |r| == |entries|
  {
    seq(|entries|, i requires 0 <= i < |entries| => entries[|entries| - 1 - i])
  }

  // --------------------------------------------------------- pages in closed form

  /** How many entries precede the revision asked for. */
  function NewestBelow(entries: seq<Entry>, before: Option<int>): (n: nat)
    ensures n <= |entries|
  {
    if before.None? then |entries| else Max(0, Min(before.value - 1, |entries|))
  }

  /** The `size` newest of the `newest` oldest entries. */
  function TopOf(entries: seq<Entry>, newest: nat, size: nat): (top: seq<Entry>)
    requires newest <= |entries|
    ensures |top| == Min(size, newest)
    ensures forall i :: 0 <= i < |top| ==> top[i] == entries[|entries| - newest + i]
  {
    entries[|entries| - newest..|entries| - newest + Min(size, newest)]
  }

  /** A page in closed form: the next lower revisions, and where to go on if any remain. */
  function PageBelow(entries: seq<Entry>, newest: nat, size: nat): HistoryPage
    requires newest <= |entries|
  {
    HistoryPage(TopOf(entries, newest, size), if newest > size then Some(newest - size + 1) else None)
  }

  /** The `n` oldest entries, newest first. */
  function Oldest(entries: seq<Entry>, n: nat): (r: seq<Entry>)
    requires n <= |entries|
    ensures |r| == n && forall i :: 0 <= i < n ==> r[i] == entries[|entries| - n + i]
  {
    entries[|entries| - n..]
  }

  lemma SameEntries(left: seq<Entry>, right: seq<Entry>)
    requires |left| == |right|
    requires forall i :: 0 <= i < |left| ==> left[i] == right[i]
    ensures left == right
  {
  }

  lemma PageIs(entries: seq<Entry>, newest: nat, size: nat)
    requires GapFree(entries) && newest <= |entries| && 0 < size
    ensures Page(TopOf(entries, newest, size), newest > size) == PageBelow(entries, newest, size)
  {
    if newest > size {
      var items := TopOf(entries, newest, size);
      assert items[size - 1] == entries[|entries| - newest + size - 1];
    }
  }

  lemma {:induction false} EarlierIsAll(entries: seq<Entry>, before: int)
    requires GapFree(entries) && |entries| < before
    ensures Earlier(entries, before) == entries
  {
    if entries != [] {
      TailIsGapFree(entries);
      EarlierIsAll(entries[1..], before);
      assert [entries[0]] + entries[1..] == entries;
    }
  }

  lemma TailIsGapFree(entries: seq<Entry>)
    requires GapFree(entries) && entries != []
    ensures GapFree(entries[1..]) && entries[0].revision == |entries|
  {
  }

  lemma OldestOfTail(entries: seq<Entry>, n: nat)
    requires n < |entries|
    ensures Oldest(entries[1..], n) == Oldest(entries, n)
  {
    SameEntries(Oldest(entries[1..], n), Oldest(entries, n));
  }

  lemma EarlierSkips(entries: seq<Entry>, before: int)
    requires entries != [] && before <= entries[0].revision
    ensures Earlier(entries, before) == Earlier(entries[1..], before)
  {
  }

  lemma {:induction false} EarlierIsASuffix(entries: seq<Entry>, before: int)
    requires GapFree(entries)
    ensures Earlier(entries, before) == Oldest(entries, NewestBelow(entries, Some(before)))
  {
    if |entries| < before {
      EarlierIsAll(entries, before);
      SameEntries(entries, Oldest(entries, |entries|));
    } else if entries != [] {
      TailIsGapFree(entries);
      EarlierSkips(entries, before);
      EarlierIsASuffix(entries[1..], before);
      OldestOfTail(entries, NewestBelow(entries, Some(before)));
    } else {
      SameEntries([], Oldest(entries, 0));
    }
  }

  lemma MemoryPageIs(entries: seq<Entry>, input: HistoryInput)
    requires GapFree(entries) && InputOk(input)
    ensures MemoryPage(entries, input) == Ok(PageBelow(entries, NewestBelow(entries, input.beforeRevision), PageSize(input)))
  {
    var newest, size := NewestBelow(entries, input.beforeRevision), PageSize(input);
    if input.beforeRevision.Some? {
      EarlierIsASuffix(entries, input.beforeRevision.value);
    }
    var eligible := if input.beforeRevision.None? then entries else Earlier(entries, input.beforeRevision.value);
    SameEntries(eligible[..Min(size, |eligible|)], TopOf(entries, newest, size));
    PageIs(entries, newest, size);
  }

  lemma {:induction false} SelectRows(rows: seq<Entry>, before: int, n: nat)
    requires forall i :: 0 <= i < |rows| ==> rows[i].revision == i + 1
    requires 1 <= before
    ensures |Select(rows, before, n)| == Min(n, Min(before - 1, |rows|))
    ensures forall i :: 0 <= i < |Select(rows, before, n)| ==> Select(rows, before, n)[i] == rows[Min(before - 1, |rows|) - 1 - i]
  {
    if rows != [] && n > 0 {
      assert rows[|rows| - 1].revision == |rows|;
      if |rows| < before {
        SelectRows(Front(rows), before, n - 1);
      } else {
        SelectRows(Front(rows), before, n);
      }
    }
  }

  lemma RowsInKeyOrder(entries: seq<Entry>)
    requires GapFree(entries)
    ensures forall i :: 0 <= i < |entries| ==> Reversed(entries)[i].revision == i + 1
  {
  }

  lemma SelectIs(entries: seq<Entry>, before: int, n: nat)
    requires GapFree(entries) && 1 <= before
    ensures Select(Reversed(entries), before, n) == TopOf(entries, NewestBelow(entries, Some(before)), n)
  {
    var rows, newest := Reversed(entries), NewestBelow(entries, Some(before));
    RowsInKeyOrder(entries);
    SelectRows(rows, before, n);
    var found := Select(rows, before, n);
    forall i | 0 <= i < |found|
      ensures found[i] == TopOf(entries, newest, n)[i]
    {
      assert found[i] == rows[newest - 1 - i];
    }
    SameEntries(found, TopOf(entries, newest, n));
  }

  function SqlBound(input: HistoryInput): int {
    if input.beforeRevision.None? then MAX_SAFE_INTEGER else input.beforeRevision.value
  }

  lemma SqlPageIs(entries: seq<Entry>, input: HistoryInput)
    requires GapFree(entries) && InputOk(input)
    ensures SqlPage(Reversed(entries), input) == Ok(PageBelow(entries, NewestBelow(entries, Some(SqlBound(input))), PageSize(input)))
  {
    var newest, size := NewestBelow(entries, Some(SqlBound(input))), PageSize(input);
    SelectIs(entries, SqlBound(input), size + 1);
    var found := TopOf(entries, newest, size + 1);
    SameEntries(found[..Min(size, |found|)], TopOf(entries, newest, size));
    PageIs(entries, newest, size);
  }

  /** The two stores show the same pages of the same log, save that an open-ended SQL page
      would miss the very last revision the schema admits. */
  lemma PagesAgree(entries: seq<Entry>, input: HistoryInput)
    requires GapFree(entries)
    ensures MemoryPage(entries, input) == SqlPage(Reversed(entries), input)
            <==> !InputOk(input) || input.beforeRevision.Some? || |entries| < MAX_SAFE_INTEGER
  {
    if InputOk(input) {
      MemoryPageIs(entries, input);
      SqlPageIs(entries, input);
      if input.beforeRevision.None? && |entries| == MAX_SAFE_INTEGER {
        FirstPagesDiffer(entries, PageSize(input));
      }
    }
  }

  lemma FirstPagesDiffer(entries: seq<Entry>, size: nat)
    requires GapFree(entries) && 1 < |entries| && 0 < size
    ensures PageBelow(entries, |entries|, size) != PageBelow(entries, |entries| - 1, size)
  {
    assert TopOf(entries, |entries|, size)[0].revision == |entries|;
    assert TopOf(entries, |entries| - 1, size)[0].revision == |entries| - 1;
  }

  // ------------------------------------------------- following pages while others publish

  predicate Extends(longer: seq<Entry>, shorter: seq<Entry>) {
    |shorter| <= |longer| && forall i :: 0 <= i < |shorter| ==> longer[|longer| - |shorter| + i] == shorter[i]
  }

  /** What the store holds when each page is asked for. */
  type Views = nat -> seq<Entry>

  /** How a store answers. */
  type Pager = (seq<Entry>, HistoryInput) -> Result<HistoryPage, HistoryError>

  /** A view taken later shows more entries, and the earlier ones unchanged. */
  ghost predicate Growing(views: Views) {
    && (forall k: nat :: GapFree(views(k)))
    && (forall k: nat, l: nat :: k <= l ==> Extends(views(l), views(k)))
  }

  predicate PageOk(pager: Pager, entries: seq<Entry>, input: HistoryInput)
    requires InputOk(input)
  {
    pager(entries, input) == Ok(PageBelow(entries, NewestBelow(entries, input.beforeRevision), PageSize(input)))
  }

  /** The store pages a gap-free log in closed form from any revision on. */
  ghost predicate PagerOk(pager: Pager) {
    forall entries, input :: GapFree(entries) && InputOk(input) && input.beforeRevision.Some? ==> PageOk(pager, entries, input)
  }

  predicate LimitOk(limit: int) {
    0 < limit <= MAX_SAFE_INTEGER
  }

  ghost predicate LimitsOk(limits: nat -> int) {
    forall l: nat :: LimitOk(limits(l))
  }

  /** Asks for page after page until no further one is announced. */
  ghost function Follow(pager: Pager, views: Views, limits: nat -> int, k: nat, before: int): seq<Entry>
    requires Growing(views) && PagerOk(pager) && LimitsOk(limits) && 1 <= before <= MAX_SAFE_INTEGER
    decreases before
  {
    var input := HistoryInput(Some(before), limits(k));
    assert LimitOk(limits(k)) && PageOk(pager, views(k), input);
    var page := pager(views(k), input).value;
    if page.nextBeforeRevision.None? then page.items
    else page.items + Follow(pager, views, limits, k + 1, page.nextBeforeRevision.value)
  }

  ghost function FollowAll(pager: Pager, views: Views, limits: nat -> int): seq<Entry>
    requires Growing(views) && PagerOk(pager) && LimitsOk(limits)
    requires LimitOk(limits(0)) && PageOk(pager, views(0), HistoryInput(None, limits(0)))
  {
    var page := pager(views(0), HistoryInput(None, limits(0))).value;
    assert LimitOk(limits(0)) && GapFree(views(0));
    if page.nextBeforeRevision.None? then page.items
    else page.items + Follow(pager, views, limits, 1, page.nextBeforeRevision.value)
  }

  lemma TopAndRest(entries: seq<Entry>, newest: nat, size: nat)
    requires newest <= |entries|
    ensures newest > size ==> TopOf(entries, newest, size) + Oldest(entries, newest - size) == Oldest(entries, newest)
    ensures newest <= size ==> TopOf(entries, newest, size) == Oldest(entries, newest)
  {
    if newest > size {
      SameEntries(TopOf(entries, newest, size) + Oldest(entries, newest - size), Oldest(entries, newest));
    } else {
      SameEntries(TopOf(entries, newest, size), Oldest(entries, newest));
    }
  }

  /** A page below a revision that was there before shows nothing of what came since. */
  lemma TopOfGrown(entries: seq<Entry>, first: seq<Entry>, newest: nat, size: nat)
    requires Extends(entries, first) && newest <= |first|
    ensures TopOf(entries, newest, size) == TopOf(first, newest, size)
  {
    var grown := |entries| - |first|;
    forall i | 0 <= i < Min(size, newest)
      ensures TopOf(entries, newest, size)[i] == TopOf(first, newest, size)[i]
    {
      assert entries[grown + (|first| - newest + i)] == first[|first| - newest + i];
    }
    SameEntries(TopOf(entries, newest, size), TopOf(first, newest, size));
  }

  lemma PageOfLater(pager: Pager, entries: seq<Entry>, first: seq<Entry>, input: HistoryInput)
    requires PagerOk(pager) && GapFree(entries) && Extends(entries, first)
    requires InputOk(input) && input.beforeRevision.Some? && input.beforeRevision.value <= |first|
    ensures pager(entries, input) == Ok(PageBelow(first, input.beforeRevision.value - 1, PageSize(input)))
  {
    assert PageOk(pager, entries, input);
    TopOfGrown(entries, first, input.beforeRevision.value - 1, PageSize(input));
  }

  lemma FollowOnce(pager: Pager, views: Views, limits: nat -> int, k: nat, before: int)
    requires Growing(views) && PagerOk(pager) && LimitsOk(limits) && 1 <= before <= |views(0)| <= MAX_SAFE_INTEGER
    ensures var size := PageSize(HistoryInput(Some(before), limits(k)));
            && 0 < size
            && Follow(pager, views, limits, k, before) ==
               TopOf(views(0), before - 1, size) + (if before - 1 > size then Follow(pager, views, limits, k + 1, before - size) else [])
  {
    var input := HistoryInput(Some(before), limits(k));
    assert LimitOk(limits(k)) && GapFree(views(k)) && Extends(views(k), views(0));
    PageOfLater(pager, views(k), views(0), input);
  }

  lemma {:induction false} FollowIsTheRest(pager: Pager, views: Views, limits: nat -> int, k: nat, before: int)
    requires Growing(views) && PagerOk(pager) && LimitsOk(limits) && 1 <= before <= |views(0)| <= MAX_SAFE_INTEGER
    ensures Follow(pager, views, limits, k, before) == Oldest(views(0), before - 1)
    decreases before
  {
    var size := PageSize(HistoryInput(Some(before), limits(k)));
    FollowOnce(pager, views, limits, k, before);
    TopAndRest(views(0), before - 1, size);
    if before - 1 > size {
      FollowIsTheRest(pager, views, limits, k + 1, before - size);
    }
  }

  lemma FollowFromTheTop(pager: Pager, views: Views, limits: nat -> int)
    requires Growing(views) && PagerOk(pager) && LimitsOk(limits)
    requires LimitOk(limits(0)) && PageOk(pager, views(0), HistoryInput(None, limits(0)))
    ensures var n, size := |views(0)|, PageSize(HistoryInput(None, limits(0)));
            && n <= MAX_SAFE_INTEGER && 0 < size
            && FollowAll(pager, views, limits) ==
               TopOf(views(0), n, size) + (if n > size then Follow(pager, views, limits, 1, n - size + 1) else [])
  {
    assert GapFree(views(0));
  }

  /** Whoever publishes meanwhile, and whatever the page sizes, the pages together are the
      entries present at the first page: each once, newest first, and then they end. */
  lemma PagingIsStable(pager: Pager, views: Views, limits: nat -> int)
    requires Growing(views) && PagerOk(pager) && LimitsOk(limits)
    requires LimitOk(limits(0)) && PageOk(pager, views(0), HistoryInput(None, limits(0)))
    ensures FollowAll(pager, views, limits) == views(0)
  {
    var n, size := |views(0)|, PageSize(HistoryInput(None, limits(0)));
    FollowFromTheTop(pager, views, limits);
    TopAndRest(views(0), n, size);
    SameEntries(Oldest(views(0), n), views(0));
    if n > size {
      FollowIsTheRest(pager, views, limits, 1, n - size + 1);
    }
  }

  // ------------------------------------------------------- ... by the two real stores

  lemma {:induction false} LogGrows(log: Log, attempts: seq<Attempt>, i: nat)
    requires LogOk(log) && i <= |attempts|
    ensures Extends(After(log, attempts).entries, After(log, attempts[..i]).entries)
    decreases |attempts|
  {
    if i == |attempts| {
      assert attempts[..i] == attempts;
    } else {
      LogGrows(log, Front(attempts), i);
      assert Front(attempts)[..i] == attempts[..i];
      LogStaysOk(log, Front(attempts));
      PublishingKeepsTheLog(After(log, Front(attempts)), Last(attempts).publication, Last(attempts).at);
    }
  }

  /** Page k is asked for once `done(k)` of the attempts have been made. */
  function ViewsOf(log: Log, attempts: seq<Attempt>, done: nat -> nat): Views {
    (k: nat) => After(log, attempts[..Min(done(k), |attempts|)]).entries
  }

  lemma LaterExtendsEarlier(log: Log, attempts: seq<Attempt>, earlier: nat, later: nat)
    requires LogOk(log) && earlier <= later <= |attempts|
    ensures Extends(After(log, attempts[..later]).entries, After(log, attempts[..earlier]).entries)
  {
    LogGrows(log, attempts[..later], earlier);
    assert attempts[..later][..earlier] == attempts[..earlier];
  }

  lemma RunsAreGrowing(log: Log, attempts: seq<Attempt>, done: nat -> nat)
    requires LogOk(log) && forall k: nat, l: nat :: k <= l ==> done(k) <= done(l)
    ensures Growing(ViewsOf(log, attempts, done))
  {
    var views := ViewsOf(log, attempts, done);
    forall k: nat
      ensures GapFree(views(k))
    {
      LogStaysOk(log, attempts[..Min(done(k), |attempts|)]);
    }
    forall k: nat, l: nat | k <= l
      ensures Extends(views(l), views(k))
    {
      assert done(k) <= done(l);
      LaterExtendsEarlier(log, attempts, Min(done(k), |attempts|), Min(done(l), |attempts|));
    }
  }

  function MemoryPager(): Pager {
    (entries, input) => MemoryPage(entries, input)
  }

  function SqlPager(): Pager {
    (entries, input) => SqlPage(Reversed(entries), input)
  }

  lemma BothPagersAreOk()
    ensures PagerOk(MemoryPager()) && PagerOk(SqlPager())
  {
    forall entries, input | GapFree(entries) && InputOk(input) && input.beforeRevision.Some?
      ensures PageOk(MemoryPager(), entries, input) && PageOk(SqlPager(), entries, input)
    {
      MemoryPageIs(entries, input);
      SqlPageIs(entries, input);
    }
  }

  lemma MemoryPagingIsStable(views: Views, limits: nat -> int)
    requires Growing(views) && PagerOk(MemoryPager()) && LimitsOk(limits) && LimitOk(limits(0))
    ensures PageOk(MemoryPager(), views(0), HistoryInput(None, limits(0)))
    ensures FollowAll(MemoryPager(), views, limits) == views(0)
  {
    assert GapFree(views(0));
    MemoryPageIs(views(0), HistoryInput(None, limits(0)));
    PagingIsStable(MemoryPager(), views, limits);
  }

  lemma SqlPagingIsStable(views: Views, limits: nat -> int)
    requires Growing(views) && PagerOk(SqlPager()) && LimitsOk(limits) && LimitOk(limits(0))
    requires |views(0)| < MAX_SAFE_INTEGER
    ensures PageOk(SqlPager(), views(0), HistoryInput(None, limits(0)))
    ensures FollowAll(SqlPager(), views, limits) == views(0)
  {
    assert GapFree(views(0));
    SqlPageIs(views(0), HistoryInput(None, limits(0)));
    PagingIsStable(SqlPager(), views, limits);
  }

  /** For any publications made between the pages, the in-memory store and - short of the
      very last revision - the durable one enumerate the log as it was at the first page. */
  lemma PagingWhilePublishing(log: Log, attempts: seq<Attempt>, done: nat -> nat, limits: nat -> int)
    requires LogOk(log) && LimitsOk(limits)
    requires forall k: nat, l: nat :: k <= l ==> done(k) <= done(l)
    ensures var views := ViewsOf(log, attempts, done);
            && Growing(views) && PagerOk(MemoryPager()) && PagerOk(SqlPager())
            && LimitOk(limits(0)) && PageOk(MemoryPager(), views(0), HistoryInput(None, limits(0)))
            && FollowAll(MemoryPager(), views, limits) == views(0)
            && (|views(0)| < MAX_SAFE_INTEGER ==>
                  && PageOk(SqlPager(), views(0), HistoryInput(None, limits(0)))
                  && FollowAll(SqlPager(), views, limits) == views(0))
  {
    var views := ViewsOf(log, attempts, done);
    RunsAreGrowing(log, attempts, done);
    BothPagersAreOk();
    MemoryPagingIsStable(views, limits);
    if |views(0)| < MAX_SAFE_INTEGER {
      SqlPagingIsStable(views, limits);
    }
  }

  // --------------------------------------------------------------------- rollback

  function Find(entries: seq<Entry>, revision: int): Option<Entry> {
    if entries == [] then None
    else if entries[0].revision == revision then Some(entries[0])
    else Find(entries[1..], revision)
  }

  function Target(log: Log, target: int): Option<Entry> {
    if target <= 0 then None else Find(log.entries, target)
  }

  /** Looks the target up in the log as it is then, and publishes its policy to the log as
      it is later. */
  function RollbackReply(seen: Log, log: Log, base: int, target: int, reason: string, actor: string, at: int): Result<Entry, PublishError> {
    if Target(seen, target).None? then Err(RevisionNotFound)
    else PublishReply(log, Publication(base, Target(seen, target).value.snapshot.policy, reason, actor), at)
  }

  function RolledBack(seen: Log, log: Log, base: int, target: int, reason: string, actor: string, at: int): Log {
    if Target(seen, target).None? then log
    else Published(log, Publication(base, Target(seen, target).value.snapshot.policy, reason, actor), at)
  }

  lemma {:induction false} FindIs(entries: seq<Entry>, revision: int)
    requires GapFree(entries)
    ensures Find(entries, revision) ==
            if 1 <= revision <= |entries| then Some(entries[|entries| - revision]) else None
  {
    if entries != [] {
      var rest := entries[1..];
      assert GapFree(rest);
      FindIs(rest, revision);
      assert entries[0].revision == |entries|;
    }
  }

  lemma TargetIs(log: Log, target: int)
    requires LogOk(log)
    ensures Target(log, target) == if 1 <= target <= |log.entries| then Some(log.entries[|log.entries| - target]) else None
  {
    FindIs(log.entries, target);
  }

  lemma RollbackOn(seen: Log, log: Log, base: int, target: int, reason: string, actor: string, at: int)
    requires LogOk(seen) && LogOk(log) && Extends(log.entries, seen.entries)
    ensures var reply, after := RollbackReply(seen, log, base, target, reason, actor, at), RolledBack(seen, log, base, target, reason, actor, at);
            && (reply.Ok? <==> 1 <= target <= |seen.entries| && base == |log.entries| && base < MAX_SAFE_INTEGER)
            && after.entries == (if reply.Ok? then [reply.value] else []) + log.entries
            && (reply.Ok? ==> after.current == Snapshot(seen.entries[|seen.entries| - target].snapshot.policy, base + 1))
            && LogOk(after)
  {
    TargetIs(seen, target);
    if 1 <= target <= |seen.entries| {
      PublishingKeepsTheLog(log, Publication(base, seen.entries[|seen.entries| - target].snapshot.policy, reason, actor), at);
    } else {
      assert [] + log.entries == log.entries;
    }
  }

  lemma RollbackVerdict(seen: Log, log: Log, base: int, target: int, reason: string, actor: string, at: int)
    requires LogOk(seen) && LogOk(log)
    ensures var reply := RollbackReply(seen, log, base, target, reason, actor, at);
            && (reply == Err(RevisionNotFound) <==> !(1 <= target <= |seen.entries|))
            && (1 <= target <= |seen.entries| && base != |log.entries| ==> reply == Err(Conflict(|log.entries|)))
            && (reply.Ok? ==> reply.value.reason == reason && reply.value.actor == actor && reply.value.publishedAt == at && reply.value.baseRevision == base)
  {
    TargetIs(seen, target);
  }

  /** A rollback succeeds exactly for a target published when it was looked up, on the base
      current when it publishes, whatever was published in between. It then appends the
      target's policy; every earlier entry, target included, stays as it was. */
  lemma RollbackRestores(log: Log, between: seq<Attempt>, base: int, target: int, reason: string, actor: string, at: int)
    requires LogOk(log)
    ensures var later := After(log, between);
            var reply, after := RollbackReply(log, later, base, target, reason, actor, at), RolledBack(log, later, base, target, reason, actor, at);
            && (reply.Ok? <==> 1 <= target <= |log.entries| && base == |later.entries| && base < MAX_SAFE_INTEGER)
            && after.entries == (if reply.Ok? then [reply.value] else []) + later.entries
            && (reply.Ok? ==> after.current == Snapshot(log.entries[|log.entries| - target].snapshot.policy, base + 1))
            && LogOk(after)
            && (reply == Err(RevisionNotFound) <==> !(1 <= target <= |log.entries|))
            && (1 <= target <= |log.entries| && base != |later.entries| ==> reply == Err(Conflict(|later.entries|)))
            && (reply.Ok? ==> reply.value.reason == reason && reply.value.actor == actor && reply.value.publishedAt == at && reply.value.baseRevision == base)
    ensures Extends(After(log, between).entries, log.entries)
  {
    LogStaysOk(log, between);
    LogGrows(log, between, 0);
    assert between[..0] == [];
    RollbackOn(log, After(log, between), base, target, reason, actor, at);
    RollbackVerdict(log, After(log, between), base, target, reason, actor, at);
  }

  // ------------------------------------------------------------------- the stores

  class MemoryFeaturePolicyStore {
    var snapshot: Snapshot
    var entries: seq<Entry>

    function Contents(): Log
      reads this
    {
      Log(snapshot, entries)
    }

    constructor (empty: Policy)
      ensures Contents() == Log(Snapshot(empty, 0), []) && LogOk(Contents())
    {
      snapshot, entries := Snapshot(empty, 0), [];
    }

    method Publish(input: Publication, at: int) returns (reply: Result<Entry, PublishError>)
      modifies this
      ensures reply == PublishReply(old(Contents()), input, at)
      ensures Contents() == Published(old(Contents()), input, at)
      ensures old(LogOk(Contents())) ==> LogOk(Contents())
    {
      if input.baseRevision != snapshot.revision {
        return Err(Conflict(snapshot.revision));
      }
      var revision := snapshot.revision + 1;
      if revision > MAX_SAFE_INTEGER {
        return Err(RevisionOverflow);
      }
      var entry := EntryFor(input, revision, at);
      snapshot := entry.snapshot;
      entries := [entry] + entries;
      reply := Ok(entry);
    }

    method History(input: HistoryInput) returns (page: Result<HistoryPage, HistoryError>)
      ensures page == MemoryPage(entries, input)
    {
      if !InputOk(input) {
        return Err(InvalidHistory);
      }
      var eligible := if input.beforeRevision.None? then entries else Earlier(entries, input.beforeRevision.value);
      var items := eligible[..Min(PageSize(input), |eligible|)];
      if |eligible| > |items| && |items| > 0 {
        return Ok(HistoryPage(items, Some(items[|items| - 1].revision)));
      }
      page := Ok(HistoryPage(items, None));
    }
  }

  /** The durable store: a current row and the history table, in key order. */
  class DurableFeaturePolicyStore {
    var current: Snapshot
    var rows: seq<Entry>

    function Contents(): Log
      reads this
    {
      Log(current, Reversed(rows))
    }

    constructor (empty: Policy)
      ensures Contents() == Log(Snapshot(empty, 0), []) && LogOk(Contents())
    {
      current, rows := Snapshot(empty, 0), [];
    }

    /** It answers and evolves exactly as the in-memory store does. */
    method Publish(input: Publication, at: int) returns (reply: Result<Entry, PublishError>)
      modifies this
      ensures reply == PublishReply(old(Contents()), input, at)
      ensures Contents() == Published(old(Contents()), input, at)
      ensures old(LogOk(Contents())) ==> LogOk(Contents())
    {
      if current.revision != input.baseRevision {
        return Err(Conflict(current.revision));
      }
      var revision := current.revision + 1;
      if revision > MAX_SAFE_INTEGER {
        return Err(RevisionOverflow);
      }
      var entry := EntryFor(input, revision, at);
      assert Reversed(rows + [entry]) == [entry] + Reversed(rows);
      rows := rows + [entry];
      current := entry.snapshot;
      reply := Ok(entry);
    }

    method History(input: HistoryInput) returns (page: Result<HistoryPage, HistoryError>)
      requires LogOk(Contents())
      ensures page == MemoryPage(Contents().entries, input)
              <==> !InputOk(input) || input.beforeRevision.Some? || current.revision < MAX_SAFE_INTEGER
    {
      assert Reversed(Contents().entries) == rows;
      PagesAgree(Contents().entries, input);
      page := SqlPage(rows, input);
    }
  }
}
