/** What a fixed counting window promises over real time.

    A window holds a number of grants and the instant at which it may restart;
    it restarts lazily, with a full span ahead of it. The refresh, activation
    and probe-budget windows are all instances of this scheme. */
module FixedWindows {
  import opened Prelude

  predicate Sorted(ts: seq<int>) {
    forall i, j :: 0 <= i <= j < |ts| ==> ts[i] <= ts[j]
  }

  /** How many of the given instants lie in the closed interval [lo, hi]. */
  function CountIn(ts: seq<int>, lo: int, hi: int): nat {
    if ts == [] then 0
    else CountIn(ts[..|ts| - 1], lo, hi) + (if lo <= ts[|ts| - 1] <= hi then 1 else 0)
  }

  /** Grants twice the limit apart in the list are more than a span apart in time. */
  predicate Spaced(ts: seq<int>, limit: nat, span: int) {
    forall i, j :: 0 <= i && i + 2 * limit <= j < |ts| ==> ts[i] + span < ts[j]
  }

  /** The grants `ts` are accounted for by a window showing `count`, resetting at
      `resetAt`: the last `count` grants belong to it, the earlier ones precede
      its start, and all but the last `limit` of those precede it by a whole span. */
  predicate Tracks(ts: seq<int>, count: int, resetAt: int, limit: nat, span: int) {
    && 0 <= count <= limit
    && count <= |ts|
    && Sorted(ts)
    && Spaced(ts, limit, span)
    && (forall i :: 0 <= i < |ts| ==> ts[i] < resetAt)
    && (forall i :: 0 <= i < |ts| - count ==> ts[i] + span < resetAt)
    && (forall i :: 0 <= i < |ts| - count - limit ==> ts[i] + 2 * span < resetAt)
  }

  lemma NoGrantsYet(resetAt: int, limit: nat, span: int)
    ensures Tracks([], 0, resetAt, limit, span)
  {
  }

  /** A window that has run out is replaced by one with a full span ahead. */
  lemma Restart(ts: seq<int>, count: int, resetAt: int, limit: nat, span: int, start: int)
    requires Tracks(ts, count, resetAt, limit, span)
    requires resetAt <= start && 0 <= span
    ensures Tracks(ts, 0, start + span, limit, span)
  {
  }

  /** An unused window may be forgotten: a later one accounts for the same grants. */
  lemma ForgetUnused(ts: seq<int>, resetAt: int, later: int, limit: nat, span: int)
    requires Tracks(ts, 0, resetAt, limit, span)
    requires resetAt <= later
    ensures Tracks(ts, 0, later, limit, span)
  {
  }

  lemma Grant(ts: seq<int>, count: int, resetAt: int, limit: nat, span: int, now: int)
    requires Tracks(ts, count, resetAt, limit, span)
    requires count < limit && 0 <= span
    requires now < resetAt <= now + span
    requires forall i :: 0 <= i < |ts| ==> ts[i] <= now
    ensures Tracks(ts + [now], count + 1, resetAt, limit, span)
  {
    var us := ts + [now];
    forall i, j | 0 <= i && i + 2 * limit <= j < |us|
      ensures us[i] + span < us[j]
    {
      if j == |ts| {
        assert i < |ts| - count - limit;
      }
    }
  }

  function Repeat(t: int, n: nat): (r: seq<int>)
    ensures |r| == n && forall i :: 0 <= i < n ==> r[i] == t
  {
    seq(n, _ => t)
  }

  /** Granting several units at one instant is granting them one at a time. */
  lemma {:induction false} GrantMany(ts: seq<int>, count: int, resetAt: int, limit: nat, span: int, now: int, amount: nat)
    requires Tracks(ts, count, resetAt, limit, span)
    requires count + amount <= limit && 0 <= span
    requires now < resetAt <= now + span
    requires forall i :: 0 <= i < |ts| ==> ts[i] <= now
    ensures Tracks(ts + Repeat(now, amount), count + amount, resetAt, limit, span)
    decreases amount
  {
    if amount == 0 {
      assert ts + Repeat(now, 0) == ts;
    } else {
      GrantMany(ts, count, resetAt, limit, span, now, amount - 1);
      var us := ts + Repeat(now, amount - 1);
      Grant(us, count + amount - 1, resetAt, limit, span, now);
      assert us + [now] == ts + Repeat(now, amount);
    }
  }

  lemma {:induction false} CountIsAtMost(ts: seq<int>, lo: int, hi: int)
    ensures CountIn(ts, lo, hi) <= |ts|
  {
    if ts != [] {
      CountIsAtMost(ts[..|ts| - 1], lo, hi);
    }
  }

  lemma {:induction false} CountSkipsEarlier(ts: seq<int>, lo: int, hi: int, skip: nat)
    requires skip <= |ts|
    requires forall i :: 0 <= i < skip ==> ts[i] < lo
    ensures CountIn(ts, lo, hi) <= |ts| - skip
  {
    if |ts| == skip {
      if ts != [] {
        CountSkipsEarlier(ts[..|ts| - 1], lo, hi, skip - 1);
      }
    } else {
      CountSkipsEarlier(ts[..|ts| - 1], lo, hi, skip);
    }
  }

  lemma {:induction false} CountAll(ts: seq<int>, lo: int, hi: int)
    requires forall i :: 0 <= i < |ts| ==> lo <= ts[i] <= hi
    ensures CountIn(ts, lo, hi) == |ts|
  {
    if ts != [] {
      CountAll(ts[..|ts| - 1], lo, hi);
    }
  }

  lemma SpacedPrefix(ts: seq<int>, n: nat, limit: nat, span: int)
    requires n <= |ts| && Sorted(ts) && Spaced(ts, limit, span)
    ensures Sorted(ts[..n]) && Spaced(ts[..n], limit, span)
  {
  }

  /** The promise itself: no closed interval of one span holds more than twice the limit. */
  lemma {:induction false} IntervalBound(ts: seq<int>, lo: int, limit: nat, span: int)
    requires Sorted(ts) && Spaced(ts, limit, span) && 0 <= span
    ensures CountIn(ts, lo, lo + span) <= 2 * limit
  {
    if |ts| <= 2 * limit {
      CountIsAtMost(ts, lo, lo + span);
    } else {
      var last := |ts| - 1;
      if lo <= ts[last] <= lo + span {
        var skip := |ts| - 2 * limit;
        assert ts[last - 2 * limit] + span < ts[last];
        forall i | 0 <= i < skip
          ensures ts[i] < lo
        {
          assert ts[i] <= ts[skip - 1];
        }
        CountSkipsEarlier(ts, lo, lo + span, skip);
      } else {
        SpacedPrefix(ts, last, limit, span);
        IntervalBound(ts[..last], lo, limit, span);
      }
    }
  }
}
