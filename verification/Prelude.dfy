/** Small vocabulary shared by every model in this project. */
module Prelude {
  datatype Option<+T> = None | Some(value: T)

  datatype Result<+T, +E> = Ok(value: T) | Err(error: E)

  /** Number.MAX_SAFE_INTEGER */
  const MAX_SAFE_INTEGER: int := 9_007_199_254_740_991

  /** The largest instant a JavaScript clock can report. */
  const MAX_TIME: int := 8_640_000_000_000_000

  predicate SafeInteger(n: int) {
    -MAX_SAFE_INTEGER <= n <= MAX_SAFE_INTEGER
  }

  function Min(a: int, b: int): int {
    if a <= b then a else b
  }

  function Max(a: int, b: int): int {
    if a >= b then a else b
  }

  /** Math.max(1, Math.ceil((until - now) / 1000)) */
  function RetryAfterSeconds(until: int, now: int): int {
    Max(1, (until - now + 999) / 1000)
  }

  /** Waiting a quoted delay always reaches the quoted instant, and a quote
      longer than a second is never a whole second too long. */
  lemma QuotedDelayIsTight(until: int, now: int)
    ensures now + 1000 * RetryAfterSeconds(until, now) >= until
    ensures RetryAfterSeconds(until, now) > 1
            ==> now + 1000 * (RetryAfterSeconds(until, now) - 1) < until
  {
    var n := until - now + 999;
    assert n == 1000 * (n / 1000) + n % 1000;
  }

  /** The whole seconds, at least one, that cover what is left until an instant. */
  predicate Covers(seconds: int, until: int, now: int) {
    1 <= seconds && until <= now + 1000 * seconds && (seconds == 1 || now + 1000 * (seconds - 1) < until)
  }

  function Last<T>(run: seq<T>): T
    requires run != []
  {
    run[|run| - 1]
  }

  function Front<T>(run: seq<T>): seq<T>
    requires run != []
  {
    run[..|run| - 1]
  }

  predicate IsLeast(at: int, times: set<int>) {
    at in times && forall other :: other in times ==> at <= other
  }

  lemma {:induction false} LeastExists(times: set<int>)
    requires times != {}
    ensures exists at :: IsLeast(at, times)
    decreases |times|
  {
    var some :| some in times;
    if smaller :| smaller in times && smaller < some {
      var rest := set t | t in times && t < some;
      assert some in times && some !in rest;
      ProperSubsetIsSmaller(rest, times);
      assert smaller in rest;
      LeastExists(rest);
      var least :| IsLeast(least, rest);
      forall other | other in times
        ensures least <= other
      {
        assert other < some ==> other in rest;
      }
      assert IsLeast(least, times);
    } else {
      assert IsLeast(some, times);
    }
  }

  lemma ProperSubsetIsSmaller<T>(part: set<T>, whole: set<T>)
    requires part <= whole
    ensures |part| <= |whole|
    ensures part != whole ==> |part| < |whole|
  {
    var gone := whole - part;
    assert part + gone == whole && part !! gone;
    assert |part| + |gone| == |whole|;
  }

  /** Math.min over a set that may be empty. */
  function Earliest(times: set<int>): (at: Option<int>)
    ensures at.None? <==> times == {}
    ensures at.Some? ==> IsLeast(at.value, times)
  {
    if times == {} then None
    else
      LeastExists(times);
      var least :| IsLeast(least, times);
      Some(least)
  }
}
