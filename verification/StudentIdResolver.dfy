/** The speculative student-id search (apps/worker/src/vnu/vnu-student-id-resolver.ts):
    several probes run at once and settle in any order, yet the answer is the one a
    one-at-a-time search in priority order gives. */
module StudentIdResolver {
  import opened Prelude

  const LOCAL_RADIUS: int := 16
  const MAX_PROBES: int := 33
  const PLATFORM_CONCURRENCY: int := 6

  predicate ValidStudentId(id: int) {
    0 < id <= MAX_SAFE_INTEGER
  }

  predicate IsDigit(c: char) {
    '0' <= c <= '9'
  }

  predicate IsStudentCode(code: string) {
    |code| == 8 && forall i :: 0 <= i < 8 ==> IsDigit(code[i])
  }

  function Decimal(digits: string): nat
    requires forall i :: 0 <= i < |digits| ==> IsDigit(digits[i])
  {
    if digits == "" then 0
    else
      assert IsDigit(digits[|digits| - 1]);
      10 * Decimal(digits[..|digits| - 1]) + (digits[|digits| - 1] as int - '0' as int)
  }

  /** What the portal says about an identifier, if it is left to answer. */
  datatype Answer = Code(code: Option<string>) | Failure(error: int)

  type Oracle = int -> Answer

  predicate Matches(oracle: Oracle, id: int, target: string) {
    oracle(id) == Code(Some(target))
  }

  // ------------------------------------------------------------ the candidates

  /** The identifier the projection's own code points to, when it is close enough. */
  function Correction(projected: int, target: string, seen: Option<string>): (c: Option<int>)
    requires IsStudentCode(target)
    ensures c.Some? ==> ValidStudentId(c.value) && c.value != projected && -LOCAL_RADIUS <= c.value - projected <= LOCAL_RADIUS
  {
    if seen.Some? && IsStudentCode(seen.value) then
      var offset := Decimal(target) - Decimal(seen.value);
      var corrected := projected + offset;
      if -LOCAL_RADIUS <= offset <= LOCAL_RADIUS && ValidStudentId(corrected) && corrected != projected
      then Some(corrected) else None
    else None
  }

  /** Nearest first, lower before higher. */
  function Offsets(projected: int, radius: nat): seq<int> {
    if radius == 0 then [] else Offsets(projected, radius - 1) + [projected - radius, projected + radius]
  }

  function RawCandidates(projected: int, correction: Option<int>): seq<int> {
    (if correction.Some? then [correction.value] else []) + Offsets(projected, LOCAL_RADIUS)
  }

  predicate Keeps(raw: seq<int>, projected: int, i: nat)
    requires i < |raw|
  {
    ValidStudentId(raw[i]) && raw[i] != projected && raw[i] !in raw[..i]
  }

  /** Valid entries other than the projection, each where it first occurs. */
  function Filtered(raw: seq<int>, projected: int, n: nat): seq<int>
    requires n <= |raw|
  {
    if n == 0 then []
    else Filtered(raw, projected, n - 1) + (if Keeps(raw, projected, n - 1) then [raw[n - 1]] else [])
  }

  /** The candidates in priority order. */
  function Candidates(projected: int, correction: Option<int>): seq<int> {
    var raw := RawCandidates(projected, correction);
    Filtered(raw, projected, |raw|)
  }

  method LocalCandidates(projected: int, correction: Option<int>) returns (candidates: seq<int>)
    ensures candidates == Candidates(projected, correction)
  {
    var raw := if correction.Some? then [correction.value] else [];
    ghost var start := raw;
    var offset := 1;
    while offset <= LOCAL_RADIUS
      invariant 1 <= offset <= LOCAL_RADIUS + 1
      invariant raw == start + Offsets(projected, offset - 1)
    {
      raw := raw + [projected - offset, projected + offset];
      offset := offset + 1;
    }
    candidates := [];
    var index := 0;
    while index < |raw|
      invariant 0 <= index <= |raw|
      invariant candidates == Filtered(raw, projected, index)
    {
      if ValidStudentId(raw[index]) && raw[index] != projected && raw[index] !in raw[..index] {
        candidates := candidates + [raw[index]];
      }
      index := index + 1;
    }
  }

  lemma {:induction false} OffsetsCover(projected: int, radius: nat, id: int)
    ensures id in Offsets(projected, radius) <==> id != projected && -(radius as int) <= id - projected <= radius
  {
    if radius > 0 {
      OffsetsCover(projected, radius - 1, id);
    }
  }

  lemma {:induction false} FilteredMembers(raw: seq<int>, projected: int, n: nat, id: int)
    requires n <= |raw|
    ensures id in Filtered(raw, projected, n) <==> id in raw[..n] && ValidStudentId(id) && id != projected
  {
    if n > 0 {
      FilteredMembers(raw, projected, n - 1, id);
      assert raw[..n] == raw[..n - 1] + [raw[n - 1]];
    }
  }

  predicate Distinct(xs: seq<int>) {
    forall i, j :: 0 <= i < j < |xs| ==> xs[i] != xs[j]
  }

  lemma {:induction false} FilteredDistinct(raw: seq<int>, projected: int, n: nat)
    requires n <= |raw|
    ensures Distinct(Filtered(raw, projected, n))
  {
    if n > 0 {
      FilteredDistinct(raw, projected, n - 1);
      FilteredMembers(raw, projected, n - 1, raw[n - 1]);
    }
  }

  predicate Nearby(projected: int, id: int) {
    ValidStudentId(id) && -LOCAL_RADIUS <= id - projected <= LOCAL_RADIUS
  }

  /** The candidates are exactly the valid identifiers around the projection. */
  lemma CandidatesAreTheNeighbours(projected: int, correction: Option<int>, id: int)
    requires correction.Some? ==> Nearby(projected, correction.value)
    ensures id in Candidates(projected, correction) <==> Nearby(projected, id) && id != projected
  {
    var raw := RawCandidates(projected, correction);
    FilteredMembers(raw, projected, |raw|, id);
    assert raw[..|raw|] == raw;
    OffsetsCover(projected, LOCAL_RADIUS, id);
  }

  lemma {:induction false} DistinctWithinRange(xs: seq<int>, lo: int, hi: int)
    requires Distinct(xs) && lo <= hi
    requires forall i :: 0 <= i < |xs| ==> lo <= xs[i] < hi
    ensures |xs| <= hi - lo
    decreases hi - lo
  {
    if xs != [] {
      assert lo <= xs[0] < hi;
      if hi - 1 in xs {
        var k :| 0 <= k < |xs| && xs[k] == hi - 1;
        var ys := xs[..k] + xs[k + 1..];
        assert forall i :: 0 <= i < |ys| ==> ys[i] == if i < k then xs[i] else xs[i + 1];
        DistinctWithinRange(ys, lo, hi - 1);
      } else {
        DistinctWithinRange(xs, lo, hi - 1);
      }
    }
  }

  /** With the projection itself, never more than 33 distinct identifiers. */
  lemma AtMost33Probes(projected: int, correction: Option<int>)
    requires correction.Some? ==> Nearby(projected, correction.value)
    ensures Distinct([projected] + Candidates(projected, correction))
    ensures 1 + |Candidates(projected, correction)| <= MAX_PROBES
  {
    var raw := RawCandidates(projected, correction);
    var all := [projected] + Candidates(projected, correction);
    FilteredDistinct(raw, projected, |raw|);
    forall id: int
      ensures id in Candidates(projected, correction) <==> Nearby(projected, id) && id != projected
    {
      CandidatesAreTheNeighbours(projected, correction, id);
    }
    forall i | 1 <= i < |all|
      ensures all[i] != projected && Nearby(projected, all[i])
    {
      assert all[i] == Candidates(projected, correction)[i - 1];
      assert all[i] in Candidates(projected, correction);
    }
    DistinctWithinRange(all, projected - LOCAL_RADIUS, projected + LOCAL_RADIUS + 1);
  }

  // ---------------------------------------------------------- sequential search

  datatype Outcome =
    | Found(stdId: int)
    | NotConverged
    | Failed(error: int)
    | Cancelled
    | Misconfigured

  /** One probe at a time from position `i`, stopping at the first match or failure. */
  function SearchFrom(candidates: seq<int>, target: string, oracle: Oracle, i: nat): Outcome
    requires i <= |candidates|
    decreases |candidates| - i
  {
    if i == |candidates| then NotConverged
    else match oracle(candidates[i])
      case Failure(error) => Failed(error)
      case Code(code) => if code == Some(target) then Found(candidates[i]) else SearchFrom(candidates, target, oracle, i + 1)
  }

  function Projection(ownStdId: int, ownCode: int, target: string): int
    requires IsStudentCode(target)
  {
    ownStdId + (Decimal(target) - ownCode)
  }

  predicate Searchable(ownStdId: int, ownCode: int, target: string) {
    && ValidStudentId(ownStdId) && ValidStudentId(ownCode) && IsStudentCode(target)
    && ValidStudentId(Projection(ownStdId, ownCode, target))
  }

  /** The specification: the projection, then its neighbours in priority order. */
  function SequentialSearch(ownStdId: int, ownCode: int, target: string, oracle: Oracle): Outcome {
    if !Searchable(ownStdId, ownCode, target) then NotConverged
    else
      var projected := Projection(ownStdId, ownCode, target);
      match oracle(projected)
      case Failure(error) => Failed(error)
      case Code(seen) =>
        if seen == Some(target) then Found(projected)
        else SearchFrom(Candidates(projected, Correction(projected, target, seen)), target, oracle, 0)
  }

  /** The candidates ahead of position `g` that fail or match: one that a schedule lets go
      unsettled keeps its place in the pool, one that settles ends the search or keeps
      later ones from starting. */
  function Blockers(candidates: seq<int>, target: string, oracle: Oracle, g: nat): set<nat>
    requires g <= |candidates|
  {
    set i: nat | i < g && (oracle(candidates[i]).Failure? || Matches(oracle, candidates[i], target))
  }

  /** A failing candidate that a pool of this width may be probing. */
  predicate InReach(candidates: seq<int>, target: string, oracle: Oracle, width: int, g: nat) {
    g < |candidates| && oracle(candidates[g]).Failure? && |Blockers(candidates, target, oracle, g)| < width
  }

  ghost predicate ErrorFree(oracle: Oracle, projected: int) {
    forall id :: Nearby(projected, id) ==> oracle(id).Code?
  }

  lemma {:induction false} SearchFromMeaning(candidates: seq<int>, target: string, oracle: Oracle, i: nat)
    requires i <= |candidates|
    requires forall id :: id in candidates ==> oracle(id).Code?
    ensures var r := SearchFrom(candidates, target, oracle, i);
            && (r.Found? || r.NotConverged?)
            && (r.NotConverged? <==> forall k :: i <= k < |candidates| ==> !Matches(oracle, candidates[k], target))
            && (r.Found? ==> exists k :: i <= k < |candidates| && candidates[k] == r.stdId && Matches(oracle, r.stdId, target)
                                         && forall m :: i <= m < k ==> !Matches(oracle, candidates[m], target))
    decreases |candidates| - i
  {
    if i < |candidates| {
      assert candidates[i] in candidates;
      SearchFromMeaning(candidates, target, oracle, i + 1);
    }
  }

  /** The search fails to converge exactly when no valid identifier within 16 of the
      projection has the target code. */
  lemma NotConvergedIffNobodyNearby(ownStdId: int, ownCode: int, target: string, oracle: Oracle)
    requires Searchable(ownStdId, ownCode, target)
    requires ErrorFree(oracle, Projection(ownStdId, ownCode, target))
    ensures var projected := Projection(ownStdId, ownCode, target);
            var r := SequentialSearch(ownStdId, ownCode, target, oracle);
            && (r.Found? || r.NotConverged?)
            && (r.NotConverged? <==> forall id :: Nearby(projected, id) ==> !Matches(oracle, id, target))
            && (r.Found? ==> Nearby(projected, r.stdId) && Matches(oracle, r.stdId, target))
  {
    var projected := Projection(ownStdId, ownCode, target);
    assert Nearby(projected, projected);
    var seen := oracle(projected).code;
    if seen != Some(target) {
      var candidates := Candidates(projected, Correction(projected, target, seen));
      forall id: int
        ensures id in candidates <==> Nearby(projected, id) && id != projected
      {
        CandidatesAreTheNeighbours(projected, Correction(projected, target, seen), id);
      }
      SearchFromMeaning(candidates, target, oracle, 0);
      var r := SearchFrom(candidates, target, oracle, 0);
      if r.NotConverged? {
        forall id | Nearby(projected, id)
          ensures !Matches(oracle, id, target)
        {
          if id != projected {
            var k :| 0 <= k < |candidates| && candidates[k] == id;
          }
        }
      } else {
        assert r.stdId in candidates;
      }
    }
  }
}
