/** What the student-id search means, told with numbers and digits alone: where it looks
    first, and in which order it looks around. */
module ResolverMeaning {
  import opened Prelude
  import opened StudentIdResolver

  /** The text has exactly these eight digits. */
  predicate Spells(text: string, d: seq<int>) {
    && |text| == 8 && |d| == 8
    && forall i :: 0 <= i < 8 ==> 0 <= d[i] <= 9 && text[i] as int == '0' as int + d[i]
  }

  /** The number eight digits denote, most significant first. */
  function Number(d: seq<int>): int
    requires |d| == 8
  {
    d[0] * 10_000_000 + d[1] * 1_000_000 + d[2] * 100_000 + d[3] * 10_000 + d[4] * 1_000 + d[5] * 100 + d[6] * 10 + d[7]
  }

  predicate IsIdentifier(id: int) {
    1 <= id <= 9_007_199_254_740_991
  }

  predicate AllDigits(text: string) {
    forall i :: 0 <= i < |text| ==> IsDigit(text[i])
  }

  lemma DigitsOfPrefix(text: string, d: seq<int>, n: nat)
    requires Spells(text, d) && n <= 8
    ensures AllDigits(text[..n])
  {
    forall i | 0 <= i < n
      ensures IsDigit(text[..n][i])
    {
      assert text[..n][i] == text[i];
    }
  }

  /** The number the first digits denote. */
  function Leading(d: seq<int>, n: nat): int
    requires n <= |d|
  {
    if n == 0 then 0 else 10 * Leading(d, n - 1) + d[n - 1]
  }

  lemma {:induction false} DecimalIsLeading(text: string, d: seq<int>, n: nat)
    requires Spells(text, d) && n <= 8
    ensures AllDigits(text[..n]) && Decimal(text[..n]) == Leading(d, n)
  {
    DigitsOfPrefix(text, d, n);
    if n > 0 {
      DecimalIsLeading(text, d, n - 1);
      var prefix := text[..n];
      assert prefix[..n - 1] == text[..n - 1] && prefix[n - 1] == text[n - 1];
    }
  }

  lemma LeadingIsNumber(d: seq<int>)
    requires |d| == 8
    ensures Leading(d, 8) == Number(d)
  {
    assert Leading(d, 1) == d[0];
    assert Leading(d, 2) == 10 * Leading(d, 1) + d[1];
    assert Leading(d, 3) == 10 * Leading(d, 2) + d[2];
    assert Leading(d, 4) == 10 * Leading(d, 3) + d[3];
    assert Leading(d, 5) == 10 * Leading(d, 4) + d[4];
    assert Leading(d, 6) == 10 * Leading(d, 5) + d[5];
    assert Leading(d, 7) == 10 * Leading(d, 6) + d[6];
  }

  lemma SpelledNumber(text: string, d: seq<int>)
    requires Spells(text, d)
    ensures IsStudentCode(text) && Decimal(text) == Number(d)
  {
    DecimalIsLeading(text, d, 8);
    LeadingIsNumber(d);
    assert text[..8] == text;
  }

  /** Every eight-digit code spells some digits, and only those. */
  lemma CodesSpell(text: string) returns (d: seq<int>)
    requires IsStudentCode(text)
    ensures Spells(text, d)
  {
    d := seq(8, i requires 0 <= i < 8 => text[i] as int - '0' as int);
    forall i | 0 <= i < 8
      ensures 0 <= d[i] <= 9 && text[i] as int == '0' as int + d[i]
    {
      assert IsDigit(text[i]);
    }
  }

  // --------------------------------------------------------------- where it looks first

  /** The first probe is the requester's own identifier, moved by as much as the wanted code
      lies above the requester's; what it answers, if it settles the search, is the
      outcome. */
  lemma LooksThereFirst(ownStdId: int, ownCode: int, target: string, d: seq<int>, oracle: Oracle)
    requires Spells(target, d) && IsIdentifier(ownStdId) && IsIdentifier(ownCode)
    ensures var there := ownStdId + (Number(d) - ownCode);
            var outcome := SequentialSearch(ownStdId, ownCode, target, oracle);
            && (!IsIdentifier(there) ==> outcome == NotConverged)
            && (IsIdentifier(there) && oracle(there) == Code(Some(target)) ==> outcome == Found(there))
            && (forall error :: IsIdentifier(there) && oracle(there) == Failure(error) ==> outcome == Failed(error))
  {
    SpelledNumber(target, d);
  }

  /** Nothing is searched for a requester or a code outside their ranges. */
  lemma SearchesOnlyIf(ownStdId: int, ownCode: int, target: string, oracle: Oracle)
    requires !IsIdentifier(ownStdId) || !IsIdentifier(ownCode) || forall d :: !Spells(target, d)
    ensures SequentialSearch(ownStdId, ownCode, target, oracle) == NotConverged
  {
    if IsStudentCode(target) {
      var d := CodesSpell(target);
    }
  }

  // ------------------------------------------------------------ and then around it

  /** The digits of a code that was found, if it has eight. */
  ghost predicate ReadAs(seen: Option<string>, digits: Option<seq<int>>) {
    if digits.Some? then seen.Some? && Spells(seen.value, digits.value)
    else seen.Some? ==> forall d :: !Spells(seen.value, d)
  }

  /** The identifier the code found there points to, when it is another one within 16. */
  predicate PointsTo(there: int, wanted: int, digits: Option<seq<int>>, corrected: Option<int>)
    requires digits.Some? ==> |digits.value| == 8
  {
    var c := if digits.Some? then there + (wanted - Number(digits.value)) else there;
    corrected == if c != there && IsIdentifier(c) && -16 <= c - there <= 16 then Some(c) else None
  }

  /** Priority: the corrected identifier, then the nearest, the lower of two before the higher. */
  function Rank(there: int, corrected: Option<int>, id: int): int {
    if corrected == Some(id) then 0
    else if id < there then 2 * (there - id) - 1
    else 2 * (id - there)
  }

  predicate Around(there: int, id: int) {
    IsIdentifier(id) && id != there && -16 <= id - there <= 16
  }

  lemma {:induction false} OffsetsAt(there: int, radius: nat, i: nat)
    requires i < 2 * radius
    ensures |Offsets(there, radius)| == 2 * radius
    ensures Offsets(there, radius)[i] == if i % 2 == 0 then there - (i / 2 + 1) else there + (i / 2 + 1)
  {
    var shorter := Offsets(there, radius - 1);
    if radius == 1 {
      assert shorter == [];
    } else {
      OffsetsAt(there, radius - 1, if i < 2 * (radius - 1) then i else 0);
    }
  }

  function First(corrected: Option<int>): int {
    if corrected.Some? then 0 else 1
  }

  /** Raw candidates stand in the order of their ranks, but for a repeat of the corrected one. */
  lemma RawRank(there: int, corrected: Option<int>, i: nat)
    requires i < |RawCandidates(there, corrected)|
    ensures var raw := RawCandidates(there, corrected);
            Rank(there, corrected, raw[i]) == First(corrected) + i || (corrected == Some(raw[i]) && raw[i] in raw[..i])
  {
    var raw := RawCandidates(there, corrected);
    OffsetsAt(there, 16, 0);
    if corrected.Some? {
      assert raw[0] == corrected.value;
      if i > 0 {
        OffsetsAt(there, 16, i - 1);
        assert raw[..i][0] == corrected.value;
      }
    } else {
      OffsetsAt(there, 16, i);
    }
  }

  predicate InOrder(there: int, corrected: Option<int>, ids: seq<int>) {
    forall i, j :: 0 <= i < j < |ids| ==> Rank(there, corrected, ids[i]) < Rank(there, corrected, ids[j])
  }

  lemma {:induction false} FilteredInOrder(there: int, corrected: Option<int>, n: nat)
    requires n <= |RawCandidates(there, corrected)|
    ensures InOrder(there, corrected, Filtered(RawCandidates(there, corrected), there, n))
    ensures forall i :: 0 <= i < |Filtered(RawCandidates(there, corrected), there, n)| ==>
              Rank(there, corrected, Filtered(RawCandidates(there, corrected), there, n)[i]) < First(corrected) + n
  {
    if n > 0 {
      FilteredInOrder(there, corrected, n - 1);
      RawRank(there, corrected, n - 1);
    }
  }

  /** The candidates, in order: exactly the identifiers around, by rank. */
  lemma CandidatesByRank(there: int, corrected: Option<int>)
    requires corrected.Some? ==> Around(there, corrected.value)
    ensures InOrder(there, corrected, Candidates(there, corrected))
    ensures forall id :: id in Candidates(there, corrected) <==> Around(there, id)
  {
    FilteredInOrder(there, corrected, |RawCandidates(there, corrected)|);
    forall id: int
      ensures id in Candidates(there, corrected) <==> Around(there, id)
    {
      CandidatesAreTheNeighbours(there, corrected, id);
    }
  }

  lemma CorrectionPoints(there: int, target: string, d: seq<int>, seen: Option<string>, digits: Option<seq<int>>, corrected: Option<int>)
    requires Spells(target, d) && ReadAs(seen, digits) && PointsTo(there, Number(d), digits, corrected)
    ensures IsStudentCode(target) && Correction(there, target, seen) == corrected
  {
    SpelledNumber(target, d);
    if digits.Some? {
      SpelledNumber(seen.value, digits.value);
    } else if seen.Some? && IsStudentCode(seen.value) {
      var spelled := CodesSpell(seen.value);
    }
  }

  /** Without failing probes around, and nothing wanted found there: the outcome is the
      matching identifier of least rank, or none if nothing around matches. */
  lemma FindsTheBestAround(ownStdId: int, ownCode: int, target: string, d: seq<int>, oracle: Oracle,
                           there: int, seen: Option<string>, digits: Option<seq<int>>, corrected: Option<int>)
    requires Spells(target, d) && IsIdentifier(ownStdId) && IsIdentifier(ownCode)
    requires there == ownStdId + (Number(d) - ownCode) && IsIdentifier(there)
    requires oracle(there) == Code(seen) && seen != Some(target)
    requires ReadAs(seen, digits) && PointsTo(there, Number(d), digits, corrected)
    requires forall id :: Around(there, id) ==> oracle(id).Code?
    ensures var outcome := SequentialSearch(ownStdId, ownCode, target, oracle);
            && (outcome == NotConverged || outcome.Found?)
            && (outcome == NotConverged <==> forall id :: Around(there, id) ==> oracle(id) != Code(Some(target)))
            && (outcome.Found? ==>
                  && Around(there, outcome.stdId) && oracle(outcome.stdId) == Code(Some(target))
                  && forall id :: Around(there, id) && oracle(id) == Code(Some(target)) ==>
                       Rank(there, corrected, outcome.stdId) <= Rank(there, corrected, id))
  {
    SpelledNumber(target, d);
    CorrectionPoints(there, target, d, seen, digits, corrected);
    CandidatesByRank(there, corrected);
    BestOf(there, corrected, Candidates(there, corrected), target, oracle);
  }

  lemma BestOf(there: int, corrected: Option<int>, candidates: seq<int>, target: string, oracle: Oracle)
    requires InOrder(there, corrected, candidates) && (forall id :: id in candidates <==> Around(there, id))
    requires forall id :: id in candidates ==> oracle(id).Code?
    ensures var outcome := SearchFrom(candidates, target, oracle, 0);
            && (outcome == NotConverged || outcome.Found?)
            && (outcome == NotConverged <==> forall id :: Around(there, id) ==> oracle(id) != Code(Some(target)))
            && (outcome.Found? ==>
                  && Around(there, outcome.stdId) && oracle(outcome.stdId) == Code(Some(target))
                  && forall id :: Around(there, id) && oracle(id) == Code(Some(target)) ==>
                       Rank(there, corrected, outcome.stdId) <= Rank(there, corrected, id))
  {
    SearchFromMeaning(candidates, target, oracle, 0);
    var outcome := SearchFrom(candidates, target, oracle, 0);
    if outcome.Found? {
      var k :| 0 <= k < |candidates| && candidates[k] == outcome.stdId && Matches(oracle, outcome.stdId, target)
               && forall m :: 0 <= m < k ==> !Matches(oracle, candidates[m], target);
      assert candidates[k] in candidates;
      forall id | Around(there, id) && oracle(id) == Code(Some(target))
        ensures Rank(there, corrected, outcome.stdId) <= Rank(there, corrected, id)
      {
        assert id in candidates;
        var j :| 0 <= j < |candidates| && candidates[j] == id;
        assert !(j < k);
      }
    } else {
      forall id | Around(there, id)
        ensures oracle(id) != Code(Some(target))
      {
        assert id in candidates;
        var j :| 0 <= j < |candidates| && candidates[j] == id;
        assert !Matches(oracle, candidates[j], target);
      }
    }
  }
}
