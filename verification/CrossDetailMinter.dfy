/** Minting cross-student detail permits (apps/worker/src/vnu/vnu-cross-detail.ts).
    HMAC and encryption stay abstract: the first yields 64 hex digits, the second a sealed
    envelope or an error. */
module CrossDetailMinter {
  import opened Prelude
  import opened ProbeBudget

  const PERMIT_MAX_LENGTH: nat := 1_100

  datatype Domain = Requester | Target | Revision | Row | Permit

  type Digest = s: string | IsHex(s, 64) witness seq(64, _ => '0')

  type Hmac = (Domain, string) -> Digest

  predicate UrlSafe(c: char) {
    'A' <= c <= 'Z' || 'a' <= c <= 'z' || '0' <= c <= '9' || c == '_' || c == '-'
  }

  /** Two nonempty url-safe parts around one dot. */
  predicate EnvelopeShape(e: string) {
    exists dot :: 0 < dot < |e| - 1 && e[dot] == '.' && forall i :: 0 <= i < |e| && i != dot ==> UrlSafe(e[i])
  }

  /** What encryption may answer when it does not throw. */
  predicate Sealed(e: string) {
    EnvelopeShape(e) && |e| <= ENVELOPE_MAX_LENGTH
  }

  datatype CourseRow = CourseRow(courseCode: string, classId: string, termOrdinal: string)

  datatype Options = Options(requesterToken: string, maxTargets: nat, maxRows: nat, permitTtlSeconds: nat)

  datatype MintInput = MintInput(targetStdId: string, transcriptHtml: string, row: CourseRow)

  /** The part of the sealed payload a consumer presents again. */
  datatype Payload = Payload(nonce: string, targetHmac: string, revisionHmac: string, rowHmac: string)

  datatype Minted =
    | NoPermit
    | Minted(permit: string)
    | MintThrew

  function BindingsFor(hmac: Hmac, requesterToken: string, input: MintInput, nonce: string): Bindings {
    Bindings(
      nonce,
      hmac(Requester, requesterToken),
      hmac(Target, input.targetStdId),
      hmac(Revision, input.transcriptHtml),
      hmac(Row, input.targetStdId + "\n" + input.row.termOrdinal + "\n" + input.row.classId + "\n" + input.row.courseCode),
      POLICY_VERSION)
  }

  /** Every permit issued so far is well formed and is for one of the targets counted. */
  ghost predicate MinterOk(hmac: Hmac, options: Options, issued: seq<IssuedPermit>, targets: set<string>, stdIds: seq<string>) {
    && |issued| <= options.maxRows
    && |targets| <= options.maxTargets
    && |stdIds| == |issued|
    && forall i :: 0 <= i < |issued| ==>
         && stdIds[i] in targets
         && issued[i].record.bindings.targetHmac == hmac(Target, stdIds[i])
         && IsHex(issued[i].permitHash, 64) && RecordOk(issued[i].record)
  }

  class Minter {
    const hmac: Hmac
    const options: Options
    var issued: seq<IssuedPermit>
    var targets: set<string>
    // The student each permit is for; only its digest is stored.
    ghost var stdIds: seq<string>

    ghost predicate Valid()
      reads this
    {
      MinterOk(hmac, options, issued, targets, stdIds)
    }

    constructor (hmac: Hmac, options: Options)
      ensures Valid() && issued == [] && targets == {} && this.hmac == hmac && this.options == options
    {
      this.hmac := hmac;
      this.options := options;
      issued, targets, stdIds := [], {}, [];
    }

    /** One queued mint. `permitId`, `nonce` and `sealedEnvelope` are what randomness and
        encryption answer; a missing envelope is an encryption error. */
    method Mint(input: MintInput, permitId: LeaseId, nonce: LeaseId, sealedEnvelope: Option<string>, now: int) returns (minted: Minted)
      requires Valid()
      requires sealedEnvelope.Some? ==> Sealed(sealedEnvelope.value)
      requires 0 < now + options.permitTtlSeconds * 1000 <= MAX_SAFE_INTEGER
      modifies this
      ensures Valid()
      // Rows beyond the caps get no permit, and only those.
      ensures minted.NoPermit? <==>
                || |old(issued)| == options.maxRows
                || (input.targetStdId !in old(targets) && |old(targets)| == options.maxTargets)
      ensures !minted.Minted? ==> issued == old(issued) && targets == old(targets)
      ensures minted.Minted? ==>
                && sealedEnvelope.Some?
                && minted.permit == permitId + "." + sealedEnvelope.value
                && targets == old(targets) + {input.targetStdId}
                && issued == old(issued) + [IssuedPermit(
                                              hmac(Permit, permitId),
                                              PermitRecord(
                                                BindingsFor(hmac, options.requesterToken, input, nonce),
                                                sealedEnvelope.value,
                                                now + options.permitTtlSeconds * 1000))]
    {
      if |issued| >= options.maxRows {
        return NoPermit;
      }
      var isNewTarget := input.targetStdId !in targets;
      if isNewTarget && |targets| >= options.maxTargets {
        return NoPermit;
      }
      if sealedEnvelope.None? {
        return MintThrew;
      }
      var bindings := BindingsFor(hmac, options.requesterToken, input, nonce);
      issued := issued + [IssuedPermit(hmac(Permit, permitId), PermitRecord(bindings, sealedEnvelope.value, now + options.permitTtlSeconds * 1000))];
      targets := targets + {input.targetStdId};
      stdIds := stdIds + [input.targetStdId];
      minted := Minted(permitId + "." + sealedEnvelope.value);
    }
  }

  lemma {:induction false} ImageIsNoLarger(hmac: Hmac, stdIds: set<string>)
    ensures |set t | t in stdIds :: hmac(Target, t)| <= |stdIds|
  {
    var image := set t | t in stdIds :: hmac(Target, t);
    if stdIds != {} {
      var some :| some in stdIds;
      var rest := stdIds - {some};
      ImageIsNoLarger(hmac, rest);
      assert image == (set t | t in rest :: hmac(Target, t)) + {hmac(Target, some)};
    }
  }

  /** Whatever a minter has built, issuing it under the same limits passes validation. */
  lemma EveryBatchIsIssuable(hmac: Hmac, options: Options, issued: seq<IssuedPermit>, targets: set<string>, stdIds: seq<string>, limits: Limits)
    requires MinterOk(hmac, options, issued, targets, stdIds)
    requires issued != []
    requires limits.maxRows == options.maxRows && limits.maxTargets == options.maxTargets
    ensures IssuanceOk(issued, limits)
  {
    var image := set t | t in targets :: hmac(Target, t);
    forall i | 0 <= i < |issued|
      ensures issued[i].record.bindings.targetHmac in image
    {
      assert stdIds[i] in targets;
    }
    assert TargetsOf(issued) <= image;
    ProperSubsetIsSmaller(TargetsOf(issued), image);
    ImageIsNoLarger(hmac, targets);
  }

  // ------------------------------------------------------------- what a permit binds

  /** The lines of a text of which the first has begun with `line`. */
  function LinesAfter(line: string, text: string): seq<string>
    decreases |text|
  {
    if text == [] then [line]
    else if text[0] == '\n' then [line] + LinesAfter("", text[1..])
    else LinesAfter(line + [text[0]], text[1..])
  }

  function Lines(text: string): seq<string> {
    LinesAfter("", text)
  }

  lemma {:induction false} FirstLine(begun: string, line: string, rest: string)
    requires '\n' !in line
    ensures LinesAfter(begun, line) == [begun + line]
    ensures LinesAfter(begun, line + "\n" + rest) == [begun + line] + Lines(rest)
    decreases |line|
  {
    var text := line + "\n" + rest;
    if line == [] {
      assert text[1..] == rest && begun + line == begun;
    } else {
      FirstLine(begun + [line[0]], line[1..], rest);
      assert text[1..] == line[1..] + "\n" + rest;
      assert begun + [line[0]] + line[1..] == begun + line;
    }
  }

  lemma LinesOf(line: string, rest: string)
    requires '\n' !in line
    ensures Lines(line) == [line]
    ensures Lines(line + "\n" + rest) == [line] + Lines(rest)
  {
    FirstLine("", line, rest);
    assert "" + line == line;
  }

  lemma ThreeLines(a: string, b: string, c: string)
    requires '\n' !in a && '\n' !in b && '\n' !in c
    ensures Lines(a + "\n" + (b + "\n" + c)) == [a, b, c]
  {
    LinesOf(c, "");
    LinesOf(b, c);
    LinesOf(a, b + "\n" + c);
  }

  lemma Regrouped<T>(a: seq<T>, b: seq<T>, c: seq<T>)
    ensures a + b + c == a + (b + c)
  {
  }

  /** Line by line, from the left or from the right. */
  lemma FourRegrouped<T>(a: seq<T>, b: seq<T>, c: seq<T>, d: seq<T>, nl: seq<T>)
    ensures a + nl + b + nl + c + nl + d == a + nl + (b + nl + (c + nl + d))
  {
    Regrouped(a + nl, b, nl);
    Regrouped(a + nl, b + nl, c);
    Regrouped(a + nl, b + nl + c, nl);
    Regrouped(a + nl, b + nl + c + nl, d);
    Regrouped(b + nl, c, nl);
    Regrouped(b + nl, c + nl, d);
  }

  lemma FourLines(a: string, b: string, c: string, d: string)
    requires '\n' !in a && '\n' !in b && '\n' !in c && '\n' !in d
    ensures Lines(a + "\n" + b + "\n" + c + "\n" + d) == [a, b, c, d]
  {
    ThreeLines(b, c, d);
    LinesOf(a, b + "\n" + (c + "\n" + d));
    FourRegrouped(a, b, c, d, "\n");
  }

  predicate OneLineEach(input: MintInput) {
    '\n' !in input.targetStdId && '\n' !in input.row.termOrdinal && '\n' !in input.row.classId && '\n' !in input.row.courseCode
  }

  /** The row digest is that of this text. */
  ghost predicate DigestOf(hmac: Hmac, input: MintInput, digest: string, text: string) {
    digest == hmac(Row, text) && Lines(text) == [input.targetStdId, input.row.termOrdinal, input.row.classId, input.row.courseCode]
  }

  /** What the row digest is taken of: four lines, the student, the term, the class and the
      course. */
  lemma RowIsFourLines(hmac: Hmac, token: string, input: MintInput, nonce: string) returns (text: string)
    requires OneLineEach(input)
    ensures DigestOf(hmac, input, BindingsFor(hmac, token, input, nonce).rowHmac, text)
  {
    text := input.targetStdId + "\n" + input.row.termOrdinal + "\n" + input.row.classId + "\n" + input.row.courseCode;
    FourLines(input.targetStdId, input.row.termOrdinal, input.row.classId, input.row.courseCode);
  }

  predicate Collide(hmac: Hmac, domain: Domain, x: string, y: string) {
    x != y && hmac(domain, x) == hmac(domain, y)
  }

  lemma SameFour(lines: seq<string>, x: MintInput, y: MintInput)
    requires lines == [x.targetStdId, x.row.termOrdinal, x.row.classId, x.row.courseCode]
    requires lines == [y.targetStdId, y.row.termOrdinal, y.row.classId, y.row.courseCode]
    ensures x.targetStdId == y.targetStdId && x.row == y.row
  {
    assert lines[0] == x.targetStdId && lines[1] == x.row.termOrdinal && lines[2] == x.row.classId && lines[3] == x.row.courseCode;
  }

  /** Two permits that bind the same are for the same requester and the same row of the same
      student's same transcript, or whichever of these differs is a collision of its own
      digest. */
  lemma SameBindingsNeedACollision(hmac: Hmac, a: string, b: string, x: MintInput, y: MintInput, m: string, n: string)
    requires OneLineEach(x) && OneLineEach(y)
    requires BindingsFor(hmac, a, x, m) == BindingsFor(hmac, b, y, n)
    ensures m == n
    ensures a == b || Collide(hmac, Requester, a, b)
    ensures x.targetStdId == y.targetStdId || Collide(hmac, Target, x.targetStdId, y.targetStdId)
    ensures x.transcriptHtml == y.transcriptHtml || Collide(hmac, Revision, x.transcriptHtml, y.transcriptHtml)
    ensures x.row == y.row || exists s, t :: Collide(hmac, Row, s, t)
  {
    var s := RowIsFourLines(hmac, a, x, m);
    var t := RowIsFourLines(hmac, b, y, n);
    if s == t {
      SameFour(Lines(s), x, y);
    } else {
      assert Collide(hmac, Row, s, t);
    }
  }

  // ------------------------------------------------------------ presenting a permit

  function ParsePermit(value: string): Option<(string, string)> {
    if |value| > PERMIT_MAX_LENGTH || |value| < 33 then None
    else if IsHex(value[..32], 32) && value[32] == '.' && EnvelopeShape(value[33..]) then Some((value[..32], value[33..]))
    else None
  }

  function BuildConsumeInput(hmac: Hmac, requesterToken: string, permitId: string, presented: Payload): ConsumeInput {
    ConsumeInput(
      hmac(Permit, permitId),
      Bindings(presented.nonce, hmac(Requester, requesterToken), presented.targetHmac, presented.revisionHmac, presented.rowHmac, POLICY_VERSION))
  }

  /** A permit string reads back exactly when it is an identifier, a dot and a fitting
      envelope; every minted permit is one. */
  lemma ParsesIffJoined(value: string, permitId: string, envelope: string)
    ensures ParsePermit(value) == Some((permitId, envelope)) <==>
              && value == permitId + "." + envelope
              && IsHex(permitId, 32) && EnvelopeShape(envelope) && |envelope| <= 1_067
    ensures IsHex(permitId, 32) && Sealed(envelope) ==> ParsePermit(permitId + "." + envelope) == Some((permitId, envelope))
  {
    var joined := permitId + "." + envelope;
    if IsHex(permitId, 32) {
      assert joined[..32] == permitId && joined[32] == '.' && joined[33..] == envelope;
    }
    if ParsePermit(value) == Some((permitId, envelope)) {
      assert value == value[..32] + [value[32]] + value[33..];
    }
  }

  /** Presenting a minted permit hits its own record, and passes all seven bindings exactly
      for bearers whose digest is the minting requester's. */
  lemma OnlyTheRequesterCanPresent(hmac: Hmac, minterToken: string, bearer: string, input: MintInput, permitId: string, nonce: LeaseId)
    ensures var bindings := BindingsFor(hmac, minterToken, input, nonce);
            var presented := Payload(nonce, bindings.targetHmac, bindings.revisionHmac, bindings.rowHmac);
            var consume := BuildConsumeInput(hmac, bearer, permitId, presented);
            && consume.permitHash == hmac(Permit, permitId)
            && InputOk(consume)
            && (consume.bindings == bindings <==> hmac(Requester, bearer) == hmac(Requester, minterToken))
  {
  }
}
