/** The proposal state machine: pure transitions over immutable records with an audit history. */
module Proposals {
  import opened Basics
  import opened Text
  import opened Validation

  datatype ProposalState = Pending | Confirmed | Rejected | Expired | Executed | Failed

  datatype Actor = Agent | Human | System

  datatype TransitionRecord = TransitionRecord(
    from: ProposalState, to: ProposalState, at: Time, reason: string, actor: Actor)

  datatype Proposal = Proposal(
    id: string, state: ProposalState, payload: Payload, payloadDigest: string, linkCodeHash: string,
    idempotencyKey: string, createdAt: Time, expiresAt: Time, version: nat, history: seq<TransitionRecord>)

  predicate IsTerminal(s: ProposalState) {
    s in {Rejected, Expired, Executed, Failed}
  }

  function Legal(s: ProposalState): set<ProposalState> {
    match s
    case Pending => {Confirmed, Rejected, Expired}
    case Confirmed => {Executed, Failed}
    case _ => {}
  }

  // -------------------------------------------------------------------- hashes

  /** Lower-case hex of a SHA-256 digest. */
  predicate IsDigest(s: string) {
    |s| == 64 && IsNumeral(s, 16)
  }

  type Digest = s: string | IsDigest(s) ghost witness DigestWitness()

  ghost function DigestWitness(): (s: string)
    ensures IsDigest(s)
  {
    Zeros(64)
  }

  /** SHA-256 and the canonical JSON text of a payload, of which only the result types are known. */
  datatype Crypto = Crypto(sha256: string -> Digest, canonical: Payload -> string)

  function DigestPayload(c: Crypto, p: Payload): Digest {
    c.sha256(c.canonical(p))
  }

  function HashLinkCode(c: Crypto, code: string): Digest {
    c.sha256(Upper(Trim(code, JsSpace)))
  }

  /** Buffer.from(s, 'hex'): whole pairs of hex digits of either case, up to the first that is not one. */
  function HexBytes(s: string): seq<nat> {
    if |s| < 2 then []
    else
      var hi, lo := DigitOf(LowerChar(s[0])), DigitOf(LowerChar(s[1]));
      if hi < 16 && lo < 16 then [hi * 16 + lo] + HexBytes(s[2..]) else []
  }

  predicate SafeEqualHex(a: string, b: string) {
    HexBytes(a) == HexBytes(b) && HexBytes(a) != []
  }

  /** A text that is h in either case, followed by nothing that could be read as one more hex byte. */
  predicate SpellsDigest(a: string, h: string) {
    && |a| >= |h| && Lower(a[..|h|]) == h
    && (|a| >= |h| + 2 ==> DigitOf(LowerChar(a[|h|])) >= 16 || DigitOf(LowerChar(a[|h| + 1])) >= 16)
  }

  /** Two hex texts spell the same when their first bytes do and their rests do. */
  lemma SpellsSplits(a: string, h: string)
    requires |h| >= 2 && |a| >= 2
    ensures SpellsDigest(a, h) <==>
            LowerChar(a[0]) == h[0] && LowerChar(a[1]) == h[1] && SpellsDigest(a[2..], h[2..])
  {
    hide DigitOf, LowerChar;
    var n := |h|;
    if |a| >= n {
      var x, y := Lower(a[..n]), Lower(a[2..][..n - 2]);
      assert x == [LowerChar(a[0]), LowerChar(a[1])] + y;
      assert h == [h[0], h[1]] + h[2..];
      assert x == h <==> x[0] == h[0] && x[1] == h[1] && x[2..] == h[2..];
      assert x[2..] == y;
    }
  }

  /** Exactly the texts the comparison takes for a given digest: trailing characters are not looked at. */
  lemma {:induction false} SafeEqualHexExactly(a: string, h: string)
    requires |h| % 2 == 0 && IsHex(h)
    ensures HexBytes(a) == HexBytes(h) <==> SpellsDigest(a, h)
    decreases |h|
  {
    if h == "" {
      assert Lower(a[..0]) == "";
    } else {
      hide DigitOf, SpellsDigest, HexBytes;
      HexUnpacks(h);
      LowerHex(h);
      if |a| < 2 {
        ShortText(a, h);
      } else {
        HexUnpacks(a);
        SafeEqualHexExactly(a[2..], h[2..]);
        SpellsSplits(a, h);
        SameDigit(LowerChar(a[0]), h[0]);
        SameDigit(LowerChar(a[1]), h[1]);
        SameList(HexBytes(a), HexBytes(h));
      }
    }
  }

  predicate IsHex(h: string) {
    forall k :: 0 <= k < |h| ==> DigitOf(h[k]) < 16
  }

  lemma LowerHex(h: string)
    requires IsHex(h)
    ensures forall k :: 0 <= k < |h| ==> LowerChar(h[k]) == h[k]
  {
  }

  lemma ShortText(a: string, h: string)
    requires |a| < 2 <= |h|
    ensures HexBytes(a) == [] && !SpellsDigest(a, h)
  {
  }

  lemma SameList(x: seq<nat>, y: seq<nat>)
    requires y != []
    ensures x == y <==> x != [] && x[0] == y[0] && x[1..] == y[1..]
  {
    if x != [] {
      assert x == [x[0]] + x[1..] && y == [y[0]] + y[1..];
    }
  }

  lemma HexUnpacks(s: string)
    requires |s| >= 2
    ensures var hi, lo := DigitOf(LowerChar(s[0])), DigitOf(LowerChar(s[1]));
      if hi < 16 && lo < 16 then
        HexBytes(s) != [] && HexBytes(s)[0] == hi * 16 + lo && HexBytes(s)[1..] == HexBytes(s[2..])
      else HexBytes(s) == []
  {
  }

  lemma SameDigit(x: char, y: char)
    requires DigitOf(y) < 16
    ensures DigitOf(x) == DigitOf(y) <==> x == y
  {
  }

  // --------------------------------------------------------------- transitions

  function Applied(p: Proposal, to: ProposalState, reason: string, actor: Actor, wall: Time): Proposal {
    p.(state := to, version := p.version + 1,
       history := p.history + [TransitionRecord(p.state, to, wall, reason, actor)])
  }

  function CreateProposal(
    c: Crypto, id: string, payload: Payload, linkCode: string, key: string, ttlSeconds: int, now: Time): Proposal
  {
    Proposal(id, Pending, payload, DigestPayload(c, payload), HashLinkCode(c, linkCode), key,
             now, now + ttlSeconds * 1000, 1,
             [TransitionRecord(Pending, Pending, now, "proposed", Agent)])
  }

  predicate Guard(p: Proposal, to: ProposalState) {
    !IsTerminal(p.state) && to in Legal(p.state)
  }

  function ExpireIfDue(p: Proposal, now: Time, wall: Time): Proposal {
    if p.state == Pending && now >= p.expiresAt then Applied(p, Expired, "ttl elapsed", System, wall) else p
  }

  function ConfirmProposal(
    c: Crypto, p: Proposal, linkCode: string, seenDigest: string, now: Time, wall: Time): Result<Proposal, ErrorCode>
  {
    var current := ExpireIfDue(p, now, wall);
    if current.state == Expired then Err(ErrorCode.EXPIRED)
    else if !Guard(current, Confirmed) then Err(INVALID_STATE)
    else if !SafeEqualHex(HashLinkCode(c, linkCode), current.linkCodeHash) then Err(LINK_CODE_MISMATCH)
    else if !SafeEqualHex(seenDigest, current.payloadDigest) then Err(PAYLOAD_TAMPERED)
    else Ok(Applied(current, Confirmed, "confirmed by human", Human, wall))
  }

  function RejectProposal(p: Proposal, now: Time, wall: Time): Result<Proposal, ErrorCode> {
    var current := ExpireIfDue(p, now, wall);
    if current.state == Expired then Err(ErrorCode.EXPIRED)
    else if !Guard(current, Rejected) then Err(INVALID_STATE)
    else Ok(Applied(current, Rejected, "declined by human", Human, wall))
  }

  const EXECUTION_PREFIX := "simulated execution "

  function MarkExecuted(p: Proposal, reference: string, wall: Time): Result<Proposal, ErrorCode> {
    if !Guard(p, Executed) then Err(INVALID_STATE)
    else Ok(Applied(p, Executed, EXECUTION_PREFIX + reference, System, wall))
  }

  function MarkFailed(p: Proposal, reason: string, wall: Time): Result<Proposal, ErrorCode> {
    if !Guard(p, Failed) then Err(INVALID_STATE)
    else Ok(Applied(p, Failed, reason, System, wall))
  }

  // ------------------------------------------------------- execution reference

  /** The longest run of non-space characters at the front. */
  function Word(s: string): string {
    if s == "" || JsSpace(s[0]) then "" else [s[0]] + Word(s[1..])
  }

  /** The capture of /simulated execution (\S+)/ at the leftmost place it matches. */
  function CapturedReference(reason: string): Option<string> {
    if reason == "" then None
    else if EXECUTION_PREFIX <= reason && Word(reason[|EXECUTION_PREFIX|..]) != "" then
      Some(Word(reason[|EXECUTION_PREFIX|..]))
    else CapturedReference(reason[1..])
  }

  function LastExecution(h: seq<TransitionRecord>): Option<TransitionRecord> {
    if h == [] then None
    else if h[|h| - 1].to == Executed then Some(h[|h| - 1])
    else LastExecution(h[..|h| - 1])
  }

  function ExecutionReferenceOf(p: Proposal): Option<string> {
    var entry := LastExecution(p.history);
    if entry.Some? then CapturedReference(entry.value.reason) else None
  }

  predicate IsWord(s: string) {
    s != "" && forall k :: 0 <= k < |s| ==> !JsSpace(s[k])
  }

  lemma {:induction false} WordIsSolid(s: string)
    ensures forall k :: 0 <= k < |Word(s)| ==> !JsSpace(Word(s)[k])
    ensures (forall k :: 0 <= k < |s| ==> !JsSpace(s[k])) ==> Word(s) == s
  {
    if s != "" && !JsSpace(s[0]) {
      WordIsSolid(s[1..]);
      if forall k :: 0 <= k < |s| ==> !JsSpace(s[k]) {
        assert forall k :: 0 <= k < |s[1..]| ==> s[1..][k] == s[k + 1];
      }
    }
  }

  lemma {:induction false} CaptureIsWord(reason: string)
    ensures CapturedReference(reason).Some? ==> IsWord(CapturedReference(reason).value)
  {
    if reason != "" {
      if EXECUTION_PREFIX <= reason {
        WordIsSolid(reason[|EXECUTION_PREFIX|..]);
      }
      CaptureIsWord(reason[1..]);
    }
  }

  /** The reference is recovered from the audit trail if and only if it is one non-empty word. */
  lemma ReferenceIsRecoveredExactly(p: Proposal, reference: string, wall: Time)
    requires MarkExecuted(p, reference, wall).Ok?
    ensures ExecutionReferenceOf(MarkExecuted(p, reference, wall).value) == Some(reference) <==> IsWord(reference)
  {
    var reason := EXECUTION_PREFIX + reference;
    var q := MarkExecuted(p, reference, wall).value;
    assert q.history[|q.history| - 1].reason == reason;
    CaptureIsWord(reason);
    assert reason[|EXECUTION_PREFIX|..] == reference;
    WordIsSolid(reference);
  }

  // ------------------------------------------------------------------ histories

  predicate Follows(a: TransitionRecord, b: TransitionRecord) {
    b.from == a.to && b.to in Legal(b.from) && (b.to == Confirmed ==> b.actor == Human)
  }

  /** The audit trail: one record per version, each legal and starting where the previous one ended. */
  ghost predicate GoodHistory(p: Proposal) {
    && p.version == |p.history| && p.history != []
    && p.history[0].from == Pending && p.history[0].to == Pending && p.history[0].actor == Agent
    && (forall j, k :: 0 <= j && k == j + 1 && k < |p.history| ==> Follows(p.history[j], p.history[k]))
    && p.state == p.history[|p.history| - 1].to
  }

  /** The parts of a record that no transition touches. */
  predicate SameOrigin(p: Proposal, q: Proposal) {
    && p.id == q.id && p.payload == q.payload && p.payloadDigest == q.payloadDigest
    && p.linkCodeHash == q.linkCodeHash && p.idempotencyKey == q.idempotencyKey
    && p.createdAt == q.createdAt && p.expiresAt == q.expiresAt
  }

  predicate Extends(p: Proposal, q: Proposal) {
    SameOrigin(p, q) && p.history <= q.history
  }

  lemma AppliedKeepsHistory(p: Proposal, to: ProposalState, reason: string, actor: Actor, wall: Time)
    requires GoodHistory(p) && Guard(p, to)
    requires to == Confirmed ==> actor == Human
    ensures GoodHistory(Applied(p, to, reason, actor, wall)) && Extends(p, Applied(p, to, reason, actor, wall))
  {
    var q := Applied(p, to, reason, actor, wall);
    assert q.history[..|p.history|] == p.history;
  }

  /** Equal versions of one proposal are equal records. */
  lemma EqualVersionsAreEqual(p: Proposal, q: Proposal)
    requires GoodHistory(p) && GoodHistory(q) && Extends(p, q) && p.version == q.version
    ensures p == q
  {
    assert q.history[..|p.history|] == q.history;
  }

  /** At most three versions, and which states each can be in. */
  lemma HistoryShape(p: Proposal)
    requires GoodHistory(p)
    ensures 1 <= p.version <= 3
    ensures p.version == 1 <==> p.state == Pending
    ensures p.version == 2 <==> p.state in {Confirmed, Rejected, Expired}
    ensures p.version == 3 <==> p.state in {Executed, Failed}
  {
    var h := p.history;
    if |h| >= 2 {
      assert Follows(h[0], h[1]);
    }
    if |h| >= 3 {
      assert Follows(h[1], h[2]);
    }
    assert |h| >= 4 ==> Follows(h[2], h[3]);
  }

  /** Execution happens at most once, as the last record, directly after a human confirmation. */
  lemma ExecutedOnceAfterHuman(p: Proposal, k: nat)
    requires GoodHistory(p) && k < |p.history| && p.history[k].to == Executed
    ensures k == 2 && |p.history| == 3 && p.state == Executed
    ensures p.history[1].from == Pending && p.history[1].to == Confirmed && p.history[1].actor == Human
  {
    HistoryShape(p);
    var h := p.history;
    if k > 0 {
      assert Follows(h[k - 1], h[k]);
      if k > 1 {
        assert Follows(h[k - 2], h[k - 1]);
      }
    }
  }
}
