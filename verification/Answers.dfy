/**
 * What the gateway answers, and stores, for each call: exactly when a confirmation, a rejection, an execution, a
 * failure and a proposal succeed, and which refusal each other call meets.
 */
module Answers {
  import opened Basics
  import opened Text
  import opened Validation
  import opened Proposals
  import opened Store
  import opened Registry
  import opened Interleaving

  /** The proposal moved on by one record. */
  function Moved(p: Proposal, to: ProposalState, reason: string, actor: Actor, at: Time): Proposal {
    p.(state := to, version := p.version + 1,
       history := p.history + [TransitionRecord(p.state, to, at, reason, actor)])
  }

  function Stored(s: Tables, p: Proposal): Tables {
    s.(byId := s.byId[p.id := p])
  }

  function Fails(e: ErrorCode): Reply {
    Reply(Err(e), "", false)
  }

  /** Pending, and the clock has not reached the deadline. */
  predicate IsOpen(p: Proposal, now: Time) {
    p.state == Pending && now < p.expiresAt
  }

  predicate IsOver(p: Proposal, now: Time) {
    p.state == Expired || (p.state == Pending && now >= p.expiresAt)
  }

  predicate CodeFits(cfg: Config, p: Proposal, code: string) {
    cfg.crypto.sha256(Upper(Trim(code, JsSpace))) == p.linkCodeHash
  }

  lemma CodeIsCompared(cfg: Config, p: Proposal, code: string)
    requires IsDigest(p.linkCodeHash)
    ensures SafeEqualHex(HashLinkCode(cfg.crypto, code), p.linkCodeHash) <==> CodeFits(cfg, p, code)
  {
    hide Trim, Upper;
    var h := HashLinkCode(cfg.crypto, code);
    SafeEqualHexExactly(h, p.linkCodeHash);
    LowerHex(h);
    assert HexBytes(p.linkCodeHash) != [] by {
      HexUnpacks(p.linkCodeHash);
      LowerHex(p.linkCodeHash);
    }
    assert h[..64] == h && Lower(h) == h;
  }

  lemma DigestIsCompared(p: Proposal, seen: string)
    requires IsDigest(p.payloadDigest)
    ensures SafeEqualHex(seen, p.payloadDigest) <==> SpellsDigest(seen, p.payloadDigest)
  {
    SafeEqualHexExactly(seen, p.payloadDigest);
    assert HexBytes(p.payloadDigest) != [] by {
      HexUnpacks(p.payloadDigest);
      LowerHex(p.payloadDigest);
    }
  }

  lemma StoredIsRead(cfg: Config, s: Tables, op: Op)
    requires GoodStore(cfg, s) && !op.Propose? && op.id in s.byId
    ensures var p := s.byId[op.id];
      ReadFor(s, op) == Some(p) && p.id == op.id && IsDigest(p.linkCodeHash) && IsDigest(p.payloadDigest)
  {
    hide ValidateMessageDraft, GoodHistory;
    assert Genuine(cfg, s.byId[op.id]);
  }

  /** Alone, a swap of the proposal that was read goes through. */
  lemma SwapGoesThrough(s: Tables, p: Proposal, next: Proposal, refusal: Option<ErrorCode>)
    requires p.id in s.byId && s.byId[p.id] == p && next.id == p.id
    ensures Write(s, Swap(next, p.version, refusal))
      == (Stored(s, next), Reply(if refusal.Some? then Err(refusal.value) else Ok(next), "", false))
  {
  }

  lemma ConfirmDecides(cfg: Config, p: Proposal, op: Op, inp: Inputs)
    requires op.Confirm? && IsDigest(p.linkCodeHash) && IsDigest(p.payloadDigest)
    ensures var d := Decide(cfg, op, Some(p), inp);
      var (code, digest) := (CodeFits(cfg, p, op.linkCode), SpellsDigest(op.seenDigest, p.payloadDigest));
      var e :=
        if IsOver(p, inp.now) then ErrorCode.EXPIRED
        else if p.state != Pending then INVALID_STATE
        else if !code then LINK_CODE_MISMATCH
        else PAYLOAD_TAMPERED;
      d == if IsOpen(p, inp.now) && code && digest then
             Swap(Moved(p, Confirmed, "confirmed by human", Human, inp.wall), p.version, None)
           else if p.state == Pending && inp.later >= p.expiresAt then
             Swap(Moved(p, Expired, "ttl elapsed", System, inp.wall), p.version, Some(e))
           else Answer(Fails(e))
  {
    CodeIsCompared(cfg, p, op.linkCode);
    DigestIsCompared(p, op.seenDigest);
    hide SafeEqualHex, HashLinkCode, SpellsDigest, CodeFits, IsDigest;
  }

  /**
   * Confirming a stored proposal succeeds if and only if it is pending, its deadline is ahead, the code hashes to the
   * stored hash and the digest shown spells the stored one. Each refusal has its own exact condition, in that order.
   */
  lemma ConfirmIsAnsweredExactly(cfg: Config, s: Tables, op: Op, inp: Inputs)
    requires GoodStore(cfg, s) && op.Confirm? && op.id in s.byId
    ensures var (p, reply) := (s.byId[op.id], Atomic(cfg, s, op, inp).1);
      var (code, digest) := (CodeFits(cfg, p, op.linkCode), SpellsDigest(op.seenDigest, p.payloadDigest));
      && (reply.result.Ok? <==> IsOpen(p, inp.now) && code && digest)
      && (reply == Fails(ErrorCode.EXPIRED) <==> IsOver(p, inp.now))
      && (reply == Fails(INVALID_STATE) <==> p.state in {Confirmed, Rejected, Executed, Failed})
      && (reply == Fails(LINK_CODE_MISMATCH) <==> IsOpen(p, inp.now) && !code)
      && (reply == Fails(PAYLOAD_TAMPERED) <==> IsOpen(p, inp.now) && code && !digest)
  {
    var p := s.byId[op.id];
    StoredIsRead(cfg, s, op);
    ConfirmDecides(cfg, p, op, inp);
    SwapGoesThrough(s, p, Moved(p, Confirmed, "confirmed by human", Human, inp.wall), None);
    forall e
      ensures Write(s, Swap(Moved(p, Expired, "ttl elapsed", System, inp.wall), p.version, Some(e))).1 == Fails(e)
    {
      SwapGoesThrough(s, p, Moved(p, Expired, "ttl elapsed", System, inp.wall), Some(e));
    }
    hide GoodStore, Decide, ReadFor, Moved, CodeFits, SpellsDigest, SwapIn;
  }

  /**
   * What it stores: the confirmation when it succeeds; the expiry when it fails on a pending proposal and the clock,
   * read again, has reached the deadline; and otherwise nothing.
   */
  lemma ConfirmStoresExactly(cfg: Config, s: Tables, op: Op, inp: Inputs)
    requires GoodStore(cfg, s) && op.Confirm? && op.id in s.byId
    ensures var p := s.byId[op.id];
      var (t, reply) := Atomic(cfg, s, op, inp);
      && (reply.result.Ok? ==>
            && reply == Reply(Ok(Moved(p, Confirmed, "confirmed by human", Human, inp.wall)), "", false)
            && t == Stored(s, reply.result.value))
      && (reply.result.Err? && p.state == Pending && inp.later >= p.expiresAt ==>
            t == Stored(s, Moved(p, Expired, "ttl elapsed", System, inp.wall)))
      && (reply.result.Err? && !(p.state == Pending && inp.later >= p.expiresAt) ==> t == s)
  {
    var p := s.byId[op.id];
    StoredIsRead(cfg, s, op);
    ConfirmDecides(cfg, p, op, inp);
    SwapGoesThrough(s, p, Moved(p, Confirmed, "confirmed by human", Human, inp.wall), None);
    forall e
      ensures var expiry := Moved(p, Expired, "ttl elapsed", System, inp.wall);
        Write(s, Swap(expiry, p.version, Some(e))) == (Stored(s, expiry), Fails(e))
    {
      SwapGoesThrough(s, p, Moved(p, Expired, "ttl elapsed", System, inp.wall), Some(e));
    }
    hide GoodStore, Decide, ReadFor, Moved, CodeFits, SpellsDigest, SwapIn, Stored;
  }

  lemma OthersDecide(cfg: Config, p: Proposal, op: Op, inp: Inputs)
    requires op.Reject? || op.Execute? || op.Fail?
    ensures var d := Decide(cfg, op, Some(p), inp);
      match op
      case Reject(_) =>
        d == if IsOpen(p, inp.now) then
               Swap(Moved(p, Rejected, "declined by human", Human, inp.wall), p.version, None)
             else Answer(Fails(if IsOver(p, inp.now) then ErrorCode.EXPIRED else INVALID_STATE))
      case Execute(_) =>
        var reason := "simulated execution sim_" + cfg.crypto.sha256(p.id)[..12];
        d == if p.state == Confirmed then Swap(Moved(p, Executed, reason, System, inp.wall), p.version, None)
             else Answer(Fails(INVALID_STATE))
      case Fail(_, reason) =>
        d == if p.state == Confirmed then Swap(Moved(p, Failed, reason, System, inp.wall), p.version, None)
             else Answer(Fails(INVALID_STATE))
  {
    var h := cfg.crypto.sha256(p.id);
    assert EXECUTION_PREFIX + ("sim_" + h[..12]) == "simulated execution sim_" + h[..12];
  }

  /** Rejecting succeeds if and only if the proposal is pending and its deadline ahead, and stores nothing otherwise. */
  lemma RejectIsAnsweredExactly(cfg: Config, s: Tables, op: Op, inp: Inputs)
    requires GoodStore(cfg, s) && op.Reject? && op.id in s.byId
    ensures var p := s.byId[op.id];
      var (t, reply) := Atomic(cfg, s, op, inp);
      && (reply.result.Ok? <==> IsOpen(p, inp.now))
      && (reply == Fails(ErrorCode.EXPIRED) <==> IsOver(p, inp.now))
      && (reply == Fails(INVALID_STATE) <==> p.state in {Confirmed, Rejected, Executed, Failed})
      && (reply.result.Ok? ==>
            && reply == Reply(Ok(Moved(p, Rejected, "declined by human", Human, inp.wall)), "", false)
            && t == Stored(s, reply.result.value))
      && (reply.result.Err? ==> t == s)
  {
    var p := s.byId[op.id];
    StoredIsRead(cfg, s, op);
    OthersDecide(cfg, p, op, inp);
    SwapGoesThrough(s, p, Moved(p, Rejected, "declined by human", Human, inp.wall), None);
    hide GoodStore, Decide, ReadFor, Moved, SwapIn, Stored;
  }

  /** Executing succeeds if and only if the proposal is confirmed, and records the reference made of its id. */
  lemma ExecuteIsAnsweredExactly(cfg: Config, s: Tables, op: Op, inp: Inputs)
    requires GoodStore(cfg, s) && op.Execute? && op.id in s.byId
    ensures var p := s.byId[op.id];
      var (t, reply) := Atomic(cfg, s, op, inp);
      var reason := "simulated execution sim_" + cfg.crypto.sha256(op.id)[..12];
      && (reply.result.Ok? <==> p.state == Confirmed)
      && (reply.result.Ok? ==>
            && reply == Reply(Ok(Moved(p, Executed, reason, System, inp.wall)), "", false)
            && t == Stored(s, reply.result.value))
      && (reply.result.Err? ==> reply == Fails(INVALID_STATE) && t == s)
  {
    var p := s.byId[op.id];
    StoredIsRead(cfg, s, op);
    OthersDecide(cfg, p, op, inp);
    var reason := "simulated execution sim_" + cfg.crypto.sha256(op.id)[..12];
    SwapGoesThrough(s, p, Moved(p, Executed, reason, System, inp.wall), None);
    hide GoodStore, Decide, ReadFor, Moved, SwapIn, Stored;
  }

  /** Failing succeeds if and only if the proposal is confirmed. */
  lemma FailIsAnsweredExactly(cfg: Config, s: Tables, op: Op, inp: Inputs)
    requires GoodStore(cfg, s) && op.Fail? && op.id in s.byId
    ensures var p := s.byId[op.id];
      var (t, reply) := Atomic(cfg, s, op, inp);
      && (reply.result.Ok? <==> p.state == Confirmed)
      && (reply.result.Ok? ==>
            && reply == Reply(Ok(Moved(p, Failed, op.reason, System, inp.wall)), "", false)
            && t == Stored(s, reply.result.value))
      && (reply.result.Err? ==> reply == Fails(INVALID_STATE) && t == s)
  {
    var p := s.byId[op.id];
    StoredIsRead(cfg, s, op);
    OthersDecide(cfg, p, op, inp);
    SwapGoesThrough(s, p, Moved(p, Failed, op.reason, System, inp.wall), None);
    hide GoodStore, Decide, ReadFor, Moved, SwapIn, Stored;
  }

  /** Whatever is asked of a proposal that is not stored is refused, and stores nothing. */
  lemma MissingIsRefused(cfg: Config, s: Tables, op: Op, inp: Inputs)
    requires !op.Propose? && op.id !in s.byId
    ensures Atomic(cfg, s, op, inp) == (s, Fails(INVALID_STATE))
  {
  }

  /** The proposal a call makes: fresh, pending, open from now for the time to live, with its own digest and hash. */
  function Drafted(cfg: Config, q: Payload, key: string, inp: Inputs): Proposal {
    Proposal(inp.newId, Pending, q, cfg.crypto.sha256(cfg.crypto.canonical(q)),
             cfg.crypto.sha256(Upper(Trim(inp.newLinkCode, JsSpace))), key,
             inp.now, inp.now + cfg.ttlSeconds * 1000, 1,
             [TransitionRecord(Pending, Pending, inp.now, "proposed", Agent)])
  }

  predicate IsUsedKey(s: Tables, key: string) {
    exists id :: id in s.byId && s.byId[id].idempotencyKey == key
  }

  /**
   * Proposing is refused if and only if the draft is not accepted or the key is blank; a used key is answered with its
   * proposal and no code; and otherwise a fresh proposal is stored, unless its id is taken.
   */
  lemma ProposeIsAnsweredExactly(cfg: Config, s: Tables, op: Op, inp: Inputs)
    requires GoodStore(cfg, s) && op.Propose?
    ensures var v := ValidateMessageDraft(op.payload);
      var (t, reply) := Atomic(cfg, s, op, inp);
      var refused := v.Err? || Trim(op.key, JsSpace) == "";
      && (reply == Fails(VALIDATION_FAILED) <==> refused)
      && (!refused && IsUsedKey(s, op.key) ==>
            exists id ::
              id in s.byId && s.byId[id].idempotencyKey == op.key && reply == Reply(Ok(s.byId[id]), "", true))
      && (reply == Fails(IDEMPOTENCY_CONFLICT) <==> !refused && !IsUsedKey(s, op.key) && inp.newId in s.byId)
      && (!refused && !IsUsedKey(s, op.key) && inp.newId !in s.byId ==>
            var p := Drafted(cfg, v.value, op.key, inp);
            && reply == Reply(Ok(p), inp.newLinkCode, false)
            && t == Tables(s.byId[p.id := p], s.byKey[op.key := p.id]))
      && (refused || IsUsedKey(s, op.key) || inp.newId in s.byId ==> t == s)
  {
    KeyIsUsedExactly(cfg, s, op.key);
    ValidationRefusesOnly(op.payload);
    hide ValidateMessageDraft, Trim, Upper, GoodStore, IsUsedKey;
  }

  lemma ValidationRefusesOnly(p: Payload)
    ensures ValidateMessageDraft(p).Err? ==> ValidateMessageDraft(p).error == VALIDATION_FAILED
  {
    hide SanitizeBody, PassesLint, Utf16Length, IsOrderId, IsMerchantId, IsSlug;
  }

  lemma KeyIsUsedExactly(cfg: Config, s: Tables, key: string)
    requires GoodStore(cfg, s)
    ensures FindByKey(s, key).Some? <==> IsUsedKey(s, key)
    ensures FindByKey(s, key).Some? ==>
      exists id :: id in s.byId && s.byId[id].idempotencyKey == key && FindByKey(s, key) == Some(s.byId[id])
    ensures !IsUsedKey(s, key) ==> key !in s.byKey
  {
    hide Genuine;
    if id :| id in s.byId && s.byId[id].idempotencyKey == key {
      assert FindByKey(s, s.byId[id].idempotencyKey) == Some(s.byId[id]);
    }
    if key in s.byKey {
      assert s.byKey[key] in s.byId && s.byId[s.byKey[key]].idempotencyKey == key;
    }
  }

  // ------------------------------------------------------------------------ runs

  /** The effect that closed a proposal: a decline in time, or a failed confirmation past the deadline. */
  predicate Closes(p: Proposal, d: Done) {
    && !d.op.Propose? && d.op.id == p.id
    && (p.state == Expired ==> d.op.Confirm? && d.inp.later >= p.expiresAt)
    && (p.state == Rejected ==> d.op.Reject? && d.inp.now < p.expiresAt)
  }

  ghost predicate ClosedInTime(y: World) {
    forall id :: id in y.store.byId && y.store.byId[id].state in {Expired, Rejected} ==>
      exists k :: 0 <= k < |y.effects| && Closes(y.store.byId[id], y.effects[k])
  }

  lemma ClosingDecision(cfg: Config, p: Proposal, op: Op, inp: Inputs, reply: Reply)
    requires !op.Propose? && op.id == p.id && IsDigest(p.linkCodeHash) && IsDigest(p.payloadDigest)
    requires Decide(cfg, op, Some(p), inp).Swap?
    requires Decide(cfg, op, Some(p), inp).next.state in {Expired, Rejected}
    ensures Closes(Decide(cfg, op, Some(p), inp).next, Done(op, inp, reply))
  {
    if op.Confirm? {
      ConfirmDecides(cfg, p, op, inp);
    } else {
      OthersDecide(cfg, p, op, inp);
    }
    hide Decide, CodeFits, SpellsDigest, IsDigest;
  }

  lemma FinishKeepsClosed(cfg: Config, y: World, pid: Pid)
    requires Inv(cfg, y) && ClosedInTime(y) && Possible(y, Finish(pid))
    requires Next(cfg, y, Finish(pid)).store != y.store
    ensures ClosedInTime(Next(cfg, y, Finish(pid)))
  {
    hide ValidateMessageDraft, GoodHistory, Decide, Write, GoodStore, HashLinkCode, Closes;
    FinishWrites(cfg, y, pid);
    var z, f := Next(cfg, y, Finish(pid)), y.flights[pid];
    var d := Decide(cfg, f.op, f.seen, f.inp);
    forall id | id in z.store.byId && z.store.byId[id].state in {Expired, Rejected}
      ensures exists k :: 0 <= k < |z.effects| && Closes(z.store.byId[id], z.effects[k])
    {
      if d.Swap? && id == d.next.id {
        ClosingDecision(cfg, f.seen.value, f.op, f.inp, z.effects[|y.effects|].reply);
        assert Closes(z.store.byId[id], z.effects[|y.effects|]);
      } else {
        assert id in y.store.byId && z.store.byId[id] == y.store.byId[id];
        var k :| 0 <= k < |y.effects| && Closes(y.store.byId[id], y.effects[k]);
        assert z.effects[k] == y.effects[k];
      }
    }
  }

  /**
   * In every interleaving a proposal is stored as expired only by a call whose clock had reached its deadline, and as
   * rejected only by a decline before it.
   */
  lemma {:induction false} ClosedMeansInTime(cfg: Config, events: seq<Event>, ys: seq<World>, k: nat)
    requires IsRun(cfg, events, ys) && k <= |events|
    ensures ClosedInTime(ys[k])
  {
    if k > 0 {
      ClosedMeansInTime(cfg, events, ys, k - 1);
      RunKeepsInv(cfg, events, ys, k - 1);
      var y, e, z := ys[k - 1], events[k - 1], ys[k];
      hide Inv, Decide, Write, ReadFor, Closes;
      if e.Finish? && z.store != y.store {
        FinishKeepsClosed(cfg, y, e.pid);
      } else {
        SameStoreStaysClosed(y, z);
      }
    }
  }

  lemma SameStoreStaysClosed(y: World, z: World)
    requires ClosedInTime(y) && z.store == y.store && z.effects == y.effects
    ensures ClosedInTime(z)
  {
  }
}
