/**
 * The action registry. Every operation reads the store, decides on what it read, and writes with an insert or a
 * compare-and-swap. Run alone an operation is atomic. Run concurrently the three phases of many operations
 * interleave: an operation then behaves as if it ran at one moment between its read and its write, or is told of
 * a conflict because somebody else got in between.
 */
module Registry {
  import opened Basics
  import opened Text
  import opened Validation
  import opened Proposals
  import opened Store

  datatype Config = Config(crypto: Crypto, ttlSeconds: int)

  datatype Op =
    | Propose(payload: Payload, key: string)
    | Confirm(id: string, linkCode: string, seenDigest: string)
    | Reject(id: string)
    | Execute(id: string)
    | Fail(id: string, reason: string)

  /** Everything an operation draws from outside while deciding: clocks, and fresh names. */
  datatype Inputs = Inputs(now: Time, later: Time, wall: Time, newId: string, newLinkCode: string)

  datatype Reply = Reply(result: Result<Proposal, ErrorCode>, linkCode: string, deduplicated: bool)

  datatype Decision =
    | Answer(reply: Reply)
    | Swap(next: Proposal, expected: nat, refusal: Option<ErrorCode>)
    | InsertNew(p: Proposal, linkCode: string)

  function Refused(e: ErrorCode): Decision {
    Answer(Reply(Err(e), "", false))
  }

  function ReadFor(s: Tables, op: Op): Option<Proposal> {
    if op.Propose? then FindByKey(s, op.key) else Get(s, op.id)
  }

  function SimulatedReference(c: Crypto, id: string): string {
    "sim_" + c.sha256(id)[..12]
  }

  function DecidePropose(cfg: Config, op: Op, existing: Option<Proposal>, inp: Inputs): Decision
    requires op.Propose?
  {
    var v := ValidateMessageDraft(op.payload);
    if v.Err? then Refused(v.error)
    else if Trim(op.key, JsSpace) == "" then Refused(VALIDATION_FAILED)
    else if existing.Some? then Answer(Reply(Ok(existing.value), "", true))
    else
      InsertNew(CreateProposal(cfg.crypto, inp.newId, v.value, inp.newLinkCode, op.key, cfg.ttlSeconds, inp.now),
                inp.newLinkCode)
  }

  function SwapOf(next: Result<Proposal, ErrorCode>, current: Proposal): Decision {
    if next.Ok? then Swap(next.value, current.version, None) else Refused(next.error)
  }

  function DecideConfirm(cfg: Config, op: Op, current: Proposal, inp: Inputs): Decision
    requires op.Confirm?
  {
    var next := ConfirmProposal(cfg.crypto, current, op.linkCode, op.seenDigest, inp.now, inp.wall);
    if next.Ok? then Swap(next.value, current.version, None)
    else
      var expired := ExpireIfDue(current, inp.later, inp.wall);
      if expired.state == Expired && expired.version != current.version then
        Swap(expired, current.version, Some(next.error))
      else Refused(next.error)
  }

  function Decide(cfg: Config, op: Op, seen: Option<Proposal>, inp: Inputs): Decision {
    if op.Propose? then DecidePropose(cfg, op, seen, inp)
    else if seen.None? then Refused(INVALID_STATE)
    else
      var current := seen.value;
      match op
      case Confirm(_, _, _) => DecideConfirm(cfg, op, current, inp)
      case Reject(_) => SwapOf(RejectProposal(current, inp.now, inp.wall), current)
      case Execute(_) =>
        if current.state != Confirmed then Refused(INVALID_STATE)
        else SwapOf(MarkExecuted(current, SimulatedReference(cfg.crypto, current.id), inp.wall), current)
      case Fail(_, reason) => SwapOf(MarkFailed(current, reason, inp.wall), current)
  }

  /** The write of a decision, and what the caller is told. */
  function Write(s: Tables, d: Decision): (Tables, Reply) {
    match d
    case Answer(reply) => (s, reply)
    case Swap(next, expected, refusal) =>
      var (t, r) := SwapIn(s, next, expected);
      (t, Reply(if refusal.Some? then Err(refusal.value) else r, "", false))
    case InsertNew(p, linkCode) =>
      var (t, r) := InsertInto(s, p);
      (t, Reply(r, if r.Ok? then linkCode else "", false))
  }

  /** The atomic machine: read, decide and write at one moment. */
  function Atomic(cfg: Config, s: Tables, op: Op, inp: Inputs): (Tables, Reply) {
    Write(s, Decide(cfg, op, ReadFor(s, op), inp))
  }

  // ------------------------------------------------------- one call at a time

  class ActionRegistry {
    const store: InMemoryProposalStore
    const cfg: Config

    constructor (store: InMemoryProposalStore, cfg: Config)
      ensures this.store == store && this.cfg == cfg
    {
      this.store, this.cfg := store, cfg;
    }

    method ProposeDraft(payload: Payload, key: string, inp: Inputs) returns (reply: Reply)
      modifies store
      ensures (store.View(), reply) == Atomic(cfg, old(store.View()), Propose(payload, key), inp)
    {
      var v := ValidateMessageDraft(payload);
      if v.Err? {
        return Reply(Err(v.error), "", false);
      }
      if Trim(key, JsSpace) == "" {
        return Reply(Err(VALIDATION_FAILED), "", false);
      }
      var existing := store.FindByIdempotencyKey(key);
      if existing.Some? {
        return Reply(Ok(existing.value), "", true);
      }
      var p := CreateProposal(cfg.crypto, inp.newId, v.value, inp.newLinkCode, key, cfg.ttlSeconds, inp.now);
      var inserted := store.Insert(p);
      if inserted.Err? {
        return Reply(Err(inserted.error), "", false);
      }
      return Reply(Ok(inserted.value), inp.newLinkCode, false);
    }

    method ConfirmDraft(id: string, linkCode: string, seenDigest: string, inp: Inputs) returns (reply: Reply)
      modifies store
      ensures (store.View(), reply) == Atomic(cfg, old(store.View()), Confirm(id, linkCode, seenDigest), inp)
    {
      var current := store.Read(id);
      if current.None? {
        return Reply(Err(INVALID_STATE), "", false);
      }
      var next := ConfirmProposal(cfg.crypto, current.value, linkCode, seenDigest, inp.now, inp.wall);
      if next.Err? {
        var expired := ExpireIfDue(current.value, inp.later, inp.wall);
        if expired.state == Expired && expired.version != current.value.version {
          var _ := store.CompareAndSwap(expired, current.value.version);
        }
        return Reply(Err(next.error), "", false);
      }
      var r := store.CompareAndSwap(next.value, current.value.version);
      return Reply(r, "", false);
    }

    method RejectDraft(id: string, inp: Inputs) returns (reply: Reply)
      modifies store
      ensures (store.View(), reply) == Atomic(cfg, old(store.View()), Reject(id), inp)
    {
      var current := store.Read(id);
      if current.None? {
        return Reply(Err(INVALID_STATE), "", false);
      }
      var next := RejectProposal(current.value, inp.now, inp.wall);
      if next.Err? {
        return Reply(Err(next.error), "", false);
      }
      var r := store.CompareAndSwap(next.value, current.value.version);
      return Reply(r, "", false);
    }

    method ExecuteDraft(id: string, inp: Inputs) returns (reply: Reply)
      modifies store
      ensures (store.View(), reply) == Atomic(cfg, old(store.View()), Execute(id), inp)
    {
      var current := store.Read(id);
      if current.None? || current.value.state != Confirmed {
        return Reply(Err(INVALID_STATE), "", false);
      }
      var reference := SimulatedReference(cfg.crypto, current.value.id);
      var next := MarkExecuted(current.value, reference, inp.wall);
      if next.Err? {
        return Reply(Err(next.error), "", false);
      }
      var r := store.CompareAndSwap(next.value, current.value.version);
      return Reply(r, "", false);
    }

    method FailDraft(id: string, reason: string, inp: Inputs) returns (reply: Reply)
      modifies store
      ensures (store.View(), reply) == Atomic(cfg, old(store.View()), Fail(id, reason), inp)
    {
      var current := store.Read(id);
      if current.None? {
        return Reply(Err(INVALID_STATE), "", false);
      }
      var next := MarkFailed(current.value, reason, inp.wall);
      if next.Err? {
        return Reply(Err(next.error), "", false);
      }
      var r := store.CompareAndSwap(next.value, current.value.version);
      return Reply(r, "", false);
    }
  }
}
