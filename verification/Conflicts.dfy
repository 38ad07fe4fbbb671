/** Interleavings that end in a conflict, for every proposal that the registry accepts. */
module Conflicts {
  import opened Basics
  import opened Text
  import opened Validation
  import opened Proposals
  import opened Store
  import opened Registry
  import opened Interleaving

  /** Clocks that stand still, and one fresh id and code. */
  const DRAW := Inputs(0, 0, 0, "p", "c")

  predicate CanBeProposed(cfg: Config, payload: Payload, key: string) {
    ValidateMessageDraft(payload).Ok? && Trim(key, JsSpace) != "" && cfg.ttlSeconds > 0
  }

  /** The proposal that such a proposal call stores. */
  function Stored(cfg: Config, payload: Payload, key: string, id: string): Proposal
    requires CanBeProposed(cfg, payload, key)
  {
    CreateProposal(cfg.crypto, id, ValidateMessageDraft(payload).value, "c", key, cfg.ttlSeconds, 0)
  }

  lemma ProposeInserts(cfg: Config, payload: Payload, key: string, id: string)
    requires CanBeProposed(cfg, payload, key)
    ensures Decide(cfg, Propose(payload, key), None, DRAW.(newId := id))
      == InsertNew(Stored(cfg, payload, key, id), "c")
  {
    hide ValidateMessageDraft, Trim, CreateProposal;
  }

  lemma RejectSwaps(cfg: Config, payload: Payload, key: string)
    requires CanBeProposed(cfg, payload, key)
    ensures var p := Stored(cfg, payload, key, "p");
      Decide(cfg, Reject("p"), Some(p), DRAW) == Swap(Applied(p, Rejected, "declined by human", Human, 0), 1, None)
  {
    hide ValidateMessageDraft, Trim;
  }

  /** Worlds that the events lead through, one after the other. */
  ghost predicate Steps(cfg: Config, events: seq<Event>, ys: seq<World>) {
    && |ys| == |events| + 1
    && forall k :: 0 <= k < |events| ==> Possible(ys[k], events[k]) && ys[k + 1] == Next(cfg, ys[k], events[k])
  }

  lemma StepsJoin(cfg: Config, before: seq<Event>, zs: seq<World>, after: seq<Event>, us: seq<World>)
    requires Steps(cfg, before, zs) && Steps(cfg, after, us) && zs[|before|] == us[0]
    ensures Steps(cfg, before + after, zs[..|before|] + us)
  {
    hide Next, Possible;
    var n, events, ys := |before|, before + after, zs[..|before|] + us;
    forall k | 0 <= k < |events|
      ensures Possible(ys[k], events[k]) && ys[k + 1] == Next(cfg, ys[k], events[k])
    {
      if k < n {
        assert ys[k] == zs[k] && ys[k + 1] == zs[k + 1];
      } else {
        assert ys[k] == us[k - n] && ys[k + 1] == us[k - n + 1] && events[k] == after[k - n];
      }
    }
  }

  /** Two calls that both read before either writes. */
  function Overlapping(op: Op, a: Inputs, b: Inputs): seq<Event> {
    [Begin(1, op), Begin(2, op), Think(1, a), Think(2, b), Finish(1), Finish(2)]
  }

  lemma BothRead(cfg: Config, y: World, op: Op, a: Inputs, b: Inputs) returns (ys: seq<World>)
    requires y.flights == map[] && a.newId != "" && b.newId != ""
    ensures Steps(cfg, Overlapping(op, a, b)[..4], ys) && ys[0] == y
    ensures var (seen, n) := (ReadFor(y.store, op), |y.effects|);
      ys[4] == y.(flights := map[1 := Decided(op, seen, n, a), 2 := Decided(op, seen, n, b)])
  {
    hide ReadFor;
    var seen, n := ReadFor(y.store, op), |y.effects|;
    var begun := Loaded(op, seen, n);
    ys := [y, y.(flights := map[1 := begun]), y.(flights := map[1 := begun, 2 := begun]),
           y.(flights := map[1 := Decided(op, seen, n, a), 2 := begun]),
           y.(flights := map[1 := Decided(op, seen, n, a), 2 := Decided(op, seen, n, b)])];
  }

  /** Two declines of one stored proposal, the second read before the first is written. */
  lemma SecondDecline(cfg: Config, y: World, p: Proposal, key: string) returns (ys: seq<World>)
    requires y.store == Tables(map["p" := p], map[key := "p"]) && y.flights == map[]
    requires p.id == "p" && p.version == 1
    requires Decide(cfg, Reject("p"), Some(p), DRAW)
      == Swap(Applied(p, Rejected, "declined by human", Human, 0), 1, None)
    ensures Steps(cfg, Overlapping(Reject("p"), DRAW, DRAW), ys) && ys[0] == y
    ensures |ys[6].answers| == |y.answers| + 2
    ensures ys[6].answers[|y.answers| + 1].done.reply == Reply(Err(VERSION_CONFLICT), "", false)
  {
    hide Decide;
    var zs := BothRead(cfg, y, Reject("p"), DRAW, DRAW);
    var y5 := Next(cfg, zs[4], Finish(1));
    assert y5.store.byId["p"].version == 2;
    ys := zs + [y5, Next(cfg, y5, Finish(2))];
  }

  lemma InsertTakesEffect(cfg: Config, op: Op, p: Proposal)
    requires Decide(cfg, op, None, DRAW) == InsertNew(p, "c")
    ensures var y := START.(flights := map[0 := Decided(op, None, 0, DRAW)]);
      var z := Next(cfg, y, Finish(0));
      z.store == Tables(map[p.id := p], map[p.idempotencyKey := p.id]) && z.flights == map[] && |z.answers| == 1
  {
    hide Decide;
  }

  /** A proposal made on the empty store. */
  lemma FirstProposal(cfg: Config, payload: Payload, key: string) returns (events: seq<Event>, ys: seq<World>)
    requires CanBeProposed(cfg, payload, key)
    ensures Steps(cfg, events, ys) && |events| == 3 && ys[0] == START
    ensures ys[3].store == Tables(map["p" := Stored(cfg, payload, key, "p")], map[key := "p"])
    ensures ys[3].flights == map[] && |ys[3].answers| == 1
  {
    var propose, p := Propose(payload, key), Stored(cfg, payload, key, "p");
    ProposeInserts(cfg, payload, key, "p");
    StoredIsNew(cfg, payload, key, "p");
    assert DRAW == DRAW.(newId := "p");
    hide CanBeProposed, Decide, Stored, Next, Possible;
    InsertTakesEffect(cfg, propose, p);
    var zs := OneReads(cfg, propose);
    var us := [zs[2], Next(cfg, zs[2], Finish(0))];
    events, ys := [Begin(0, propose), Think(0, DRAW), Finish(0)], zs[..2] + us;
    StepsJoin(cfg, events[..2], zs, [Finish(0)], us);
    assert events == events[..2] + [Finish(0)];
  }

  lemma OneReads(cfg: Config, op: Op) returns (zs: seq<World>)
    requires op.Propose?
    ensures Steps(cfg, [Begin(0, op), Think(0, DRAW)], zs) && zs[0] == START
    ensures zs[2] == START.(flights := map[0 := Decided(op, None, 0, DRAW)]) && Possible(zs[2], Finish(0))
  {
    zs := [START, START.(flights := map[0 := Loaded(op, None, 0)]),
           START.(flights := map[0 := Decided(op, None, 0, DRAW)])];
  }

  lemma StoredIsNew(cfg: Config, payload: Payload, key: string, id: string)
    requires CanBeProposed(cfg, payload, key)
    ensures var p := Stored(cfg, payload, key, id); p.id == id && p.idempotencyKey == key && p.version == 1
  {
    hide ValidateMessageDraft, Trim;
  }

  /**
   * A version conflict happens: whatever is proposed, two declines of it that both read it before either writes end
   * with the later one told of the conflict.
   */
  lemma VersionConflictRun(cfg: Config, payload: Payload, key: string) returns (events: seq<Event>, ys: seq<World>)
    requires CanBeProposed(cfg, payload, key)
    ensures IsRun(cfg, events, ys) && |events| == 9
    ensures |ys[9].answers| == 3 && ys[9].answers[2].done.reply == Reply(Err(VERSION_CONFLICT), "", false)
  {
    RejectSwaps(cfg, payload, key);
    StoredIsNew(cfg, payload, key, "p");
    hide CanBeProposed, Decide, Stored, Applied, Next, Possible;
    var before, zs := FirstProposal(cfg, payload, key);
    var us := SecondDecline(cfg, zs[3], Stored(cfg, payload, key, "p"), key);
    events, ys := before + Overlapping(Reject("p"), DRAW, DRAW), zs[..3] + us;
    StepsJoin(cfg, before, zs, Overlapping(Reject("p"), DRAW, DRAW), us);
  }

  /** The first of two inserts under one key takes effect, and the second is refused. */
  lemma SecondInsert(cfg: Config, y: World, op: Op, p: Proposal, q: Proposal) returns (ys: seq<World>)
    requires op.Propose? && p.id == "p" && q.id == "q" && p.idempotencyKey == q.idempotencyKey
    requires Decide(cfg, op, None, DRAW) == InsertNew(p, "c")
    requires Decide(cfg, op, None, DRAW.(newId := "q")) == InsertNew(q, "c")
    requires y == START.(flights :=
      map[1 := Decided(op, None, 0, DRAW), 2 := Decided(op, None, 0, DRAW.(newId := "q"))])
    ensures Steps(cfg, [Finish(1), Finish(2)], ys) && ys[0] == y
    ensures |ys[2].answers| == 2 && ys[2].answers[1].done.reply == Reply(Err(IDEMPOTENCY_CONFLICT), "", false)
  {
    hide Decide;
    var y5 := Next(cfg, y, Finish(1));
    assert "p" in y5.store.byId && p.idempotencyKey in y5.store.byKey;
    ys := [y, y5, Next(cfg, y5, Finish(2))];
  }

  /** An idempotency conflict happens: two proposals under one key that both look the key up before either inserts. */
  lemma IdempotencyConflictRun(cfg: Config, payload: Payload, key: string)
    returns (events: seq<Event>, ys: seq<World>)
    requires CanBeProposed(cfg, payload, key)
    ensures IsRun(cfg, events, ys) && |events| == 6
    ensures |ys[6].answers| == 2 && ys[6].answers[1].done.reply == Reply(Err(IDEMPOTENCY_CONFLICT), "", false)
  {
    var propose, other := Propose(payload, key), DRAW.(newId := "q");
    ProposeInserts(cfg, payload, key, "p");
    ProposeInserts(cfg, payload, key, "q");
    StoredIsNew(cfg, payload, key, "p");
    StoredIsNew(cfg, payload, key, "q");
    assert DRAW == DRAW.(newId := "p");
    hide CanBeProposed, Decide, Stored, Next, Possible;
    var zs := BothRead(cfg, START, propose, DRAW, other);
    var us := SecondInsert(cfg, zs[4], propose, Stored(cfg, payload, key, "p"), Stored(cfg, payload, key, "q"));
    events, ys := Overlapping(propose, DRAW, other), zs[..4] + us;
    StepsJoin(cfg, events[..4], zs, [Finish(1), Finish(2)], us);
    assert events == events[..4] + [Finish(1), Finish(2)];
  }
}
