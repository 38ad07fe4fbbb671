/**
 * Registry operations run concurrently: each is a read, then a decision, then a write, and any number of
 * them overlap. A snapshot may be stale by the time it is written from; the version is what notices.
 */
module Interleaving {
  import opened Basics
  import opened Text
  import opened Validation
  import opened Proposals
  import opened Store
  import opened Registry

  type Pid = nat

  /** An operation under way, with what it read, and how many writes had taken effect when it did. */
  datatype Flight =
    | Loaded(op: Op, seen: Option<Proposal>, began: nat)
    | Decided(op: Op, seen: Option<Proposal>, began: nat, inp: Inputs)

  datatype Done = Done(op: Op, inp: Inputs, reply: Reply)

  /** A reply given, and how many writes had taken effect at the operation's read and before its own write. */
  datatype Answered = Answered(done: Done, began: nat, ended: nat, tookEffect: bool)

  /** The store, the operations under way, and history: the writes that took effect, and all replies, in order. */
  datatype World = World(store: Tables, flights: map<Pid, Flight>, effects: seq<Done>, answers: seq<Answered>)

  const START := World(EMPTY, map[], [], [])

  datatype Event =
    | Begin(pid: Pid, op: Op)
    | Think(pid: Pid, inp: Inputs)
    | Finish(pid: Pid)
    | Abandon(pid: Pid)

  predicate Possible(y: World, e: Event) {
    match e
    case Begin(pid, _) => pid !in y.flights
    case Think(pid, inp) => pid in y.flights && y.flights[pid].Loaded? && inp.newId != ""
    case Finish(pid) => pid in y.flights && y.flights[pid].Decided?
    case Abandon(pid) => pid in y.flights
  }

  function Next(cfg: Config, y: World, e: Event): World
    requires Possible(y, e)
  {
    match e
    case Begin(pid, op) => y.(flights := y.flights[pid := Loaded(op, ReadFor(y.store, op), |y.effects|)])
    case Think(pid, inp) =>
      var f := y.flights[pid];
      y.(flights := y.flights[pid := Decided(f.op, f.seen, f.began, inp)])
    case Abandon(pid) => y.(flights := y.flights - {pid})
    case Finish(pid) =>
      var f := y.flights[pid];
      var (store, reply) := Write(y.store, Decide(cfg, f.op, f.seen, f.inp));
      var done := Done(f.op, f.inp, reply);
      World(store, y.flights - {pid},
            if store == y.store then y.effects else y.effects + [done],
            y.answers + [Answered(done, f.began, |y.effects|, store != y.store)])
  }

  // ----------------------------------------------------------------- invariant

  ghost predicate Genuine(cfg: Config, p: Proposal) {
    && GoodHistory(p)
    && p.payloadDigest == DigestPayload(cfg.crypto, p.payload)
    && IsDigest(p.linkCodeHash)
    && ValidateMessageDraft(p.payload) == Ok(p.payload)
    && p.expiresAt == p.createdAt + cfg.ttlSeconds * 1000
  }

  ghost predicate GoodStore(cfg: Config, s: Tables) {
    && Inverse(s) && Findable(s)
    && forall id :: id in s.byId ==> Genuine(cfg, s.byId[id])
  }

  /** A snapshot is an earlier version of what the store now holds under the same id. */
  ghost predicate Stale(cfg: Config, s: Tables, seen: Option<Proposal>) {
    seen.Some? ==>
      && Genuine(cfg, seen.value)
      && seen.value.id in s.byId
      && Extends(seen.value, s.byId[seen.value.id])
  }

  ghost predicate FlightOk(cfg: Config, s: Tables, f: Flight) {
    && Stale(cfg, s, f.seen)
    && (f.seen.Some? && !f.op.Propose? ==> f.seen.value.id == f.op.id)
    && (f.Decided? ==> f.inp.newId != "")
  }

  ghost predicate Inv(cfg: Config, y: World) {
    && GoodStore(cfg, y.store)
    && forall pid :: pid in y.flights ==> FlightOk(cfg, y.store, y.flights[pid])
  }

  /** What time does to a store: proposals are only added, and each only grows its history. */
  ghost predicate Grows(s: Tables, t: Tables) {
    && (forall id :: id in s.byId ==> id in t.byId && Extends(s.byId[id], t.byId[id]))
    && (forall key :: key in s.byKey ==> key in t.byKey && t.byKey[key] == s.byKey[key])
  }

  lemma StaleStaysStale(cfg: Config, s: Tables, t: Tables, seen: Option<Proposal>)
    requires Stale(cfg, s, seen) && Grows(s, t)
    ensures Stale(cfg, t, seen)
  {
    if seen.Some? {
      var p := seen.value;
      assert s.byId[p.id].history <= t.byId[p.id].history;
    }
  }

  /** The transition of a snapshot that a decision may write back. */
  ghost predicate LegalNext(cfg: Config, p: Proposal, next: Proposal) {
    Genuine(cfg, next) && Extends(p, next) && next.version == p.version + 1
  }

  lemma AppliedIsLegal(cfg: Config, p: Proposal, to: ProposalState, reason: string, actor: Actor, wall: Time)
    requires Genuine(cfg, p) && Guard(p, to) && (to == Confirmed ==> actor == Human)
    ensures LegalNext(cfg, p, Applied(p, to, reason, actor, wall))
  {
    hide ValidateMessageDraft, IsDigest;
    AppliedKeepsHistory(p, to, reason, actor, wall);
  }

  lemma ExpiryIsLegal(cfg: Config, p: Proposal, now: Time, wall: Time)
    requires Genuine(cfg, p)
    ensures var q := ExpireIfDue(p, now, wall);
      q == p || (p.state == Pending && q.state == Expired && LegalNext(cfg, p, q))
  {
    hide Genuine, LegalNext;
    if p.state == Pending {
      AppliedIsLegal(cfg, p, Expired, "ttl elapsed", System, wall);
    }
  }

  lemma ConfirmIsLegal(cfg: Config, op: Op, p: Proposal, inp: Inputs)
    requires Genuine(cfg, p) && op.Confirm? && DecideConfirm(cfg, op, p, inp).Swap?
    ensures LegalNext(cfg, p, DecideConfirm(cfg, op, p, inp).next)
    ensures DecideConfirm(cfg, op, p, inp).expected == p.version
  {
    hide Genuine, LegalNext, HashLinkCode, SafeEqualHex;
    ExpiryIsLegal(cfg, p, inp.now, inp.wall);
    ExpiryIsLegal(cfg, p, inp.later, inp.wall);
    if Guard(p, Confirmed) {
      AppliedIsLegal(cfg, p, Confirmed, "confirmed by human", Human, inp.wall);
    }
  }

  lemma OtherSwapsAreLegal(cfg: Config, op: Op, p: Proposal, inp: Inputs)
    requires Genuine(cfg, p) && (op.Reject? || op.Execute? || op.Fail?) && Decide(cfg, op, Some(p), inp).Swap?
    ensures LegalNext(cfg, p, Decide(cfg, op, Some(p), inp).next)
    ensures Decide(cfg, op, Some(p), inp).expected == p.version
  {
    hide Genuine, LegalNext, SimulatedReference;
    ExpiryIsLegal(cfg, p, inp.now, inp.wall);
    match op
    case Reject(_) => AppliedIsLegal(cfg, p, Rejected, "declined by human", Human, inp.wall);
    case Execute(_) =>
      AppliedIsLegal(cfg, p, Executed, EXECUTION_PREFIX + SimulatedReference(cfg.crypto, p.id), System, inp.wall);
    case Fail(_, reason) => AppliedIsLegal(cfg, p, Failed, reason, System, inp.wall);
  }

  lemma FreshProposalIsGenuine(cfg: Config, op: Op, existing: Option<Proposal>, inp: Inputs)
    requires op.Propose? && DecidePropose(cfg, op, existing, inp).InsertNew?
    ensures var d := DecidePropose(cfg, op, existing, inp);
      && existing.None? && Genuine(cfg, d.p) && d.p.id == inp.newId && d.p.idempotencyKey == op.key
      && d.p.linkCodeHash == HashLinkCode(cfg.crypto, d.linkCode) && |d.p.history| == 1
      && d.p.history[0].to == Pending && d.p.state == Pending
  {
    hide ValidateMessageDraft, HashLinkCode, Trim;
    AcceptedDraftsAreFixedPoints(op.payload);
  }

  /** A decision that writes: one legal transition of what was seen, or a fresh proposal under an unseen key. */
  ghost predicate LegalDecision(cfg: Config, op: Op, seen: Option<Proposal>, inp: Inputs, d: Decision) {
    && (d.Swap? ==>
          && seen.Some? && !op.Propose? && d.expected == seen.value.version
          && LegalNext(cfg, seen.value, d.next))
    && (d.InsertNew? ==>
          && seen.None? && op.Propose? && Genuine(cfg, d.p)
          && d.p.id == inp.newId && d.p.idempotencyKey == op.key
          && d.p.linkCodeHash == HashLinkCode(cfg.crypto, d.linkCode)
          && |d.p.history| == 1 && d.p.history[0].to == Pending && d.p.state == Pending)
    && (d.Answer? ==> d.reply.linkCode == "")
  }

  lemma DecisionIsLegal(cfg: Config, op: Op, seen: Option<Proposal>, inp: Inputs)
    requires seen.Some? ==> Genuine(cfg, seen.value)
    ensures LegalDecision(cfg, op, seen, inp, Decide(cfg, op, seen, inp))
  {
    hide Genuine, LegalNext, HashLinkCode, ConfirmProposal, RejectProposal, MarkExecuted, MarkFailed,
         ExpireIfDue, SimulatedReference, ValidateMessageDraft, Trim, CreateProposal;
    var d := Decide(cfg, op, seen, inp);
    if d.InsertNew? {
      FreshProposalIsGenuine(cfg, op, seen, inp);
    } else if d.Swap? {
      if op.Confirm? {
        ConfirmIsLegal(cfg, op, seen.value, inp);
      } else {
        OtherSwapsAreLegal(cfg, op, seen.value, inp);
      }
    }
  }

  /** A swap succeeds only from a snapshot that is still exactly what is stored. */
  lemma SuccessfulSwapSawTheStore(cfg: Config, s: Tables, p: Proposal, next: Proposal)
    requires GoodStore(cfg, s) && Stale(cfg, s, Some(p)) && LegalNext(cfg, p, next)
    requires SwapIn(s, next, p.version).1.Ok?
    ensures p.id in s.byId && p == s.byId[p.id]
  {
    EqualVersionsAreEqual(p, s.byId[p.id]);
  }

  /** The step theorem: a write that changes the store is the whole operation, done atomically at that moment. */
  lemma WriteIsAtomic(cfg: Config, s: Tables, f: Flight)
    requires GoodStore(cfg, s) && FlightOk(cfg, s, f) && f.Decided?
    requires Write(s, Decide(cfg, f.op, f.seen, f.inp)).0 != s
    ensures ReadFor(s, f.op) == f.seen
    ensures Write(s, Decide(cfg, f.op, f.seen, f.inp)) == Atomic(cfg, s, f.op, f.inp)
  {
    hide Decide, Genuine, HashLinkCode;
    DecisionIsLegal(cfg, f.op, f.seen, f.inp);
    var d := Decide(cfg, f.op, f.seen, f.inp);
    if d.Swap? {
      SuccessfulSwapSawTheStore(cfg, s, f.seen.value, d.next);
    }
  }

  lemma WriteKeepsGoodStore(cfg: Config, s: Tables, op: Op, seen: Option<Proposal>, inp: Inputs, d: Decision)
    requires GoodStore(cfg, s) && Stale(cfg, s, seen) && inp.newId != "" && LegalDecision(cfg, op, seen, inp, d)
    ensures GoodStore(cfg, Write(s, d).0) && Grows(s, Write(s, d).0)
  {
    hide Genuine, HashLinkCode, Inverse, Findable;
    match d
    case Answer(_) =>
    case Swap(next, expected, _) =>
      if SwapIn(s, next, expected).1.Ok? {
        SuccessfulSwapSawTheStore(cfg, s, seen.value, next);
        SwapKeepsMaps(s, next, expected);
      }
    case InsertNew(p, _) =>
      InsertKeepsInverse(s, p);
      if InsertInto(s, p).1.Ok? {
        InsertKeepsFindableExactly(s, p);
        NewKeyIsUnused(s, p);
      }
  }

  lemma NewKeyIsUnused(s: Tables, p: Proposal)
    requires Inverse(s) && Findable(s) && InsertInto(s, p).1.Ok?
    ensures p.idempotencyKey !in s.byKey && p.id !in s.byId
  {
    forall id | id in s.byId
      ensures id != "" && s.byId[id].idempotencyKey != p.idempotencyKey
    {
      assert FindByKey(s, s.byId[id].idempotencyKey) == Some(s.byId[id]);
    }
  }

  lemma SnapshotIsCurrent(cfg: Config, s: Tables, op: Op)
    requires GoodStore(cfg, s)
    ensures Stale(cfg, s, ReadFor(s, op))
    ensures ReadFor(s, op).Some? && !op.Propose? ==> ReadFor(s, op).value.id == op.id
  {
    hide Genuine;
  }

  lemma NextKeepsInv(cfg: Config, y: World, e: Event)
    requires Inv(cfg, y) && Possible(y, e)
    ensures Inv(cfg, Next(cfg, y, e)) && Grows(y.store, Next(cfg, y, e).store)
  {
    hide Genuine, Decide, LegalDecision, HashLinkCode, Write, Inverse, Findable;
    var z := Next(cfg, y, e);
    match e
    case Begin(pid, op) =>
      SnapshotIsCurrent(cfg, y.store, op);
      assert FlightOk(cfg, y.store, z.flights[pid]);
    case Think(pid, inp) =>
      assert FlightOk(cfg, y.store, y.flights[pid]);
    case Abandon(pid) =>
    case Finish(pid) =>
      var f := y.flights[pid];
      assert FlightOk(cfg, y.store, f);
      DecisionIsLegal(cfg, f.op, f.seen, f.inp);
      WriteKeepsGoodStore(cfg, y.store, f.op, f.seen, f.inp, Decide(cfg, f.op, f.seen, f.inp));
      forall q | q in z.flights
        ensures FlightOk(cfg, z.store, z.flights[q])
      {
        assert FlightOk(cfg, y.store, y.flights[q]);
        StaleStaysStale(cfg, y.store, z.store, y.flights[q].seen);
      }
  }

  /** What one write that takes effect does to the store. */
  ghost predicate Wrote(cfg: Config, s: Tables, t: Tables, f: Flight, d: Decision, reply: Reply) {
    && f.Decided?
    && LegalDecision(cfg, f.op, f.seen, f.inp, d)
    && (d.Swap? ==>
          && f.seen.value.id in s.byId && s.byId[f.seen.value.id] == f.seen.value
          && t == s.(byId := s.byId[d.next.id := d.next])
          && reply.linkCode == "")
    && (d.InsertNew? ==>
          && d.p.id !in s.byId && d.p.idempotencyKey !in s.byKey
          && t == Tables(s.byId[d.p.id := d.p], s.byKey[d.p.idempotencyKey := d.p.id])
          && reply == Reply(Ok(d.p), d.linkCode, false))
    && !d.Answer?
  }

  lemma FinishWrites(cfg: Config, y: World, pid: Pid)
    requires Inv(cfg, y) && Possible(y, Finish(pid)) && Next(cfg, y, Finish(pid)).store != y.store
    ensures var f := y.flights[pid];
      var d := Decide(cfg, f.op, f.seen, f.inp);
      && FlightOk(cfg, y.store, f)
      && Wrote(cfg, y.store, Next(cfg, y, Finish(pid)).store, f, d, Write(y.store, d).1)
      && Next(cfg, y, Finish(pid)).effects == y.effects + [Done(f.op, f.inp, Write(y.store, d).1)]
  {
    hide Genuine, Decide, HashLinkCode, Inverse, Findable;
    var f := y.flights[pid];
    assert FlightOk(cfg, y.store, f);
    DecisionIsLegal(cfg, f.op, f.seen, f.inp);
    var d := Decide(cfg, f.op, f.seen, f.inp);
    if d.Swap? {
      SuccessfulSwapSawTheStore(cfg, y.store, f.seen.value, d.next);
    } else if d.InsertNew? {
      NewKeyIsUnused(y.store, d.p);
    }
  }

  // ---------------------------------------------------------------------- runs

  ghost predicate IsRun(cfg: Config, events: seq<Event>, ys: seq<World>) {
    && |ys| == |events| + 1 && ys[0] == START
    && forall k :: 0 <= k < |events| ==> Possible(ys[k], events[k]) && ys[k + 1] == Next(cfg, ys[k], events[k])
  }

  lemma {:induction false} RunKeepsInv(cfg: Config, events: seq<Event>, ys: seq<World>, k: nat)
    requires IsRun(cfg, events, ys) && k <= |events|
    ensures Inv(cfg, ys[k])
  {
    if k > 0 {
      RunKeepsInv(cfg, events, ys, k - 1);
      NextKeepsInv(cfg, ys[k - 1], events[k - 1]);
    }
  }

  lemma {:induction false} RunGrows(cfg: Config, events: seq<Event>, ys: seq<World>, j: nat, k: nat)
    requires IsRun(cfg, events, ys) && j <= k <= |events|
    ensures Grows(ys[j].store, ys[k].store)
    decreases k - j
  {
    if j < k {
      RunGrows(cfg, events, ys, j, k - 1);
      RunKeepsInv(cfg, events, ys, k - 1);
      NextKeepsInv(cfg, ys[k - 1], events[k - 1]);
      var s, t := ys[k - 1].store, ys[k].store;
      forall id | id in ys[j].store.byId
        ensures id in t.byId && Extends(ys[j].store.byId[id], t.byId[id])
      {
        assert Extends(s.byId[id], t.byId[id]);
      }
    }
  }

  /** The atomic machine over a list of operations, and the replies it gives. */
  function AtomicRun(cfg: Config, done: seq<Done>): Tables {
    if done == [] then EMPTY
    else
      var last := done[|done| - 1];
      Atomic(cfg, AtomicRun(cfg, done[..|done| - 1]), last.op, last.inp).0
  }

  ghost predicate RepliesAreAtomic(cfg: Config, done: seq<Done>) {
    forall k :: 0 <= k < |done| ==>
      done[k].reply == Atomic(cfg, AtomicRun(cfg, done[..k]), done[k].op, done[k].inp).1
  }

  lemma EffectIsAtomic(cfg: Config, y: World, pid: Pid)
    requires Inv(cfg, y) && Possible(y, Finish(pid)) && Next(cfg, y, Finish(pid)).store != y.store
    ensures var z := Next(cfg, y, Finish(pid));
      && z.effects != [] && z.effects[..|z.effects| - 1] == y.effects
      && var d := z.effects[|z.effects| - 1];
      (z.store, d.reply) == Atomic(cfg, y.store, d.op, d.inp)
  {
    hide Atomic, Decide, Write, ReadFor, GoodStore, Stale;
    var f := y.flights[pid];
    assert FlightOk(cfg, y.store, f);
    WriteIsAtomic(cfg, y.store, f);
  }

  /** Every stored proposal of every reachable store, at any moment of any interleaving. */
  lemma ReachableProposals(cfg: Config, events: seq<Event>, ys: seq<World>, k: nat, id: string)
    requires IsRun(cfg, events, ys) && k <= |events| && id in ys[k].store.byId
    ensures var p := ys[k].store.byId[id];
      && p.id == id && GoodHistory(p) && 1 <= p.version <= 3
      && p.payloadDigest == DigestPayload(cfg.crypto, p.payload)
      && ValidateMessageDraft(p.payload) == Ok(p.payload)
      && PassesLint(p.payload.body, p.payload.paymentStatus)
      && (forall other :: other in ys[k].store.byId && ys[k].store.byId[other].idempotencyKey == p.idempotencyKey ==>
            other == id)
      && (forall j :: k <= j <= |events| ==> id in ys[j].store.byId && Extends(p, ys[j].store.byId[id]))
  {
    RunKeepsInv(cfg, events, ys, k);
    var s := ys[k].store;
    assert Genuine(cfg, s.byId[id]);
    HistoryShape(s.byId[id]);
    forall other | other in s.byId && s.byId[other].idempotencyKey == s.byId[id].idempotencyKey
      ensures other == id
    {
      KeyNamesOne(s, other, id);
    }
    forall j | k <= j <= |events|
      ensures id in ys[j].store.byId && Extends(s.byId[id], ys[j].store.byId[id])
    {
      RunGrows(cfg, events, ys, k, j);
    }
  }

  // ----------------------------------------------------- confirmation and codes

  /** The effect that confirmed a proposal: a human's code and digest, checked before the deadline. */
  ghost predicate Approves(cfg: Config, p: Proposal, d: Done) {
    && d.op.Confirm? && d.op.id == p.id
    && SafeEqualHex(HashLinkCode(cfg.crypto, d.op.linkCode), p.linkCodeHash)
    && SafeEqualHex(d.op.seenDigest, p.payloadDigest)
    && d.inp.now < p.expiresAt
  }

  ghost predicate WasConfirmed(p: Proposal) {
    exists k :: 0 <= k < |p.history| && p.history[k].to == Confirmed
  }

  ghost predicate Backed(cfg: Config, y: World) {
    forall id :: id in y.store.byId && WasConfirmed(y.store.byId[id]) ==>
      exists k :: 0 <= k < |y.effects| && Approves(cfg, y.store.byId[id], y.effects[k])
  }

  /** A transition adds one record, and only that one can be the first confirmation. */
  lemma ConfirmedByLast(cfg: Config, p: Proposal, next: Proposal)
    requires Genuine(cfg, p) && LegalNext(cfg, p, next) && WasConfirmed(next)
    ensures WasConfirmed(p) || next.state == Confirmed
  {
    hide ValidateMessageDraft, DigestPayload, IsDigest;
    var n := |p.history|;
    var k :| 0 <= k < |next.history| && next.history[k].to == Confirmed;
    if k < n {
      assert p.history[k] == next.history[k];
    }
  }

  /** A decision moves a proposal to confirmed only for a caller that presented the code and the digest in time. */
  lemma OnlyConfirmConfirms(cfg: Config, op: Op, p: Proposal, inp: Inputs, reply: Reply)
    requires Decide(cfg, op, Some(p), inp).Swap? && !op.Propose? && op.id == p.id
    requires Decide(cfg, op, Some(p), inp).next.state == Confirmed
    ensures Approves(cfg, Decide(cfg, op, Some(p), inp).next, Done(op, inp, reply))
  {
    hide HashLinkCode, SafeEqualHex, SimulatedReference;
  }

  lemma {:induction false} ConfirmationsAreBacked(cfg: Config, events: seq<Event>, ys: seq<World>, k: nat)
    requires IsRun(cfg, events, ys) && k <= |events|
    ensures Backed(cfg, ys[k])
  {
    if k > 0 {
      ConfirmationsAreBacked(cfg, events, ys, k - 1);
      RunKeepsInv(cfg, events, ys, k - 1);
      var y, e, z := ys[k - 1], events[k - 1], ys[k];
      if e.Finish? && z.store != y.store {
        FinishKeepsBacked(cfg, y, e.pid);
      }
    }
  }

  lemma FinishKeepsBacked(cfg: Config, y: World, pid: Pid)
    requires Inv(cfg, y) && Backed(cfg, y) && Possible(y, Finish(pid))
    requires Next(cfg, y, Finish(pid)).store != y.store
    ensures Backed(cfg, Next(cfg, y, Finish(pid)))
  {
    hide Genuine, Decide, Write, HashLinkCode, SafeEqualHex, GoodStore;
    FinishWrites(cfg, y, pid);
    var z := Next(cfg, y, Finish(pid));
    var f := y.flights[pid];
    var d := Decide(cfg, f.op, f.seen, f.inp);
    var n := |y.effects|;
    forall id | id in z.store.byId && WasConfirmed(z.store.byId[id])
      ensures exists k :: 0 <= k < |z.effects| && Approves(cfg, z.store.byId[id], z.effects[k])
    {
      var q := z.store.byId[id];
      if d.Swap? && id == d.next.id && !WasConfirmed(f.seen.value) {
        ConfirmedByLast(cfg, f.seen.value, q);
        OnlyConfirmConfirms(cfg, f.op, f.seen.value, f.inp, z.effects[n].reply);
        assert Approves(cfg, q, z.effects[n]);
      } else {
        assert id in y.store.byId && WasConfirmed(y.store.byId[id]);
        var k :| 0 <= k < n && Approves(cfg, y.store.byId[id], y.effects[k]);
        assert z.effects[k] == y.effects[k] && Approves(cfg, q, z.effects[k]);
      }
    }
  }

  /**
   * In every interleaving a proposal that reached executed did so once, right after a human confirmation, and
   * that confirmation was a call that presented the code and the digest before the deadline.
   */
  lemma ExecutedMeansApproved(cfg: Config, events: seq<Event>, ys: seq<World>, k: nat, id: string)
    requires IsRun(cfg, events, ys) && k <= |events| && id in ys[k].store.byId
    requires ys[k].store.byId[id].state == Executed
    ensures var p := ys[k].store.byId[id];
      && |p.history| == 3 && p.history[1].to == Confirmed && p.history[1].actor == Human
      && (forall i :: 0 <= i < 3 && p.history[i].to == Executed ==> i == 2)
      && exists i :: 0 <= i < |ys[k].effects| && Approves(cfg, p, ys[k].effects[i])
  {
    hide Approves, GoodStore, FlightOk, WasConfirmed;
    RunKeepsInv(cfg, events, ys, k);
    ConfirmationsAreBacked(cfg, events, ys, k);
    var p := ys[k].store.byId[id];
    ExecutedHistory(cfg, ys[k].store, id);
  }

  lemma ExecutedHistory(cfg: Config, s: Tables, id: string)
    requires GoodStore(cfg, s) && id in s.byId && s.byId[id].state == Executed
    ensures var p := s.byId[id];
      && |p.history| == 3 && p.history[1].to == Confirmed && p.history[1].actor == Human
      && (forall i :: 0 <= i < 3 && p.history[i].to == Executed ==> i == 2)
      && WasConfirmed(p)
  {
    hide Inverse, Findable, ValidateMessageDraft, DigestPayload, IsDigest;
    var p := s.byId[id];
    assert Genuine(cfg, p);
    var n := |p.history| - 1;
    forall i | 0 <= i <= n && p.history[i].to == Executed
      ensures i == 2 && n == 2
    {
      ExecutedOnceAfterHuman(p, i);
    }
    ExecutedOnceAfterHuman(p, n);
  }

  /** Replies with a plaintext code: for a used key, and for each key at most once. */
  ghost predicate CodesIssuedOnce(y: World) {
    && (forall i :: 0 <= i < |y.answers| && CarriesCode(y.answers[i]) ==>
          y.answers[i].done.op.Propose? && y.answers[i].done.op.key in y.store.byKey)
    && (forall i, j :: 0 <= i < j < |y.answers| && CarriesCode(y.answers[i]) && CarriesCode(y.answers[j]) ==>
          y.answers[i].done.op.Propose? && y.answers[j].done.op.Propose?
          && y.answers[i].done.op.key != y.answers[j].done.op.key)
  }

  predicate CarriesCode(a: Answered) {
    a.done.reply.linkCode != ""
  }

  /** A reply that carries a code inserted the proposal; no other reply carries one. */
  lemma CodesComeWithInserts(cfg: Config, y: World, pid: Pid)
    requires Inv(cfg, y) && Possible(y, Finish(pid))
    ensures var f := y.flights[pid];
      var (t, reply) := Write(y.store, Decide(cfg, f.op, f.seen, f.inp));
      reply.linkCode != "" ==> f.op.Propose? && f.op.key !in y.store.byKey && f.op.key in t.byKey && t != y.store
  {
    hide Genuine, Decide, HashLinkCode, LegalNext;
    var f := y.flights[pid];
    assert FlightOk(cfg, y.store, f);
    DecisionIsLegal(cfg, f.op, f.seen, f.inp);
    var d := Decide(cfg, f.op, f.seen, f.inp);
    if d.InsertNew? && InsertInto(y.store, d.p).1.Ok? {
      NewKeyIsUnused(y.store, d.p);
      assert d.p.id in Write(y.store, d).0.byId;
    }
  }

  /** A reply that left the store as it was carries no code. */
  lemma SilentRepliesCarryNoCode(cfg: Config, y: World, pid: Pid)
    requires Inv(cfg, y) && Possible(y, Finish(pid))
    requires Next(cfg, y, Finish(pid)).store == y.store
    ensures var f := y.flights[pid];
      Write(y.store, Decide(cfg, f.op, f.seen, f.inp)).1.linkCode == ""
  {
    hide Inv, Decide, Write;
    CodesComeWithInserts(cfg, y, pid);
  }

  lemma AnsweringKeepsCodes(y: World, z: World, a: Answered)
    requires CodesIssuedOnce(y) && Grows(y.store, z.store) && z.answers == y.answers + [a]
    requires CarriesCode(a) ==>
      a.done.op.Propose? && a.done.op.key !in y.store.byKey && a.done.op.key in z.store.byKey
    ensures CodesIssuedOnce(z)
  {
    hide Extends, CarriesCode;
    assert forall i :: 0 <= i < |y.answers| ==> z.answers[i] == y.answers[i];
  }

  lemma NextKeepsCodes(cfg: Config, y: World, e: Event)
    requires Inv(cfg, y) && CodesIssuedOnce(y) && Possible(y, e)
    ensures CodesIssuedOnce(Next(cfg, y, e))
  {
    hide Inv, Decide, Write, ReadFor, Grows, CodesIssuedOnce;
    NextKeepsInv(cfg, y, e);
    var z := Next(cfg, y, e);
    if e.Finish? {
      CodesComeWithInserts(cfg, y, e.pid);
      AnsweringKeepsCodes(y, z, z.answers[|y.answers|]);
    } else {
      SameAnswersKeepCodes(y, z);
    }
  }

  lemma SameAnswersKeepCodes(y: World, z: World)
    requires CodesIssuedOnce(y) && z.store == y.store && z.answers == y.answers
    ensures CodesIssuedOnce(z)
  {
  }

  /** Among all replies ever given, at most one for each key carries a plaintext code. */
  lemma {:induction false} LinkCodesAreIssuedOnce(cfg: Config, events: seq<Event>, ys: seq<World>, k: nat)
    requires IsRun(cfg, events, ys) && k <= |events|
    ensures CodesIssuedOnce(ys[k])
  {
    hide Inv, Next, Possible;
    if k > 0 {
      LinkCodesAreIssuedOnce(cfg, events, ys, k - 1);
      RunKeepsInv(cfg, events, ys, k - 1);
      NextKeepsCodes(cfg, ys[k - 1], events[k - 1]);
    }
  }

  /** The recovered execution reference exists exactly for executed proposals. */
  ghost predicate ReferencesOk(cfg: Config, s: Tables) {
    forall id :: id in s.byId ==>
      ExecutionReferenceOf(s.byId[id])
        == if s.byId[id].state == Executed then Some(SimulatedReference(cfg.crypto, id)) else None
  }

  lemma SimulatedReferenceIsWord(c: Crypto, id: string)
    ensures IsWord(SimulatedReference(c, id))
  {
    var h := c.sha256(id);
    forall k | 0 <= k < 12
      ensures !JsSpace(h[k])
    {
      assert DigitOf(h[k]) < 16;
    }
  }

  lemma NoExecutionNoReference(p: Proposal)
    requires GoodHistory(p) && p.state != Executed
    ensures LastExecution(p.history) == None
  {
    NoExecutionBefore(p, |p.history|);
    assert p.history[..|p.history|] == p.history;
  }

  lemma {:induction false} NoExecutionBefore(p: Proposal, n: nat)
    requires GoodHistory(p) && p.state != Executed && n <= |p.history|
    ensures LastExecution(p.history[..n]) == None
  {
    if n > 0 {
      assert p.history[n - 1].to != Executed by {
        if p.history[n - 1].to == Executed {
          ExecutedOnceAfterHuman(p, n - 1);
        }
      }
      assert p.history[..n][..n - 1] == p.history[..n - 1];
      NoExecutionBefore(p, n - 1);
    }
  }

  /** A decision moves a proposal to executed only by MarkExecuted with the simulated reference. */
  lemma OnlyExecuteExecutes(cfg: Config, op: Op, p: Proposal, inp: Inputs)
    requires Decide(cfg, op, Some(p), inp).Swap? && !op.Propose?
    requires Decide(cfg, op, Some(p), inp).next.state == Executed
    ensures MarkExecuted(p, SimulatedReference(cfg.crypto, p.id), inp.wall) == Ok(Decide(cfg, op, Some(p), inp).next)
  {
    hide HashLinkCode, SafeEqualHex, SimulatedReference;
  }

  lemma ReferenceAfterSwap(cfg: Config, op: Op, p: Proposal, inp: Inputs)
    requires !op.Propose? && Decide(cfg, op, Some(p), inp).Swap?
    requires LegalNext(cfg, p, Decide(cfg, op, Some(p), inp).next)
    ensures var next := Decide(cfg, op, Some(p), inp).next;
      ExecutionReferenceOf(next)
        == if next.state == Executed then Some(SimulatedReference(cfg.crypto, p.id)) else None
  {
    hide Decide, SimulatedReference, MarkExecuted, IsWord, GoodHistory, CapturedReference;
    var next := Decide(cfg, op, Some(p), inp).next;
    if next.state == Executed {
      OnlyExecuteExecutes(cfg, op, p, inp);
      SimulatedReferenceIsWord(cfg.crypto, p.id);
      ReferenceIsRecoveredExactly(p, SimulatedReference(cfg.crypto, p.id), inp.wall);
    } else {
      NoExecutionNoReference(next);
    }
  }

  lemma FinishKeepsReferences(cfg: Config, y: World, pid: Pid)
    requires Inv(cfg, y) && ReferencesOk(cfg, y.store) && Possible(y, Finish(pid))
    requires Next(cfg, y, Finish(pid)).store != y.store
    ensures ReferencesOk(cfg, Next(cfg, y, Finish(pid)).store)
  {
    hide Decide, Write, SimulatedReference, GoodHistory, HashLinkCode, LegalNext, GoodStore, CapturedReference,
         ValidateMessageDraft;
    FinishWrites(cfg, y, pid);
    var f := y.flights[pid];
    var d := Decide(cfg, f.op, f.seen, f.inp);
    if d.Swap? {
      ReferenceAfterSwap(cfg, f.op, f.seen.value, f.inp);
      LegalNextKeepsId(cfg, f.seen.value, d.next);
    } else {
      NoExecutionNoReference(d.p);
    }
  }

  lemma LegalNextKeepsId(cfg: Config, p: Proposal, next: Proposal)
    requires LegalNext(cfg, p, next)
    ensures next.id == p.id
  {
  }

  /** At every moment of every interleaving the reference is recovered exactly for the executed proposals. */
  lemma {:induction false} ExecutionReferencesAreRecovered(cfg: Config, events: seq<Event>, ys: seq<World>, k: nat)
    requires IsRun(cfg, events, ys) && k <= |events|
    ensures ReferencesOk(cfg, ys[k].store)
  {
    hide Inv, Decide, Write, ReadFor, ReferencesOk;
    if k == 0 {
      EmptyStoreReferences(cfg);
    } else {
      ExecutionReferencesAreRecovered(cfg, events, ys, k - 1);
      RunKeepsInv(cfg, events, ys, k - 1);
      var y, e, z := ys[k - 1], events[k - 1], ys[k];
      if e.Finish? && z.store != y.store {
        FinishKeepsReferences(cfg, y, e.pid);
      }
    }
  }

  lemma EmptyStoreReferences(cfg: Config)
    ensures ReferencesOk(cfg, EMPTY)
  {
  }
}
