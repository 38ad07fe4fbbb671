/** Every reply of every interleaving, explained by the atomic machine. */
module Linearization {
  import opened Basics
  import opened Validation
  import opened Proposals
  import opened Store
  import opened Registry
  import opened Interleaving

  /** The operation would swap the proposal it read in store s0, and the proposal is another by store s. */
  predicate MeetsVersionConflict(cfg: Config, s0: Tables, s: Tables, op: Op, inp: Inputs) {
    var d := Decide(cfg, op, ReadFor(s0, op), inp);
    d.Swap? && d.refusal.None? && ReadFor(s0, op) != ReadFor(s, op)
  }

  /** The operation would insert, and by store s its key or the id it drew is taken. */
  predicate MeetsIdempotencyConflict(cfg: Config, s0: Tables, s: Tables, op: Op, inp: Inputs) {
    && Decide(cfg, op, ReadFor(s0, op), inp).InsertNew?
    && (ReadFor(s0, op) != ReadFor(s, op) || inp.newId in s.byId)
  }

  /** What an operation is told that reads store s0 and writes to store s. */
  function ReplyBetween(cfg: Config, s0: Tables, s: Tables, op: Op, inp: Inputs): Reply {
    if MeetsVersionConflict(cfg, s0, s, op, inp) then Reply(Err(VERSION_CONFLICT), "", false)
    else if MeetsIdempotencyConflict(cfg, s0, s, op, inp) then Reply(Err(IDEMPOTENCY_CONFLICT), "", false)
    else Atomic(cfg, s0, op, inp).1
  }

  /**
   * The reply of an operation that read s0 and writes to a later s, whether or not it takes effect: that of the atomic
   * machine at the read, unless the proposal to swap has changed since, or the key or id to insert is taken.
   */
  lemma ReplyIsExplained(cfg: Config, s0: Tables, s: Tables, op: Op, inp: Inputs)
    requires GoodStore(cfg, s0) && GoodStore(cfg, s) && Grows(s0, s)
    ensures Write(s, Decide(cfg, op, ReadFor(s0, op), inp)).1 == ReplyBetween(cfg, s0, s, op, inp)
  {
    hide Genuine, Decide, HashLinkCode;
    var d := Decide(cfg, op, ReadFor(s0, op), inp);
    SnapshotIsCurrent(cfg, s0, op);
    SnapshotIsCurrent(cfg, s, op);
    DecisionIsLegal(cfg, op, ReadFor(s0, op), inp);
    match d
    case Answer(_) =>
    case Swap(next, expected, _) =>
      SwapMeetsChange(cfg, s, ReadFor(s0, op).value, next);
    case InsertNew(p, _) =>
      KeyIsFound(s0, p.idempotencyKey);
      KeyIsFound(s, p.idempotencyKey);
  }

  /** A swap fails on the version exactly when what is stored is no longer the snapshot. */
  lemma SwapMeetsChange(cfg: Config, s: Tables, p: Proposal, next: Proposal)
    requires GoodStore(cfg, s) && Stale(cfg, s, Some(p)) && LegalNext(cfg, p, next)
    ensures p.id in s.byId && next.id == p.id
    ensures SwapIn(s, next, p.version).1 == if s.byId[p.id] == p then Ok(next) else Err(VERSION_CONFLICT)
  {
    assert Genuine(cfg, s.byId[p.id]);
    if s.byId[p.id].version == p.version {
      EqualVersionsAreEqual(p, s.byId[p.id]);
    }
  }

  lemma KeyIsFound(s: Tables, key: string)
    requires Inverse(s) && Findable(s)
    ensures key in s.byKey ==> FindByKey(s, key).Some?
  {
    if key in s.byKey {
      assert FindByKey(s, s.byId[s.byKey[key]].idempotencyKey).Some?;
    }
  }

  lemma DecisionsReportNoConflict(cfg: Config, op: Op, seen: Option<Proposal>, inp: Inputs)
    ensures var d := Decide(cfg, op, seen, inp);
      && (d.Answer? ==> d.reply.result !in {Err(VERSION_CONFLICT), Err(IDEMPOTENCY_CONFLICT)})
      && (d.Swap? ==> d.refusal !in {Some(VERSION_CONFLICT), Some(IDEMPOTENCY_CONFLICT)})
  {
    hide HashLinkCode, SafeEqualHex, SimulatedReference, ValidateMessageDraft, CreateProposal, Applied;
    if op.Propose? {
      ValidationFailsOnly(op.payload);
    }
  }

  lemma ValidationFailsOnly(p: Payload)
    ensures ValidateMessageDraft(p).Err? ==> ValidateMessageDraft(p).error == VALIDATION_FAILED
  {
    hide SanitizeBody, PassesLint, Utf16Length, IsOrderId, IsMerchantId, IsSlug;
  }

  /** Run alone no operation is ever told of a version conflict: whoever receives one was not alone. */
  lemma AtomicMeetsNoVersionConflict(cfg: Config, s: Tables, op: Op, inp: Inputs)
    requires GoodStore(cfg, s)
    ensures Atomic(cfg, s, op, inp).1.result != Err(VERSION_CONFLICT)
  {
    hide Genuine, Decide, HashLinkCode;
    SnapshotIsCurrent(cfg, s, op);
    DecisionIsLegal(cfg, op, ReadFor(s, op), inp);
    DecisionsReportNoConflict(cfg, op, ReadFor(s, op), inp);
  }

  lemma AtomicInsertConflicts(cfg: Config, s: Tables, op: Op, inp: Inputs)
    requires GoodStore(cfg, s) && Atomic(cfg, s, op, inp).1.result == Err(IDEMPOTENCY_CONFLICT)
    ensures Decide(cfg, op, ReadFor(s, op), inp).InsertNew? && inp.newId in s.byId
  {
    hide Genuine, Decide, HashLinkCode;
    SnapshotIsCurrent(cfg, s, op);
    DecisionIsLegal(cfg, op, ReadFor(s, op), inp);
    DecisionsReportNoConflict(cfg, op, ReadFor(s, op), inp);
    if op.Propose? {
      KeyIsFound(s, op.key);
    }
  }

  /** An operation is told of a conflict exactly when somebody else got in between, or its fresh id is taken. */
  lemma ConflictsExactly(cfg: Config, s0: Tables, s: Tables, op: Op, inp: Inputs)
    requires GoodStore(cfg, s0) && Grows(s0, s)
    ensures var told := ReplyBetween(cfg, s0, s, op, inp).result;
      && (told == Err(VERSION_CONFLICT) <==> MeetsVersionConflict(cfg, s0, s, op, inp))
      && (told == Err(IDEMPOTENCY_CONFLICT) <==> MeetsIdempotencyConflict(cfg, s0, s, op, inp))
  {
    hide GoodStore, Atomic, Decide, ReadFor;
    AtomicMeetsNoVersionConflict(cfg, s0, op, inp);
    if Atomic(cfg, s0, op, inp).1.result == Err(IDEMPOTENCY_CONFLICT) {
      AtomicInsertConflicts(cfg, s0, op, inp);
    }
  }

  // ---------------------------------------------------------------------- runs

  /** The store after the first n writes of a list. */
  ghost function StoreAt(cfg: Config, effects: seq<Done>, n: nat): Tables
    requires n <= |effects|
  {
    AtomicRun(cfg, effects[..n])
  }

  /** A reply that took effect is on the list at its place, and every reply is that between its read and its write. */
  ghost predicate AnswerOk(cfg: Config, effects: seq<Done>, a: Answered) {
    && a.began <= a.ended <= |effects|
    && (a.tookEffect ==> a.ended < |effects| && effects[a.ended] == a.done)
    && var (s0, s) := (StoreAt(cfg, effects, a.began), StoreAt(cfg, effects, a.ended));
    && GoodStore(cfg, s0) && Grows(s0, s)
    && a.done.reply == ReplyBetween(cfg, s0, s, a.done.op, a.done.inp)
  }

  /** The stores passed through are good, and grow into the present one. */
  ghost predicate GoodPast(cfg: Config, y: World, n: nat)
    requires n <= |y.effects|
  {
    GoodStore(cfg, StoreAt(cfg, y.effects, n)) && Grows(StoreAt(cfg, y.effects, n), y.store)
  }

  ghost predicate ReadThen(cfg: Config, effects: seq<Done>, f: Flight) {
    f.began <= |effects| && f.seen == ReadFor(StoreAt(cfg, effects, f.began), f.op)
  }

  ghost predicate Traced(cfg: Config, y: World) {
    && y.store == AtomicRun(cfg, y.effects)
    && RepliesAreAtomic(cfg, y.effects)
    && (forall n: nat :: n <= |y.effects| ==> GoodPast(cfg, y, n))
    && (forall pid :: pid in y.flights ==> ReadThen(cfg, y.effects, y.flights[pid]))
    && (forall k :: 0 <= k < |y.answers| ==> AnswerOk(cfg, y.effects, y.answers[k]))
  }

  lemma StoreAtEnd(cfg: Config, effects: seq<Done>)
    ensures StoreAt(cfg, effects, |effects|) == AtomicRun(cfg, effects)
  {
    assert effects[..|effects|] == effects;
  }

  lemma StoreAtStays(cfg: Config, effects: seq<Done>, more: seq<Done>, n: nat)
    requires n <= |effects| && effects <= more
    ensures StoreAt(cfg, more, n) == StoreAt(cfg, effects, n)
  {
    assert more[..n] == effects[..n];
  }

  lemma AnswerStays(cfg: Config, effects: seq<Done>, more: seq<Done>, a: Answered)
    requires AnswerOk(cfg, effects, a) && effects <= more
    ensures AnswerOk(cfg, more, a)
  {
    hide ReplyBetween, StoreAt, GoodStore, Grows;
    StoreAtStays(cfg, effects, more, a.began);
    StoreAtStays(cfg, effects, more, a.ended);
  }

  lemma GrowsTwice(s: Tables, t: Tables, u: Tables)
    requires Grows(s, t) && Grows(t, u)
    ensures Grows(s, u)
  {
    forall id | id in s.byId
      ensures id in u.byId && Extends(s.byId[id], u.byId[id])
    {
      assert Extends(s.byId[id], t.byId[id]) && Extends(t.byId[id], u.byId[id]);
    }
  }

  lemma GrowsItself(s: Tables)
    ensures Grows(s, s)
  {
  }

  /** Taking one more write, or none, keeps what is known of the past. */
  lemma PastStaysGood(cfg: Config, y: World, z: World)
    requires Traced(cfg, y) && GoodStore(cfg, z.store) && Grows(y.store, z.store)
    requires y.effects <= z.effects && |z.effects| <= |y.effects| + 1 && z.store == AtomicRun(cfg, z.effects)
    ensures forall n: nat :: n <= |z.effects| ==> GoodPast(cfg, z, n)
    ensures forall k :: 0 <= k < |y.answers| ==> AnswerOk(cfg, z.effects, y.answers[k])
    ensures forall pid :: pid in y.flights ==> ReadThen(cfg, z.effects, y.flights[pid])
  {
    hide GoodStore, Grows, AtomicRun, StoreAt, ReplyBetween, ReadFor, RepliesAreAtomic;
    forall n: nat | n <= |z.effects|
      ensures GoodPast(cfg, z, n)
    {
      if n <= |y.effects| {
        assert GoodPast(cfg, y, n);
        StoreAtStays(cfg, y.effects, z.effects, n);
        GrowsTwice(StoreAt(cfg, y.effects, n), y.store, z.store);
      } else {
        StoreAtEnd(cfg, z.effects);
        GrowsItself(z.store);
      }
    }
    forall k | 0 <= k < |y.answers|
      ensures AnswerOk(cfg, z.effects, y.answers[k])
    {
      AnswerStays(cfg, y.effects, z.effects, y.answers[k]);
    }
    forall pid | pid in y.flights
      ensures ReadThen(cfg, z.effects, y.flights[pid])
    {
      assert ReadThen(cfg, y.effects, y.flights[pid]);
      StoreAtStays(cfg, y.effects, z.effects, y.flights[pid].began);
    }
  }

  lemma OneMoreEffect(cfg: Config, y: World, pid: Pid)
    requires Inv(cfg, y) && Traced(cfg, y) && Possible(y, Finish(pid)) && Next(cfg, y, Finish(pid)).store != y.store
    ensures var z := Next(cfg, y, Finish(pid));
      z.store == AtomicRun(cfg, z.effects) && RepliesAreAtomic(cfg, z.effects)
  {
    hide Inv, Atomic, Decide, Write, ReadFor, GoodPast, ReadThen, AnswerOk;
    var z := Next(cfg, y, Finish(pid));
    EffectIsAtomic(cfg, y, pid);
    assert z.effects[..|y.effects|] == y.effects;
    forall i | 0 <= i < |z.effects|
      ensures z.effects[i].reply == Atomic(cfg, AtomicRun(cfg, z.effects[..i]), z.effects[i].op, z.effects[i].inp).1
    {
      assert i < |y.effects| ==> z.effects[..i] == y.effects[..i];
    }
  }

  lemma FinishKeepsTrace(cfg: Config, y: World, pid: Pid)
    requires Inv(cfg, y) && Traced(cfg, y) && Possible(y, Finish(pid))
    ensures Traced(cfg, Next(cfg, y, Finish(pid)))
  {
    hide GoodStore, Grows, Decide, Write, ReadFor, AtomicRun, RepliesAreAtomic, GoodPast, ReplyBetween, StoreAt;
    var z, f := Next(cfg, y, Finish(pid)), y.flights[pid];
    NextKeepsInv(cfg, y, Finish(pid));
    if z.store != y.store {
      OneMoreEffect(cfg, y, pid);
    }
    PastStaysGood(cfg, y, z);
    assert ReadThen(cfg, y.effects, f) && GoodPast(cfg, y, f.began);
    PastIsGood(cfg, y, f.began);
    StoreAtEnd(cfg, y.effects);
    ReplyIsExplained(cfg, StoreAt(cfg, y.effects, f.began), y.store, f.op, f.inp);
    StoreAtStays(cfg, y.effects, z.effects, f.began);
    StoreAtStays(cfg, y.effects, z.effects, |y.effects|);
    assert AnswerOk(cfg, z.effects, z.answers[|y.answers|]);
  }

  lemma PastIsGood(cfg: Config, y: World, n: nat)
    requires n <= |y.effects| && GoodPast(cfg, y, n)
    ensures GoodStore(cfg, StoreAt(cfg, y.effects, n)) && Grows(StoreAt(cfg, y.effects, n), y.store)
  {
  }

  lemma OthersKeepTrace(cfg: Config, y: World, e: Event)
    requires Inv(cfg, y) && Traced(cfg, y) && Possible(y, e) && !e.Finish?
    ensures Traced(cfg, Next(cfg, y, e))
  {
    hide GoodStore, Grows, Decide, Write, ReadFor, AtomicRun, RepliesAreAtomic, GoodPast, AnswerOk, StoreAt;
    var z := Next(cfg, y, e);
    StoreAtEnd(cfg, y.effects);
    GrowsItself(y.store);
    PastStaysGood(cfg, y, z);
    forall pid | pid in z.flights
      ensures ReadThen(cfg, z.effects, z.flights[pid])
    {
      assert pid in y.flights ==> ReadThen(cfg, y.effects, y.flights[pid]);
    }
  }

  lemma NothingTraced(cfg: Config)
    ensures Traced(cfg, START)
  {
  }

  /**
   * Every interleaving is explained by the atomic machine. The store at every moment is that of the writes so far run
   * one at a time in their order, and each of those writes gave the atomic reply. And every reply, of a write or not,
   * is the one the atomic machine gives at the moment of the operation's read, unless the proposal it would swap has
   * changed by its write, or the key or the id it would insert is taken: then, and only then, it reports a conflict.
   */
  lemma InterleavingRefinesAtomic(cfg: Config, events: seq<Event>, ys: seq<World>, k: nat)
    requires IsRun(cfg, events, ys) && k <= |events|
    ensures ys[k].store == AtomicRun(cfg, ys[k].effects)
    ensures RepliesAreAtomic(cfg, ys[k].effects)
    ensures forall i :: 0 <= i < |ys[k].answers| ==>
      && AnswerOk(cfg, ys[k].effects, ys[k].answers[i])
      && ReportsConflictsExactly(cfg, ys[k].effects, ys[k].answers[i])
  {
    RunIsTraced(cfg, events, ys, k);
    hide IsRun, AnswerOk, ReportsConflictsExactly, RepliesAreAtomic, AtomicRun;
    forall i | 0 <= i < |ys[k].answers|
      ensures ReportsConflictsExactly(cfg, ys[k].effects, ys[k].answers[i])
    {
      AnswersReportConflictsExactly(cfg, ys[k].effects, ys[k].answers[i]);
    }
  }

  /** The reply is a conflict if and only if somebody else got in between, in the one way or the other. */
  ghost predicate ReportsConflictsExactly(cfg: Config, effects: seq<Done>, a: Answered) {
    && a.began <= |effects| && a.ended <= |effects|
    && var (s0, s) := (StoreAt(cfg, effects, a.began), StoreAt(cfg, effects, a.ended));
    && var (op, inp, told) := (a.done.op, a.done.inp, a.done.reply.result);
    && (told == Err(VERSION_CONFLICT) <==> MeetsVersionConflict(cfg, s0, s, op, inp))
    && (told == Err(IDEMPOTENCY_CONFLICT) <==> MeetsIdempotencyConflict(cfg, s0, s, op, inp))
  }

  lemma AnswersReportConflictsExactly(cfg: Config, effects: seq<Done>, a: Answered)
    requires AnswerOk(cfg, effects, a)
    ensures ReportsConflictsExactly(cfg, effects, a)
  {
    hide GoodStore, Grows, StoreAt, ReplyBetween, MeetsVersionConflict, MeetsIdempotencyConflict;
    ConflictsExactly(cfg, StoreAt(cfg, effects, a.began), StoreAt(cfg, effects, a.ended), a.done.op, a.done.inp);
  }

  lemma {:induction false} RunIsTraced(cfg: Config, events: seq<Event>, ys: seq<World>, k: nat)
    requires IsRun(cfg, events, ys) && k <= |events|
    ensures Traced(cfg, ys[k])
  {
    hide Traced, Inv, Next;
    if k == 0 {
      NothingTraced(cfg);
    } else {
      RunIsTraced(cfg, events, ys, k - 1);
      RunKeepsInv(cfg, events, ys, k - 1);
      if events[k - 1].Finish? {
        FinishKeepsTrace(cfg, ys[k - 1], events[k - 1].pid);
      } else {
        OthersKeepTrace(cfg, ys[k - 1], events[k - 1]);
      }
    }
  }
}
