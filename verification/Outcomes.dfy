/** What one ingest or one confirmation update leaves in every table and tells the outside, case by case. */
module Outcomes {
  import opened Basics
  import opened Ledger
  import opened Invariant
  import opened Preservation
  import opened Matching

  /** The row of the event, under the key its addresses normalise to. */
  ghost predicate Recorded(t: Tables, u: Tables, ev: ChainEvent, processed: bool) {
    var key := Key(NormalizeAddress(ev.network, ev.to), ev.network, NormalizeAddress(ev.network, ev.token), ev.amount);
    u.events == t.events[ev.id := EventRow(key, ev.confirmations, processed)]
  }

  /** One match row, one status and one emission, all of the same option, and a report that says so. */
  ghost predicate Resolved(
    t: Tables, ev: ChainEvent, out: (Tables, MatchResult, seq<Emission>), o: OptionId, kind: MatchKind, to: Status,
    told: string)
    requires Joined(t, o)
  {
    var i := t.options[o].intent;
    && out.0.intents == t.intents[i := t.intents[i].(status := to)]
    && out.0.matches == t.matches[ev.id := Match(i, o, kind)]
    && out.1 == MatchResult(Some(o), Some(kind), Some(to), false, false)
    && out.2 == [Emission(t.intents[i].merchant, i, told)]
  }

  /** Nothing is locked, settled, offered or counted. */
  ghost predicate NothingHeldMoves(t: Tables, u: Tables) {
    && u.reservations == t.reservations && u.options == t.options && u.orders == t.orders && u.usage == t.usage
    && u.gaps == t.gaps && u.nextOption == t.nextOption
  }

  ghost predicate OnlyLocks(t: Tables, u: Tables, o: OptionId)
    requires Joined(t, o)
  {
    && u.reservations == t.reservations[o := t.reservations[o].(status := Matched)]
    && u.options == t.options && u.orders == t.orders && u.usage == t.usage
    && u.gaps == t.gaps && u.nextOption == t.nextOption
  }

  /** The reservation is consumed, the option settled, the order paid and one payment counted. */
  ghost predicate Settles(t: Tables, u: Tables, o: OptionId, period: string)
    requires Joined(t, o)
  {
    var i := t.options[o].intent;
    var counter := (t.intents[i].merchant, period);
    && u.reservations == t.reservations[o := t.reservations[o].(status := Consumed)]
    && u.options == t.options[o := t.options[o].(status := Settled)]
    && u.orders == (if i in t.orders then t.orders[i := t.orders[i].(status := Paid)] else t.orders)
    && u.usage == t.usage[counter := (if counter in t.usage then t.usage[counter] else 0) + 1]
    && u.gaps == t.gaps && u.nextOption == t.nextOption
  }

  lemma StatusIsSet(
    t: Tables, ev: ChainEvent, out: (Tables, MatchResult, seq<Emission>), o: OptionId, kind: MatchKind, to: Status)
    requires Joined(t, o) && exists told :: Resolved(t, ev, out, o, kind, to, told)
    ensures t.options[o].intent in out.0.intents && out.0.intents[t.options[o].intent].status == to
  {
  }

  // ---------------------------------------------------------------- a held amount

  lemma HolderIsFirst(cfg: Config, t: Tables, ev: ChainEvent, at: Time, first: OptionId, o: OptionId)
    requires Inv(t) && IsFirstRow(cfg, t, KeyOf(ev), at, first)
    requires Joined(t, o) && t.reservations[o].status in {Active, Matched} && t.reservations[o].key == KeyOf(ev)
    ensures o == first && Classify(cfg, t, ev, at, first) == ClassifyHeld(cfg, t, ev, at, o)
  {
    hide Rows, Backed, Gated, ExactUnique, KeyOf, ClassifyHeld, NormalizeAddress;
    assert o in Holders(t, KeyOf(ev)) && first in Holders(t, KeyOf(ev));
  }

  lemma ExactEffect(t: Tables, ev: ChainEvent, o: OptionId, next: Status, period: string)
    requires Joined(t, o) && t.reservations[o].status == Active && ev.id !in t.matches
    ensures var u := Effect(AddEvent(t, ev), ev.id, Exact(o, next), period);
      var i := t.options[o].intent;
      && Recorded(t, u, ev, true)
      && u.intents == t.intents[i := t.intents[i].(status := next)]
      && u.matches == t.matches[ev.id := Match(i, o, ExactMatch)]
      && (if next == Paid then Settles(t, u, o, period) else OnlyLocks(t, u, o))
  {
    hide NormalizeAddress;
  }

  lemma ExactReport(t: Tables, ev: ChainEvent, o: OptionId, next: Status, period: string)
    requires Joined(t, o) && t.reservations[o].status == Active && ev.id !in t.matches
    ensures var v := Exact(o, next);
      var out := (Effect(AddEvent(t, ev), ev.id, v, period), ResultOf(t, v), Emitted(t, v));
      && Resolved(t, ev, out, o, ExactMatch, next,
                  if next == Paid then "payment.paid" else if next == Confirming then "payment.confirming"
                  else "payment.seen")
      && Recorded(t, out.0, ev, true)
      && (if next == Paid then Settles(t, out.0, o, period) else OnlyLocks(t, out.0, o))
  {
    ExactEffect(t, ev, o, next, period);
    hide Effect, AddEvent, Recorded, Settles, OnlyLocks;
  }

  /**
   * An exact transfer, whatever the configuration: paid if and only if it has the confirmations its network needs,
   * confirming if and only if it has some and not enough, seen if and only if it has none.
   */
  lemma ExactOutcome(
    cfg: Config, t: Tables, ev: ChainEvent, now: Time, first: OptionId, period: string, o: OptionId)
    requires Inv(t) && IsFirstRow(cfg, t, KeyOf(ev), EventTime(ev, now), first) && ev.id !in t.events
    requires Payable(t, ev, EventTime(ev, now), o)
    ensures var out := Ingest(cfg, t, ev, now, first, period);
      var (i, needed) := (t.options[o].intent, RequiredConfirmations(cfg, ev.network));
      && i in out.0.intents
      && var to := out.0.intents[i].status;
      && (to == Paid <==> ev.confirmations >= needed)
      && (to == Confirming <==> 0 < ev.confirmations < needed)
      && (to == Seen <==> ev.confirmations <= 0)
      && Resolved(t, ev, out, o, ExactMatch, to,
                  if to == Paid then "payment.paid" else if to == Confirming then "payment.confirming"
                  else "payment.seen")
      && Recorded(t, out.0, ev, true)
      && (if to == Paid then Settles(t, out.0, o, period) else OnlyLocks(t, out.0, o))
  {
    var at := EventTime(ev, now);
    HolderIsFirst(cfg, t, ev, at, first, o);
    AddEventKeepsInv(t, ev);
    hide Inv, IsFirstRow, EventTime, KeyOf, Classify, Recorded, Settles, OnlyLocks, Resolved;
    ExactReport(t, ev, o, ExactNext(cfg, ev), period);
    assert Resolved(t, ev, Ingest(cfg, t, ev, now, first, period), o, ExactMatch, ExactNext(cfg, ev),
                    if ExactNext(cfg, ev) == Paid then "payment.paid"
                    else if ExactNext(cfg, ev) == Confirming then "payment.confirming" else "payment.seen");
    StatusIsSet(t, ev, Ingest(cfg, t, ev, now, first, period), o, ExactMatch, ExactNext(cfg, ev));
    hide Effect, AddEvent, RequiredConfirmations, ResultOf, Emitted;
  }

  /** Held, and its intent is paid or in flight, or the amount is locked already: a second transfer. */
  predicate IsSecond(t: Tables, o: OptionId)
    requires Joined(t, o)
  {
    t.reservations[o].status == Matched || IntentOf(t, o).status in {Paid, Seen, Confirming}
  }

  lemma TransitionEffect(t: Tables, ev: ChainEvent, o: OptionId, to: Status, kind: MatchKind)
    requires Joined(t, o) && ev.id !in t.matches
    ensures var u := Transition(AddEvent(t, ev), ev.id, o, to, kind);
      var i := t.options[o].intent;
      && Recorded(t, u, ev, false) && Recorded(t, MarkProcessed(u, ev.id), ev, true)
      && u.intents == t.intents[i := t.intents[i].(status := to)]
      && u.matches == t.matches[ev.id := Match(i, o, kind)]
      && NothingHeldMoves(t, u)
  {
    hide NormalizeAddress;
  }

  /** What the two verdicts of a held amount do, by their rows. */
  lemma SecondEffect(t: Tables, ev: ChainEvent, o: OptionId, period: string)
    requires Joined(t, o) && ev.id !in t.matches
    ensures var (v, to) := (SecondTransfer(o), SecondStatus(IntentOf(t, o).status));
      var out := (Effect(AddEvent(t, ev), ev.id, v, period), ResultOf(t, v), Emitted(t, v));
      && Resolved(t, ev, out, o, DuplicateMatch, to, "payment.needs_review")
      && Recorded(t, out.0, ev, false) && NothingHeldMoves(t, out.0)
  {
    hide Recorded, NothingHeldMoves;
    TransitionEffect(t, ev, o, SecondStatus(IntentOf(t, o).status), DuplicateMatch);
    AddingKeepsRows(t, ev, o);
    hide Transition, AddEvent;
  }

  lemma LateEffect(t: Tables, ev: ChainEvent, v: Verdict, period: string)
    requires (v.PastExpiry? || v.ReleasedLate?) && Joined(t, v.option) && ev.id !in t.matches
    ensures var out := (Effect(AddEvent(t, ev), ev.id, v, period), ResultOf(t, v), Emitted(t, v));
      && Resolved(t, ev, out, v.option, LateMatch, LatePayment, "payment.needs_review")
      && Recorded(t, out.0, ev, true) && NothingHeldMoves(t, out.0)
  {
    var o := v.option;
    hide Recorded, NothingHeldMoves;
    TransitionEffect(t, ev, o, LatePayment, LateMatch);
    AddingKeepsRows(t, ev, o);
    hide Transition, AddEvent;
    ProcessingMovesNothing(t, Transition(AddEvent(t, ev), ev.id, o, LatePayment, LateMatch), ev.id);
  }

  /**
   * A transfer of an amount that is held and not payable: the second to a payment in flight sends it to review, the
   * second to any other is a duplicate, and the first after the intent's deadline is late.
   */
  lemma HeldOutcome(
    cfg: Config, t: Tables, ev: ChainEvent, now: Time, first: OptionId, period: string, o: OptionId)
    requires Inv(t) && IsFirstRow(cfg, t, KeyOf(ev), EventTime(ev, now), first) && ev.id !in t.events
    requires Joined(t, o) && t.reservations[o].status in {Active, Matched} && t.reservations[o].key == KeyOf(ev)
    requires !Payable(t, ev, EventTime(ev, now), o)
    ensures var out := Ingest(cfg, t, ev, now, first, period);
      && NothingHeldMoves(t, out.0)
      && Recorded(t, out.0, ev, !IsSecond(t, o))
      && (IsSecond(t, o) && IntentOf(t, o).status in {Seen, Confirming} ==>
            Resolved(t, ev, out, o, DuplicateMatch, NeedsReview, "payment.needs_review"))
      && (IsSecond(t, o) && IntentOf(t, o).status !in {Seen, Confirming} ==>
            Resolved(t, ev, out, o, DuplicateMatch, DuplicatePayment, "payment.needs_review"))
      && (!IsSecond(t, o) ==>
            && EventTime(ev, now) > IntentOf(t, o).expiresAt
            && Resolved(t, ev, out, o, LateMatch, LatePayment, "payment.needs_review"))
  {
    HolderIsFirst(cfg, t, ev, EventTime(ev, now), first, o);
    AddEventKeepsInv(t, ev);
    hide Inv, IsFirstRow, EventTime, KeyOf, Classify, Recorded, NothingHeldMoves, Resolved;
    SecondEffect(t, ev, o, period);
    LateEffect(t, ev, PastExpiry(o), period);
    hide Effect, AddEvent, RequiredConfirmations, ResultOf, Emitted;
  }

  lemma AddingKeepsRows(t: Tables, ev: ChainEvent, o: OptionId)
    requires Joined(t, o)
    ensures Joined(AddEvent(t, ev), o) && IntentOf(AddEvent(t, ev), o) == IntentOf(t, o)
  {
  }

  lemma ProcessingMovesNothing(t: Tables, u: Tables, e: string)
    requires NothingHeldMoves(t, u) && e in u.events
    ensures NothingHeldMoves(t, MarkProcessed(u, e))
  {
  }

  // ------------------------------------------------------------- no held amount

  /** Exactly the event's key, released within the late window, of an intent that is not paid. */
  predicate IsLateCandidate(cfg: Config, t: Tables, ev: ChainEvent, at: Time, o: OptionId) {
    && Joined(t, o) && t.reservations[o].status == Released && t.reservations[o].key == KeyOf(ev)
    && IntentOf(t, o).status != Paid
    && 0 <= at - t.reservations[o].expiresAt <= LateMs(cfg)
  }

  /** The lane of the event, at most 1000 units off, for an intent that could still be paid by it. */
  predicate IsNearCandidate(t: Tables, ev: ChainEvent, o: OptionId) {
    && Joined(t, o) && t.reservations[o].status == Active && SameLane(t.reservations[o].key, KeyOf(ev))
    && IntentOf(t, o).status in {Created, Awaiting, Seen, Confirming}
    && -1000 <= t.reservations[o].key.amount - ev.amount <= 1000
    && MIN_INT64 + 1000 <= ev.amount <= MAX_INT64 - 1000
  }

  predicate IsHeldFor(t: Tables, ev: ChainEvent, o: OptionId) {
    Joined(t, o) && t.reservations[o].status in {Active, Matched} && t.reservations[o].key == KeyOf(ev)
  }

  lemma CandidatesExactly(cfg: Config, t: Tables, ev: ChainEvent, at: Time, o: OptionId)
    ensures o in Holders(t, KeyOf(ev)) <==> IsHeldFor(t, ev, o)
    ensures o in Releases(cfg, t, KeyOf(ev), at) <==> IsLateCandidate(cfg, t, ev, at, o)
    ensures o in Nears(t, KeyOf(ev)) <==> IsNearCandidate(t, ev, o)
  {
    if Joined(t, o) {
      NearExactly(t.reservations[o].key, KeyOf(ev));
    }
    hide IsNear, Wrap64, NormalizeAddress, LateMs;
  }

  lemma OneIsAll(s: set<OptionId>, o: OptionId)
    requires o in s && forall p :: p in s ==> p == o
    ensures |s| == 1
  {
    assert s == {o};
  }

  lemma TwoAreMany(s: set<OptionId>, o: OptionId, p: OptionId)
    requires o in s && p in s && o != p
    ensures |s| > 1
  {
    assert |s - {o}| > 0 by {
      assert p in s - {o};
    }
  }

  predicate NothingHeldFor(t: Tables, ev: ChainEvent) {
    forall o :: o in t.reservations ==> !IsHeldFor(t, ev, o)
  }

  predicate NothingLateFor(cfg: Config, t: Tables, ev: ChainEvent, at: Time) {
    forall o :: o in t.reservations ==> !IsLateCandidate(cfg, t, ev, at, o)
  }

  lemma NothingIsHeld(cfg: Config, t: Tables, ev: ChainEvent, at: Time)
    requires NothingHeldFor(t, ev)
    ensures Holders(t, KeyOf(ev)) == {}
  {
    forall o | o in Holders(t, KeyOf(ev))
      ensures false
    {
      CandidatesExactly(cfg, t, ev, at, o);
    }
  }

  lemma NothingIsLate(cfg: Config, t: Tables, ev: ChainEvent, at: Time)
    requires NothingLateFor(cfg, t, ev, at)
    ensures Releases(cfg, t, KeyOf(ev), at) == {}
  {
    forall o | o in Releases(cfg, t, KeyOf(ev), at)
      ensures false
    {
      CandidatesExactly(cfg, t, ev, at, o);
    }
  }

  /** One released candidate within its late window is a late payment. */
  lemma LateOutcome(
    cfg: Config, t: Tables, ev: ChainEvent, now: Time, first: OptionId, period: string, o: OptionId)
    requires Inv(t) && IsFirstRow(cfg, t, KeyOf(ev), EventTime(ev, now), first) && ev.id !in t.events
    requires NothingHeldFor(t, ev) && IsLateCandidate(cfg, t, ev, EventTime(ev, now), o)
    requires forall p :: IsLateCandidate(cfg, t, ev, EventTime(ev, now), p) ==> p == o
    ensures var out := Ingest(cfg, t, ev, now, first, period);
      && Resolved(t, ev, out, o, LateMatch, LatePayment, "payment.needs_review")
      && Recorded(t, out.0, ev, true) && NothingHeldMoves(t, out.0)
  {
    var at := EventTime(ev, now);
    NothingIsHeld(cfg, t, ev, at);
    forall p
      ensures p in Releases(cfg, t, KeyOf(ev), at) <==> IsLateCandidate(cfg, t, ev, at, p)
    {
      CandidatesExactly(cfg, t, ev, at, p);
    }
    AddEventKeepsInv(t, ev);
    OneIsAll(Releases(cfg, t, KeyOf(ev), at), o);
    hide Inv, EventTime, KeyOf, Recorded, NothingHeldMoves, Resolved, Holders, Releases, Nears, IsLateCandidate;
    assert first == o && Classify(cfg, t, ev, at, first) == ReleasedLate(o);
    LateEffect(t, ev, ReleasedLate(o), period);
    hide Effect, AddEvent, ResultOf, Emitted, Classify, IsFirstRow;
  }

  /**
   * Several are left alone: only the event's row is added, and the seller of the latest is told of an unmatched
   * transfer.
   */
  lemma AmbiguousLateOutcome(
    cfg: Config, t: Tables, ev: ChainEvent, now: Time, first: OptionId, period: string, o: OptionId, p: OptionId)
    requires Inv(t) && IsFirstRow(cfg, t, KeyOf(ev), EventTime(ev, now), first) && ev.id !in t.events
    requires NothingHeldFor(t, ev) && o != p
    requires IsLateCandidate(cfg, t, ev, EventTime(ev, now), o) && IsLateCandidate(cfg, t, ev, EventTime(ev, now), p)
    ensures var out := Ingest(cfg, t, ev, now, first, period);
      && Recorded(t, out.0, ev, true) && out.0 == t.(events := out.0.events)
      && out.1 == MatchResult(None, Some(AmbiguousLate), None, false, true)
      && exists q :: IsLateCandidate(cfg, t, ev, EventTime(ev, now), q)
           && out.2 == [Emission(IntentOf(t, q).merchant, "", "payment.unmatched_ambiguous")]
           && t.reservations[o].expiresAt <= t.reservations[q].expiresAt
  {
    var at := EventTime(ev, now);
    NothingIsHeld(cfg, t, ev, at);
    CandidatesExactly(cfg, t, ev, at, o);
    CandidatesExactly(cfg, t, ev, at, p);
    CandidatesExactly(cfg, t, ev, at, first);
    TwoAreMany(Releases(cfg, t, KeyOf(ev), at), o, p);
    hide Inv, EventTime, NormalizeAddress, Holders, Releases, Nears, IsLateCandidate;
  }

  /** Neither held nor late, and nothing near: ignored. */
  lemma UnknownOutcome(cfg: Config, t: Tables, ev: ChainEvent, now: Time, first: OptionId, period: string)
    requires IsFirstRow(cfg, t, KeyOf(ev), EventTime(ev, now), first) && ev.id !in t.events
    requires NothingHeldFor(t, ev) && NothingLateFor(cfg, t, ev, EventTime(ev, now))
    requires forall o :: o in t.reservations ==> !IsNearCandidate(t, ev, o)
    ensures var out := Ingest(cfg, t, ev, now, first, period);
      && Recorded(t, out.0, ev, true) && out.0 == t.(events := out.0.events)
      && out.1 == MatchResult(None, None, None, false, true) && out.2 == []
  {
    var at := EventTime(ev, now);
    NothingIsHeld(cfg, t, ev, at);
    NothingIsLate(cfg, t, ev, at);
    forall o
      ensures o !in Nears(t, KeyOf(ev))
    {
      CandidatesExactly(cfg, t, ev, at, o);
    }
    assert Nears(t, KeyOf(ev)) == {};
    hide EventTime, NormalizeAddress, Holders, Releases, Nears;
  }

  lemma NearEffect(t: Tables, ev: ChainEvent, v: Verdict, period: string)
    requires (v.NearMiss? || v.NearAmbiguous?) && Joined(t, v.option) && ev.id !in t.matches
    ensures var out := (Effect(AddEvent(t, ev), ev.id, v, period), ResultOf(t, v), Emitted(t, v));
      && Resolved(t, ev, out, v.option, if v.NearMiss? then v.kind else AmbiguousMatch,
                  if v.NearMiss? then v.next else NeedsReview, "payment.needs_review")
      && Recorded(t, out.0, ev, false) && NothingHeldMoves(t, out.0)
  {
    hide Recorded, NothingHeldMoves;
    TransitionEffect(t, ev, v.option, NeedsReview, AmbiguousMatch);
    if v.NearMiss? {
      TransitionEffect(t, ev, v.option, v.next, v.kind);
    }
    AddingKeepsRows(t, ev, v.option);
    hide Transition, AddEvent;
  }

  /** One near candidate: less than it asks for is underpaid, more is overpaid. */
  lemma NearOutcome(
    cfg: Config, t: Tables, ev: ChainEvent, now: Time, first: OptionId, period: string, o: OptionId)
    requires Inv(t) && IsFirstRow(cfg, t, KeyOf(ev), EventTime(ev, now), first) && ev.id !in t.events
    requires NothingHeldFor(t, ev) && NothingLateFor(cfg, t, ev, EventTime(ev, now))
    requires IsNearCandidate(t, ev, o) && forall p :: IsNearCandidate(t, ev, p) ==> p == o
    ensures var out := Ingest(cfg, t, ev, now, first, period);
      && ev.amount != t.reservations[o].key.amount
      && (ev.amount < t.reservations[o].key.amount ==>
            Resolved(t, ev, out, o, UnderpaidMatch, Underpaid, "payment.needs_review"))
      && (ev.amount > t.reservations[o].key.amount ==>
            Resolved(t, ev, out, o, OverpaidMatch, Overpaid, "payment.needs_review"))
      && Recorded(t, out.0, ev, false) && NothingHeldMoves(t, out.0)
  {
    var at := EventTime(ev, now);
    NothingIsHeld(cfg, t, ev, at);
    NothingIsLate(cfg, t, ev, at);
    forall p
      ensures p in Nears(t, KeyOf(ev)) <==> IsNearCandidate(t, ev, p)
    {
      CandidatesExactly(cfg, t, ev, at, p);
    }
    OneIsAll(Nears(t, KeyOf(ev)), o);
    AddEventKeepsInv(t, ev);
    UnmatchedIsClassifiedExactly(cfg, t, ev, at, first);
    VerdictFits(cfg, t, ev, at, first);
    var v := Classify(cfg, t, ev, at, first);
    assert KeyOf(ev).amount == ev.amount;
    assert first == o by {
      hide KeyOf, Classify, Nears;
    }
    NearEffect(t, ev, v, period);
    hide Inv, EventTime, KeyOf, Recorded, NothingHeldMoves, Resolved, Holders, Releases, Nears, Classify, IsFirstRow,
         Effect, ResultOf, Emitted;
  }

  predicate IsNearest(t: Tables, ev: ChainEvent, o: OptionId)
    requires o in t.reservations
  {
    forall p :: p in t.reservations && IsNearCandidate(t, ev, p) ==>
      var (d, e) := (t.reservations[o].key.amount - ev.amount, t.reservations[p].key.amount - ev.amount);
      (if d < 0 then -d else d) <= (if e < 0 then -e else e)
  }

  lemma FirstIsNearest(cfg: Config, t: Tables, ev: ChainEvent, at: Time, first: OptionId)
    requires IsFirstRow(cfg, t, KeyOf(ev), at, first) && Holders(t, KeyOf(ev)) == {}
    requires Releases(cfg, t, KeyOf(ev), at) == {} && |Nears(t, KeyOf(ev))| > 1
    requires forall q :: q in Nears(t, KeyOf(ev)) <==> IsNearCandidate(t, ev, q)
    ensures IsNearCandidate(t, ev, first) && IsNearest(t, ev, first)
    ensures Classify(cfg, t, ev, at, first) == NearAmbiguous(first)
  {
    hide IsNearCandidate, Nears, Holders, Releases, NormalizeAddress;
  }

  /** Several near candidates: the nearest goes to review. */
  lemma AmbiguousNearOutcome(
    cfg: Config, t: Tables, ev: ChainEvent, now: Time, first: OptionId, period: string, o: OptionId, p: OptionId)
    requires Inv(t) && IsFirstRow(cfg, t, KeyOf(ev), EventTime(ev, now), first) && ev.id !in t.events
    requires NothingHeldFor(t, ev) && NothingLateFor(cfg, t, ev, EventTime(ev, now))
    requires IsNearCandidate(t, ev, o) && IsNearCandidate(t, ev, p) && o != p
    ensures var out := Ingest(cfg, t, ev, now, first, period);
      && IsNearCandidate(t, ev, first) && IsNearest(t, ev, first)
      && Resolved(t, ev, out, first, AmbiguousMatch, NeedsReview, "payment.needs_review")
      && Recorded(t, out.0, ev, false) && NothingHeldMoves(t, out.0)
  {
    var at := EventTime(ev, now);
    NothingIsHeld(cfg, t, ev, at);
    NothingIsLate(cfg, t, ev, at);
    forall q
      ensures q in Nears(t, KeyOf(ev)) <==> IsNearCandidate(t, ev, q)
    {
      CandidatesExactly(cfg, t, ev, at, q);
    }
    TwoAreMany(Nears(t, KeyOf(ev)), o, p);
    AddEventKeepsInv(t, ev);
    FirstIsNearest(cfg, t, ev, at, first);
    NearEffect(t, ev, NearAmbiguous(first), period);
    hide Inv, EventTime, KeyOf, Recorded, NothingHeldMoves, Resolved, Holders, Releases, Nears, Classify, IsFirstRow,
         Effect, ResultOf, Emitted, IsNearest;
  }

  /** A repeated delivery changes nothing, and its caller is told that it was one. */
  lemma RepeatOutcome(cfg: Config, t: Tables, ev: ChainEvent, now: Time, first: OptionId, period: string)
    requires ev.id in t.events
    ensures Ingest(cfg, t, ev, now, first, period) == (t, MatchResult(None, None, None, true, true), [])
  {
  }

  // -------------------------------------------------------------- the first row

  lemma {:induction false} SomeLeast(s: set<OptionId>, weight: OptionId -> int) returns (o: OptionId)
    requires s != {}
    ensures o in s && forall p :: p in s ==> weight(o) <= weight(p)
  {
    o :| o in s;
    var rest := s - {o};
    assert forall q :: q in s ==> q == o || q in rest;
    if rest != {} {
      var p := SomeLeast(rest, weight);
      if weight(p) < weight(o) {
        o := p;
      }
    }
  }

  /** Whatever the tables, each query that finds rows has one to return first, so every event can be ingested. */
  lemma SomeRowIsFirst(cfg: Config, t: Tables, key: Key, at: Time)
    ensures exists first :: IsFirstRow(cfg, t, key, at, first)
  {
    hide IsNear, InLateWindow;
    if Holders(t, key) != {} {
      var first := SomeLeast(Holders(t, key),
                             o => if o in t.reservations && t.reservations[o].status == Active then 0 else 1);
      assert IsFirstRow(cfg, t, key, at, first);
    } else if Releases(cfg, t, key, at) != {} {
      var first := SomeLeast(Releases(cfg, t, key, at),
                             o => if o in t.reservations then 0 - t.reservations[o].expiresAt else 0);
      assert IsFirstRow(cfg, t, key, at, first);
    } else if Nears(t, key) != {} {
      var first := SomeLeast(Nears(t, key), o => if o in t.reservations then Distance(t, o, key) else 0);
      assert IsFirstRow(cfg, t, key, at, first);
    } else {
      assert IsFirstRow(cfg, t, key, at, 0);
    }
  }

  // --------------------------------------------------------- confirmation updates

  ghost predicate OnlyCounts(t: Tables, u: Tables, e: string, confirmations: int)
    requires e in t.events
  {
    u == t.(events := t.events[e := EventRow(t.events[e].key, confirmations, t.events[e].processed)])
  }

  lemma ConfirmedSettles(t: Tables, e: string, confirmations: int, period: string)
    requires Inv(t) && HasExactMatch(t, e)
    ensures var (i, o) := (t.matches[e].intent, t.matches[e].option);
      Joined(t, o) && t.options[o].intent == i
      && var u := SetStatus(SettlePaid(SetConfirmations(t, e, confirmations), i, o, period), i, Paid);
      && Settles(t, u, o, period) && u.matches == t.matches
      && u.intents == t.intents[i := t.intents[i].(status := Paid)]
      && u.events == t.events[e := EventRow(t.events[e].key, confirmations, t.events[e].processed)]
  {
    ExactIsJoined(t, e);
    hide Inv;
  }

  /**
   * A confirmation update of an exact match, from any status of its intent but Paid: the intent becomes paid if and
   * only if the transfer now has the confirmations its network needs, and confirming if and only if it has not; it is
   * announced unless that is what the intent was; and a paid intent keeps its status and is not announced.
   */
  lemma ConfirmationOutcome(cfg: Config, t: Tables, e: string, confirmations: int, period: string)
    requires Inv(t) && HasExactMatch(t, e)
    ensures Joined(t, t.matches[e].option)
    ensures var (u, sent) := ApplyConfirmations(cfg, t, e, confirmations, period);
      var (i, o) := (t.matches[e].intent, t.matches[e].option);
      var (was, enough) := (t.intents[i].status, confirmations >= RequiredConfirmations(cfg, t.events[e].key.network));
      && u.matches == t.matches
      && u.events == t.events[e := EventRow(t.events[e].key, confirmations, t.events[e].processed)]
      && (was == Paid || (was == Confirming && !enough) ==> OnlyCounts(t, u, e, confirmations) && sent == [])
      && (was !in {Paid, Confirming} && !enough ==>
            && NothingHeldMoves(t, u)
            && u.intents == t.intents[i := t.intents[i].(status := Confirming)]
            && sent == [Emission(t.intents[i].merchant, i, "payment.confirming")])
      && (was != Paid && enough ==>
            && Settles(t, u, o, period)
            && u.intents == t.intents[i := t.intents[i].(status := Paid)]
            && sent == [Emission(t.intents[i].merchant, i, "payment.paid")])
  {
    ExactIsJoined(t, e);
    ConfirmedSettles(t, e, confirmations, period);
    hide Inv, Settles, RequiredConfirmations, SettlePaid;
  }

  /** Without an exact match there is nothing to update. */
  lemma UnmatchedConfirmation(cfg: Config, t: Tables, e: string, confirmations: int, period: string)
    requires e !in t.events || e !in t.matches || t.matches[e].kind != ExactMatch
    ensures ApplyConfirmations(cfg, t, e, confirmations, period) == (t, [])
  {
  }
}
