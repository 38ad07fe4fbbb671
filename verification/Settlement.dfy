/** When a step pays: soundness of Paid, conservation of the usage counters, and what double counts. */
module Settlement {
  import opened Basics
  import opened Ledger
  import opened Offers
  import opened Machine
  import opened Invariant
  import opened Preservation
  import opened Payments

  predicate IsPaid(t: Tables, i: string) {
    i in t.intents && t.intents[i].status == Paid
  }

  predicate IsSettled(t: Tables, o: OptionId) {
    o in t.options && t.options[o].status == Settled
  }

  /** Nothing was paid, settled or counted. */
  ghost predicate Quiet(t: Tables, u: Tables) {
    && u.usage == t.usage
    && (forall i :: IsPaid(u, i) ==> IsPaid(t, i))
    && (forall o :: IsSettled(u, o) ==> IsSettled(t, o))
  }

  /**
   * One intent became Paid, by an exact match of event e: the event's destination, network, token and amount are
   * the key of the option it settled, and it has the confirmations its network needs. One payment was counted.
   */
  ghost predicate PaidBy(cfg: Config, t: Tables, u: Tables, e: string, period: string) {
    && e in u.events && e in u.matches && u.matches[e].kind == ExactMatch
    && var (i, o) := (u.matches[e].intent, u.matches[e].option);
    && o in u.options && u.options[o].intent == i && IsSettled(u, o)
    && u.events[e].key == u.options[o].key
    && u.events[e].confirmations >= RequiredConfirmations(cfg, u.events[e].key.network)
    && IsPaid(u, i) && !IsPaid(t, i) && i in t.intents
    && (forall j :: IsPaid(u, j) && j != i ==> IsPaid(t, j))
    && (forall p :: IsSettled(u, p) && p != o ==> IsSettled(t, p))
    && u.usage == CountPayment(t, t.intents[i].merchant, period).usage
  }

  /** The event a step pays by, if it pays. */
  ghost function Payment(cfg: Config, t: Tables, s: Step): Option<string>
    requires Possible(cfg, t, s)
  {
    if !Commits(s) then None
    else if s.Observe? then
      if s.ev.id in t.events then None
      else
        var v := Classify(cfg, t, s.ev, EventTime(s.ev, s.now), s.first);
        if v.Exact? && v.next == Paid then Some(s.ev.id) else None
    else if s.Confirm? then
      if HasExactMatch(t, s.event) && Joined(t, t.matches[s.event].option)
         && t.intents[t.matches[s.event].intent].status != Paid
         && s.confirmations >= RequiredConfirmations(cfg, t.events[s.event].key.network)
      then Some(s.event) else None
    else None
  }

  lemma OnlyOffersIsQuiet(t: Tables, u: Tables)
    requires Inv(t) && OnlyOffers(t, u)
    ensures Quiet(t, u)
  {
    assert t.reservations.Keys == t.options.Keys;
    hide Inv;
  }

  /** A verdict that does not pay moves at most one intent's status, and not to Paid; only an exact match locks. */
  lemma OtherVerdictsMoveOneStatus(t: Tables, e: string, v: Verdict, period: string)
    requires e in t.events && (!v.Unknown? ==> Joined(t, v.option))
    requires v.Exact? ==> v.next != Paid
    ensures var u := Effect(t, e, v, period);
      && u.options == t.options && u.usage == t.usage && u.orders == t.orders && u.gaps == t.gaps
      && (!v.Exact? ==> u.reservations == t.reservations)
      && (v.Unknown? || v.ReleasedAmbiguous? ==> u.intents == t.intents && u.matches == t.matches)
      && (!v.Unknown? && !v.ReleasedAmbiguous? ==>
            var i := t.options[v.option].intent;
            u.intents == t.intents[i := t.intents[i].(status := NextOf(t, v))])
  {
    if !v.Unknown? && !v.ReleasedAmbiguous? {
      var kind :=
        if v.Exact? then ExactMatch else if v.NearMiss? then v.kind else if v.SecondTransfer? then DuplicateMatch
        else if v.NearAmbiguous? then AmbiguousMatch else LateMatch;
      TransitionRows(t, e, v.option, NextOf(t, v), kind);
    }
    hide Transition;
  }

  lemma TransitionRows(t: Tables, e: string, o: OptionId, to: Status, kind: MatchKind)
    requires Joined(t, o)
    ensures var u := Transition(t, e, o, to, kind);
      var i := t.options[o].intent;
      && u == t.(intents := t.intents[i := t.intents[i].(status := to)], matches := u.matches)
      && (forall f :: f in t.matches ==> f in u.matches && u.matches[f] == t.matches[f])
  {
  }

  function NextOf(t: Tables, v: Verdict): Status
    requires !v.Unknown? ==> Joined(t, v.option)
  {
    match v
    case SecondTransfer(o) => SecondStatus(IntentOf(t, o).status)
    case Exact(_, next) => next
    case NearAmbiguous(_) => NeedsReview
    case NearMiss(_, _, next) => next
    case _ => LatePayment
  }

  lemma SettlingLeaves(t: Tables, o: OptionId, period: string)
    requires Joined(t, o)
    ensures var u := SettlePaid(t, t.options[o].intent, o, period);
      u.matches == t.matches && u.intents == t.intents && u.events == t.events
  {
  }

  lemma OtherVerdictsAreQuiet(t: Tables, e: string, v: Verdict, period: string)
    requires e in t.events && (!v.Unknown? ==> Joined(t, v.option))
    requires v.Exact? || v.NearMiss? ==> v.next != Paid
    ensures Quiet(t, Effect(t, e, v, period))
  {
    OtherVerdictsMoveOneStatus(t, e, v, period);
    hide Effect;
  }

  /** A settlement, by the rows it leaves. */
  lemma RowsPay(cfg: Config, t: Tables, u: Tables, e: string, o: OptionId, period: string)
    requires o in t.options && t.options[o].intent in t.intents && !IsPaid(t, t.options[o].intent)
    requires u.options == t.options[o := t.options[o].(status := Settled)]
    requires var i := t.options[o].intent;
      && u.intents == t.intents[i := t.intents[i].(status := Paid)]
      && u.usage == CountPayment(t, t.intents[i].merchant, period).usage
      && e in u.matches && u.matches[e] == Match(i, o, ExactMatch)
    requires e in u.events && u.events[e].key == t.options[o].key
    requires u.events[e].confirmations >= RequiredConfirmations(cfg, u.events[e].key.network)
    ensures PaidBy(cfg, t, u, e, period)
  {
  }

  lemma ExactRows(t: Tables, e: string, o: OptionId, period: string)
    requires e in t.events && e !in t.matches && Joined(t, o) && t.reservations[o].status == Active
    ensures var u := Effect(t, e, Exact(o, Paid), period);
      var i := t.options[o].intent;
      && u.options == t.options[o := t.options[o].(status := Settled)]
      && u.intents == t.intents[i := t.intents[i].(status := Paid)]
      && u.usage == CountPayment(t, t.intents[i].merchant, period).usage
      && u.matches == t.matches[e := Match(i, o, ExactMatch)]
      && u.events == t.events[e := t.events[e].(processed := true)]
  {
  }

  lemma ExactPays(cfg: Config, t: Tables, ev: ChainEvent, o: OptionId, period: string)
    requires Joined(t, o) && t.reservations[o].status == Active
    requires t.options[o].key == KeyOf(ev) && !IsPaid(t, t.options[o].intent)
    requires ev.id !in t.matches && ev.confirmations >= RequiredConfirmations(cfg, ev.network)
    ensures PaidBy(cfg, t, Effect(AddEvent(t, ev), ev.id, Exact(o, Paid), period), ev.id, period)
  {
    hide PaidBy, RequiredConfirmations, NormalizeAddress;
    ExactRows(AddEvent(t, ev), ev.id, o, period);
    hide Effect;
    RowsPay(cfg, t, Effect(AddEvent(t, ev), ev.id, Exact(o, Paid), period), ev.id, o, period);
  }

  lemma ObservePays(cfg: Config, t: Tables, s: Step)
    requires Inv(t) && Possible(cfg, t, s) && s.Observe? && Commits(s) && s.ev.id !in t.events
    ensures var u := Do(cfg, t, s).0;
      if Payment(cfg, t, s).Some? then PaidBy(cfg, t, u, s.ev.id, s.period) else Quiet(t, u)
  {
    hide Inv, Classify, EventTime, IsFirstRow, Effect, Quiet, PaidBy;
    var v := Classify(cfg, t, s.ev, EventTime(s.ev, s.now), s.first);
    VerdictFits(cfg, t, s.ev, EventTime(s.ev, s.now), s.first);
    AddEventKeepsInv(t, s.ev);
    if Payment(cfg, t, s).Some? {
      JoinedHasKey(t, v.option);
      ExactPays(cfg, t, s.ev, v.option, s.period);
    } else {
      OtherVerdictsAreQuiet(AddEvent(t, s.ev), s.ev.id, v, s.period);
      AddingAnEventIsQuiet(t, s.ev, Do(cfg, t, s).0);
    }
  }

  lemma JoinedHasKey(t: Tables, o: OptionId)
    requires Inv(t) && Joined(t, o)
    ensures t.reservations[o].key == t.options[o].key
  {
    hide Backed, Gated, Unique;
    assert OptionOk(t, o);
  }

  lemma AddingAnEventIsQuiet(t: Tables, ev: ChainEvent, u: Tables)
    requires Quiet(AddEvent(t, ev), u)
    ensures Quiet(t, u)
  {
    forall i | IsPaid(u, i)
      ensures IsPaid(t, i)
    {
      assert IsPaid(AddEvent(t, ev), i);
    }
    forall o | IsSettled(u, o)
      ensures IsSettled(t, o)
    {
      assert IsSettled(AddEvent(t, ev), o);
    }
  }

  lemma ConfirmOutcome(cfg: Config, t: Tables, s: Step)
    requires Possible(cfg, t, s) && s.Confirm? && Commits(s) && HasExactMatch(t, s.event)
    requires Joined(t, t.matches[s.event].option)
    ensures var m := t.matches[s.event];
      var counted := SetConfirmations(t, s.event, s.confirmations);
      var u := Do(cfg, t, s).0;
      if Payment(cfg, t, s).Some?
      then u == SetStatus(SettlePaid(counted, m.intent, m.option, s.period), m.intent, Paid)
      else u == counted || u == SetStatus(counted, m.intent, Confirming)
  {
    hide RequiredConfirmations, SettlePaid;
  }

  lemma SettledRows(t: Tables, o: OptionId, period: string)
    requires Joined(t, o)
    ensures var i := t.options[o].intent;
      var u := SetStatus(SettlePaid(t, i, o, period), i, Paid);
      && u.options == t.options[o := t.options[o].(status := Settled)]
      && u.intents == t.intents[i := t.intents[i].(status := Paid)]
      && u.usage == CountPayment(t, t.intents[i].merchant, period).usage
      && u.matches == t.matches && u.events == t.events
  {
  }

  lemma CountedIsQuiet(t: Tables, e: string, confirmations: int, i: string)
    requires e in t.events && i in t.intents
    ensures var counted := SetConfirmations(t, e, confirmations);
      Quiet(t, counted) && Quiet(t, SetStatus(counted, i, Confirming))
  {
  }

  lemma NothingIsQuiet(t: Tables)
    ensures Quiet(t, t)
  {
  }

  lemma ConfirmPays(cfg: Config, t: Tables, s: Step)
    requires Inv(t) && Possible(cfg, t, s) && s.Confirm? && Commits(s)
    ensures var u := Do(cfg, t, s).0;
      if Payment(cfg, t, s).Some? then PaidBy(cfg, t, u, s.event, s.period) else Quiet(t, u)
  {
    hide Inv, PaidBy, Quiet, RequiredConfirmations, SettlePaid, IsFirstRow, Classify;
    NothingIsQuiet(t);
    if HasExactMatch(t, s.event) {
      CountedIsQuiet(t, s.event, s.confirmations, t.matches[s.event].intent);
      ExactIsJoined(t, s.event);
      JoinedHasKey(t, t.matches[s.event].option);
      ConfirmOutcome(cfg, t, s);
      SettledRows(SetConfirmations(t, s.event, s.confirmations), t.matches[s.event].option, s.period);
      if Payment(cfg, t, s).Some? {
        RowsPay(cfg, t, Do(cfg, t, s).0, s.event, t.matches[s.event].option, s.period);
      }
    }
  }

  lemma SweepIsQuiet(cfg: Config, t: Tables, s: Step)
    requires Possible(cfg, t, s) && !s.Observe? && !s.Confirm? && !s.Create? && !s.Refresh?
    ensures Quiet(t, Do(cfg, t, s).0) && Do(cfg, t, s).1 == []
  {
  }

  /** Every step either pays soundly by the event that Payment names, or pays, settles and counts nothing. */
  lemma StepPays(cfg: Config, t: Tables, s: Step)
    requires Inv(t) && Possible(cfg, t, s)
    ensures var u := Do(cfg, t, s).0;
      match Payment(cfg, t, s)
      case Some(e) => (s.Observe? || s.Confirm?) && PaidBy(cfg, t, u, e, s.period)
      case None => Quiet(t, u)
  {
    hide Inv, PaidBy, OnlyOffers, CreateIntent, RefreshQuote, IsFirstRow, EventTime, Classify;
    if s.Observe? && Commits(s) && s.ev.id !in t.events {
      ObservePays(cfg, t, s);
    } else if s.Confirm? && Commits(s) {
      ConfirmPays(cfg, t, s);
    } else if s.Create? && Commits(s) && CreateIntent(t, s.merchant, s.order, s.requested, s.terms).Some? {
      CreateOnlyOffers(t, s.merchant, s.order, s.requested, s.terms);
      OnlyOffersIsQuiet(t, Do(cfg, t, s).0);
    } else if s.Refresh? && Commits(s) {
      RefreshOnlyOffers(t, s.order, s.now, s.terms);
      OnlyOffersIsQuiet(t, Do(cfg, t, s).0);
    } else if !s.Observe? && !s.Confirm? && !s.Create? && !s.Refresh? {
      SweepIsQuiet(cfg, t, s);
    }
  }
}
