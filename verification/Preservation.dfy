/** Every transaction keeps the invariant, and so it holds after every schedule. */
module Preservation {
  import opened Basics
  import opened Checkout
  import opened Ledger
  import opened Offers
  import opened Machine
  import opened Invariant

  // ------------------------------------------------------------------- offers

  ghost predicate MayOffer(t: Tables, network: string) {
    network == TRON || !HasOpenGap(t.gaps, network)
  }

  lemma HeldAmountIsTaken(t: Tables, o: OptionId)
    requires o in t.reservations && IsHeld(t.reservations[o].status)
    ensures var key := t.reservations[o].key; key.amount in Taken(t, key.destination, key.network, key.token)
  {
  }

  lemma FreeAmountIsFreeKey(t: Tables, key: Key)
    requires key.amount !in Taken(t, key.destination, key.network, key.token)
    ensures forall o :: o in t.reservations && IsHeld(t.reservations[o].status) ==> t.reservations[o].key != key
  {
    forall o | o in t.reservations && IsHeld(t.reservations[o].status)
      ensures t.reservations[o].key != key
    {
      HeldAmountIsTaken(t, o);
    }
  }

  lemma NewOptionTakesNothing(t: Tables, i: string, network: string, terms: Terms)
    requires network in terms.wallets
    ensures var w := terms.wallets[network];
      Taken(AddOption(t, i, network, w, terms.base, terms.expiresAt), w.address, network, w.contract)
        == Taken(t, w.address, network, w.contract)
  {
  }

  lemma NextIsFree(t: Tables)
    requires Inv(t)
    ensures t.nextOption !in t.options && t.nextOption !in t.reservations
  {
    hide Unique, Backed, Gated;
    NextOptionIsNew(t);
  }

  /** A successful claim reserved a free amount for the new option, and wrote it into the option. */
  lemma OfferOnIsWithOffer(t: Tables, i: string, terms: Terms, network: string) returns (amount: Int64)
    requires Inv(t) && network in terms.wallets && OfferOn(t, i, terms, network).Some?
    ensures var w := terms.wallets[network];
      && OfferOn(t, i, terms, network).value
           == WithOffer(t, i, Key(w.address, network, w.contract, amount), terms.base, terms.expiresAt)
      && amount !in Taken(t, w.address, network, w.contract)
      && FirstFree(Taken(t, w.address, network, w.contract), terms.base, terms.draws(t.nextOption), 0, DEFAULT_ATTEMPTS)
           == Some(amount)
  {
    hide Inv, Taken, FirstFree;
    NextIsFree(t);
    var w := terms.wallets[network];
    var taken := Taken(t, w.address, network, w.contract);
    NewOptionTakesNothing(t, i, network, terms);
    var free := FirstFree(taken, terms.base, terms.draws(t.nextOption), 0, DEFAULT_ATTEMPTS);
    amount := free.value;
    FirstFreeIsFree(taken, terms.base, terms.draws(t.nextOption), 0, DEFAULT_ATTEMPTS);
    assert OfferOn(t, i, terms, network).value.options
        == WithOffer(t, i, Key(w.address, network, w.contract, amount), terms.base, terms.expiresAt).options;
  }

  lemma OfferOnKeepsInv(t: Tables, i: string, terms: Terms, network: string)
    requires Inv(t) && i in t.intents && MayOffer(t, network) && OfferOn(t, i, terms, network).Some?
    ensures var u := OfferOn(t, i, terms, network).value;
      Inv(u) && u.intents == t.intents && u.gaps == t.gaps
  {
    hide Inv, Taken;
    if network in terms.wallets {
      var amount := OfferOnIsWithOffer(t, i, terms, network);
      var w := terms.wallets[network];
      FreeAmountIsFreeKey(t, Key(w.address, network, w.contract, amount));
      OfferKeepsInv(t, i, Key(w.address, network, w.contract, amount), terms.base, terms.expiresAt);
    }
  }

  lemma {:induction false} OfferAllKeepsInv(t: Tables, i: string, terms: Terms, networks: seq<string>)
    requires Inv(t) && i in t.intents && OfferAll(t, i, terms, networks).Some?
    requires forall n :: n in networks ==> MayOffer(t, n)
    ensures var u := OfferAll(t, i, terms, networks).value;
      Inv(u) && u.intents == t.intents && u.gaps == t.gaps
  {
    hide Inv, OfferOn;
    if networks != [] {
      var front, last := networks[..|networks| - 1], networks[|networks| - 1];
      OfferAllKeepsInv(t, i, terms, front);
      assert last in networks;
      OfferOnKeepsInv(OfferAll(t, i, terms, front).value, i, terms, last);
    }
  }

  /** Whatever was requested, only effective networks are offered. */
  lemma OfferedAreEffective(requested: seq<string>, effective: seq<string>, n: string)
    requires n in OfferedNetworks(requested, effective)
    ensures n in effective
  {
    KeepExactly(NormalNetworks(requested), m => m in effective, n);
  }

  lemma OfferOrFailKeepsInv(t: Tables, i: string, terms: Terms, requested: seq<string>)
    requires Inv(t) && i in t.intents && OfferOrFail(t, i, terms, requested).Some?
    ensures Inv(OfferOrFail(t, i, terms, requested).value)
  {
    hide Inv, OfferOn, OfferAll, Effective;
    var effective := Effective(terms.configured, terms.health, t.gaps);
    var networks := OfferedNetworks(requested, effective);
    forall n | n in networks
      ensures MayOffer(t, n)
    {
      OfferedAreEffective(requested, effective, n);
      if HasOpenGap(t.gaps, n) {
        GapWithholdsExactly(terms.configured, terms.health, t.gaps, n);
      }
    }
    OfferAllKeepsInv(t, i, terms, networks);
  }

  lemma CreateKeepsInv(t: Tables, merchant: string, i: string, requested: seq<string>, terms: Terms)
    requires Inv(t) && CreateIntent(t, merchant, i, requested, terms).Some?
    ensures Inv(CreateIntent(t, merchant, i, requested, terms).value)
  {
    hide Inv, OfferOrFail, HasOpenGap;
    var until := terms.(expiresAt := Deadline(t.orders[i], terms.expiresAt));
    NewIntentKeepsInv(t, i, until.expiresAt);
    var ensured := EnsureIntent(t, i, until.expiresAt);
    SetOrderKeepsInv(ensured, i, Awaiting);
    var networks := if requested == [] then terms.configured else requested;
    OfferOrFailKeepsInv(SetOrder(ensured, i, Awaiting), i, until, networks);
  }

  /** Without a match nothing of an intent is locked, so a refresh releases all it held. */
  lemma UnmatchedIsReleased(t: Tables, i: string, o: OptionId)
    requires Inv(t) && !HasMatch(t, i) && o in t.options && t.options[o].intent == i
    ensures ReleaseUnsettled(t, i).reservations[o].status == Released
  {
    hide IntentOk, OrderOk, GapOk, HeldUnique, ExactUnique;
    assert OptionOk(t, o);
    forall e | e in t.matches
      ensures t.matches[e].option != o
    {
      assert MatchOk(t, e);
    }
  }

  lemma ReopenKeepsInv(t: Tables, i: string, expiresAt: Time)
    requires Inv(t) && i in t.intents && MayAwait(t, i)
    ensures Inv(Reopen(t, i, expiresAt))
  {
    hide Inv, MayAwait;
    var u := t.(intents := t.intents[i := t.intents[i].(status := Awaiting, expiresAt := expiresAt)]);
    IntentsKeepInv(t, u);
    SetOrderKeepsInv(u, i, Awaiting);
  }

  lemma ReleaseForRefresh(t: Tables, i: string)
    requires Inv(t) && !HasMatch(t, i)
    ensures var u := ReleaseUnsettled(t, i);
      && Inv(u)
      && forall o :: o in u.options && u.options[o].intent == i ==>
           o in u.reservations && u.reservations[o].status == Released
  {
    var u := ReleaseUnsettled(t, i);
    assert u.reservations.Keys == u.options.Keys;
    hide Rows, Unique, Backed, Gated, HasMatch;
    ReleaseKeepsInv(t, u);
    forall o | o in u.options && u.options[o].intent == i
      ensures u.reservations[o].status == Released
    {
      UnmatchedIsReleased(t, i, o);
    }
  }

  lemma RefreshKeepsInv(t: Tables, i: string, now: Time, terms: Terms)
    requires Inv(t)
    ensures Inv(RefreshQuote(t, i, now, terms).0)
  {
    hide OfferOrFail, Inv, MayAwait, HasMatch;
    if RefreshRefusal(t, i, now).None? {
      ReleaseForRefresh(t, i);
      var superseded := SupersedeOffered(ReleaseUnsettled(t, i), i);
      SupersedeKeepsInv(ReleaseUnsettled(t, i), i);
      ReopenKeepsInv(superseded, i, terms.expiresAt);
      var reopened := Reopen(superseded, i, terms.expiresAt);
      if OfferOrFail(reopened, i, terms, []).Some? {
        OfferOrFailKeepsInv(reopened, i, terms, []);
      }
    }
  }

  // ------------------------------------------------------------------- matching

  lemma TransitionKeepsInv(t: Tables, e: string, o: OptionId, to: Status, kind: MatchKind)
    requires Inv(t) && e in t.events && e !in t.matches && Joined(t, o)
    requires to !in {Awaiting, Seen, Confirming, Paid} && kind != ExactMatch
    ensures Inv(Transition(t, e, o, to, kind))
  {
    hide Inv;
    var i := t.options[o].intent;
    StatusKeepsInv(t, i, to);
    AddMatchKeepsInv(SetStatus(t, i, to), e, o, kind);
  }

  lemma ProcessedKeepsInv(t: Tables, e: string)
    requires Inv(t) && e in t.events
    ensures Inv(MarkProcessed(t, e))
  {
    hide Inv;
    EventsKeepInv(t, MarkProcessed(t, e));
  }

  /** Settling an option whose exact match is recorded, and marking its intent and order paid. */
  lemma SettleKeepsInv(t: Tables, o: OptionId, period: string)
    requires Inv(t) && Joined(t, o) && IsLocked(t.reservations[o].status)
    ensures var i := t.options[o].intent;
      && Inv(SetStatus(SettlePaid(t, i, o, period), i, Paid))
      && HasSettled(SetStatus(SettlePaid(t, i, o, period), i, Paid), i)
  {
    hide Inv, HasSettled;
    var i := t.options[o].intent;
    ConsumeKeepsInv(t, o);
    var consumed := Consume(t, o);
    SetOrderKeepsInv(consumed, i, Paid);
    var ordered := SetOrder(consumed, i, Paid);
    SettledOnlyReadsOptions(consumed, ordered);
    StatusKeepsInv(ordered, i, Paid);
    var moved := SetStatus(ordered, i, Paid);
    var u := SetStatus(SettlePaid(t, i, o, period), i, Paid);
    EventsKeepInv(moved, u);
    SettledOnlyReadsOptions(consumed, u);
  }

  lemma ExactKeepsInv(t: Tables, e: string, o: OptionId, next: Status, period: string)
    requires Inv(t) && e in t.events && e !in t.matches && Joined(t, o)
    requires t.reservations[o].status == Active && t.events[e].key == t.reservations[o].key
    requires next in {Seen, Confirming, Paid}
    ensures Inv(Effect(t, e, Exact(o, next), period))
    ensures next == Paid ==> HasSettled(Effect(t, e, Exact(o, next), period), t.options[o].intent)
  {
    hide Inv, HasSettled;
    var i := t.options[o].intent;
    LockKeepsInv(t, e, o);
    var locked := Lock(AddMatch(t, e, o, ExactMatch), o);
    var u := Effect(t, e, Exact(o, next), period);
    if next == Paid {
      SettleKeepsInv(locked, o, period);
      var paid := SetStatus(SettlePaid(locked, i, o, period), i, Paid);
      ProcessedKeepsInv(paid, e);
      assert u == MarkProcessed(paid, e);
      SettledOnlyReadsOptions(paid, u);
    } else {
      assert locked.matches[e] == Match(i, o, ExactMatch);
      StatusKeepsInv(locked, i, next);
      ProcessedKeepsInv(SetStatus(locked, i, next), e);
      assert u == MarkProcessed(SetStatus(locked, i, next), e);
    }
  }

  /** What a verdict of Classify says about the row it names. */
  lemma VerdictFits(cfg: Config, t: Tables, ev: ChainEvent, at: Time, first: OptionId)
    requires IsFirstRow(cfg, t, KeyOf(ev), at, first)
    ensures var v := Classify(cfg, t, ev, at, first);
      && (!v.Unknown? ==> v.option == first && Joined(t, first))
      && (v.Exact? ==>
            && t.reservations[first].status == Active && t.reservations[first].key == KeyOf(ev)
            && v.next == ExactNext(cfg, ev)
            && IntentOf(t, first).status !in {Paid, Seen, Confirming} && at <= IntentOf(t, first).expiresAt)
      && (v.NearMiss? ==> v.kind != ExactMatch && v.next in {Underpaid, Overpaid, NeedsReview})
  {
  }

  lemma AddEventKeepsInv(t: Tables, ev: ChainEvent)
    requires Inv(t) && ev.id !in t.events
    ensures Inv(AddEvent(t, ev)) && ev.id !in AddEvent(t, ev).matches
  {
    EventsKeepInv(t, AddEvent(t, ev));
    hide OptionOk, IntentOk, OrderOk, GapOk, HeldUnique, ExactUnique;
    assert ev.id in t.matches ==> MatchOk(t, ev.id);
  }

  lemma EffectKeepsInv(t: Tables, e: string, v: Verdict, period: string)
    requires Inv(t) && e in t.events && e !in t.matches && (!v.Unknown? ==> Joined(t, v.option))
    requires v.Exact? ==>
      && t.reservations[v.option].status == Active && t.events[e].key == t.reservations[v.option].key
      && v.next in {Seen, Confirming, Paid}
    requires v.NearMiss? ==> v.kind != ExactMatch && v.next in {Underpaid, Overpaid, NeedsReview}
    ensures Inv(Effect(t, e, v, period))
  {
    hide Inv;
    match v
    case SecondTransfer(o) => TransitionKeepsInv(t, e, o, SecondStatus(IntentOf(t, o).status), DuplicateMatch);
    case PastExpiry(o) =>
      TransitionKeepsInv(t, e, o, LatePayment, LateMatch);
      ProcessedKeepsInv(Transition(t, e, o, LatePayment, LateMatch), e);
    case Exact(o, next) => ExactKeepsInv(t, e, o, next, period);
    case ReleasedLate(o) =>
      TransitionKeepsInv(t, e, o, LatePayment, LateMatch);
      ProcessedKeepsInv(Transition(t, e, o, LatePayment, LateMatch), e);
    case ReleasedAmbiguous(_) => ProcessedKeepsInv(t, e);
    case Unknown => ProcessedKeepsInv(t, e);
    case NearAmbiguous(o) => TransitionKeepsInv(t, e, o, NeedsReview, AmbiguousMatch);
    case NearMiss(o, kind, next) => TransitionKeepsInv(t, e, o, next, kind);
  }

  lemma IngestKeepsInv(cfg: Config, t: Tables, ev: ChainEvent, now: Time, first: OptionId, period: string)
    requires Inv(t) && (ev.id !in t.events ==> IsFirstRow(cfg, t, KeyOf(ev), EventTime(ev, now), first))
    ensures Inv(Ingest(cfg, t, ev, now, first, period).0)
  {
    hide Inv, IsFirstRow, Classify, Effect, EventTime;
    if ev.id !in t.events {
      VerdictFits(cfg, t, ev, EventTime(ev, now), first);
      AddEventKeepsInv(t, ev);
      EffectKeepsInv(AddEvent(t, ev), ev.id, Classify(cfg, t, ev, EventTime(ev, now), first), period);
    }
  }

  lemma ExactIsJoined(t: Tables, e: string)
    requires Inv(t) && HasExactMatch(t, e)
    ensures Joined(t, t.matches[e].option) && t.options[t.matches[e].option].intent == t.matches[e].intent
    ensures IsLocked(t.reservations[t.matches[e].option].status)
    ensures t.events[e].key == t.reservations[t.matches[e].option].key
  {
    hide IntentOk, OrderOk, GapOk, HeldUnique, ExactUnique;
    assert MatchOk(t, e);
    assert OptionOk(t, t.matches[e].option);
  }

  lemma ConfirmKeepsInv(cfg: Config, t: Tables, e: string, confirmations: int, period: string)
    requires Inv(t)
    ensures Inv(Confirmed(cfg, t, e, confirmations, period).0)
  {
    hide Inv;
    if HasExactMatch(t, e) {
      ExactIsJoined(t, e);
      var m := t.matches[e];
      var counted := SetConfirmations(t, e, confirmations);
      EventsKeepInv(t, counted);
      var next := ConfirmedStatus(cfg, t.events[e].key.network, confirmations);
      if next == Paid {
        SettleKeepsInv(counted, m.option, period);
      } else {
        assert counted.matches[e] == m;
        StatusKeepsInv(counted, m.intent, next);
      }
    }
  }

  // --------------------------------------------------------------------- sweeps

  lemma SweepsKeepInv(t: Tables, now: Time)
    requires Inv(t)
    ensures Inv(ExpireIntents(t, now)) && Inv(ReleaseExpired(t, now)) && Inv(ExpireOrders(t, now))
  {
    hide Inv;
    IntentsKeepInv(t, ExpireIntents(t, now));
    ReleaseKeepsInv(t, ReleaseExpired(t, now));
    OrdersKeepInv(t, ExpireOrders(t, now));
  }

  lemma ReviewKeepsInv(t: Tables, i: string, reason: string, action: string)
    requires Inv(t)
    ensures var u := AdminResolve(t, i, reason, action).0;
      Inv(u) && forall j :: j in u.intents && u.intents[j].status == Paid ==>
        j in t.intents && t.intents[j].status == Paid
  {
    hide Inv;
    if i in t.intents {
      StatusKeepsInv(t, i, NeedsReview);
    }
  }

  lemma OptionsHaveIntents(t: Tables)
    requires Inv(t)
    ensures forall o :: o in t.options ==> t.options[o].intent in t.intents
  {
    hide Backed, Gated, Unique, HasExact;
  }

  lemma SnapKeepsInv(t: Tables, network: string, from: int, to: int)
    requires Inv(t)
    ensures var u := GateCursorSnap(t, network, from, to).0;
      && Inv(u)
      && (u.gaps != t.gaps ==> forall o :: o in t.options && t.options[o].key.network == network ==>
            t.options[o].intent in t.intents
            && t.intents[t.options[o].intent].status !in {Awaiting, Seen, Confirming})
  {
    OptionsHaveIntents(t);
    hide Inv;
    var u := GateCursorSnap(t, network, from, to).0;
    if u != t {
      forall o |
        && o in t.options && HasOpenGap(u.gaps, t.options[o].key.network)
        && t.options[o].intent in t.intents && t.intents[t.options[o].intent].status == Awaiting
        ensures HasOpenGap(t.gaps, t.options[o].key.network)
      {
        assert o !in LiveOptions(t, network);
        var k :| 0 <= k < |u.gaps| && u.gaps[k].network == t.options[o].key.network && !u.gaps[k].acked;
        assert t.gaps[k] == u.gaps[k];
      }
      GapsKeepInv(t, u);
      forall o | o in t.options && t.options[o].key.network == network
        ensures t.intents[t.options[o].intent].status !in {Awaiting, Seen, Confirming}
      {
        assert o !in LiveOptions(t, network);
      }
    }
  }

  lemma AcknowledgeKeepsInv(t: Tables, network: string)
    requires Inv(t)
    ensures Inv(AcknowledgeWatcherGaps(t, network))
  {
    hide Inv;
    var u := AcknowledgeWatcherGaps(t, network);
    forall n | HasOpenGap(u.gaps, n)
      ensures HasOpenGap(t.gaps, n)
    {
      var k :| 0 <= k < |u.gaps| && u.gaps[k].network == n && !u.gaps[k].acked;
      assert !t.gaps[k].acked;
    }
    GapsKeepInv(t, u);
  }

  // ----------------------------------------------------------------------- runs

  lemma DoKeepsInv(cfg: Config, t: Tables, s: Step)
    requires Inv(t) && Possible(cfg, t, s)
    ensures Inv(Do(cfg, t, s).0)
  {
    hide Inv, CreateIntent, RefreshQuote, Ingest, IsFirstRow, Confirmed, EventTime, AdminResolve, GateCursorSnap;
    match s
    case NewOrder(i, merchant, deadline) => OrdersKeepInv(t, AddOrder(t, i, merchant, deadline));
    case Create(i, merchant, requested, terms, _) =>
      if CreateIntent(t, merchant, i, requested, terms).Some? {
        CreateKeepsInv(t, merchant, i, requested, terms);
      }
    case Refresh(i, now, terms, _) => RefreshKeepsInv(t, i, now, terms);
    case Observe(ev, now, first, period, _) => IngestKeepsInv(cfg, t, ev, now, first, period);
    case Confirm(e, confirmations, period, _) => ConfirmKeepsInv(cfg, t, e, confirmations, period);
    case SweepIntents(now) => SweepsKeepInv(t, now);
    case SweepReservations(now) => SweepsKeepInv(t, now);
    case SweepOrders(now) => SweepsKeepInv(t, now);
    case Review(i, reason, action, _) => ReviewKeepsInv(t, i, reason, action);
    case Snap(network, from, to) => SnapKeepsInv(t, network, from, to);
    case Acknowledge(network) => AcknowledgeKeepsInv(t, network);
  }

  lemma {:induction false} AfterKeepsInv(cfg: Config, steps: seq<Step>)
    ensures Inv(After(cfg, steps).tables)
  {
    if steps != [] {
      hide Inv, Do, Possible;
      var front, last := steps[..|steps| - 1], steps[|steps| - 1];
      AfterKeepsInv(cfg, front);
      if Possible(cfg, After(cfg, front).tables, last) {
        DoKeepsInv(cfg, After(cfg, front).tables, last);
      }
    }
  }
}
