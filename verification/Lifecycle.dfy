/** How an intent's status may move, transaction by transaction, and what the matcher makes of times and addresses. */
module Lifecycle {
  import opened Basics
  import opened Text
  import opened Checkout
  import opened Ledger
  import opened Offers
  import opened Machine
  import opened Invariant
  import opened Preservation
  import opened Payments
  import opened Settlement

  const OPEN := {Created, Awaiting, Seen, Confirming}

  /** The moves an ingest may make. */
  predicate ObserveMoves(a: Status, b: Status) {
    match b
    case Seen => a !in {Seen, Confirming, Paid}
    case Confirming => a !in {Seen, Confirming, Paid}
    case Paid => a !in {Seen, Confirming, Paid}
    case Underpaid => a in OPEN
    case Overpaid => a in OPEN
    case NeedsReview => a in OPEN
    case LatePayment => a != Paid
    case DuplicatePayment => a !in {Seen, Confirming}
    case _ => false
  }

  /** A transfer puts an intent in flight or pays it only in time. */
  predicate ObserveMovesAt(a: Intent, b: Status, at: Time) {
    ObserveMoves(a.status, b) && (b in {Seen, Confirming, Paid} ==> at <= a.expiresAt)
  }

  /** Which transaction may take an intent from one status to another, and when. */
  predicate LegalMove(s: Step, a: Intent, b: Status) {
    match s
    case Observe(ev, now, _, _, _) => ObserveMovesAt(a, b, EventTime(ev, now))
    case Confirm(_, _, _, _) => a.status != Paid && b in {Confirming, Paid}
    case SweepIntents(now) => a.status in {Created, Awaiting} && a.expiresAt < now && b == Expired
    case Refresh(_, now, _, _) =>
      (a.status == Expired || (a.status in {Created, Awaiting} && a.expiresAt < now)) && b == Awaiting
    case Review(_, _, _, _) => b == NeedsReview
    case _ => false
  }

  lemma EffectMovesOne(t: Tables, e: string, v: Verdict, period: string)
    requires e in t.events && (!v.Unknown? ==> Joined(t, v.option))
    ensures var u := Effect(t, e, v, period);
      if v.Unknown? || v.ReleasedAmbiguous? then u.intents == t.intents
      else var i := t.options[v.option].intent;
        u.intents == t.intents[i := t.intents[i].(status := NextOf(t, v))]
  {
    if v.Exact? && v.next == Paid {
      TransitionRows(t, e, v.option, Paid, ExactMatch);
      SettlingLeaves(Lock(Transition(t, e, v.option, Paid, ExactMatch), v.option), v.option, period);
      hide Transition, SettlePaid;
    } else {
      OtherVerdictsMoveOneStatus(t, e, v, period);
      hide Effect;
    }
  }

  lemma ReplayLeavesAll(cfg: Config, t: Tables, s: Step)
    requires Possible(cfg, t, s) && s.Observe? && s.ev.id in t.events
    ensures Do(cfg, t, s).0 == t
  {
  }

  lemma VerdictMoves(cfg: Config, t: Tables, ev: ChainEvent, at: Time, first: OptionId)
    requires IsFirstRow(cfg, t, KeyOf(ev), at, first)
    ensures var v := Classify(cfg, t, ev, at, first);
      v.Unknown? || v.ReleasedAmbiguous? ||
      (Joined(t, v.option) &&
       (NextOf(t, v) == IntentOf(t, v.option).status || ObserveMovesAt(IntentOf(t, v.option), NextOf(t, v), at)))
  {
    hide KeyOf, Wrap64, IsNear, InLateWindow, RequiredConfirmations;
    VerdictFits(cfg, t, ev, at, first);
  }

  lemma ObserveMovesLegally(cfg: Config, t: Tables, s: Step, i: string)
    requires Inv(t) && Possible(cfg, t, s) && s.Observe? && Commits(s) && s.ev.id !in t.events && i in t.intents
    ensures var u := Do(cfg, t, s).0;
      i in u.intents && u.intents[i].merchant == t.intents[i].merchant
      && (u.intents[i].status == t.intents[i].status
          || ObserveMovesAt(t.intents[i], u.intents[i].status, EventTime(s.ev, s.now)))
  {
    hide Inv, Classify, EventTime, IsFirstRow, Effect, ObserveMovesAt;
    var at := EventTime(s.ev, s.now);
    var v := Classify(cfg, t, s.ev, at, s.first);
    VerdictFits(cfg, t, s.ev, at, s.first);
    VerdictMoves(cfg, t, s.ev, at, s.first);
    AddEventKeepsInv(t, s.ev);
    EffectMovesOne(AddEvent(t, s.ev), s.ev.id, v, s.period);
  }

  lemma ConfirmMovesLegally(cfg: Config, t: Tables, s: Step, i: string)
    requires Inv(t) && Possible(cfg, t, s) && s.Confirm? && i in t.intents
    ensures var u := Do(cfg, t, s).0;
      i in u.intents && u.intents[i].merchant == t.intents[i].merchant
      && (u.intents[i].status == t.intents[i].status
          || (t.intents[i].status != Paid && u.intents[i].status in {Confirming, Paid}))
  {
    hide Inv, RequiredConfirmations, SettlePaid;
    if Commits(s) && HasExactMatch(t, s.event) {
      ExactIsJoined(t, s.event);
      ConfirmOutcome(cfg, t, s);
      SettlingLeaves(SetConfirmations(t, s.event, s.confirmations), t.matches[s.event].option, s.period);
      if t.intents[t.matches[s.event].intent].status == Paid {
        NotPaidBefore(cfg, t, s);
      }
    }
  }

  lemma NotPaidBefore(cfg: Config, t: Tables, s: Step)
    requires Possible(cfg, t, s) && s.Confirm? && HasExactMatch(t, s.event) && Joined(t, t.matches[s.event].option)
    requires t.intents[t.matches[s.event].intent].status == Paid
    ensures Do(cfg, t, s).0.intents == t.intents
  {
    hide RequiredConfirmations, SettlePaid;
  }

  lemma OffersMoveLegally(cfg: Config, t: Tables, s: Step, i: string)
    requires Inv(t) && Possible(cfg, t, s) && (s.Create? || s.Refresh?) && i in t.intents
    ensures var u := Do(cfg, t, s).0;
      i in u.intents && u.intents[i].merchant == t.intents[i].merchant
      && (u.intents[i].status == t.intents[i].status || LegalMove(s, t.intents[i], u.intents[i].status))
  {
    hide Inv, OnlyOffers, CreateIntent, HasMatch, OfferOrFail, Reopen, SupersedeOffered, ReleaseUnsettled;
    if s.Create? {
      if CreateIntent(t, s.merchant, s.order, s.requested, s.terms).Some? {
        CreateOnlyOffers(t, s.merchant, s.order, s.requested, s.terms);
      }
    } else {
      RefreshOnlyOffers(t, s.order, s.now, s.terms);
    }
  }

  lemma SweepsMoveLegally(cfg: Config, t: Tables, s: Step, i: string)
    requires Possible(cfg, t, s) && !s.Observe? && !s.Confirm? && !s.Create? && !s.Refresh? && i in t.intents
    ensures var u := Do(cfg, t, s).0;
      i in u.intents && u.intents[i].merchant == t.intents[i].merchant
      && (u.intents[i].status == t.intents[i].status || LegalMove(s, t.intents[i], u.intents[i].status))
  {
    hide Trim;
  }

  /** No intent disappears or changes hands, and each status change is one its transaction is entitled to. */
  lemma IntentsMoveLegally(cfg: Config, t: Tables, s: Step, i: string)
    requires Inv(t) && Possible(cfg, t, s) && i in t.intents
    ensures var u := Do(cfg, t, s).0;
      i in u.intents && u.intents[i].merchant == t.intents[i].merchant
      && (u.intents[i].status == t.intents[i].status || LegalMove(s, t.intents[i], u.intents[i].status))
  {
    hide Inv, IsFirstRow, ObserveMovesAt, EventTime, Run;
    if s.Observe? {
      if Commits(s) {
        if s.ev.id in t.events {
          ReplayLeavesAll(cfg, t, s);
        } else {
          ObserveMovesLegally(cfg, t, s, i);
        }
      }
    } else if s.Confirm? {
      ConfirmMovesLegally(cfg, t, s, i);
    } else if s.Create? || s.Refresh? {
      OffersMoveLegally(cfg, t, s, i);
    } else {
      SweepsMoveLegally(cfg, t, s, i);
    }
  }

  // ------------------------------------------------------------- leaving Paid

  /** A second exact transfer: the event's key is held by an option of the intent. */
  predicate PaysAgainTo(t: Tables, ev: ChainEvent, i: string) {
    exists o :: o in t.reservations && o in Holders(t, KeyOf(ev)) && t.options[o].intent == i
  }

  predicate SendsToReview(s: Step, i: string) {
    s.Review? && s.order == i && i != "" && s.reason != "" && Trim(s.action, GoSpace) in {"", "needs_review"}
  }

  lemma VerdictOnPaid(cfg: Config, t: Tables, ev: ChainEvent, at: Time, first: OptionId, i: string)
    requires Inv(t) && IsFirstRow(cfg, t, KeyOf(ev), at, first) && IsPaid(t, i)
    ensures var v := Classify(cfg, t, ev, at, first);
      && (PaysAgainTo(t, ev, i) ==> v == SecondTransfer(first) && Joined(t, first) && t.options[first].intent == i)
      && (!PaysAgainTo(t, ev, i) ==>
            v.Unknown? || v.ReleasedAmbiguous? || (Joined(t, v.option) && t.options[v.option].intent != i))
  {
    hide Rows, Backed, Gated, ExactUnique, KeyOf, ExactNext, Wrap64;
    var key := KeyOf(ev);
    if PaysAgainTo(t, ev, i) {
      var o :| o in t.reservations && o in Holders(t, key) && t.options[o].intent == i;
      assert o == first;
    }
  }

  lemma ObserveOnPaid(cfg: Config, t: Tables, s: Step, i: string)
    requires Inv(t) && Possible(cfg, t, s) && s.Observe? && Commits(s) && s.ev.id !in t.events && IsPaid(t, i)
    ensures !IsPaid(Do(cfg, t, s).0, i) <==> PaysAgainTo(t, s.ev, i)
    ensures PaysAgainTo(t, s.ev, i) ==> Do(cfg, t, s).0.intents[i].status == DuplicatePayment
  {
    hide Inv, Classify, EventTime, IsFirstRow, Effect, PaysAgainTo;
    var at := EventTime(s.ev, s.now);
    var v := Classify(cfg, t, s.ev, at, s.first);
    VerdictFits(cfg, t, s.ev, at, s.first);
    VerdictOnPaid(cfg, t, s.ev, at, s.first, i);
    AddEventKeepsInv(t, s.ev);
    EffectMovesOne(AddEvent(t, s.ev), s.ev.id, v, s.period);
  }

  lemma SweepsLeavePaidAlone(cfg: Config, t: Tables, s: Step, i: string)
    requires Possible(cfg, t, s) && !s.Observe? && !s.Confirm? && !s.Create? && !s.Refresh? && IsPaid(t, i)
    ensures IsPaid(Do(cfg, t, s).0, i) <==> !(Commits(s) && SendsToReview(s, i))
  {
    hide Trim;
  }

  /**
   * Paid is not final, and this is exactly when it is left: by a fresh exact transfer to an amount still held for
   * the same intent, or by an operator who sends the intent to review. Expiry, refresh, creation, confirmation
   * updates, late and near transfers never take an intent out of Paid.
   */
  lemma PaidIsLeftExactly(cfg: Config, t: Tables, s: Step, i: string)
    requires Inv(t) && Possible(cfg, t, s) && IsPaid(t, i)
    ensures !IsPaid(Do(cfg, t, s).0, i) <==>
            Commits(s) && (SendsToReview(s, i) || (s.Observe? && s.ev.id !in t.events && PaysAgainTo(t, s.ev, i)))
  {
    hide Inv, IsFirstRow, PaysAgainTo, Run, ObserveMoves;
    if s.Observe? && Commits(s) && s.ev.id !in t.events {
      ObserveOnPaid(cfg, t, s, i);
    } else if s.Observe? && Commits(s) {
      ReplayLeavesAll(cfg, t, s);
    } else if s.Observe? || s.Confirm? || s.Create? || s.Refresh? {
      IntentsMoveLegally(cfg, t, s, i);
    } else {
      SweepsLeavePaidAlone(cfg, t, s, i);
    }
  }

  // ---------------------------------------------------------- times and addresses

  /**
   * A block stamp later than a million million counts milliseconds, and another positive one seconds; so a stamp in
   * seconds and the same in milliseconds mean the same time if and only if it is later than a thousand million seconds.
   * One that is not positive counts for nothing: then the time of observation does, and without one the clock.
   */
  lemma StampUnitsAgreeExactly(ev: ChainEvent, seconds: Int64, millis: Int64, now: Time)
    requires 0 < seconds <= 1_000_000_000_000 < millis
    ensures EventTime(ev.(stamp := Some(millis)), now) == millis
    ensures EventTime(ev.(stamp := Some(seconds)), now) == seconds * 1000
    ensures EventTime(ev.(stamp := Some(seconds * 1000)), now) == seconds * 1000 <==> seconds > 1_000_000_000
    ensures EventTime(ev.(stamp := Some(0 - seconds)), now) == EventTime(ev.(stamp := None), now)
    ensures EventTime(ev.(stamp := Some(0)), now) == EventTime(ev.(stamp := None), now)
    ensures forall seen :: EventTime(ev.(stamp := None, observedAt := Some(seen)), now) == seen
    ensures EventTime(ev.(stamp := None, observedAt := None), now) == now
  {
  }

  lemma LowerKeepsSolid(s: string)
    requires Solid(s, GoSpace)
    ensures Solid(Lower(s), GoSpace)
  {
    assert s != "" ==> !GoSpace(LowerChar(s[0])) && !GoSpace(LowerChar(s[|s| - 1]));
  }

  lemma LowerTwice(s: string)
    ensures Lower(Lower(s)) == Lower(s)
  {
  }

  predicate IsHexAddress(a: string) {
    "0x" <= Lower(Trim(a, GoSpace))
  }

  /**
   * Normalising is idempotent, and two addresses become one exactly when, up to the space around them, they differ
   * at most in case on BSC or when both start with 0x, and are the same text otherwise. An address is normal exactly
   * when it has no space around it and, on BSC or with 0x, no upper case.
   */
  lemma NormalAddressesAgreeExactly(network: string, a: string, b: string)
    ensures NormalizeAddress(network, NormalizeAddress(network, a)) == NormalizeAddress(network, a)
    ensures NormalizeAddress(network, a) == NormalizeAddress(network, b) <==>
            var (t, u) := (Trim(a, GoSpace), Trim(b, GoSpace));
            if network == BSC || (IsHexAddress(a) && IsHexAddress(b)) then Lower(t) == Lower(u) else t == u
    ensures NormalizeAddress(network, a) == a <==>
            Trim(a, GoSpace) == a && (network == BSC || IsHexAddress(a) ==> Lower(a) == a)
  {
    hide Trim, Lower, GoSpace, Solid;
    var t, u := Trim(a, GoSpace), Trim(b, GoSpace);
    TrimShape(a, GoSpace);
    LowerKeepsSolid(t);
    TrimOfSolid(t, GoSpace);
    TrimOfSolid(Lower(t), GoSpace);
    LowerTwice(t);
    LowerTwice(u);
  }
}
