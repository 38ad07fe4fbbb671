/**
 * The payment tables as the matcher, the handlers and the worker update them: row by row, inside transactions
 * that either commit and then emit, or roll back. Each method is proved against the ledger's specification.
 */
module PaymentStore {
  import opened Basics
  import opened Text
  import opened Checkout
  import opened Ledger
  import opened Offers
  import opened Machine
  import opened Invariant
  import opened Preservation
  import opened Settlement

  /** A row with the least rank, as an ORDER BY puts it first; ties are the database's choice. */
  method LeastRanked(rows: set<OptionId>, rank: OptionId -> int) returns (first: OptionId)
    requires rows != {}
    ensures first in rows && forall o :: o in rows ==> rank(first) <= rank(o)
  {
    first :| first in rows;
    var rest := rows - {first};
    while rest != {}
      invariant rest <= rows && first in rows && first !in rest
      invariant forall o :: o in rows && o !in rest ==> rank(first) <= rank(o)
      decreases |rest|
    {
      var o :| o in rest;
      rest := rest - {o};
      if rank(o) < rank(first) {
        first := o;
      }
    }
  }

  lemma HeldExactlyWhenTaken(t: Tables, key: Key)
    ensures key.amount in Taken(t, key.destination, key.network, key.token) <==>
            exists o :: o in t.reservations && IsHeld(t.reservations[o].status) && t.reservations[o].key == key
  {
  }

  lemma CreateUnfolds(t: Tables, merchant: string, i: string, requested: seq<string>, terms: Terms)
    ensures i !in t.orders || t.orders[i].merchant != merchant ==> CreateIntent(t, merchant, i, requested, terms).None?
    ensures i in t.orders && t.orders[i].merchant == merchant ==>
      var order := t.orders[i].expiresAt;
      var expires := if order.Some? && order.value < terms.expiresAt then order.value else terms.expiresAt;
      CreateIntent(t, merchant, i, requested, terms)
        == OfferOrFail(SetOrder(EnsureIntent(t, i, expires), i, Awaiting), i, terms.(expiresAt := expires),
                       if requested == [] then terms.configured else requested)
  {
    hide OfferOrFail;
  }

  lemma NearUnfolds(t: Tables, e: string, key: Key, o: OptionId, period: string)
    requires e in t.events && Joined(t, o)
    ensures var diff := Wrap64(key.amount - t.reservations[o].key.amount);
      var (kind, next) :=
        if |Nears(t, key)| > 1 then (AmbiguousMatch, NeedsReview)
        else if diff < 0 then (UnderpaidMatch, Underpaid)
        else if diff > 0 then (OverpaidMatch, Overpaid)
        else (RoundedMatch, NeedsReview);
      var v := ClassifyNear(t, key, o);
      && Effect(t, e, v, period) == Transition(t, e, o, next, kind)
      && ResultOf(t, v) == Told(o, kind, next)
      && Emitted(t, v) == [Emission(IntentOf(t, o).merchant, t.options[o].intent, REVIEW_EVENT)]
  {
    hide Nears, Transition, Wrap64;
  }

  /** The queries of Ingest do not read the event that was just inserted. */
  lemma QueriesIgnoreEvents(cfg: Config, t: Tables, ev: ChainEvent, key: Key, at: Time)
    ensures var u := AddEvent(t, ev);
      && Holders(u, key) == Holders(t, key) && Releases(cfg, u, key, at) == Releases(cfg, t, key, at)
      && Nears(u, key) == Nears(t, key)
  {
    hide IsNear, InLateWindow;
  }

  lemma FirstRowIgnoresEvents(cfg: Config, t: Tables, ev: ChainEvent, key: Key, at: Time, first: OptionId)
    ensures var u := AddEvent(t, ev);
      && (IsFirstHolder(u, key, first) <==> IsFirstHolder(t, key, first))
      && (IsFirstRelease(cfg, u, key, at, first) <==> IsFirstRelease(cfg, t, key, at, first))
      && (IsFirstNear(u, key, first) <==> IsFirstNear(t, key, first))
  {
    QueriesIgnoreEvents(cfg, t, ev, key, at);
    hide Holders, Releases, Nears;
  }

  lemma VerdictsIgnoreEvents(cfg: Config, t: Tables, ev: ChainEvent, key: Key, at: Time, o: OptionId)
    ensures var u := AddEvent(t, ev);
      && (Joined(u, o) <==> Joined(t, o))
      && (Joined(t, o) ==> ClassifyHeld(cfg, u, ev, at, o) == ClassifyHeld(cfg, t, ev, at, o))
      && ReleasedVerdict(cfg, u, key, at, o) == ReleasedVerdict(cfg, t, key, at, o)
      && (o in t.reservations ==> ClassifyNear(u, key, o) == ClassifyNear(t, key, o))
  {
    QueriesIgnoreEvents(cfg, t, ev, key, at);
    hide Holders, Releases, Nears, Wrap64, ExactNext;
  }

  /** A fresh event is ingested by the verdict on the tables before it was added. */
  lemma IngestByVerdict(cfg: Config, t: Tables, ev: ChainEvent, now: Time, first: OptionId, period: string, v: Verdict)
    requires ev.id !in t.events && IsFirstRow(cfg, t, KeyOf(ev), EventTime(ev, now), first)
    requires v == Classify(cfg, t, ev, EventTime(ev, now), first) && (!v.Unknown? ==> Joined(t, v.option))
    ensures var u := AddEvent(t, ev);
      Ledger.Ingest(cfg, t, ev, now, first, period) == (Effect(u, ev.id, v, period), ResultOf(u, v), Emitted(u, v))
  {
    hide Classify, IsFirstRow, EventTime, Effect;
  }

  lemma ConfirmUnfolds(cfg: Config, t: Tables, e: string, confirmations: int, period: string)
    requires Inv(t)
    ensures !HasExactMatch(t, e) ==> Confirmed(cfg, t, e, confirmations, period) == (t, [])
    ensures HasExactMatch(t, e) ==>
      && var (i, o) := (t.matches[e].intent, t.matches[e].option);
      && var counted := SetConfirmations(t, e, confirmations);
      && var next := ConfirmedStatus(cfg, t.events[e].key.network, confirmations);
      && Joined(counted, o) && t.options[o].intent == i
      && i in SettlePaid(counted, i, o, period).intents
      && Confirmed(cfg, t, e, confirmations, period) ==
           if t.intents[i].status in {Paid, next} then (counted, [])
           else (SetStatus(if next == Paid then SettlePaid(counted, i, o, period) else counted, i, next),
                 [Emission(t.intents[i].merchant, i, StatusEvent(next))])
  {
    hide Inv, RequiredConfirmations, StatusEvent;
    if HasExactMatch(t, e) {
      ExactIsJoined(t, e);
    }
  }

  lemma ExactUnfolds(t: Tables, e: string, o: OptionId, next: Status, period: string)
    requires e in t.events && Joined(t, o) && t.reservations[o].status == Active
    ensures var (v, locked) := (Exact(o, next), Lock(Transition(t, e, o, next, ExactMatch), o));
      && Joined(locked, o) && locked.events == t.events && t.options[o].intent in locked.intents
      && var settled := if next == Paid then SettlePaid(locked, t.options[o].intent, o, period) else locked;
      && settled.events == t.events
      && Effect(t, e, v, period) == MarkProcessed(settled, e)
      && ResultOf(t, v) == Told(o, ExactMatch, next)
      && Emitted(t, v) == [Emission(IntentOf(t, o).merchant, t.options[o].intent, StatusEvent(next))]
  {
    TransitionRows(t, e, o, next, ExactMatch);
    SettlingLeaves(Lock(Transition(t, e, o, next, ExactMatch), o), o, period);
    hide Transition, SettlePaid, StatusEvent;
  }

  class PaymentStore {
    const cfg: Config
    var orders: map<string, Order>
    var intents: map<string, Intent>
    var options: map<OptionId, PayOption>
    var reservations: map<OptionId, Reservation>
    var events: map<string, EventRow>
    var matches: map<string, Match>
    var usage: map<(string, string), nat>
    var gaps: seq<Gap>
    var nextOption: OptionId

    /** What was emitted after commits, and the buffer of the transaction under way. */
    var sent: seq<Emission>
    var pending: seq<Emission>

    function View(): Tables
      reads this
    {
      Tables(orders, intents, options, reservations, events, matches, usage, gaps, nextOption)
    }

    ghost predicate Valid()
      reads this
    {
      Inv(View()) && pending == []
    }

    constructor (cfg: Config)
      ensures this.cfg == cfg && View() == EMPTY_TABLES && sent == [] && Valid()
    {
      this.cfg := cfg;
      orders, intents, options, reservations := map[], map[], map[], map[];
      events, matches, usage, gaps, nextOption := map[], map[], map[], [], 0;
      sent, pending := [], [];
    }

    method Restore(t: Tables)
      modifies this
      ensures View() == t && sent == old(sent) && pending == []
    {
      orders, intents, options, reservations := t.orders, t.intents, t.options, t.reservations;
      events, matches, usage, gaps, nextOption := t.events, t.matches, t.usage, t.gaps, t.nextOption;
      pending := [];
    }

    /** After a commit the buffered emissions go out; after a rollback they are dropped with the changes. */
    method Finish(saved: Tables, commits: bool)
      modifies this
      ensures pending == []
      ensures commits ==> View() == old(View()) && sent == old(sent) + old(pending)
      ensures !commits ==> View() == saved && sent == old(sent)
    {
      if !commits {
        Restore(saved);
        return;
      }
      sent := sent + pending;
      pending := [];
    }

    method Emit(e: Emission)
      modifies this`pending
      ensures pending == old(pending) + [e]
    {
      pending := pending + [e];
    }

    // ------------------------------------------------------------------ matcher

    method Transition(e: string, o: OptionId, to: Status, kind: MatchKind)
      requires Joined(View(), o)
      modifies this`intents, this`matches
      ensures View() == Ledger.Transition(old(View()), e, o, to, kind)
    {
      var i := options[o].intent;
      intents := intents[i := intents[i].(status := to)];
      if e !in matches {
        matches := matches[e := Match(i, o, kind)];
      }
    }

    /** The amount is taken the moment it is matched, long before it settles. */
    method Lock(o: OptionId)
      requires o in reservations
      modifies this`reservations
      ensures View() == Ledger.Lock(old(View()), o)
      ensures reservations.Keys == old(reservations.Keys)
    {
      if reservations[o].status == Active {
        reservations := reservations[o := reservations[o].(status := Matched)];
      }
    }

    method MarkProcessed(e: string)
      requires e in events
      modifies this`events
      ensures View() == Ledger.MarkProcessed(old(View()), e)
    {
      events := events[e := events[e].(processed := true)];
    }

    method SettlePaid(i: string, o: OptionId, period: string)
      requires Joined(View(), o) && i in intents
      modifies this`reservations, this`options, this`orders, this`usage
      ensures View() == Ledger.SettlePaid(old(View()), i, o, period)
    {
      if IsHeld(reservations[o].status) {
        reservations := reservations[o := reservations[o].(status := Consumed)];
      } else {
        assert reservations[o := reservations[o]] == reservations;
      }
      if options[o].status != Settled {
        options := options[o := options[o].(status := Settled)];
      } else {
        assert options[o := options[o].(status := Settled)] == options;
      }
      if i in orders {
        orders := orders[i := orders[i].(status := Paid)];
      }
      var k := (intents[i].merchant, period);
      usage := usage[k := (if k in usage then usage[k] else 0) + 1];
    }

    method LookupHeld(key: Key) returns (found: Option<OptionId>)
      ensures found.None? <==> Holders(View(), key) == {}
      ensures found.Some? ==> IsFirstHolder(View(), key, found.value)
      ensures found.Some? ==> Joined(View(), found.value) && IsHeld(reservations[found.value].status)
    {
      var rows := Holders(View(), key);
      if rows == {} {
        return None;
      }
      var held := reservations;
      var first := LeastRanked(rows, o => if o in held && held[o].status == Active then 0 else 1);
      return Some(first);
    }

    method LookupReleased(key: Key, at: Time) returns (first: OptionId)
      requires Releases(cfg, View(), key, at) != {}
      ensures IsFirstRelease(cfg, View(), key, at, first) && Joined(View(), first)
    {
      var released := reservations;
      first := LeastRanked(Releases(cfg, View(), key, at), o => if o in released then 0 - released[o].expiresAt else 0);
      hide InLateWindow;
      forall o | o in Releases(cfg, View(), key, at)
        ensures released[o].expiresAt <= released[first].expiresAt
      {
      }
    }

    /** False when no recently released reservation has the key; then nothing happened. */
    method ReconcileReleasedExact(e: string, key: Key, at: Time, period: string)
      returns (handled: bool, result: MatchResult, first: OptionId)
      requires e in events
      modifies this`intents, this`matches, this`events, this`pending
      ensures handled <==> Releases(cfg, old(View()), key, at) != {}
      ensures handled ==>
        && IsFirstRelease(cfg, old(View()), key, at, first) && Joined(old(View()), first)
        && var v := ReleasedVerdict(cfg, old(View()), key, at, first);
        && View() == Effect(old(View()), e, v, period)
        && result == ResultOf(old(View()), v)
        && pending == old(pending) + Emitted(old(View()), v)
      ensures !handled ==> View() == old(View()) && pending == old(pending)
    {
      var rows := Releases(cfg, View(), key, at);
      if rows == {} {
        return false, NOTHING, 0;
      }
      first := LookupReleased(key, at);
      hide Releases, IsFirstRelease, Ledger.Transition;
      var i := options[first].intent;
      var merchant := intents[i].merchant;
      if |rows| > 1 {
        MarkProcessed(e);
        Emit(Emission(merchant, "", UNMATCHED_EVENT));
        return true, NOTHING.(kind := Some(AmbiguousLate), ignored := true), first;
      }
      Transition(e, first, LatePayment, LateMatch);
      MarkProcessed(e);
      Emit(Emission(merchant, i, REVIEW_EVENT));
      return true, Told(first, LateMatch, LatePayment), first;
    }

    method LookupNearest(key: Key) returns (first: OptionId)
      requires Nears(View(), key) != {}
      ensures IsFirstNear(View(), key, first) && Joined(View(), first)
    {
      var t := View();
      first := LeastRanked(Nears(t, key), o => if o in t.reservations then Distance(t, o, key) else 0);
      hide IsNear, Distance;
      forall o | o in Nears(t, key)
        ensures Distance(t, first, key) <= Distance(t, o, key)
      {
      }
    }

    method HandleUnmatched(e: string, key: Key, period: string) returns (result: MatchResult, first: OptionId)
      requires e in events
      modifies this`intents, this`matches, this`events, this`pending
      ensures Nears(old(View()), key) != {} ==> IsFirstNear(old(View()), key, first) && Joined(old(View()), first)
      ensures var v := if Nears(old(View()), key) == {} then Unknown else ClassifyNear(old(View()), key, first);
        && View() == Effect(old(View()), e, v, period)
        && result == ResultOf(old(View()), v)
        && pending == old(pending) + Emitted(old(View()), v)
    {
      var rows := Nears(View(), key);
      if rows == {} {
        MarkProcessed(e);
        return NOTHING.(ignored := true), 0;
      }
      first := LookupNearest(key);
      NearUnfolds(View(), e, key, first, period);
      hide Nears, IsFirstNear, Wrap64, Ledger.Transition, Effect, ResultOf, Emitted, ClassifyNear;
      var i := options[first].intent;
      var merchant := intents[i].merchant;
      var next, kind := NeedsReview, AmbiguousMatch;
      if |rows| == 1 {
        var diff := Wrap64(key.amount - reservations[first].key.amount);
        if diff < 0 {
          next, kind := Underpaid, UnderpaidMatch;
        } else if diff > 0 {
          next, kind := Overpaid, OverpaidMatch;
        } else {
          next, kind := NeedsReview, RoundedMatch;
        }
      }
      Transition(e, first, next, kind);
      Emit(Emission(merchant, i, REVIEW_EVENT));
      return Told(first, kind, next), first;
    }

    /** The exact lookup found first: lock and settle, or say why not. */
    method IngestHeld(ev: ChainEvent, at: Time, period: string, first: OptionId) returns (result: MatchResult)
      requires ev.id in events && ev.id !in matches && Joined(View(), first) && IsHeld(reservations[first].status)
      modifies this
      ensures var v := ClassifyHeld(cfg, old(View()), ev, at, first);
        && View() == Effect(old(View()), ev.id, v, period)
        && result == ResultOf(old(View()), v)
        && pending == old(pending) + Emitted(old(View()), v) && sent == old(sent)
    {
      hide Ledger.Transition, Ledger.SettlePaid, RequiredConfirmations;
      var i := options[first].intent;
      var status, merchant := intents[i].status, intents[i].merchant;
      if reservations[first].status == Matched || status in {Paid, Seen, Confirming} {
        var next := DuplicatePayment;
        if status == Seen || status == Confirming {
          next := NeedsReview;
        }
        Transition(ev.id, first, next, DuplicateMatch);
        Emit(Emission(merchant, i, REVIEW_EVENT));
        return Told(first, DuplicateMatch, next);
      }
      if at > intents[i].expiresAt && status != Paid {
        Transition(ev.id, first, LatePayment, LateMatch);
        MarkProcessed(ev.id);
        Emit(Emission(merchant, i, REVIEW_EVENT));
        return Told(first, LateMatch, LatePayment);
      }
      result := IngestExact(ev, period, first);
    }

    method StatusByConfirmations(ev: ChainEvent) returns (next: Status, eventType: string)
      ensures next == ExactNext(cfg, ev) && eventType == StatusEvent(next)
    {
      var needed := RequiredConfirmations(cfg, ev.network);
      next, eventType := Seen, SEEN_EVENT;
      if ev.confirmations >= needed {
        next, eventType := Paid, PAID_EVENT;
      } else if ev.confirmations > 0 {
        next, eventType := Confirming, CONFIRMING_EVENT;
      }
    }

    /** An exact match: lock the amount at once, settle when the confirmations suffice. */
    method IngestExact(ev: ChainEvent, period: string, first: OptionId) returns (result: MatchResult)
      requires ev.id in events && ev.id !in matches && Joined(View(), first) && reservations[first].status == Active
      modifies this
      ensures var v := Exact(first, ExactNext(cfg, ev));
        && View() == Effect(old(View()), ev.id, v, period)
        && result == ResultOf(old(View()), v)
        && pending == old(pending) + Emitted(old(View()), v) && sent == old(sent)
    {
      var i := options[first].intent;
      var merchant := intents[i].merchant;
      var next, eventType := StatusByConfirmations(ev);
      hide ExactNext, StatusEvent;
      ExactUnfolds(View(), ev.id, first, next, period);
      hide Ledger.Transition, Ledger.Lock, Ledger.SettlePaid, Ledger.MarkProcessed, RequiredConfirmations,
           Effect, Emitted, ResultOf;
      Transition(ev.id, first, next, ExactMatch);
      TransitionRows(old(View()), ev.id, first, next, ExactMatch);
      Lock(first);
      if next == Paid {
        SettlePaid(i, first, period);
      }
      MarkProcessed(ev.id);
      Emit(Emission(merchant, i, eventType));
      return Told(first, ExactMatch, next);
    }

    /** first is the row the query that found any returned first. */
    method Ingest(ev: ChainEvent, now: Time, period: string, commits: bool)
      returns (result: MatchResult, ok: bool, first: OptionId)
      requires Valid()
      modifies this
      ensures Valid()
      ensures ok <==> commits && IsValidEvent(ev)
      ensures !ok ==> View() == old(View()) && sent == old(sent)
      ensures ok ==>
        && (ev.id !in old(events) ==> IsFirstRow(cfg, old(View()), KeyOf(ev), EventTime(ev, now), first))
        && var (t, r, emitted) := Ledger.Ingest(cfg, old(View()), ev, now, first, period);
        && View() == t && result == r && sent == old(sent) + emitted
    {
      result, first := NOTHING, 0;
      if ev.id == "" || ev.network == "" || ev.token == "" || ev.to == "" {
        return NOTHING, false, 0;
      }
      var saved := View();
      result, first := IngestInTransaction(ev, now, period);
      Finish(saved, commits);
      ok := commits;
      if ok {
        IngestKeepsInv(cfg, saved, ev, now, first, period);
      }
    }

    method IngestInTransaction(ev: ChainEvent, now: Time, period: string) returns (result: MatchResult, first: OptionId)
      requires Valid()
      modifies this
      ensures ev.id !in old(events) ==> IsFirstRow(cfg, old(View()), KeyOf(ev), EventTime(ev, now), first)
      ensures View() == Ledger.Ingest(cfg, old(View()), ev, now, first, period).0
      ensures result == Ledger.Ingest(cfg, old(View()), ev, now, first, period).1
      ensures pending == Ledger.Ingest(cfg, old(View()), ev, now, first, period).2
      ensures sent == old(sent)
    {
      hide Inv, Effect, EventTime, KeyOf, Holders, Releases, Nears, IsFirstHolder, IsFirstRelease, IsFirstNear,
           Emitted, ResultOf, ClassifyHeld, ClassifyNear, ReleasedVerdict;
      ghost var t := View();
      if ev.id in events {
        return NOTHING.(duplicate := true, ignored := true), 0;
      }
      AddEventKeepsInv(t, ev);
      var key, at := KeyOf(ev), EventTime(ev, now);
      events := events[ev.id := EventRow(key, ev.confirmations, false)];
      ghost var u := View();
      QueriesIgnoreEvents(cfg, t, ev, key, at);
      var held := LookupHeld(key);
      var handled := held.Some?;
      if handled {
        first := held.value;
        result := IngestHeld(ev, at, period, first);
      } else {
        handled, result, first := ReconcileReleasedExact(ev.id, key, at, period);
        if !handled {
          result, first := HandleUnmatched(ev.id, key, period);
        }
      }
      FirstRowIgnoresEvents(cfg, t, ev, key, at, first);
      VerdictsIgnoreEvents(cfg, t, ev, key, at, first);
      VerdictFits(cfg, t, ev, at, first);
      IngestByVerdict(cfg, t, ev, now, first, period, Classify(cfg, t, ev, at, first));
    }

    method ApplyConfirmations(e: string, confirmations: int, period: string, commits: bool)
      requires Valid()
      modifies this
      ensures Valid()
      ensures !commits ==> View() == old(View()) && sent == old(sent)
      ensures commits ==>
        var (t, emitted) := Confirmed(cfg, old(View()), e, confirmations, period);
        View() == t && sent == old(sent) + emitted
    {
      var saved := View();
      ConfirmInTransaction(e, confirmations, period);
      Finish(saved, commits);
      if commits {
        ConfirmKeepsInv(cfg, saved, e, confirmations, period);
      }
    }

    method ConfirmInTransaction(e: string, confirmations: int, period: string)
      requires Valid()
      modifies this
      ensures (View(), pending) == Confirmed(cfg, old(View()), e, confirmations, period)
      ensures sent == old(sent)
    {
      hide Inv, RequiredConfirmations, Ledger.SettlePaid, Confirmed, Ledger.ApplyConfirmations;
      ConfirmUnfolds(cfg, View(), e, confirmations, period);
      if !(e in events && e in matches && matches[e].kind == ExactMatch && matches[e].intent in intents) {
        return;
      }
      ExactIsJoined(View(), e);
      var m := matches[e];
      var status, merchant := intents[m.intent].status, intents[m.intent].merchant;
      events := events[e := events[e].(confirmations := confirmations)];
      var needed := RequiredConfirmations(cfg, events[e].key.network);
      if status == Paid {
        return;
      }
      var next, evt := Confirming, CONFIRMING_EVENT;
      if confirmations >= needed {
        next, evt := Paid, PAID_EVENT;
      }
      if next == status {
        return;
      }
      if next == Paid {
        SettlingLeaves(View(), m.option, period);
        SettlePaid(m.intent, m.option, period);
      }
      intents := intents[m.intent := intents[m.intent].(status := next)];
      Emit(Emission(merchant, m.intent, evt));
      assert pending == [Emission(merchant, m.intent, evt)];
    }

    // ------------------------------------------------------------ reservations

    predicate KeyIsHeld(key: Key)
      reads this
    {
      exists o :: o in reservations && IsHeld(reservations[o].status) && reservations[o].key == key
    }

    /** Tries candidates until one does not conflict with the partial unique index. */
    method ClaimUniqueReservation(o: OptionId, destination: string, network: string, token: string, base: Int64,
                                  expiresAt: Time, draws: nat -> nat, maxAttempts: int)
      returns (amount: Option<Int64>)
      modifies this`reservations, this`options
      ensures match Claim(old(View()), o, destination, network, token, base, expiresAt, draws, maxAttempts)
              case None => amount == None && View() == old(View())
              case Some(claimed) => amount == Some(claimed.1) && View() == claimed.0
    {
      if o !in options || o in reservations {
        return None;
      }
      var attempts := DEFAULT_ATTEMPTS;
      if maxAttempts > 0 {
        attempts := maxAttempts;
      }
      ghost var taken := Taken(View(), destination, network, token);
      hide Wrap64, Taken, IsHeld;
      for i := 0 to attempts
        invariant View() == old(View())
        invariant FirstFree(taken, base, draws, 0, attempts) == FirstFree(taken, base, draws, i, attempts)
      {
        var candidate := Wrap64(base + (i + 1));
        if i > 16 {
          candidate := Wrap64(base + (draws(i) % SPREAD + JUMP));
        }
        var key := Key(destination, network, token, candidate);
        HeldExactlyWhenTaken(View(), key);
        assert candidate == Candidate(base, i, draws(i));
        if !KeyIsHeld(key) {
          reservations := reservations[o := Reservation(key, Active, expiresAt)];
          options := options[o := options[o].(key := options[o].key.(amount := candidate))];
          return Some(candidate);
        }
      }
      return None;
    }

    /** Only offers on effective networks; an error leaves the rest to the caller's rollback. */
    method InsertPaymentOptions(i: string, terms: Terms, requested: seq<string>) returns (created: nat, ok: bool)
      modifies this`reservations, this`options, this`nextOption
      ensures var networks := OfferedNetworks(requested, Effective(terms.configured, terms.health, old(gaps)));
              match OfferAll(old(View()), i, terms, networks)
              case None => !ok
              case Some(u) => ok && View() == u && created == nextOption - old(nextOption)
    {
      var effective := EffectiveNetworks(terms.configured, terms.health, gaps);
      var networks := effective;
      if requested != [] {
        networks := FilterRequested(requested, effective);
      }
      assert networks == OfferedNetworks(requested, effective);
      hide OfferOn, OfferAll, Effective, OfferedNetworks, Keep, NormalNetworks;
      OfferAllNone(View(), i, terms, networks);
      created := 0;
      for k := 0 to |networks|
        invariant OfferAll(old(View()), i, terms, networks[..k]) == Some(View())
        invariant created == nextOption - old(nextOption)
      {
        OfferAllStep(old(View()), i, terms, networks, k);
        var inserted;
        ok, inserted := InsertOne(i, terms, networks[k]);
        if !ok {
          OfferPrefixFails(old(View()), i, terms, networks, k + 1);
          return created, false;
        }
        if inserted {
          created := created + 1;
        }
      }
      assert networks[..|networks|] == networks;
      return created, true;
    }

    /** No option created is an error of the transaction too. */
    method OfferOptions(i: string, terms: Terms, requested: seq<string>) returns (ok: bool)
      modifies this`reservations, this`options, this`nextOption
      ensures match OfferOrFail(old(View()), i, terms, requested)
              case None => !ok
              case Some(u) => ok && View() == u
    {
      hide OfferAll, Effective, OfferedNetworks;
      var created;
      created, ok := InsertPaymentOptions(i, terms, requested);
      ok := ok && created > 0;
    }

    /** A network without a wallet is skipped. */
    method InsertOne(i: string, terms: Terms, network: string) returns (ok: bool, inserted: bool)
      modifies this`reservations, this`options, this`nextOption
      ensures match OfferOn(old(View()), i, terms, network)
              case None => !ok
              case Some(u) => ok && View() == u && nextOption == old(nextOption) + if inserted then 1 else 0
    {
      if network !in terms.wallets {
        return true, false;
      }
      var w := terms.wallets[network];
      var o := nextOption;
      options := options[o := PayOption(i, Key(w.address, network, w.contract, terms.base), terms.base,
                                        terms.expiresAt, Offered)];
      nextOption := nextOption + 1;
      var amount := ClaimUniqueReservation(o, w.address, network, w.contract, terms.base, terms.expiresAt,
                                           terms.draws(o), DEFAULT_ATTEMPTS);
      return amount.Some?, true;
    }

    method CreateOrder(i: string, merchant: string, deadline: Option<Time>)
      requires Valid()
      modifies this
      ensures Valid() && View() == AddOrder(old(View()), i, merchant, deadline) && sent == old(sent)
    {
      hide Inv, HasSettled;
      OrdersKeepInv(View(), AddOrder(View(), i, merchant, deadline));
      if i !in orders {
        orders := orders[i := Order(merchant, Created, deadline)];
      }
    }

    method OpenIntent(i: string, expiresAt: Time)
      requires i in orders
      modifies this`intents, this`orders
      ensures View() == SetOrder(EnsureIntent(old(View()), i, expiresAt), i, Awaiting)
    {
      if i !in intents {
        intents := intents[i := Intent(orders[i].merchant, Awaiting, expiresAt)];
      }
      orders := orders[i := orders[i].(status := Awaiting)];
    }

    /** terms.expiresAt is the end of the quote. An order that has an intent keeps it and gets more options. */
    method CreatePaymentIntentForOrder(merchant: string, i: string, requested: seq<string>, terms: Terms, commits: bool)
      returns (ok: bool)
      requires Valid()
      modifies this
      ensures Valid() && sent == old(sent)
      ensures ok <==> commits && CreateIntent(old(View()), merchant, i, requested, terms).Some?
      ensures View() == if ok then CreateIntent(old(View()), merchant, i, requested, terms).value else old(View())
    {
      hide Inv, OfferOrFail, CreateIntent, Deadline, SetOrder, EnsureIntent;
      CreateUnfolds(View(), merchant, i, requested, terms);
      if i !in orders || orders[i].merchant != merchant {
        return false;
      }
      var networks := requested;
      if networks == [] {
        networks := terms.configured;
      }
      var expires := terms.expiresAt;
      if orders[i].expiresAt.Some? && orders[i].expiresAt.value < expires {
        expires := orders[i].expiresAt.value;
      }
      var saved := View();
      OpenIntent(i, expires);
      ok := OfferOptions(i, terms.(expiresAt := expires), networks);
      ok := ok && commits;
      Finish(saved, ok);
      if CreateIntent(saved, merchant, i, requested, terms).Some? {
        CreateKeepsInv(saved, merchant, i, requested, terms);
      }
    }

    /** Release, supersede, reopen and offer again, for an unpaid intent whose quote is over and that saw no money. */
    method RefreshQuote(i: string, now: Time, terms: Terms, commits: bool) returns (error: Option<RefreshError>)
      requires Valid()
      modifies this
      ensures Valid() && sent == old(sent)
      ensures error == Offers.RefreshQuote(old(View()), i, now, terms).1
      ensures View() == if commits then Offers.RefreshQuote(old(View()), i, now, terms).0 else old(View())
    {
      hide Inv, OfferOrFail, Offers.Reopen, SupersedeOffered, ReleaseUnsettled;
      var saved := View();
      error := Refusal(i, now);
      if error.Some? {
        return;
      }
      RefreshKeepsInv(saved, i, now, terms);
      ReleaseHeld(i);
      Supersede(i);
      ReopenIntent(i, terms.expiresAt);
      var ok := OfferOptions(i, terms, []);
      Finish(saved, ok && commits);
      error := if ok then None else Some(NoWallets);
    }

    /** What is still held for the intent is released, whatever its option's status short of settled. */
    method ReleaseHeld(i: string)
      modifies this`reservations
      ensures View() == ReleaseUnsettled(old(View()), i)
    {
      reservations := map o | o in reservations ::
        if o in options && options[o].intent == i && options[o].status != Settled && reservations[o].status == Active
        then reservations[o].(status := Released) else reservations[o];
    }

    method Supersede(i: string)
      modifies this`options
      ensures View() == SupersedeOffered(old(View()), i)
    {
      options := map o | o in options ::
        if options[o].intent == i && options[o].status == Offered then options[o].(status := Superseded)
        else options[o];
    }

    /** The intent and its order await payment until the new deadline. */
    method ReopenIntent(i: string, expiresAt: Time)
      requires i in intents && i in orders
      modifies this`intents, this`orders
      ensures View() == Reopen(old(View()), i, expiresAt)
    {
      intents := intents[i := intents[i].(status := Awaiting, expiresAt := expiresAt)];
      orders := orders[i := orders[i].(status := Awaiting)];
    }

    method Refusal(i: string, now: Time) returns (error: Option<RefreshError>)
      ensures error == RefreshRefusal(View(), i, now)
    {
      if i !in orders || i !in intents {
        return Some(NotFound);
      }
      if intents[i].status in
        {Seen, Confirming, Paid, Underpaid, Overpaid, LatePayment, NeedsReview, DuplicatePayment}
      {
        return Some(NotRefreshable);
      }
      if !(intents[i].status == Expired || intents[i].expiresAt < now) {
        return Some(StillActive);
      }
      if exists e :: e in matches && matches[e].intent == i {
        return Some(NotRefreshable);
      }
      return None;
    }

    // ----------------------------------------------------- worker and operators

    /** The worker's expiry tick: three statements, each atomic, with other transactions free to run between them. */
    method ExpireIntents(now: Time)
      requires Valid()
      modifies this
      ensures Valid() && View() == Ledger.ExpireIntents(old(View()), now) && sent == old(sent)
    {
      hide Inv;
      SweepsKeepInv(View(), now);
      intents := map i | i in intents ::
        if intents[i].status in {Created, Awaiting} && intents[i].expiresAt < now
        then intents[i].(status := Expired) else intents[i];
      assert View() == Ledger.ExpireIntents(old(View()), now);
    }

    method ReleaseExpired(now: Time)
      requires Valid()
      modifies this
      ensures Valid() && View() == Ledger.ReleaseExpired(old(View()), now) && sent == old(sent)
    {
      hide Inv;
      SweepsKeepInv(View(), now);
      reservations := map o | o in reservations ::
        if reservations[o].status == Active && reservations[o].expiresAt < now
        then reservations[o].(status := Released) else reservations[o];
      assert View() == Ledger.ReleaseExpired(old(View()), now);
    }

    method ExpireOrders(now: Time)
      requires Valid()
      modifies this
      ensures Valid() && View() == Ledger.ExpireOrders(old(View()), now) && sent == old(sent)
    {
      hide Inv;
      SweepsKeepInv(View(), now);
      orders := map i | i in orders ::
        if i in intents && orders[i].status == Awaiting
           && (intents[i].status == Expired || (orders[i].expiresAt.Some? && orders[i].expiresAt.value < now))
        then orders[i].(status := Expired) else orders[i];
      assert View() == Ledger.ExpireOrders(old(View()), now);
    }

    method AdminResolve(i: string, reason: string, action: string, commits: bool) returns (error: Option<ResolveError>)
      requires Valid()
      modifies this
      ensures Valid() && sent == old(sent)
      ensures error == Ledger.AdminResolve(old(View()), i, reason, action).1
      ensures View() == if commits then Ledger.AdminResolve(old(View()), i, reason, action).0 else old(View())
    {
      hide Inv;
      ReviewKeepsInv(View(), i, reason, action);
      if i == "" || reason == "" {
        return Some(BadRequest);
      }
      var a := Trim(action, GoSpace);
      if a == "" {
        a := "needs_review";
      }
      if a == "mark_paid" || a == "force_paid" {
        return Some(Forbidden);
      }
      if a != "needs_review" && a != "acknowledge_exception" && a != "note" {
        return Some(BadAction);
      }
      if i !in intents {
        return Some(NoSuchIntent);
      }
      if a == "needs_review" && commits {
        intents := intents[i := intents[i].(status := NeedsReview)];
      }
      return None;
    }

    method GateCursorSnap(network: string, from: int, to: int) returns (error: Option<SnapError>)
      requires Valid()
      modifies this
      ensures Valid() && sent == old(sent)
      ensures (View(), error) == Ledger.GateCursorSnap(old(View()), network, from, to)
    {
      hide Inv;
      SnapKeepsInv(View(), network, from, to);
      var live := LiveOptions(View(), network);
      if |live| > 0 {
        return Some(SnapBlocked);
      }
      if to < from {
        return Some(InvalidGap);
      }
      gaps := gaps + [Gap(network, from, to, false)];
      return None;
    }

    method AcknowledgeWatcherGaps(network: string)
      requires Valid()
      modifies this
      ensures Valid() && View() == Ledger.AcknowledgeWatcherGaps(old(View()), network) && sent == old(sent)
    {
      hide Inv;
      AcknowledgeKeepsInv(View(), network);
      var rows := gaps;
      gaps := seq(|rows|, k requires 0 <= k < |rows| =>
        if rows[k].network == network then rows[k].(acked := true) else rows[k]);
      assert View() == Ledger.AcknowledgeWatcherGaps(old(View()), network);
    }
  }

  method FilterRequested(requested: seq<string>, effective: seq<string>) returns (filtered: seq<string>)
    ensures filtered == Keep(NormalNetworks(requested), n => n in effective)
  {
    ghost var pass := n => n in effective;
    ghost var all := NormalNetworks(requested);
    filtered := [];
    for k := 0 to |requested|
      invariant filtered == Keep(all[..k], pass)
    {
      assert all[..k + 1][..k] == all[..k];
      var n := NormalNetwork(requested[k]);
      if n in effective {
        filtered := filtered + [n];
      }
    }
    assert all[..|requested|] == all;
  }

  lemma OfferAllNone(t: Tables, i: string, terms: Terms, networks: seq<string>)
    ensures OfferAll(t, i, terms, networks[..0]) == Some(t)
  {
  }

  lemma OfferAllStep(t: Tables, i: string, terms: Terms, networks: seq<string>, k: nat)
    requires k < |networks|
    ensures OfferAll(t, i, terms, networks[..k + 1])
         == match OfferAll(t, i, terms, networks[..k])
            case None => None
            case Some(u) => OfferOn(u, i, terms, networks[k])
  {
    assert networks[..k + 1][..k] == networks[..k];
  }

  lemma {:induction false} OfferPrefixFails(t: Tables, i: string, terms: Terms, networks: seq<string>, k: nat)
    requires k <= |networks| && OfferAll(t, i, terms, networks[..k]).None?
    ensures OfferAll(t, i, terms, networks).None?
    decreases |networks| - k
  {
    hide OfferOn;
    if k < |networks| {
      assert networks[..k + 1][..k] == networks[..k];
      OfferPrefixFails(t, i, terms, networks, k + 1);
    } else {
      assert networks[..k] == networks;
    }
  }
}
