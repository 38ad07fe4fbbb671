/** What holds after every schedule of payment transactions. */
module Payments {
  import opened Basics
  import opened Checkout
  import opened Ledger
  import opened Offers
  import opened Machine
  import opened Invariant
  import opened Preservation

  // ------------------------------------------------------------ lockstep, keys

  /**
   * An option has at most one exact match, and has one exactly when its reservation is matched or consumed; it is
   * settled exactly when the reservation is consumed; a superseded option's reservation is released; and the
   * reservation holds the key the option shows.
   */
  lemma OptionsMoveInLockstep(cfg: Config, steps: seq<Step>, o: OptionId)
    requires o in After(cfg, steps).tables.options
    ensures var t := After(cfg, steps).tables;
      && o in t.reservations && t.reservations[o].key == t.options[o].key
      && (HasExact(t, o) <==> t.reservations[o].status in {Matched, Consumed})
      && (forall e, f ::
            && e in t.matches && t.matches[e].kind == ExactMatch && t.matches[e].option == o
            && f in t.matches && t.matches[f].kind == ExactMatch && t.matches[f].option == o
            ==> e == f)
      && (t.options[o].status == Settled <==> t.reservations[o].status == Consumed)
      && (t.options[o].status == Superseded ==> t.reservations[o].status == Released)
  {
    AfterKeepsInv(cfg, steps);
    var t := After(cfg, steps).tables;
    hide After, Backed, Gated, HeldUnique;
    assert OptionOk(t, o);
    if HasExact(t, o) {
      var e :| e in t.matches && t.matches[e].kind == ExactMatch && t.matches[e].option == o;
      assert MatchOk(t, e);
    }
  }

  /** At most one reservation holds a key, so the exact lookup has at most one answer. */
  lemma HeldKeysAreUnique(cfg: Config, steps: seq<Step>, key: Key)
    ensures |Holders(After(cfg, steps).tables, key)| <= 1
  {
    AfterKeepsInv(cfg, steps);
    var t := After(cfg, steps).tables;
    var holders := Holders(t, key);
    hide After, Rows, Backed, Gated, ExactUnique;
    if holders != {} {
      var o :| o in holders;
      assert holders == {o};
    }
  }

  /** While a network other than tron has an open gap, nothing on it is payable: no offered option awaits payment. */
  lemma NothingIsPayableBehindAGap(cfg: Config, steps: seq<Step>, o: OptionId)
    requires var t := After(cfg, steps).tables;
      o in t.options && t.options[o].key.network != TRON && HasOpenGap(t.gaps, t.options[o].key.network)
    ensures var t := After(cfg, steps).tables;
      && t.options[o].intent in t.intents
      && (t.options[o].status == Offered ==> t.intents[t.options[o].intent].status != Awaiting)
  {
    AfterKeepsInv(cfg, steps);
    hide After, Backed, Unique;
    assert OptionOk(After(cfg, steps).tables, o) && GapOk(After(cfg, steps).tables, o);
  }

  /** An intent in flight has an exact match that the worker's query selects, so its confirmations are followed. */
  lemma InFlightIntentsAreFollowed(cfg: Config, steps: seq<Step>, i: string)
    requires var t := After(cfg, steps).tables;
      i in t.intents && t.intents[i].status in {Seen, Confirming}
    ensures var t := After(cfg, steps).tables;
      exists e :: e in t.events && WorkerSelects(t, t.events[e].key.network, e) && t.matches[e].intent == i
  {
    AfterKeepsInv(cfg, steps);
    var t := After(cfg, steps).tables;
    hide After, OptionOk, OrderOk, GapOk, Unique, HasSettled;
    assert IntentOk(t, i);
    var e :| e in t.matches && t.matches[e].kind == ExactMatch && t.matches[e].intent == i;
    assert MatchOk(t, e);
    assert WorkerSelects(t, t.events[e].key.network, e);
  }

  // ------------------------------------------------------------------- forward

  predicate ReservationForward(a: ReservationStatus, b: ReservationStatus) {
    || a == b
    || a == Active
    || (a == Matched && b == Consumed)
  }

  predicate OptionForward(a: OptionStatus, b: OptionStatus) {
    a == b || a == Offered
  }

  ghost predicate OptionKept(t: Tables, u: Tables, o: OptionId)
    requires o in t.options && o in t.reservations
  {
    && o in u.options && o in u.reservations
    && u.options[o].intent == t.options[o].intent && u.options[o].key == t.options[o].key
    && u.reservations[o].key == t.reservations[o].key
    && OptionForward(t.options[o].status, u.options[o].status)
    && ReservationForward(t.reservations[o].status, u.reservations[o].status)
  }

  lemma SameOptionsAreKept(t: Tables, u: Tables)
    requires u.options == t.options && u.reservations == t.reservations
    ensures forall o :: o in t.options && o in t.reservations ==> OptionKept(t, u, o)
  {
  }

  /** What no transaction undoes. */
  ghost predicate Forward(t: Tables, u: Tables) {
    && (forall o :: o in t.options && o in t.reservations ==> OptionKept(t, u, o))
    && (forall e :: e in t.events ==> e in u.events && u.events[e].key == t.events[e].key)
    && (forall e :: e in t.matches ==> e in u.matches && u.matches[e] == t.matches[e])
  }

  /** A match row is written with its event or never. */
  ghost predicate MatchedAtOnce(t: Tables, u: Tables) {
    forall e :: e in u.matches && e !in t.matches ==> e !in t.events
  }

  lemma ForwardTwice(t: Tables, u: Tables, v: Tables)
    requires Forward(t, u) && Forward(u, v)
    ensures Forward(t, v)
    ensures MatchedAtOnce(t, u) && MatchedAtOnce(u, v) ==> MatchedAtOnce(t, v)
  {
    forall o | o in t.options && o in t.reservations
      ensures OptionKept(t, v, o)
    {
      assert OptionKept(t, u, o) && OptionKept(u, v, o);
    }
  }

  /** More options under new numbers, each offered; every row that was there is as it was. */
  ghost predicate OffersAdded(t: Tables, u: Tables) {
    && u == t.(options := u.options, reservations := u.reservations, nextOption := u.nextOption)
    && t.nextOption <= u.nextOption
    && (forall o :: o in t.options ==> o in u.options && u.options[o] == t.options[o])
    && (forall o :: o in t.reservations ==> o in u.reservations && u.reservations[o] == t.reservations[o])
    && (forall o :: o in u.options && o !in t.options ==> u.options[o].status == Offered)
    && Numbered(u)
  }

  ghost predicate Numbered(t: Tables) {
    forall o :: o in t.options || o in t.reservations ==> o < t.nextOption
  }

  lemma {:induction false} OffersAreAdded(t: Tables, i: string, terms: Terms, networks: seq<string>)
    requires OfferAll(t, i, terms, networks).Some? && Numbered(t)
    ensures OffersAdded(t, OfferAll(t, i, terms, networks).value)
  {
    if networks != [] {
      var front := networks[..|networks| - 1];
      OffersAreAdded(t, i, terms, front);
      OfferIsAdded(OfferAll(t, i, terms, front).value, i, terms, networks[|networks| - 1]);
      hide OfferOn;
    }
  }

  lemma OfferIsAdded(t: Tables, i: string, terms: Terms, network: string)
    requires OfferOn(t, i, terms, network).Some? && Numbered(t)
    ensures OffersAdded(t, OfferOn(t, i, terms, network).value)
  {
    hide FirstFree, Taken;
  }

  lemma OfferOrFailAdds(t: Tables, i: string, terms: Terms, requested: seq<string>)
    requires OfferOrFail(t, i, terms, requested).Some? && Numbered(t)
    ensures OffersAdded(t, OfferOrFail(t, i, terms, requested).value)
  {
    hide OfferAll, OffersAdded;
    OffersAreAdded(t, i, terms, OfferedNetworks(requested, Effective(terms.configured, terms.health, t.gaps)));
  }

  lemma OptionsAreNumbered(t: Tables)
    requires Inv(t)
    ensures Numbered(t)
  {
    hide Backed, Gated, Unique, HasExact;
  }

  /** Creation and refresh only touch intents, orders, and what they offer; nothing of theirs settles or pays. */
  ghost predicate OnlyOffers(t: Tables, u: Tables) {
    && u.events == t.events && u.matches == t.matches && u.usage == t.usage && u.gaps == t.gaps
    && (forall o :: o in t.options && o in t.reservations ==>
          && OptionKept(t, u, o)
          && (u.options[o].status == Settled ==> t.options[o].status == Settled))
    && (forall i :: i in u.intents && (i !in t.intents || u.intents[i] != t.intents[i]) ==>
          u.intents[i].status == Awaiting)
    && (forall o :: o in u.options && o !in t.options ==> u.options[o].status == Offered)
    && t.intents.Keys <= u.intents.Keys
  }

  lemma OffersAreOnlyOffers(t: Tables, u: Tables, v: Tables)
    requires OnlyOffers(t, u) && OffersAdded(u, v)
    ensures OnlyOffers(t, v)
  {
    hide Numbered, OptionForward, ReservationForward;
  }

  lemma EnsuredOnlyOffers(t: Tables, i: string, expiresAt: Time)
    requires i in t.orders && Numbered(t)
    ensures var u := SetOrder(EnsureIntent(t, i, expiresAt), i, Awaiting);
      OnlyOffers(t, u) && Numbered(u)
  {
    hide OptionKept;
    SameOptionsAreKept(t, SetOrder(EnsureIntent(t, i, expiresAt), i, Awaiting));
  }

  lemma OffersKeepIntents(t: Tables, u: Tables)
    requires OffersAdded(t, u)
    ensures u.intents == t.intents
  {
  }

  /** Creation leaves every intent there is as it is, the order's own included. */
  lemma CreateOnlyOffers(t: Tables, merchant: string, i: string, requested: seq<string>, terms: Terms)
    requires Inv(t) && CreateIntent(t, merchant, i, requested, terms).Some?
    ensures var u := CreateIntent(t, merchant, i, requested, terms).value;
      OnlyOffers(t, u) && forall j :: j in t.intents ==> j in u.intents && u.intents[j] == t.intents[j]
  {
    hide Inv, OfferOrFail, OffersAdded, OnlyOffers;
    OptionsAreNumbered(t);
    var until := terms.(expiresAt := Deadline(t.orders[i], terms.expiresAt));
    var u := SetOrder(EnsureIntent(t, i, until.expiresAt), i, Awaiting);
    EnsuredOnlyOffers(t, i, until.expiresAt);
    OfferOrFailAdds(u, i, until, if requested == [] then terms.configured else requested);
    OffersKeepIntents(u, CreateIntent(t, merchant, i, requested, terms).value);
    OffersAreOnlyOffers(t, u, CreateIntent(t, merchant, i, requested, terms).value);
  }

  lemma ReopenedKeepsOptions(t: Tables, i: string, expiresAt: Time)
    requires i in t.intents
    ensures var u := Reopen(SupersedeOffered(ReleaseUnsettled(t, i), i), i, expiresAt);
      && (forall o :: o in t.options && o in t.reservations ==>
            OptionKept(t, u, o) && (u.options[o].status == Settled ==> t.options[o].status == Settled))
      && u.options.Keys == t.options.Keys && u.reservations.Keys == t.reservations.Keys
  {
  }

  lemma ReopenedOnlyOffers(t: Tables, i: string, expiresAt: Time)
    requires i in t.intents && Numbered(t)
    ensures var u := Reopen(SupersedeOffered(ReleaseUnsettled(t, i), i), i, expiresAt);
      OnlyOffers(t, u) && Numbered(u)
  {
    ReopenedKeepsOptions(t, i, expiresAt);
    hide SupersedeOffered, ReleaseUnsettled, OptionKept;
    ReopenedRest(t, i, expiresAt);
    hide Reopen;
  }

  lemma ReopenedRest(t: Tables, i: string, expiresAt: Time)
    requires i in t.intents
    ensures var u := Reopen(SupersedeOffered(ReleaseUnsettled(t, i), i), i, expiresAt);
      && u.intents == t.intents[i := t.intents[i].(status := Awaiting, expiresAt := expiresAt)]
      && u == t.(options := u.options, reservations := u.reservations, intents := u.intents, orders := u.orders)
  {
  }

  /** Refresh moves the refreshed intent to awaiting with the new deadline, or nothing, and no other intent. */
  lemma RefreshOnlyOffers(t: Tables, i: string, now: Time, terms: Terms)
    requires Inv(t)
    ensures var u := RefreshQuote(t, i, now, terms).0;
      && OnlyOffers(t, u)
      && (u == t || (i in t.intents && u.intents
            == t.intents[i := t.intents[i].(status := Awaiting, expiresAt := terms.expiresAt)]))
  {
    hide Inv, OfferOrFail, HasMatch, OnlyOffers, OffersAdded;
    OptionsAreNumbered(t);
    NothingOnlyOffers(t);
    if RefreshRefusal(t, i, now).None? {
      var u := Reopen(SupersedeOffered(ReleaseUnsettled(t, i), i), i, terms.expiresAt);
      ReopenedOnlyOffers(t, i, terms.expiresAt);
      ReopenedRest(t, i, terms.expiresAt);
      hide Reopen, SupersedeOffered, ReleaseUnsettled;
      if OfferOrFail(u, i, terms, []).Some? {
        OfferOrFailAdds(u, i, terms, []);
        OffersKeepIntents(u, OfferOrFail(u, i, terms, []).value);
        OffersAreOnlyOffers(t, u, OfferOrFail(u, i, terms, []).value);
      }
    }
  }

  lemma NothingOnlyOffers(t: Tables)
    ensures OnlyOffers(t, t)
  {
  }
}
