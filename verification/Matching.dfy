/** Which transfer is taken for which payment: the classification of events, stated over the tables. */
module Matching {
  import opened Basics
  import opened Ledger
  import opened Offers
  import opened Invariant
  import opened Preservation
  import opened Settlement
  import opened Conservation

  /** An event is an exact match of o: same key, still reserved, not yet in flight or paid, and in time. */
  predicate Payable(t: Tables, ev: ChainEvent, at: Time, o: OptionId) {
    && Joined(t, o)
    && t.reservations[o].status == Active && t.reservations[o].key == KeyOf(ev)
    && IntentOf(t, o).status !in {Paid, Seen, Confirming}
    && at <= IntentOf(t, o).expiresAt
  }

  /** On the tables of any run an event matches exactly if and only if some option is payable by it; that one. */
  lemma ExactMatchExactly(cfg: Config, t: Tables, ev: ChainEvent, at: Time, first: OptionId)
    requires Inv(t) && IsFirstRow(cfg, t, KeyOf(ev), at, first)
    ensures Classify(cfg, t, ev, at, first).Exact? <==> exists o :: Payable(t, ev, at, o)
    ensures forall o :: Payable(t, ev, at, o) ==> Classify(cfg, t, ev, at, first) == Exact(o, ExactNext(cfg, ev))
  {
    VerdictFits(cfg, t, ev, at, first);
    hide Rows, Backed, Gated, ExactUnique, KeyOf, ExactNext;
    forall o | Payable(t, ev, at, o)
      ensures Classify(cfg, t, ev, at, first) == Exact(o, ExactNext(cfg, ev))
    {
      assert o in Holders(t, KeyOf(ev)) && first in Holders(t, KeyOf(ev));
      assert o == first;
    }
    if Classify(cfg, t, ev, at, first).Exact? {
      assert Payable(t, ev, at, first);
    }
  }

  predicate SameLane(a: Key, b: Key) {
    a.destination == b.destination && a.network == b.network && a.token == b.token
  }

  lemma WrapsBelow(x: int)
    requires MIN_INT64 - TWO_64 <= x < MIN_INT64
    ensures Wrap64(x) == x + TWO_64
  {
  }

  /** The near window is 1000 units each way, and empty for amounts within 1000 units of either end of int64. */
  lemma NearExactly(held: Key, key: Key)
    ensures IsNear(held, key) <==>
            && SameLane(held, key)
            && key.amount - NEAR <= held.amount <= key.amount + NEAR
            && MIN_INT64 + NEAR <= key.amount <= MAX_INT64 - NEAR
  {
    if key.amount < MIN_INT64 + NEAR {
      WrapsBelow(key.amount - NEAR);
    }
    if key.amount > MAX_INT64 - NEAR {
      WrapsAround(key.amount + NEAR);
    }
  }

  /**
   * An event that no reservation holds: one released candidate in its window is a late payment, several are left
   * alone; otherwise one near candidate is under- or overpaid by 1..1000 units and never exactly paid, several go to
   * review, and none is ignored.
   */
  lemma UnmatchedIsClassifiedExactly(cfg: Config, t: Tables, ev: ChainEvent, at: Time, first: OptionId)
    requires IsFirstRow(cfg, t, KeyOf(ev), at, first) && Holders(t, KeyOf(ev)) == {}
    ensures var (key, v) := (KeyOf(ev), Classify(cfg, t, ev, at, first));
      var (late, near) := (|Releases(cfg, t, key, at)|, |Nears(t, key)|);
      && (v.ReleasedAmbiguous? <==> late >= 2)
      && (v.ReleasedLate? <==> late == 1)
      && (v.NearAmbiguous? <==> late == 0 && near >= 2)
      && (v.NearMiss? <==> late == 0 && near == 1)
      && (v.Unknown? <==> late == 0 && near == 0)
      && (v.NearMiss? ==>
            && v.option in t.reservations
            && var d := key.amount - t.reservations[v.option].key.amount;
            && (v == NearMiss(v.option, UnderpaidMatch, Underpaid) <==> -NEAR <= d <= -1)
            && (v == NearMiss(v.option, OverpaidMatch, Overpaid) <==> 1 <= d <= NEAR)
            && d != 0 && v.kind != RoundedMatch)
  {
    var key := KeyOf(ev);
    var v := Classify(cfg, t, ev, at, first);
    hide KeyOf;
    if v.NearMiss? {
      var held := t.reservations[first].key;
      NearExactly(held, key);
      assert held != key by {
        assert first !in Holders(t, key);
      }
      NotEqualOnLane(held, key);
      hide IsNear;
    }
    hide Wrap64;
  }

  lemma NotEqualOnLane(a: Key, b: Key)
    requires SameLane(a, b) && a != b
    ensures a.amount != b.amount
  {
  }

  /** Only an exact match locks or settles anything; ambiguous and unknown events leave everything but their own row. */
  lemma OnlyExactMatchesSettle(cfg: Config, t: Tables, ev: ChainEvent, now: Time, first: OptionId, period: string)
    requires Inv(t) && IsFirstRow(cfg, t, KeyOf(ev), EventTime(ev, now), first)
    requires ev.id !in t.events && !Classify(cfg, t, ev, EventTime(ev, now), first).Exact?
    ensures var (u, r, _) := Ingest(cfg, t, ev, now, first, period);
      && u.options == t.options && u.reservations == t.reservations && u.orders == t.orders && u.usage == t.usage
      && (r.ignored ==> u.intents == t.intents && u.matches == t.matches)
      && (forall i :: IsPaid(u, i) ==> IsPaid(t, i))
      && (forall e :: e in u.matches && e !in t.matches ==> u.matches[e].kind != ExactMatch)
  {
    hide Inv, IsFirstRow, EventTime, Classify, Effect;
    AddEventKeepsInv(t, ev);
    var v := Classify(cfg, t, ev, EventTime(ev, now), first);
    VerdictFits(cfg, t, ev, EventTime(ev, now), first);
    OtherVerdictsMoveOneStatus(AddEvent(t, ev), ev.id, v, period);
    EffectIsReported(AddEvent(t, ev), ev.id, v, period);
  }

  // ------------------------------------------------------------- offered amounts

  /**
   * An offer asks for the least free amount of base+1..base+17 when there is one, and holds it; it fails only when
   * all 17 are held on that lane.
   */
  lemma OffersAreFirstFit(t: Tables, i: string, terms: Terms, network: string)
    requires Inv(t) && network in terms.wallets && terms.base + REACH <= MAX_INT64
    ensures var w := terms.wallets[network];
      var taken := Taken(t, w.address, network, w.contract);
      match OfferOn(t, i, terms, network)
      case None => forall a: Int64 :: terms.base < a <= terms.base + STEPS ==> a in taken
      case Some(u) =>
        && t.nextOption in u.options && t.nextOption in u.reservations
        && var key := u.options[t.nextOption].key;
        && key == Key(w.address, network, w.contract, key.amount)
        && u.reservations[t.nextOption] == Reservation(key, Active, terms.expiresAt)
        && key.amount !in taken && terms.base < key.amount <= terms.base + REACH
        && forall a: Int64 :: terms.base < a <= terms.base + STEPS && a < key.amount ==> a in taken
  {
    var w := terms.wallets[network];
    var taken := Taken(t, w.address, network, w.contract);
    ClaimIsFirstFit(taken, terms.base, terms.draws(t.nextOption), DEFAULT_ATTEMPTS);
    if OfferOn(t, i, terms, network).Some? {
      var amount := OfferOnIsWithOffer(t, i, terms, network);
    } else {
      OfferFailsOnlyWhenFull(t, i, terms, network);
    }
  }

  lemma OfferFailsOnlyWhenFull(t: Tables, i: string, terms: Terms, network: string)
    requires Inv(t) && network in terms.wallets && OfferOn(t, i, terms, network).None?
    ensures var w := terms.wallets[network];
      var taken := Taken(t, w.address, network, w.contract);
      FirstFree(taken, terms.base, terms.draws(t.nextOption), 0, DEFAULT_ATTEMPTS).None?
  {
    hide Inv, FirstFree, Taken;
    NextIsFree(t);
    NewOptionTakesNothing(t, i, network, terms);
  }
}
