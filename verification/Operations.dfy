/**
 * When each of the other payment transactions refuses, when it goes through, and what it then leaves, row by row:
 * offers, creation, refresh, the expiry tick, operator review and the gap gate.
 */
module Operations {
  import opened Basics
  import opened Text
  import opened Checkout
  import opened Ledger
  import opened Offers
  import opened Invariant
  import opened Preservation
  import opened Payments
  import Machine

  // ---------------------------------------------------------------------- offers

  /** The a-th amount a claim tries: the 17 nearest above the base in turn, then a jump of 100000 to 999999. */
  function Tried(terms: Terms, o: OptionId, a: nat): Int64 {
    Wrap64(terms.base + if a < 17 then a + 1 else 100_000 + terms.draws(o)(a) % 900_000)
  }

  predicate IsHeldKey(t: Tables, key: Key) {
    exists o :: o in t.reservations && t.reservations[o].status in {Active, Matched} && t.reservations[o].key == key
  }

  /** All 48 amounts that the next option would try on the network are held. */
  predicate Exhausted(t: Tables, terms: Terms, n: string)
    requires n in terms.wallets
  {
    var w := terms.wallets[n];
    forall a: nat :: a < 48 ==> IsHeldKey(t, Key(w.address, n, w.contract, Tried(terms, t.nextOption, a)))
  }

  /** An option offered on a network: what it asks for was tried, and its reservation holds just that. */
  ghost predicate NewOffer(u: Tables, o: OptionId, i: string, terms: Terms, n: string) {
    && n in terms.wallets && o in u.options && o in u.reservations
    && var (w, amount) := (terms.wallets[n], u.options[o].key.amount);
    && u.options[o]
         == PayOption(i, Key(w.address, n, w.contract, amount), terms.base, terms.expiresAt, OptionStatus.Offered)
    && u.reservations[o] == Reservation(u.options[o].key, Active, terms.expiresAt)
    && exists a: nat :: a < 48 && amount == Tried(terms, o, a)
  }

  /** One new option for each network of the list, in order, and the rows that were there as they were. */
  ghost predicate OffersOn(t: Tables, u: Tables, i: string, terms: Terms, ns: seq<string>) {
    && u.nextOption == t.nextOption + |ns|
    && (forall o :: o in u.options <==> o in t.options || t.nextOption <= o < u.nextOption)
    && (forall o :: o in u.reservations <==> o in t.reservations || t.nextOption <= o < u.nextOption)
    && (forall o :: o in t.options ==> u.options[o] == t.options[o])
    && (forall o :: o in t.reservations ==> u.reservations[o] == t.reservations[o])
    && (forall k :: 0 <= k < |ns| ==> NewOffer(u, t.nextOption + k, i, terms, ns[k]))
  }

  lemma TakenIsHeld(t: Tables, w: Wallet, n: string, amount: Int64)
    ensures amount in Taken(t, w.address, n, w.contract) <==> IsHeldKey(t, Key(w.address, n, w.contract, amount))
  {
    if amount in Taken(t, w.address, n, w.contract) {
      var o :| o in t.reservations && IsHeld(t.reservations[o].status)
        && t.reservations[o].key == Key(w.address, n, w.contract, t.reservations[o].key.amount)
        && t.reservations[o].key.amount == amount;
      assert t.reservations[o].status in {Active, Matched};
    }
    if IsHeldKey(t, Key(w.address, n, w.contract, amount)) {
      var o :| o in t.reservations && t.reservations[o].status in {Active, Matched}
        && t.reservations[o].key == Key(w.address, n, w.contract, amount);
      HeldAmountIsTaken(t, o);
    }
  }

  lemma TriedAreCandidates(terms: Terms, o: OptionId)
    ensures forall a: nat :: a < 48 ==> Candidate(terms.base, a, terms.draws(o)(a)) == Tried(terms, o, a)
  {
    hide Wrap64;
  }

  lemma FreeUnlessExhausted(t: Tables, terms: Terms, n: string)
    requires n in terms.wallets
    ensures var w := terms.wallets[n];
      var free := FirstFree(Taken(t, w.address, n, w.contract), terms.base, terms.draws(t.nextOption), 0, 48);
      && (free.None? <==> Exhausted(t, terms, n))
      && (free.Some? ==> exists a: nat :: a < 48 && free.value == Tried(terms, t.nextOption, a))
  {
    var w := terms.wallets[n];
    var taken := Taken(t, w.address, n, w.contract);
    FirstFreeIsFree(taken, terms.base, terms.draws(t.nextOption), 0, 48);
    TriedAreCandidates(terms, t.nextOption);
    hide Taken, FirstFree, IsHeldKey, Tried, Candidate, Exhausted;
    assert Exhausted(t, terms, n) <==> forall a: nat :: a < 48 ==> Tried(terms, t.nextOption, a) in taken by {
      ExhaustedByTaken(t, terms, n);
    }
  }

  lemma ExhaustedByTaken(t: Tables, terms: Terms, n: string)
    requires n in terms.wallets
    ensures var w := terms.wallets[n];
      Exhausted(t, terms, n) <==>
      forall a: nat :: a < 48 ==> Tried(terms, t.nextOption, a) in Taken(t, w.address, n, w.contract)
  {
    var w := terms.wallets[n];
    forall a: nat
      ensures Tried(terms, t.nextOption, a) in Taken(t, w.address, n, w.contract)
          <==> IsHeldKey(t, Key(w.address, n, w.contract, Tried(terms, t.nextOption, a)))
    {
      TakenIsHeld(t, w, n, Tried(terms, t.nextOption, a));
    }
    hide Taken, IsHeldKey, Tried;
  }

  /** An offer fails if and only if the network has a wallet and all 48 amounts it tries are held. */
  lemma OfferFailsExactly(t: Tables, i: string, terms: Terms, n: string)
    requires Numbered(t)
    ensures OfferOn(t, i, terms, n).None? <==> n in terms.wallets && Exhausted(t, terms, n)
    ensures OfferOn(t, i, terms, n).Some? ==>
      OffersOn(t, OfferOn(t, i, terms, n).value, i, terms, if n in terms.wallets then [n] else [])
  {
    hide Exhausted, OffersOn, Taken, FirstFree, Tried, Numbered;
    if n in terms.wallets {
      FreeUnlessExhausted(t, terms, n);
      OneOffer(t, i, terms, n);
    } else {
      SkippedOffer(t, i, terms);
    }
  }

  lemma SkippedOffer(t: Tables, i: string, terms: Terms)
    requires Numbered(t)
    ensures OffersOn(t, t, i, terms, [])
  {
  }

  lemma OneOffer(t: Tables, i: string, terms: Terms, n: string)
    requires Numbered(t) && n in terms.wallets
    ensures var w := terms.wallets[n];
      var free := FirstFree(Taken(t, w.address, n, w.contract), terms.base, terms.draws(t.nextOption), 0, 48);
      && (OfferOn(t, i, terms, n).None? <==> free.None?)
      && (free.Some? && (exists a: nat :: a < 48 && free.value == Tried(terms, t.nextOption, a)) ==>
            OffersOn(t, OfferOn(t, i, terms, n).value, i, terms, [n]))
  {
    NewOptionTakesNothing(t, i, n, terms);
    hide Taken, FirstFree, Tried;
  }

  lemma OffersJoin(t: Tables, u: Tables, v: Tables, i: string, terms: Terms, ns: seq<string>, ms: seq<string>)
    requires Numbered(t) && OffersOn(t, u, i, terms, ns) && OffersOn(u, v, i, terms, ms)
    ensures OffersOn(t, v, i, terms, ns + ms)
  {
    hide NewOffer;
    forall k | 0 <= k < |ns + ms|
      ensures NewOffer(v, t.nextOption + k, i, terms, (ns + ms)[k])
    {
      if k < |ns| {
        OfferStays(u, v, t.nextOption + k, i, terms, ns[k]);
      } else {
        assert NewOffer(v, u.nextOption + (k - |ns|), i, terms, ms[k - |ns|]);
      }
    }
  }

  lemma OfferStays(u: Tables, v: Tables, o: OptionId, i: string, terms: Terms, n: string)
    requires NewOffer(u, o, i, terms, n)
    requires o in u.options ==> o in v.options && v.options[o] == u.options[o]
    requires o in u.reservations ==> o in v.reservations && v.reservations[o] == u.reservations[o]
    ensures NewOffer(v, o, i, terms, n)
  {
    hide Tried;
  }

  function WithWallet(terms: Terms, networks: seq<string>): seq<string> {
    Keep(networks, n => n in terms.wallets)
  }

  /** The loop over the networks skips those without a wallet and stops at the first that is exhausted at its turn. */
  ghost predicate NoneExhausted(t: Tables, i: string, terms: Terms, networks: seq<string>) {
    forall k :: 0 <= k < |networks| && OfferAll(t, i, terms, networks[..k]).Some? && networks[k] in terms.wallets ==>
      !Exhausted(OfferAll(t, i, terms, networks[..k]).value, terms, networks[k])
  }

  lemma {:induction false} AllOffersExactly(t: Tables, i: string, terms: Terms, networks: seq<string>)
    requires Numbered(t)
    ensures OfferAll(t, i, terms, networks).Some? <==> NoneExhausted(t, i, terms, networks)
    ensures OfferAll(t, i, terms, networks).Some? ==>
      && Numbered(OfferAll(t, i, terms, networks).value)
      && OffersOn(t, OfferAll(t, i, terms, networks).value, i, terms, WithWallet(terms, networks))
  {
    hide OfferOn, Exhausted, OffersOn, OffersAdded, Numbered, Keep;
    if networks == [] {
      NoOffers(t, i, terms);
    } else {
      var front, last := networks[..|networks| - 1], networks[|networks| - 1];
      AllOffersExactly(t, i, terms, front);
      LastTurn(t, i, terms, networks);
      KeepUnfolds(networks, n => n in terms.wallets);
      if OfferAll(t, i, terms, front).Some? {
        var u := OfferAll(t, i, terms, front).value;
        OfferFailsExactly(u, i, terms, last);
        if OfferOn(u, i, terms, last).Some? {
          var v := OfferOn(u, i, terms, last).value;
          OffersJoin(t, u, v, i, terms, WithWallet(terms, front), if last in terms.wallets then [last] else []);
          OfferIsAdded(u, i, terms, last);
          AddedAreNumbered(u, v);
        }
      }
    }
  }

  lemma KeepUnfolds(networks: seq<string>, pass: string -> bool)
    requires networks != []
    ensures var last := networks[|networks| - 1];
      Keep(networks, pass) == Keep(networks[..|networks| - 1], pass) + if pass(last) then [last] else []
  {
  }

  lemma AddedAreNumbered(t: Tables, u: Tables)
    requires OffersAdded(t, u)
    ensures Numbered(u)
  {
  }

  lemma NoOffers(t: Tables, i: string, terms: Terms)
    requires Numbered(t)
    ensures OffersOn(t, t, i, terms, WithWallet(terms, []))
  {
  }

  lemma LastTurn(t: Tables, i: string, terms: Terms, networks: seq<string>)
    requires networks != []
    ensures var (front, last) := (networks[..|networks| - 1], networks[|networks| - 1]);
      NoneExhausted(t, i, terms, networks) <==>
        && NoneExhausted(t, i, terms, front)
        && (OfferAll(t, i, terms, front).Some? && last in terms.wallets ==>
              !Exhausted(OfferAll(t, i, terms, front).value, terms, last))
  {
    hide OfferAll, Exhausted;
    var front := networks[..|networks| - 1];
    assert forall k :: 0 <= k < |front| ==> front[..k] == networks[..k] && front[k] == networks[k];
  }

  /** A network of the list is effective and, when networks were asked for, named in any case and spacing. */
  predicate IsAskedFor(t: Tables, terms: Terms, requested: seq<string>, n: string) {
    && n in Effective(terms.configured, terms.health, t.gaps)
    && (requested == [] || exists k :: 0 <= k < |requested| && Lower(Trim(requested[k], GoSpace)) == n)
  }

  function Listed(t: Tables, terms: Terms, requested: seq<string>): seq<string> {
    OfferedNetworks(requested, Effective(terms.configured, terms.health, t.gaps))
  }

  lemma ListedExactly(t: Tables, terms: Terms, requested: seq<string>, n: string)
    ensures n in Listed(t, terms, requested) <==> IsAskedFor(t, terms, requested, n)
  {
    hide Effective, Trim;
    var effective := Effective(terms.configured, terms.health, t.gaps);
    KeepExactly(NormalNetworks(requested), m => m in effective, n);
    if n in NormalNetworks(requested) {
      var k :| 0 <= k < |requested| && NormalNetworks(requested)[k] == n;
      assert Lower(Trim(requested[k], GoSpace)) == n;
    }
    if k :| 0 <= k < |requested| && Lower(Trim(requested[k], GoSpace)) == n {
      assert NormalNetworks(requested)[k] == n;
    }
  }

  /** Some network asked for has a wallet, and none is exhausted when its turn comes. */
  ghost predicate CanOffer(t: Tables, i: string, terms: Terms, requested: seq<string>) {
    && (exists n :: n in terms.wallets && IsAskedFor(t, terms, requested, n))
    && NoneExhausted(t, i, terms, Listed(t, terms, requested))
  }

  /**
   * Offering goes through if and only if some network asked for has a wallet and none is exhausted at its turn; then
   * there is a new option for each network asked for that has a wallet, and nothing else changes.
   */
  lemma OfferingExactly(t: Tables, i: string, terms: Terms, requested: seq<string>)
    requires Numbered(t)
    ensures OfferOrFail(t, i, terms, requested).Some? <==> CanOffer(t, i, terms, requested)
    ensures OfferOrFail(t, i, terms, requested).Some? ==>
      var (u, ns) := (OfferOrFail(t, i, terms, requested).value, WithWallet(terms, Listed(t, terms, requested)));
      && ns != [] && OffersOn(t, u, i, terms, ns)
      && u == t.(options := u.options, reservations := u.reservations, nextOption := u.nextOption)
      && forall n :: n in ns <==> n in terms.wallets && IsAskedFor(t, terms, requested, n)
  {
    var networks := Listed(t, terms, requested);
    var ns := WithWallet(terms, networks);
    AllOffersExactly(t, i, terms, networks);
    forall n
      ensures n in ns <==> n in terms.wallets && IsAskedFor(t, terms, requested, n)
    {
      KeepExactly(networks, m => m in terms.wallets, n);
      ListedExactly(t, terms, requested, n);
    }
    hide OfferAll, NoneExhausted, IsAskedFor, WithWallet, OfferedNetworks, Effective;
    assert ns == [] <==> forall n :: !(n in terms.wallets && IsAskedFor(t, terms, requested, n)) by {
      if ns != [] {
        assert ns[0] in ns;
      }
    }
    if OfferOrFail(t, i, terms, requested).Some? {
      OfferOrFailAdds(t, i, terms, requested);
    }
    hide NewOffer;
  }

  // -------------------------------------------------------------------- creation

  /** The quote's end, or the order's own deadline when that is earlier. */
  function Until(order: Order, quoteExpires: Time): Time {
    match order.expiresAt
    case None => quoteExpires
    case Some(own) => Min(own, quoteExpires)
  }

  /** The tables a creation makes its offers on: the order awaits payment, and has an intent. */
  ghost predicate IsOpened(t: Tables, u: Tables, i: string, until: Time) {
    && i in t.orders && u.orders == t.orders[i := t.orders[i].(status := Awaiting)]
    && u.intents == (if i in t.intents then t.intents
                     else t.intents[i := Intent(t.orders[i].merchant, Awaiting, until)])
    && u == t.(orders := u.orders, intents := u.intents)
  }

  function Opened(t: Tables, i: string, quoteExpires: Time): Tables
    requires i in t.orders
  {
    SetOrder(EnsureIntent(t, i, Deadline(t.orders[i], quoteExpires)), i, Awaiting)
  }

  lemma OpenedExactly(t: Tables, i: string, quoteExpires: Time)
    requires i in t.orders
    ensures IsOpened(t, Opened(t, i, quoteExpires), i, Until(t.orders[i], quoteExpires))
  {
  }

  /** Networks to offer when none was named: the configured ones. */
  function Asked(terms: Terms, requested: seq<string>): seq<string> {
    if requested == [] then terms.configured else requested
  }

  /**
   * Creation goes through if and only if the order is the seller's and the offers do. It then opens the order, with an
   * intent if it had none, and adds the offers, all until the earlier of the two deadlines.
   */
  lemma CreationExactly(t: Tables, merchant: string, i: string, requested: seq<string>, terms: Terms)
    requires Inv(t)
    ensures CreateIntent(t, merchant, i, requested, terms).Some? <==>
            && i in t.orders && t.orders[i].merchant == merchant
            && CanOffer(Opened(t, i, terms.expiresAt), i,
                        terms.(expiresAt := Until(t.orders[i], terms.expiresAt)), Asked(terms, requested))
    ensures CreateIntent(t, merchant, i, requested, terms).Some? ==>
      var u := CreateIntent(t, merchant, i, requested, terms).value;
      && i in t.orders
      && var until := terms.(expiresAt := Until(t.orders[i], terms.expiresAt));
      && IsOpened(t, u.(options := t.options, reservations := t.reservations, nextOption := t.nextOption), i,
                  until.expiresAt)
      && exists ns: seq<string> ::
           && ns != [] && OffersOn(t, u, i, until, ns)
           && forall n :: n in ns <==> n in terms.wallets && IsAskedFor(t, terms, Asked(terms, requested), n)
  {
    OptionsAreNumbered(t);
    if i in t.orders {
      var until := terms.(expiresAt := Until(t.orders[i], terms.expiresAt));
      var ready := Opened(t, i, terms.expiresAt);
      OpenedExactly(t, i, terms.expiresAt);
      assert Deadline(t.orders[i], terms.expiresAt) == until.expiresAt;
      hide Inv, OfferOrFail, SetOrder, EnsureIntent, Deadline, CanOffer, OffersOn, Effective, Trim;
      OfferingExactly(ready, i, until, Asked(terms, requested));
      if OfferOrFail(ready, i, until, Asked(terms, requested)).Some? {
        var u := OfferOrFail(ready, i, until, Asked(terms, requested)).value;
        var ns := WithWallet(until, Listed(ready, until, Asked(terms, requested)));
        SameOffers(t, ready, u, i, until, ns);
        SameQuestion(t, ready, terms, until, Asked(terms, requested));
      }
    }
  }

  lemma SameQuestion(t: Tables, u: Tables, terms: Terms, until: Terms, asked: seq<string>)
    requires u.gaps == t.gaps && until == terms.(expiresAt := until.expiresAt)
    ensures forall n :: IsAskedFor(u, until, asked, n) <==> IsAskedFor(t, terms, asked, n)
  {
  }

  /** What is offered depends on the options and reservations there were, and on nothing else. */
  lemma SameOffers(t: Tables, t': Tables, u: Tables, i: string, terms: Terms, ns: seq<string>)
    requires OffersOn(t', u, i, terms, ns)
    requires t'.options == t.options && t'.reservations == t.reservations && t'.nextOption == t.nextOption
    ensures OffersOn(t, u, i, terms, ns)
  {
    hide NewOffer;
  }

  // --------------------------------------------------------------------- refresh

  /** The quote is over, no money was seen, and the intent is not settled one way or the other. */
  predicate IsRefreshable(t: Tables, i: string, now: Time) {
    && i in t.orders && i in t.intents
    && (t.intents[i].status == Expired
        || (t.intents[i].status in {Created, Awaiting} && t.intents[i].expiresAt < now))
    && !SawMoney(t, i)
  }

  predicate SawMoney(t: Tables, i: string) {
    exists e :: e in t.matches && t.matches[e].intent == i
  }

  /** What the intent held and had not settled is released, and what it offered is superseded. */
  ghost predicate IsWithdrawn(t: Tables, u: Tables, i: string) {
    && u.options.Keys == t.options.Keys && u.reservations.Keys == t.reservations.Keys
    && (forall o :: o in t.options ==>
          u.options[o] == if t.options[o].intent == i && t.options[o].status == Offered
                          then t.options[o].(status := Superseded) else t.options[o])
    && (forall o :: o in t.reservations ==>
          u.reservations[o] == if o in t.options && t.options[o].intent == i && t.options[o].status != Settled
                                  && t.reservations[o].status == Active
                               then t.reservations[o].(status := Released) else t.reservations[o])
  }

  /** The intent and its order await payment again, until the new deadline. */
  ghost predicate IsReopened(t: Tables, u: Tables, i: string, until: Time)
    requires i in t.orders && i in t.intents
  {
    && u.intents == t.intents[i := t.intents[i].(status := Awaiting, expiresAt := until)]
    && u.orders == t.orders[i := t.orders[i].(status := Awaiting)]
    && u == t.(options := u.options, reservations := u.reservations, nextOption := u.nextOption,
               intents := u.intents, orders := u.orders)
  }

  function Withdrawn(t: Tables, i: string, until: Time): Tables
    requires i in t.intents
  {
    Reopen(SupersedeOffered(ReleaseUnsettled(t, i), i), i, until)
  }

  lemma WithdrawnExactly(t: Tables, i: string, until: Time)
    requires i in t.orders && i in t.intents
    ensures IsWithdrawn(t, Withdrawn(t, i, until), i) && IsReopened(t, Withdrawn(t, i, until), i, until)
    ensures Withdrawn(t, i, until).nextOption == t.nextOption
  {
  }

  lemma RefusalExactly(t: Tables, i: string, now: Time)
    ensures RefreshRefusal(t, i, now).None? <==> IsRefreshable(t, i, now)
    ensures RefreshRefusal(t, i, now) == Some(NotFound) <==> i !in t.orders || i !in t.intents
    ensures RefreshRefusal(t, i, now) == Some(StillActive) <==>
            && i in t.orders && i in t.intents
            && t.intents[i].status in {Created, Awaiting} && t.intents[i].expiresAt >= now
    ensures RefreshRefusal(t, i, now) == Some(NotRefreshable) <==>
            && i in t.orders && i in t.intents
            && (t.intents[i].status !in {Created, Awaiting, Expired}
                || ((t.intents[i].status == Expired || t.intents[i].expiresAt < now) && SawMoney(t, i)))
    ensures RefreshRefusal(t, i, now) != Some(NoWallets)
  {
  }

  /**
   * A refresh is refused as not found if and only if the order or its intent is missing; as still active if and only
   * if the intent is created or awaiting and its deadline has not passed; as not refreshable if and only if it is in
   * any other status but expired, or its quote is over and a transfer was matched to it; and for want of wallets if
   * and only if none of these holds and the offers fail. Refused, it changes nothing.
   */
  lemma RefreshIsRefusedExactly(t: Tables, i: string, now: Time, terms: Terms)
    requires Inv(t)
    ensures var (u, answer) := RefreshQuote(t, i, now, terms);
      && (answer == Some(NotFound) <==> i !in t.orders || i !in t.intents)
      && (answer == Some(StillActive) <==>
            && i in t.orders && i in t.intents
            && t.intents[i].status in {Created, Awaiting} && t.intents[i].expiresAt >= now)
      && (answer == Some(NotRefreshable) <==>
            && i in t.orders && i in t.intents
            && (t.intents[i].status !in {Created, Awaiting, Expired}
                || ((t.intents[i].status == Expired || t.intents[i].expiresAt < now) && SawMoney(t, i))))
      && (answer == Some(NoWallets) <==>
            IsRefreshable(t, i, now) && !CanOffer(Withdrawn(t, i, terms.expiresAt), i, terms, []))
      && (answer == None <==>
            IsRefreshable(t, i, now) && CanOffer(Withdrawn(t, i, terms.expiresAt), i, terms, []))
      && (answer.Some? ==> u == t)
  {
    RefusalExactly(t, i, now);
    OptionsAreNumbered(t);
    hide Inv, RefreshRefusal, OfferOrFail, CanOffer, SawMoney, OnlyOffers, Reopen, SupersedeOffered, ReleaseUnsettled;
    if RefreshRefusal(t, i, now).None? {
      ReopenedOnlyOffers(t, i, terms.expiresAt);
      OfferingExactly(Withdrawn(t, i, terms.expiresAt), i, terms, []);
    }
  }

  /** A refresh that goes through withdraws what was offered, reopens the intent, and offers every effective network. */
  lemma RefreshLeaves(t: Tables, i: string, now: Time, terms: Terms)
    requires Inv(t) && RefreshQuote(t, i, now, terms).1.None?
    ensures var u := RefreshQuote(t, i, now, terms).0;
      && i in t.orders && i in t.intents && IsReopened(t, u, i, terms.expiresAt)
      && exists v: Tables, ns: seq<string> ::
           && IsWithdrawn(t, v, i) && v.nextOption == t.nextOption && ns != [] && OffersOn(v, u, i, terms, ns)
           && forall n :: n in ns <==>
                n in terms.wallets && n in Effective(terms.configured, terms.health, t.gaps)
  {
    RefusalExactly(t, i, now);
    OptionsAreNumbered(t);
    hide Inv, RefreshRefusal, OfferOrFail, CanOffer, SawMoney, OnlyOffers, Reopen, SupersedeOffered, ReleaseUnsettled,
         Effective, NewOffer, Numbered;
    ReopenedOnlyOffers(t, i, terms.expiresAt);
    WithdrawnExactly(t, i, terms.expiresAt);
    var v := Withdrawn(t, i, terms.expiresAt);
    hide Withdrawn, IsWithdrawn, OffersOn;
    OfferingExactly(v, i, terms, []);
    var ns := WithWallet(terms, Listed(v, terms, []));
    assert IsWithdrawn(t, v, i) && OffersOn(v, RefreshQuote(t, i, now, terms).0, i, terms, ns);
  }

  // ------------------------------------------------------------- the expiry tick

  predicate IsOverdue(a: Intent, now: Time) {
    (a.status == Created || a.status == Awaiting) && a.expiresAt < now
  }

  /** The sweep makes an intent expired if and only if it was created or awaiting and its deadline has passed. */
  lemma IntentsExpireExactly(t: Tables, now: Time, i: string)
    requires i in t.intents
    ensures var u := ExpireIntents(t, now);
      && u == t.(intents := u.intents) && u.intents.Keys == t.intents.Keys
      && (u.intents[i] != t.intents[i] <==> IsOverdue(t.intents[i], now))
      && (u.intents[i].status == Expired <==> t.intents[i].status == Expired || IsOverdue(t.intents[i], now))
      && u.intents[i].(status := t.intents[i].status) == t.intents[i]
  {
  }

  /** A reservation is released if and only if it was active and its deadline has passed. */
  lemma ReservationsExpireExactly(t: Tables, now: Time, o: OptionId)
    requires o in t.reservations
    ensures var (u, r) := (ReleaseExpired(t, now), t.reservations[o]);
      && u == t.(reservations := u.reservations) && u.reservations.Keys == t.reservations.Keys
      && (u.reservations[o] != r <==> r.status == Active && r.expiresAt < now)
      && (u.reservations[o].status == Released <==>
            r.status == Released || (r.status == Active && r.expiresAt < now))
      && u.reservations[o].(status := r.status) == r
  {
  }

  /**
   * An order expires if and only if it awaits payment and has an intent, and the intent expired or its own deadline
   * has passed.
   */
  lemma OrdersExpireExactly(t: Tables, now: Time, i: string)
    requires i in t.orders
    ensures var (u, order) := (ExpireOrders(t, now), t.orders[i]);
      && u == t.(orders := u.orders) && u.orders.Keys == t.orders.Keys
      && (u.orders[i] != order <==>
            && order.status == Awaiting && i in t.intents
            && (t.intents[i].status == Expired || (order.expiresAt.Some? && order.expiresAt.value < now)))
      && (u.orders[i] != order ==> u.orders[i].status == Expired)
      && u.orders[i].(status := order.status) == order
  {
  }

  /** The three statements of one tick, at one clock. */
  function Tick(t: Tables, now: Time): Tables {
    ExpireOrders(ReleaseExpired(ExpireIntents(t, now), now), now)
  }

  /** Nothing is left overdue: neither an intent to be paid, nor a held amount, nor an order of an expired intent. */
  predicate NothingOverdue(t: Tables, now: Time) {
    && (forall i :: i in t.intents ==> !IsOverdue(t.intents[i], now))
    && (forall o :: o in t.reservations ==> !(t.reservations[o].status == Active && t.reservations[o].expiresAt < now))
    && (forall i :: i in t.orders && i in t.intents && t.orders[i].status == Awaiting ==>
          && t.intents[i].status != Expired
          && (t.orders[i].expiresAt.Some? ==> t.orders[i].expiresAt.value >= now))
  }

  /**
   * A tick leaves nothing overdue, and does nothing if and only if nothing was: so a second tick at the same or an
   * earlier clock does nothing.
   */
  lemma TickLeavesNothingOverdue(t: Tables, now: Time, earlier: Time)
    requires earlier <= now
    ensures NothingOverdue(Tick(t, now), now)
    ensures Tick(t, now) == t <==> NothingOverdue(t, now)
    ensures Tick(Tick(t, now), earlier) == Tick(t, now)
  {
    TickIsIdleExactly(t, now);
    TickLeaves(t, now);
    TickIsIdleExactly(Tick(t, now), earlier);
    hide Tick;
  }

  lemma TickLeaves(t: Tables, now: Time)
    ensures NothingOverdue(Tick(t, now), now)
  {
  }

  lemma TickIsIdleExactly(t: Tables, now: Time)
    ensures Tick(t, now) == t <==> NothingOverdue(t, now)
  {
    if NothingOverdue(t, now) {
      assert ExpireIntents(t, now).intents == t.intents;
      assert ReleaseExpired(t, now).reservations == t.reservations;
      assert ExpireOrders(t, now).orders == t.orders;
    } else {
      TickLeaves(t, now);
    }
  }

  // ------------------------------------------------------------ review, gap and order

  /** What an operator may ask for, the empty action standing for review. */
  const REVIEW_ACTIONS: set<string> := {"", "needs_review"}
  const NOTE_ACTIONS: set<string> := {"acknowledge_exception", "note"}

  /**
   * Review is refused for a missing id or reason first, then for a manual payment, then for an unknown action, then for
   * a missing intent; otherwise it moves the intent to review, or for a note only logs.
   */
  lemma ReviewIsAnsweredExactly(t: Tables, i: string, reason: string, action: string)
    ensures var (u, answer) := AdminResolve(t, i, reason, action);
      var a := Trim(action, GoSpace);
      && (answer == Some(BadRequest) <==> i == "" || reason == "")
      && (answer == Some(Forbidden) <==> i != "" && reason != "" && (a == "mark_paid" || a == "force_paid"))
      && (answer == Some(BadAction) <==>
            i != "" && reason != "" && a !in REVIEW_ACTIONS + NOTE_ACTIONS + {"mark_paid", "force_paid"})
      && (answer == Some(NoSuchIntent) <==>
            i != "" && reason != "" && a in REVIEW_ACTIONS + NOTE_ACTIONS && i !in t.intents)
      && (answer == None && a in REVIEW_ACTIONS ==>
            i in t.intents && u == t.(intents := t.intents[i := t.intents[i].(status := NeedsReview)]))
      && (answer.Some? || a in NOTE_ACTIONS ==> u == t)
  {
    hide Trim;
  }

  /** A block skipped on the network could still pay this option. */
  predicate CouldBePaid(t: Tables, network: string, o: OptionId) {
    && o in t.options && t.options[o].key.network == network && t.options[o].intent in t.intents
    && t.intents[t.options[o].intent].status in {Awaiting, Seen, Confirming}
  }

  /**
   * The gate is shut if and only if a skipped block could still pay some option; open, it puts a proper range on
   * record.
   */
  lemma GateIsShutExactly(t: Tables, network: string, from: int, to: int)
    ensures var (u, answer) := GateCursorSnap(t, network, from, to);
      && (answer == Some(SnapBlocked) <==> exists o :: CouldBePaid(t, network, o))
      && (answer == Some(InvalidGap) <==> to < from && forall o :: !CouldBePaid(t, network, o))
      && (answer == None ==> u == t.(gaps := t.gaps + [Gap(network, from, to, false)]))
      && (answer.Some? ==> u == t)
  {
    forall o
      ensures o in LiveOptions(t, network) <==> CouldBePaid(t, network, o)
    {
    }
    hide CouldBePaid;
    if |LiveOptions(t, network)| > 0 {
      var o :| o in LiveOptions(t, network);
      assert CouldBePaid(t, network, o);
    } else {
      assert LiveOptions(t, network) == {};
    }
  }

  /** Acknowledging closes every gap of the network, leaves the gaps of the others open, and forgets none. */
  lemma AcknowledgingClosesExactly(t: Tables, network: string, n: string)
    ensures var u := AcknowledgeWatcherGaps(t, network);
      && (HasOpenGap(u.gaps, n) <==> n != network && HasOpenGap(t.gaps, n))
      && u == t.(gaps := u.gaps) && |u.gaps| == |t.gaps|
      && forall k :: 0 <= k < |t.gaps| ==> u.gaps[k].(acked := t.gaps[k].acked) == t.gaps[k]
  {
    var u := AcknowledgeWatcherGaps(t, network);
    if k :| 0 <= k < |t.gaps| && t.gaps[k].network == n && !t.gaps[k].acked && n != network {
      assert u.gaps[k] == t.gaps[k];
    }
    if k :| 0 <= k < |u.gaps| && u.gaps[k].network == n && !u.gaps[k].acked {
      assert t.gaps[k].network == n && !t.gaps[k].acked;
    }
  }

  /** A new order starts as created, with its deadline; an id that is taken keeps its order. */
  lemma OrderIsAddedExactly(t: Tables, i: string, merchant: string, deadline: Option<Time>)
    ensures var u := Machine.AddOrder(t, i, merchant, deadline);
      && i in u.orders && u == t.(orders := u.orders) && u.orders - {i} == t.orders - {i}
      && (i in t.orders ==> u.orders[i] == t.orders[i])
      && (i !in t.orders ==> u.orders[i] == Order(merchant, Created, deadline))
  {
  }
}
