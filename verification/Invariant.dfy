/** What ties the payment tables together, and that each kind of update keeps it. */
module Invariant {
  import opened Basics
  import opened Checkout
  import opened Ledger
  import opened Offers

  /** Some exact match is recorded for the option. */
  ghost predicate HasExact(t: Tables, o: OptionId) {
    exists e :: e in t.matches && t.matches[e].kind == ExactMatch && t.matches[e].option == o
  }

  ghost predicate HasSettled(t: Tables, i: string) {
    exists o :: o in t.options && t.options[o].intent == i && t.options[o].status == Settled
  }

  ghost predicate HasExactFor(t: Tables, i: string) {
    exists e :: e in t.matches && t.matches[e].kind == ExactMatch && t.matches[e].intent == i
  }

  /** An option moves in lockstep with its reservation and its exact match. */
  ghost predicate OptionOk(t: Tables, o: OptionId)
    requires o in t.options && o in t.reservations
  {
    && t.options[o].intent in t.intents && o < t.nextOption
    && t.reservations[o].key == t.options[o].key
    && (t.options[o].status == Settled <==> t.reservations[o].status == Consumed)
    && (t.options[o].status == Superseded ==> t.reservations[o].status == Released)
    && (IsLocked(t.reservations[o].status) ==> HasExact(t, o))
  }

  ghost predicate MatchOk(t: Tables, e: string)
    requires e in t.matches
  {
    var m := t.matches[e];
    && e in t.events && m.option in t.options && m.option in t.reservations
    && m.intent == t.options[m.option].intent
    && (m.kind == ExactMatch ==>
          && IsLocked(t.reservations[m.option].status)
          && t.events[e].key == t.reservations[m.option].key)
  }

  ghost predicate IntentOk(t: Tables, i: string)
    requires i in t.intents
  {
    && i in t.orders && t.intents[i].merchant == t.orders[i].merchant
    && (t.intents[i].status == Paid ==> HasSettled(t, i))
    && (t.intents[i].status in {Seen, Confirming} ==> HasExactFor(t, i))
  }

  ghost predicate OrderOk(t: Tables, i: string)
    requires i in t.orders
  {
    t.orders[i].status == Paid ==> HasSettled(t, i)
  }

  /** The gap gate and checkout agree: nothing is payable on a network with an open gap, tron apart. */
  ghost predicate GapOk(t: Tables, o: OptionId)
    requires o in t.options
  {
    var opt := t.options[o];
    opt.status == Offered && opt.key.network != TRON && HasOpenGap(t.gaps, opt.key.network)
      && opt.intent in t.intents ==>
      t.intents[opt.intent].status != Awaiting
  }

  /** The partial unique index: no two held reservations share a key. */
  ghost predicate HeldUnique(t: Tables) {
    forall o, p ::
      && o in t.reservations && p in t.reservations
      && IsHeld(t.reservations[o].status) && IsHeld(t.reservations[p].status)
      && t.reservations[o].key == t.reservations[p].key
      ==> o == p
  }

  ghost predicate ExactUnique(t: Tables) {
    forall e, f ::
      && e in t.matches && f in t.matches
      && t.matches[e].kind == ExactMatch && t.matches[f].kind == ExactMatch
      && t.matches[e].option == t.matches[f].option
      ==> e == f
  }

  ghost predicate Rows(t: Tables) {
    && t.reservations.Keys == t.options.Keys
    && (forall o :: o in t.options ==> OptionOk(t, o))
    && (forall e :: e in t.matches ==> MatchOk(t, e))
  }

  ghost predicate Unique(t: Tables) {
    HeldUnique(t) && ExactUnique(t)
  }

  ghost predicate Backed(t: Tables) {
    && (forall i :: i in t.intents ==> IntentOk(t, i))
    && (forall i :: i in t.orders ==> OrderOk(t, i))
  }

  ghost predicate Gated(t: Tables) {
    forall o :: o in t.options ==> GapOk(t, o)
  }

  ghost predicate Inv(t: Tables) {
    Rows(t) && Unique(t) && Backed(t) && Gated(t)
  }

  // ------------------------------------------------------------- single updates

  /** Event rows may be added and annotated, as long as a row keeps its key; counters are free. */
  lemma EventsKeepInv(t: Tables, u: Tables)
    requires Inv(t) && u == t.(events := u.events, usage := u.usage)
    requires forall e :: e in t.events ==> e in u.events && u.events[e].key == t.events[e].key
    ensures Inv(u)
  {
    hide Rows, Unique, Backed;
    SameRows(t, u);
    UniqueStays(t, u);
    BackedStays(t, u);
  }

  /** No option of the intent is payable on a network with an open gap. */
  ghost predicate MayAwait(t: Tables, i: string) {
    forall o ::
      && o in t.options && t.options[o].intent == i && t.options[o].status == Offered
      && t.options[o].key.network != TRON
      ==> !HasOpenGap(t.gaps, t.options[o].key.network)
  }

  /** Intents may move: into Paid with a settled option, into Awaiting when nothing of theirs is withheld. */
  lemma IntentsKeepInv(t: Tables, u: Tables)
    requires Inv(t) && u == t.(intents := u.intents)
    requires u.intents.Keys == t.intents.Keys
    requires forall i :: i in t.intents ==> u.intents[i].merchant == t.intents[i].merchant
    requires forall i :: i in t.intents && u.intents[i].status == Paid ==>
      t.intents[i].status == Paid || HasSettled(t, i)
    requires forall i :: i in t.intents && u.intents[i].status in {Seen, Confirming} ==>
               t.intents[i].status in {Seen, Confirming} || HasExactFor(t, i)
    requires forall i :: i in t.intents && u.intents[i].status == Awaiting ==>
               t.intents[i].status == Awaiting || MayAwait(t, i)
    ensures Inv(u)
  {
    hide Rows, Unique, HasSettled, HasExactFor;
    ExactForOnlyReadsMatches(t, u);
    SameRows(t, u);
    UniqueStays(t, u);
    SettledOnlyReadsOptions(t, u);
  }

  lemma StatusKeepsInv(t: Tables, i: string, s: Status)
    requires Inv(t) && i in t.intents && s != Awaiting && (s == Paid ==> HasSettled(t, i))
    requires s in {Seen, Confirming} ==> HasExactFor(t, i)
    ensures Inv(SetStatus(t, i, s))
  {
    hide Inv;
    IntentsKeepInv(t, SetStatus(t, i, s));
  }

  /** Orders may be added and move, into Paid only with a settled option. */
  lemma OrdersKeepInv(t: Tables, u: Tables)
    requires Inv(t) && u == t.(orders := u.orders)
    requires forall i :: i in t.orders ==> i in u.orders && u.orders[i].merchant == t.orders[i].merchant
    requires forall i :: i in u.orders && u.orders[i].status == Paid ==>
               (i in t.orders && t.orders[i].status == Paid) || HasSettled(t, i)
    ensures Inv(u)
  {
    hide Rows, Unique, HasSettled, HasExactFor;
    SameRows(t, u);
    UniqueStays(t, u);
    SettledOnlyReadsOptions(t, u);
    ExactForOnlyReadsMatches(t, u);
  }

  lemma SetOrderKeepsInv(t: Tables, i: string, s: Status)
    requires Inv(t) && (s == Paid ==> HasSettled(t, i))
    ensures Inv(SetOrder(t, i, s))
  {
    hide Inv;
    OrdersKeepInv(t, SetOrder(t, i, s));
  }

  lemma MatchesStay(t: Tables, u: Tables)
    requires forall e :: e in t.matches ==> e in u.matches && u.matches[e] == t.matches[e]
    ensures forall o :: HasExact(t, o) ==> HasExact(u, o)
  {
    forall o | HasExact(t, o)
      ensures HasExact(u, o)
    {
      var e :| e in t.matches && t.matches[e].kind == ExactMatch && t.matches[e].option == o;
      assert u.matches[e] == t.matches[e];
    }
  }

  /** Uniqueness survives when nothing new is held and no exact match is new. */
  lemma UniqueStays(t: Tables, u: Tables)
    requires Unique(t)
    requires forall o :: o in u.reservations && IsHeld(u.reservations[o].status) ==>
               o in t.reservations && IsHeld(t.reservations[o].status) && u.reservations[o].key == t.reservations[o].key
    requires forall e :: e in u.matches && u.matches[e].kind == ExactMatch ==>
               e in t.matches && u.matches[e] == t.matches[e]
    ensures Unique(u)
  {
  }

  /** Settled options stay settled and matches stay, and so intents and orders stay backed. */
  lemma BackedStays(t: Tables, u: Tables)
    requires Backed(t) && u.intents == t.intents && u.orders == t.orders
    requires forall o :: o in t.options && t.options[o].status == Settled ==>
               o in u.options && u.options[o].status == Settled && u.options[o].intent == t.options[o].intent
    requires forall e :: e in t.matches ==> e in u.matches && u.matches[e] == t.matches[e]
    ensures Backed(u)
  {
    forall i | HasExactFor(t, i)
      ensures HasExactFor(u, i)
    {
      var e :| e in t.matches && t.matches[e].kind == ExactMatch && t.matches[e].intent == i;
      assert u.matches[e] == t.matches[e];
    }
    forall i | HasSettled(t, i)
      ensures HasSettled(u, i)
    {
      var o :| o in t.options && t.options[o].intent == i && t.options[o].status == Settled;
      assert u.options[o].intent == i && u.options[o].status == Settled;
    }
  }

  lemma AddMatchKeepsRows(t: Tables, e: string, o: OptionId, kind: MatchKind)
    requires Rows(t) && e in t.events && e !in t.matches && o in t.options && kind != ExactMatch
    ensures Rows(AddMatch(t, e, o, kind))
  {
    hide HasExact;
    MatchesStay(t, AddMatch(t, e, o, kind));
  }

  /** A match that is not exact ties an event to an option and nothing else. */
  lemma AddMatchKeepsInv(t: Tables, e: string, o: OptionId, kind: MatchKind)
    requires Inv(t) && e in t.events && e !in t.matches && o in t.options && kind != ExactMatch
    ensures Inv(AddMatch(t, e, o, kind))
  {
    hide Rows, Backed, Unique;
    AddMatchKeepsRows(t, e, o, kind);
    UniqueStays(t, AddMatch(t, e, o, kind));
    BackedStays(t, AddMatch(t, e, o, kind));
  }

  lemma LockKeepsOption(t: Tables, e: string, o: OptionId, p: OptionId)
    requires Rows(t) && e !in t.matches && o in t.options && t.reservations[o].status == Active && p in t.options
    ensures OptionOk(Lock(AddMatch(t, e, o, ExactMatch), o), p)
  {
    hide MatchOk, HasExact;
    var u := Lock(AddMatch(t, e, o, ExactMatch), o);
    MatchesStay(t, u);
    assert OptionOk(t, p);
    if p == o {
      ExactIsFound(u, e, o);
    }
  }

  lemma ExactIsFound(t: Tables, e: string, o: OptionId)
    requires e in t.matches && t.matches[e].kind == ExactMatch && t.matches[e].option == o
    ensures HasExact(t, o)
  {
  }

  lemma LockKeepsMatches(t: Tables, e: string, o: OptionId)
    requires Rows(t) && e in t.events && e !in t.matches && o in t.options
    requires t.reservations[o].status == Active && t.events[e].key == t.reservations[o].key
    ensures var u := Lock(AddMatch(t, e, o, ExactMatch), o);
      forall f :: f in u.matches ==> MatchOk(u, f)
  {
    hide OptionOk;
  }

  lemma LockKeepsRows(t: Tables, e: string, o: OptionId)
    requires Rows(t) && e in t.events && e !in t.matches && o in t.options
    requires t.reservations[o].status == Active && t.events[e].key == t.reservations[o].key
    ensures Rows(Lock(AddMatch(t, e, o, ExactMatch), o))
  {
    hide OptionOk, MatchOk;
    LockKeepsMatches(t, e, o);
    forall p | p in t.options
      ensures OptionOk(Lock(AddMatch(t, e, o, ExactMatch), o), p)
    {
      LockKeepsOption(t, e, o, p);
    }
  }

  lemma LockKeepsUnique(t: Tables, e: string, o: OptionId)
    requires Rows(t) && Unique(t) && e in t.events && e !in t.matches && o in t.options
    requires t.reservations[o].status == Active
    ensures Unique(Lock(AddMatch(t, e, o, ExactMatch), o))
  {
    hide HasExact, OptionOk;
  }

  /** An exact match takes the amount of an active reservation, and locks it at once. */
  lemma LockKeepsInv(t: Tables, e: string, o: OptionId)
    requires Inv(t) && e in t.events && e !in t.matches && o in t.options && o in t.reservations
    requires t.reservations[o].status == Active && t.events[e].key == t.reservations[o].key
    ensures Inv(Lock(AddMatch(t, e, o, ExactMatch), o))
  {
    hide Rows, Backed, Unique;
    LockKeepsRows(t, e, o);
    LockKeepsUnique(t, e, o);
    BackedStays(t, Lock(AddMatch(t, e, o, ExactMatch), o));
  }

  lemma ConsumeKeepsRows(t: Tables, o: OptionId)
    requires Rows(t) && o in t.options && IsLocked(t.reservations[o].status)
    ensures Rows(Consume(t, o))
  {
    hide HasExact;
    MatchesStay(t, Consume(t, o));
  }

  /** Settlement consumes a locked reservation and settles its option, once and for all. */
  lemma ConsumeKeepsInv(t: Tables, o: OptionId)
    requires Inv(t) && o in t.options && o in t.reservations && IsLocked(t.reservations[o].status)
    ensures Inv(Consume(t, o)) && HasSettled(Consume(t, o), t.options[o].intent)
  {
    hide Rows, Backed, Unique;
    var u := Consume(t, o);
    assert u.options[o].intent == t.options[o].intent && u.options[o].status == Settled;
    ConsumeKeepsRows(t, o);
    UniqueStays(t, u);
    BackedStays(t, u);
  }

  lemma ReleaseKeepsRows(t: Tables, u: Tables)
    requires Rows(t) && u == t.(reservations := u.reservations) && u.reservations.Keys == t.reservations.Keys
    requires forall o :: o in t.reservations ==> ReleasedAtMost(t.reservations[o], u.reservations[o])
    ensures Rows(u)
  {
    hide HasExact;
    MatchesStay(t, u);
  }

  predicate ReleasedAtMost(r: Reservation, s: Reservation) {
    s == r || (r.status == Active && s == r.(status := Released))
  }

  /** Reservations may be released from active. */
  lemma ReleaseKeepsInv(t: Tables, u: Tables)
    requires Inv(t) && u == t.(reservations := u.reservations) && u.reservations.Keys == t.reservations.Keys
    requires forall o :: o in t.reservations ==> ReleasedAtMost(t.reservations[o], u.reservations[o])
    ensures Inv(u)
  {
    hide Rows, Backed, Unique;
    ReleaseKeepsRows(t, u);
    UniqueStays(t, u);
    BackedStays(t, u);
  }

  lemma SupersedeKeepsRows(t: Tables, i: string)
    requires Rows(t)
    requires forall o :: o in t.options && t.options[o].intent == i ==> t.reservations[o].status == Released
    ensures Rows(SupersedeOffered(t, i))
  {
    hide HasExact;
    MatchesStay(t, SupersedeOffered(t, i));
  }

  /** Superseding the offered options of an intent none of whose options is held or locked. */
  lemma SupersedeKeepsInv(t: Tables, i: string)
    requires Inv(t)
    requires forall o :: o in t.options && t.options[o].intent == i ==>
               o in t.reservations && t.reservations[o].status == Released
    ensures Inv(SupersedeOffered(t, i)) && MayAwait(SupersedeOffered(t, i), i)
  {
    hide Rows, Backed, Unique;
    SupersedeKeepsRows(t, i);
    UniqueStays(t, SupersedeOffered(t, i));
    BackedStays(t, SupersedeOffered(t, i));
  }

  /** The tables with one more option, offered under an active reservation. */
  function WithOffer(t: Tables, i: string, key: Key, base: Int64, expiresAt: Time): Tables {
    t.(options := t.options[t.nextOption := PayOption(i, key, base, expiresAt, Offered)],
       reservations := t.reservations[t.nextOption := Reservation(key, Active, expiresAt)],
       nextOption := t.nextOption + 1)
  }

  lemma OfferKeepsRows(t: Tables, i: string, key: Key, base: Int64, expiresAt: Time)
    requires Rows(t) && i in t.intents && t.nextOption !in t.options
    ensures Rows(WithOffer(t, i, key, base, expiresAt))
  {
    hide HasExact;
    MatchesStay(t, WithOffer(t, i, key, base, expiresAt));
  }

  lemma OfferKeepsUnique(t: Tables, i: string, key: Key, base: Int64, expiresAt: Time)
    requires Unique(t) && t.nextOption !in t.reservations
    requires forall o :: o in t.reservations && IsHeld(t.reservations[o].status) ==> t.reservations[o].key != key
    ensures Unique(WithOffer(t, i, key, base, expiresAt))
  {
  }

  lemma NextOptionIsNew(t: Tables)
    requires Rows(t)
    ensures t.nextOption !in t.options && t.nextOption !in t.reservations
  {
    hide HasExact;
    assert t.nextOption !in t.options;
  }

  /** A new option comes with its reservation: on a free key, on a network checkout may offer. */
  lemma OfferKeepsInv(t: Tables, i: string, key: Key, base: Int64, expiresAt: Time)
    requires Inv(t) && i in t.intents
    requires key.network == TRON || !HasOpenGap(t.gaps, key.network)
    requires forall o :: o in t.reservations && IsHeld(t.reservations[o].status) ==> t.reservations[o].key != key
    ensures Inv(WithOffer(t, i, key, base, expiresAt))
  {
    hide Rows, Backed, Unique;
    NextOptionIsNew(t);
    OfferKeepsRows(t, i, key, base, expiresAt);
    OfferKeepsUnique(t, i, key, base, expiresAt);
    BackedStays(t, WithOffer(t, i, key, base, expiresAt));
  }

  lemma NewIntentKeepsRows(t: Tables, i: string, expiresAt: Time)
    requires Rows(t) && i in t.orders
    ensures Rows(EnsureIntent(t, i, expiresAt))
    ensures i !in t.intents ==> forall o :: o in t.options ==> t.options[o].intent != i
  {
    hide HasExact;
    MatchesStay(t, EnsureIntent(t, i, expiresAt));
  }

  /** A new intent has no options yet. */
  lemma NewIntentKeepsInv(t: Tables, i: string, expiresAt: Time)
    requires Inv(t) && i in t.orders
    ensures Inv(EnsureIntent(t, i, expiresAt))
  {
    hide Rows, Unique, Backed;
    NewIntentKeepsRows(t, i, expiresAt);
    UniqueStays(t, EnsureIntent(t, i, expiresAt));
    NewIntentKeepsBacked(t, i, expiresAt);
  }

  lemma NewIntentKeepsBacked(t: Tables, i: string, expiresAt: Time)
    requires Backed(t) && i in t.orders
    ensures Backed(EnsureIntent(t, i, expiresAt))
  {
    hide HasSettled, HasExactFor;
    ExactForOnlyReadsMatches(t, EnsureIntent(t, i, expiresAt));
    SettledOnlyReadsOptions(t, EnsureIntent(t, i, expiresAt));
  }

  /** Gap rows may change when every gap that is newly open found no option awaiting payment on its network. */
  lemma GapsKeepInv(t: Tables, u: Tables)
    requires Inv(t) && u == t.(gaps := u.gaps)
    requires forall o ::
               && o in t.options && HasOpenGap(u.gaps, t.options[o].key.network)
               && t.options[o].intent in t.intents && t.intents[t.options[o].intent].status == Awaiting
               ==> HasOpenGap(t.gaps, t.options[o].key.network)
    ensures Inv(u)
  {
    hide Rows, Unique, Backed;
    SameRows(t, u);
    UniqueStays(t, u);
    BackedStays(t, u);
  }

  lemma SameRows(t: Tables, u: Tables)
    requires Rows(t) && u.options == t.options && u.reservations == t.reservations && u.matches == t.matches
    requires u.intents.Keys == t.intents.Keys && u.nextOption == t.nextOption
    requires forall e :: e in t.events ==> e in u.events && u.events[e].key == t.events[e].key
    ensures Rows(u)
  {
    hide HasExact;
    MatchesStay(t, u);
  }

  lemma ExactForOnlyReadsMatches(t: Tables, u: Tables)
    requires t.matches == u.matches
    ensures forall i :: HasExactFor(t, i) <==> HasExactFor(u, i)
  {
  }

  lemma SettledOnlyReadsOptions(t: Tables, u: Tables)
    requires t.options == u.options
    ensures forall i :: HasSettled(t, i) <==> HasSettled(u, i)
  {
  }
}
