/** Claiming unique amounts, and the transactions that offer them: intent creation and quote refresh. */
module Offers {
  import opened Basics
  import opened Text
  import opened Checkout
  import opened Ledger

  const DEFAULT_ATTEMPTS := 48
  const STEPS := 17
  const SPREAD := 900_000
  const JUMP := 100_000
  const REACH := 999_999

  /** The distance of the i-th candidate from the base amount; draw is the random number of that attempt. */
  function Offset(i: nat, draw: nat): nat {
    if i > 16 then draw % SPREAD + JUMP else i + 1
  }

  function Candidate(base: Int64, i: nat, draw: nat): Int64 {
    Wrap64(base + Offset(i, draw))
  }

  /** The first candidate from attempt i on that is not taken. */
  function FirstFree(taken: set<Int64>, base: Int64, draws: nat -> nat, i: nat, attempts: nat): Option<Int64>
    decreases attempts - i
  {
    if i >= attempts then None
    else if Candidate(base, i, draws(i)) !in taken then Some(Candidate(base, i, draws(i)))
    else FirstFree(taken, base, draws, i + 1, attempts)
  }

  /** How many amounts a claim tries: 48 unless a positive limit is given. */
  function Attempts(maxAttempts: int): (n: nat)
    ensures n > 0 && (maxAttempts > 0 ==> n == maxAttempts) && (maxAttempts <= 0 ==> n == 48)
  {
    if maxAttempts <= 0 then DEFAULT_ATTEMPTS else maxAttempts
  }

  /** The amounts the partial unique index excludes on one lane. */
  function Taken(t: Tables, destination: string, network: string, token: string): set<Int64> {
    set o | o in t.reservations && IsHeld(t.reservations[o].status)
      && t.reservations[o].key == Key(destination, network, token, t.reservations[o].key.amount)
      :: t.reservations[o].key.amount
  }

  function Reserve(t: Tables, o: OptionId, key: Key, expiresAt: Time): Tables
    requires o in t.options
  {
    t.(reservations := t.reservations[o := Reservation(key, Active, expiresAt)],
       options := t.options[o := t.options[o].(key := t.options[o].key.(amount := key.amount))])
  }

  /** None when the option is missing or already holds a reservation, or no attempt found a free amount. */
  function Claim(t: Tables, o: OptionId, destination: string, network: string, token: string, base: Int64,
                 expiresAt: Time, draws: nat -> nat, maxAttempts: int): Option<(Tables, Int64)>
  {
    if o !in t.options || o in t.reservations then None
    else
      match FirstFree(Taken(t, destination, network, token), base, draws, 0, Attempts(maxAttempts))
      case None => None
      case Some(amount) => Some((Reserve(t, o, Key(destination, network, token, amount), expiresAt), amount))
  }

  datatype Wallet = Wallet(address: string, contract: string)

  /**
   * What a caller offers: the base amount and the deadline, the configured networks and the health of their
   * watchers, the seller's wallet on each network, and the random draws of each option's claim.
   */
  datatype Terms = Terms(
    base: Int64, expiresAt: Time, configured: seq<string>, health: Health,
    wallets: map<string, Wallet>, draws: nat -> (nat -> nat))

  function AddOption(t: Tables, i: string, network: string, w: Wallet, base: Int64, expiresAt: Time): Tables {
    t.(options := t.options[t.nextOption :=
         PayOption(i, Key(w.address, network, w.contract, base), base, expiresAt, Offered)],
       nextOption := t.nextOption + 1)
  }

  /** One round of the loop: a network without a wallet is skipped; None is an error, and rolls everything back. */
  function OfferOn(t: Tables, i: string, terms: Terms, network: string): Option<Tables> {
    if network !in terms.wallets then Some(t)
    else
      var w := terms.wallets[network];
      var added := AddOption(t, i, network, w, terms.base, terms.expiresAt);
      match Claim(added, t.nextOption, w.address, network, w.contract, terms.base, terms.expiresAt,
                  terms.draws(t.nextOption), DEFAULT_ATTEMPTS)
      case None => None
      case Some(claimed) => Some(claimed.0)
  }

  function OfferAll(t: Tables, i: string, terms: Terms, networks: seq<string>): Option<Tables> {
    if networks == [] then Some(t)
    else
      match OfferAll(t, i, terms, networks[..|networks| - 1])
      case None => None
      case Some(u) => OfferOn(u, i, terms, networks[|networks| - 1])
  }

  function NormalNetwork(n: string): string {
    Lower(Trim(n, GoSpace))
  }

  function NormalNetworks(ns: seq<string>): seq<string> {
    seq(|ns|, k requires 0 <= k < |ns| => NormalNetwork(ns[k]))
  }

  /** The networks of a request: all effective ones, or those asked for that are effective. */
  function OfferedNetworks(requested: seq<string>, effective: seq<string>): seq<string> {
    if requested == [] then effective else Keep(NormalNetworks(requested), n => n in effective)
  }

  /** insertPaymentOptions and the check after it: no option created is an error too. */
  function OfferOrFail(t: Tables, i: string, terms: Terms, requested: seq<string>): Option<Tables> {
    var networks := OfferedNetworks(requested, Effective(terms.configured, terms.health, t.gaps));
    match OfferAll(t, i, terms, networks)
    case None => None
    case Some(u) => if u.nextOption == t.nextOption then None else Some(u)
  }

  /** The earlier of the quote's end and the order's own deadline, when it has one. */
  function Deadline(order: Order, quoteExpires: Time): (d: Time)
    ensures d <= quoteExpires && (order.expiresAt.Some? ==> d <= order.expiresAt.value)
    ensures d == quoteExpires || order.expiresAt == Some(d)
  {
    if order.expiresAt.Some? && order.expiresAt.value < quoteExpires then order.expiresAt.value else quoteExpires
  }

  /** An order that already has an intent keeps it as it is and gets more options. */
  function EnsureIntent(t: Tables, i: string, expiresAt: Time): Tables
    requires i in t.orders
  {
    if i in t.intents then t
    else t.(intents := t.intents[i := Intent(t.orders[i].merchant, Awaiting, expiresAt)])
  }

  /** terms.expiresAt is the end of the quote; the order's own deadline may cut it short. */
  function CreateIntent(t: Tables, merchant: string, i: string, requested: seq<string>, terms: Terms): Option<Tables> {
    if i !in t.orders || t.orders[i].merchant != merchant then None
    else
      var until := terms.(expiresAt := Deadline(t.orders[i], terms.expiresAt));
      OfferOrFail(SetOrder(EnsureIntent(t, i, until.expiresAt), i, Awaiting), i, until,
                  if requested == [] then terms.configured else requested)
  }

  // ------------------------------------------------------------------- refresh

  predicate IsBlocked(s: Status) {
    s in {Seen, Confirming, Paid, Underpaid, Overpaid, LatePayment, NeedsReview, DuplicatePayment}
  }

  predicate HasMatch(t: Tables, i: string) {
    exists e :: e in t.matches && t.matches[e].intent == i
  }

  datatype RefreshError = NotFound | NotRefreshable | StillActive | NoWallets

  function RefreshRefusal(t: Tables, i: string, now: Time): Option<RefreshError> {
    if i !in t.orders || i !in t.intents then Some(NotFound)
    else if IsBlocked(t.intents[i].status) then Some(NotRefreshable)
    else if !(t.intents[i].status == Expired || t.intents[i].expiresAt < now) then Some(StillActive)
    else if HasMatch(t, i) then Some(NotRefreshable)
    else None
  }

  predicate IsOfIntent(t: Tables, o: OptionId, i: string) {
    o in t.options && t.options[o].intent == i
  }

  function ReleaseUnsettled(t: Tables, i: string): Tables {
    t.(reservations := map o | o in t.reservations ::
         if IsOfIntent(t, o, i) && t.options[o].status != Settled && t.reservations[o].status == Active
         then t.reservations[o].(status := Released) else t.reservations[o])
  }

  function SupersedeOffered(t: Tables, i: string): Tables {
    t.(options := map o | o in t.options ::
         if IsOfIntent(t, o, i) && t.options[o].status == Offered
         then t.options[o].(status := Superseded) else t.options[o])
  }

  function Reopen(t: Tables, i: string, expiresAt: Time): Tables
    requires i in t.intents
  {
    SetOrder(t.(intents := t.intents[i := t.intents[i].(status := Awaiting, expiresAt := expiresAt)]), i, Awaiting)
  }

  function RefreshQuote(t: Tables, i: string, now: Time, terms: Terms): (Tables, Option<RefreshError>) {
    var refusal := RefreshRefusal(t, i, now);
    if refusal.Some? then (t, refusal)
    else
      match OfferOrFail(Reopen(SupersedeOffered(ReleaseUnsettled(t, i), i), i, terms.expiresAt), i, terms, [])
      case None => (t, Some(NoWallets))
      case Some(u) => (u, None)
  }

  // ------------------------------------------------------- the amounts claimed

  lemma {:induction false} FirstFreeIsFree(taken: set<Int64>, base: Int64, draws: nat -> nat, i: nat, attempts: nat)
    ensures match FirstFree(taken, base, draws, i, attempts)
            case None => forall k :: i <= k < attempts ==> Candidate(base, k, draws(k)) in taken
            case Some(a) =>
              exists k :: i <= k < attempts && a == Candidate(base, k, draws(k)) && a !in taken
                && forall j :: i <= j < k ==> Candidate(base, j, draws(j)) in taken
    decreases attempts - i
  {
    if i < attempts && Candidate(base, i, draws(i)) in taken {
      FirstFreeIsFree(taken, base, draws, i + 1, attempts);
    }
  }

  /**
   * First fit. With at least 17 attempts and no overflow, a claim returns the least free amount of
   * base+1..base+17 when there is one, and a failed claim means that all 17 are held.
   */
  lemma ClaimIsFirstFit(taken: set<Int64>, base: Int64, draws: nat -> nat, attempts: nat)
    requires attempts >= STEPS && base + REACH <= MAX_INT64
    ensures match FirstFree(taken, base, draws, 0, attempts)
            case None => forall a: Int64 :: base < a <= base + STEPS ==> a in taken
            case Some(c) =>
              && c !in taken && base < c <= base + REACH
              && (c <= base + STEPS || base + JUMP <= c)
              && forall a: Int64 :: base < a <= base + STEPS && a < c ==> a in taken
  {
    FirstFreeIsFree(taken, base, draws, 0, attempts);
    hide Wrap64, FirstFree;
    var r := FirstFree(taken, base, draws, 0, attempts);
    var k := attempts;
    if r.Some? {
      k :| 0 <= k < attempts && r.value == Candidate(base, k, draws(k))
        && forall j :: 0 <= j < k ==> Candidate(base, j, draws(j)) in taken;
    }
    forall a: Int64 | base < a <= base + STEPS && (r.Some? ==> a < r.value)
      ensures a in taken
    {
      assert Candidate(base, a - base - 1, draws(a - base - 1)) == a;
    }
  }

  lemma WrapsAround(x: int)
    requires MAX_INT64 < x <= MAX_INT64 + TWO_64
    ensures Wrap64(x) == x - TWO_64
  {
  }

  function FirstAmounts(base: Int64, n: nat, draw: nat): (s: set<Int64>)
    ensures forall k: nat :: k < n ==> Candidate(base, k, draw) in s
    ensures forall a :: a in s ==> exists k: nat :: k < n && a == Candidate(base, k, draw)
  {
    if n == 0 then {} else FirstAmounts(base, n - 1, draw) + {Candidate(base, n - 1, draw)}
  }

  /** With the 17 nearest amounts held and the largest draw, the sum wraps around to a negative amount. */
  lemma OverflowWitness(base: Int64, attempts: nat) returns (taken: set<Int64>, draws: nat -> nat)
    requires attempts > STEPS && base + REACH > MAX_INT64
    ensures FirstFree(taken, base, draws, 0, attempts) == Some(Wrap64(base + REACH))
    ensures Wrap64(base + REACH) < base
  {
    hide Wrap64, FirstFree;
    var draw: nat := SPREAD - 1;
    draws := _ => draw;
    taken := FirstAmounts(base, STEPS, draw);
    var a := Candidate(base, STEPS, draws(STEPS));
    WrapsAround(base + REACH);
    FirstFreeIsFree(taken, base, draws, 0, attempts);
    forall k: nat | k < STEPS
      ensures Candidate(base, k, draw) != a
    {
      assert Candidate(base, k, draw) == Wrap64(base + k + 1);
      if base + k + 1 > MAX_INT64 {
        WrapsAround(base + k + 1);
      }
    }
    assert forall k: nat :: k < STEPS ==> Candidate(base, k, draws(k)) in taken;
    var r := FirstFree(taken, base, draws, 0, attempts);
    assert r.Some? && r.value == a;
  }

  /**
   * Claims stay above the base, whatever is taken and drawn, if and only if the base leaves room for the largest
   * jump.
   */
  lemma ClaimsStayInRangeExactly(base: Int64, attempts: nat)
    requires attempts > STEPS
    ensures (forall taken: set<Int64>, draws: nat -> nat ::
               FirstFree(taken, base, draws, 0, attempts).Some? ==>
                 base < FirstFree(taken, base, draws, 0, attempts).value <= base + REACH)
            <==> base + REACH <= MAX_INT64
  {
    if base + REACH <= MAX_INT64 {
      forall taken: set<Int64>, draws: nat -> nat | FirstFree(taken, base, draws, 0, attempts).Some?
        ensures base < FirstFree(taken, base, draws, 0, attempts).value <= base + REACH
      {
        ClaimIsFirstFit(taken, base, draws, attempts);
      }
    } else {
      var taken, draws := OverflowWitness(base, attempts);
      assert FirstFree(taken, base, draws, 0, attempts).value < base;
    }
  }
}
