/** The usage counters count payments, not settled options: when the two differ, and by how much. */
module Recount {
  import opened Basics
  import opened Text
  import opened Checkout
  import opened Ledger
  import opened Offers
  import opened Machine
  import opened Invariant
  import opened Preservation
  import opened Payments
  import opened Settlement
  import opened History
  import opened Conservation

  ghost function SettledOptions(t: Tables): set<OptionId> {
    set o | o in t.options && IsSettled(t, o)
  }

  /** A confirmation update that pays again by a match whose option is settled already. */
  ghost predicate PaysAgain(cfg: Config, t: Tables, s: Step)
    requires Possible(cfg, t, s)
  {
    Payment(cfg, t, s).Some? && s.Confirm? && IsSettled(t, t.matches[s.event].option)
  }

  /** How often that happens in a schedule. */
  ghost function Recounts(cfg: Config, steps: seq<Step>): nat {
    if steps == [] then 0
    else
      var front, s := steps[..|steps| - 1], steps[|steps| - 1];
      var t := After(cfg, front).tables;
      Recounts(cfg, front) + if Possible(cfg, t, s) && PaysAgain(cfg, t, s) then 1 else 0
  }

  lemma SettledStays(t: Tables, u: Tables)
    requires Forward(t, u) && t.options.Keys == t.reservations.Keys
    ensures forall o :: IsSettled(t, o) ==> IsSettled(u, o)
  {
    forall o | IsSettled(t, o)
      ensures IsSettled(u, o)
    {
      assert OptionKept(t, u, o);
    }
  }

  lemma QuietSettlesNone(t: Tables, u: Tables)
    requires Quiet(t, u) && forall o :: IsSettled(t, o) ==> IsSettled(u, o)
    ensures SettledOptions(u) == SettledOptions(t)
  {
  }

  lemma PayingSettlesOne(cfg: Config, t: Tables, u: Tables, e: string, period: string)
    requires PaidBy(cfg, t, u, e, period) && forall o :: IsSettled(t, o) ==> IsSettled(u, o)
    ensures SettledOptions(u) == SettledOptions(t) + {u.matches[e].option}
  {
  }

  /** A fresh exact match settles an option that was not settled; a confirmation update names a match that stays. */
  lemma PaidMatch(cfg: Config, t: Tables, s: Step)
    requires Inv(t) && Possible(cfg, t, s) && Payment(cfg, t, s).Some?
    ensures var (u, e) := (Do(cfg, t, s).0, Payment(cfg, t, s).value);
      && e in u.matches
      && (IsSettled(t, u.matches[e].option) <==> PaysAgain(cfg, t, s))
  {
    hide Inv, IsFirstRow, EventTime, Classify, Effect, Forward, MatchedAtOnce, PaidBy;
    StepGoesForward(cfg, t, s);
    StepPays(cfg, t, s);
    if s.Observe? {
      var v := Classify(cfg, t, s.ev, EventTime(s.ev, s.now), s.first);
      VerdictFits(cfg, t, s.ev, EventTime(s.ev, s.now), s.first);
      AddEventKeepsInv(t, s.ev);
      ActiveIsOffered(t, v.option);
      EffectIsReported(AddEvent(t, s.ev), s.ev.id, v, s.period);
    } else {
      ConfirmKeepsMatch(cfg, t, s);
    }
  }

  lemma ConfirmKeepsMatch(cfg: Config, t: Tables, s: Step)
    requires Inv(t) && Possible(cfg, t, s) && s.Confirm? && Payment(cfg, t, s).Some?
    ensures Payment(cfg, t, s).value in t.matches && Do(cfg, t, s).0.matches == t.matches
  {
    hide Inv, IsFirstRow, SettlePaid, RequiredConfirmations;
    ExactIsJoined(t, s.event);
    ConfirmOutcome(cfg, t, s);
    SettlingLeaves(SetConfirmations(t, s.event, s.confirmations), t.matches[s.event].option, s.period);
    hide Do;
  }

  /** The counters exceed the settled options by exactly the payments that paid again. */
  lemma {:induction false} CountersAndSettledOptions(cfg: Config, steps: seq<Step>)
    ensures var t := After(cfg, steps).tables;
      Total(t.usage) == |SettledOptions(t)| + Recounts(cfg, steps)
  {
    hide Inv, Do, Payment, PaidBy, Quiet, Possible, Forward, MatchedAtOnce, SettledOptions, PaysAgain;
    if steps == [] {
      NothingSettledAtFirst();
    } else {
      var front, s := steps[..|steps| - 1], steps[|steps| - 1];
      CountersAndSettledOptions(cfg, front);
      AfterKeepsInv(cfg, front);
      var t, u := After(cfg, front).tables, After(cfg, steps).tables;
      if Possible(cfg, t, s) {
        StepPays(cfg, t, s);
        StepGoesForward(cfg, t, s);
        KeysAgree(t);
        SettledStays(t, u);
        if Payment(cfg, t, s).Some? {
          var e := Payment(cfg, t, s).value;
          PayingEntersOne(cfg, t, u, e, s.period);
          PaidMatch(cfg, t, s);
          PayingSettlesOne(cfg, t, u, e, s.period);
          OptionCount(t, u, u.matches[e].option);
        } else {
          QuietEntersNone(t, u);
          QuietSettlesNone(t, u);
          NoPaymentNoRecount(cfg, t, s);
        }
      }
    }
  }

  lemma NoPaymentNoRecount(cfg: Config, t: Tables, s: Step)
    requires Possible(cfg, t, s) && Payment(cfg, t, s).None?
    ensures !PaysAgain(cfg, t, s)
  {
  }

  lemma OptionCount(t: Tables, u: Tables, o: OptionId)
    requires SettledOptions(u) == SettledOptions(t) + {o}
    ensures |SettledOptions(u)| == |SettledOptions(t)| + if IsSettled(t, o) then 0 else 1
  {
    if IsSettled(t, o) {
      assert SettledOptions(u) == SettledOptions(t);
    }
  }

  lemma NothingSettledAtFirst()
    ensures SettledOptions(EMPTY_TABLES) == {} && Total(EMPTY_TABLES.usage) == 0
  {
  }

  /** So the counters count settled options if and only if no confirmation update pays by a settled option. */
  lemma CountersAreExactlySettledOptions(cfg: Config, steps: seq<Step>)
    ensures var t := After(cfg, steps).tables;
      Total(t.usage) == |SettledOptions(t)| <==> Recounts(cfg, steps) == 0
  {
    CountersAndSettledOptions(cfg, steps);
  }

  // ---------------------------------------------------------- a schedule that recounts

  /** A seller's wallets on both networks, and an offer of one base unit on each. */
  const OFFER := Terms(1, 100, ["tron", "bsc"], Readable([]),
                       map["tron" := Wallet("T", "U"), "bsc" := Wallet("b", "c")], _ => (_ => 0))

  const TRON_KEY := Key("T", "tron", "U", 2)
  const BSC_KEY := Key("b", "bsc", "c", 2)

  /** The buyer's transfer on tron, confirmed, and later another on BSC, not yet confirmed. */
  function FirstTransfer(n: int): ChainEvent {
    ChainEvent("e1", "tron", "U", "T", 2, n, None, Some(0))
  }

  const SECOND_TRANSFER := ChainEvent("e2", "bsc", "c", "b", 2, 0, None, Some(0))

  const ORDERED := EMPTY_TABLES.(orders := map["o" := Order("m", Created, None)])

  function Row(status: Status): map<string, Intent> {
    map["o" := Intent("m", status, 100)]
  }

  function Priced(key: Key, status: OptionStatus): PayOption {
    PayOption("o", key, 1, 100, status)
  }

  const ON_TRON := EMPTY_TABLES.(
    orders := map["o" := Order("m", Awaiting, None)],
    intents := Row(Awaiting),
    options := map[0 := Priced(TRON_KEY, Offered)],
    reservations := map[0 := Reservation(TRON_KEY, Active, 100)],
    nextOption := 1)

  const OFFERED := ON_TRON.(
    options := map[0 := Priced(TRON_KEY, Offered), 1 := Priced(BSC_KEY, Offered)],
    reservations := map[0 := Reservation(TRON_KEY, Active, 100), 1 := Reservation(BSC_KEY, Active, 100)],
    nextOption := 2)

  /** The first transfer paid; the intent's status and the payments counted since. */
  function PaidOnce(n: int, status: Status, count: nat): Tables {
    OFFERED.(
      orders := map["o" := Order("m", Paid, None)],
      intents := Row(status),
      options := map[0 := Priced(TRON_KEY, Settled), 1 := Priced(BSC_KEY, Offered)],
      reservations := map[0 := Reservation(TRON_KEY, Consumed, 100), 1 := Reservation(BSC_KEY, Active, 100)],
      events := map["e1" := EventRow(TRON_KEY, n, true)],
      matches := map["e1" := Match("o", 0, ExactMatch)],
      usage := map[("m", "p") := count])
  }

  /** The second transfer is in flight on the other option. */
  function SecondInFlight(n: int, status: Status, count: nat): Tables {
    PaidOnce(n, status, count).(
      reservations := map[0 := Reservation(TRON_KEY, Consumed, 100), 1 := Reservation(BSC_KEY, Matched, 100)],
      events := map["e1" := EventRow(TRON_KEY, n, true), "e2" := EventRow(BSC_KEY, 0, true)],
      matches := map["e1" := Match("o", 0, ExactMatch), "e2" := Match("o", 1, ExactMatch)])
  }

  lemma PlainText(s: string)
    requires |s| > 0 && !GoSpace(s[0]) && !GoSpace(s[|s| - 1])
    ensures Trim(s, GoSpace) == s
  {
  }

  lemma BothAreOffered()
    ensures OfferedNetworks(["tron", "bsc"], Effective(["tron", "bsc"], Readable([]), [])) == ["tron", "bsc"]
  {
    var both := ["tron", "bsc"];
    var effective := Effective(both, Readable([]), []);
    EffectiveExactly(both, Readable([]), [], "tron");
    EffectiveExactly(both, Readable([]), [], "bsc");
    hide Effective;
    PlainText("tron");
    PlainText("bsc");
    hide Trim;
    assert Lower("tron") == "tron" && Lower("bsc") == "bsc";
    assert NormalNetworks(both) == both;
    KeepsAll(both, n => n in effective);
  }

  lemma {:induction false} KeepsAll(networks: seq<string>, pass: string -> bool)
    requires forall n :: n in networks ==> pass(n)
    ensures Keep(networks, pass) == networks
  {
    if networks != [] {
      var n := |networks| - 1;
      assert networks == networks[..n] + [networks[n]];
      KeepsAll(networks[..n], pass);
    }
  }

  lemma FirstAmountIsFree(draws: nat -> nat)
    ensures FirstFree({}, 1, draws, 0, DEFAULT_ATTEMPTS) == Some(2)
  {
  }

  lemma OffersTron(t: Tables)
    requires t == ON_TRON.(options := map[], reservations := map[], nextOption := 0)
    ensures OfferOn(t, "o", OFFER, "tron") == Some(ON_TRON)
  {
    var added := AddOption(t, "o", "tron", Wallet("T", "U"), 1, 100);
    assert Taken(added, "T", "tron", "U") == {};
    FirstAmountIsFree(OFFER.draws(0));
    hide FirstFree;
    assert Reserve(added, 0, TRON_KEY, 100).options == ON_TRON.options;
    assert Reserve(added, 0, TRON_KEY, 100).reservations == ON_TRON.reservations;
    assert Claim(added, 0, "T", "tron", "U", 1, 100, OFFER.draws(0), DEFAULT_ATTEMPTS)
        == Some((Reserve(added, 0, TRON_KEY, 100), 2));
  }

  lemma OffersBsc()
    ensures OfferOn(ON_TRON, "o", OFFER, "bsc") == Some(OFFERED)
  {
    var added := AddOption(ON_TRON, "o", "bsc", Wallet("b", "c"), 1, 100);
    assert Taken(added, "b", "bsc", "c") == {};
    FirstAmountIsFree(OFFER.draws(1));
    hide FirstFree;
    assert Reserve(added, 1, BSC_KEY, 100).options == OFFERED.options;
    assert Reserve(added, 1, BSC_KEY, 100).reservations == OFFERED.reservations;
    assert Claim(added, 1, "b", "bsc", "c", 1, 100, OFFER.draws(1), DEFAULT_ATTEMPTS)
        == Some((Reserve(added, 1, BSC_KEY, 100), 2));
  }

  lemma CreateStep(cfg: Config)
    ensures Run(cfg, ORDERED, Create("o", "m", [], OFFER, true)) == (OFFERED, [])
  {
    BothAreOffered();
    hide Effective, OfferedNetworks, OfferOn;
    var u := SetOrder(EnsureIntent(ORDERED, "o", 100), "o", Awaiting);
    assert u == ON_TRON.(options := map[], reservations := map[], nextOption := 0);
    OffersTron(u);
    OffersBsc();
    var both := ["tron", "bsc"];
    assert both[..1] == ["tron"] && ["tron"][..0] == [];
    assert OfferAll(u, "o", OFFER, ["tron"]) == Some(ON_TRON);
    assert OfferAll(u, "o", OFFER, both) == Some(OFFERED);
  }

  lemma TransferKeys(n: int)
    ensures KeyOf(FirstTransfer(n)) == TRON_KEY && KeyOf(SECOND_TRANSFER) == BSC_KEY
  {
    PlainText("T");
    PlainText("U");
    PlainText("b");
    PlainText("c");
    hide Trim;
    assert Lower("T")[0] == 't' && Lower("U")[0] == 'u' && Lower("b") == "b" && Lower("c") == "c";
  }

  lemma FirstIsExact(cfg: Config, n: int)
    requires n == RequiredConfirmations(cfg, "tron")
    ensures var ev := FirstTransfer(n);
      && IsFirstRow(cfg, OFFERED, KeyOf(ev), EventTime(ev, 0), 0)
      && Classify(cfg, OFFERED, ev, EventTime(ev, 0), 0) == Exact(0, Paid)
  {
    TransferKeys(n);
    hide KeyOf, RequiredConfirmations;
    assert Holders(OFFERED, TRON_KEY) == {0};
  }

  lemma SecondIsExact(cfg: Config, n: int)
    ensures var t := PaidOnce(n, NeedsReview, 1);
      && IsFirstRow(cfg, t, KeyOf(SECOND_TRANSFER), EventTime(SECOND_TRANSFER, 0), 1)
      && Classify(cfg, t, SECOND_TRANSFER, EventTime(SECOND_TRANSFER, 0), 1) == Exact(1, Status.Seen)
  {
    TransferKeys(n);
    hide KeyOf;
    assert Holders(PaidOnce(n, NeedsReview, 1), BSC_KEY) == {1};
  }

  lemma FirstEffect(n: int)
    ensures Effect(AddEvent(OFFERED, FirstTransfer(n)), "e1", Exact(0, Paid), "p") == PaidOnce(n, Paid, 1)
  {
    TransferKeys(n);
    hide KeyOf;
  }

  lemma SecondEffect(n: int)
    ensures Effect(AddEvent(PaidOnce(n, NeedsReview, 1), SECOND_TRANSFER), "e2", Exact(1, Status.Seen), "p")
         == SecondInFlight(n, Status.Seen, 1)
  {
    TransferKeys(n);
    hide KeyOf;
  }

  lemma FirstStep(cfg: Config, n: int)
    requires n == RequiredConfirmations(cfg, "tron")
    ensures var s := Observe(FirstTransfer(n), 0, 0, "p", true);
      Possible(cfg, OFFERED, s) && Commits(s) && Run(cfg, OFFERED, s).0 == PaidOnce(n, Paid, 1)
  {
    hide Classify, Effect, IsFirstRow, KeyOf, EventTime, RequiredConfirmations;
    FirstIsExact(cfg, n);
    FirstEffect(n);
  }

  lemma ReviewStep(cfg: Config, n: int)
    ensures Run(cfg, PaidOnce(n, Paid, 1), Review("o", "r", "needs_review", true)).0 == PaidOnce(n, NeedsReview, 1)
  {
    PlainText("needs_review");
    hide Trim;
  }

  lemma SecondStep(cfg: Config, n: int)
    ensures var s := Observe(SECOND_TRANSFER, 0, 1, "p", true);
      Possible(cfg, PaidOnce(n, NeedsReview, 1), s) && Commits(s)
      && Run(cfg, PaidOnce(n, NeedsReview, 1), s).0 == SecondInFlight(n, Status.Seen, 1)
  {
    hide Classify, Effect, IsFirstRow, KeyOf, EventTime;
    SecondIsExact(cfg, n);
    SecondEffect(n);
  }

  lemma SettlesAgain(n: int)
    ensures var t := SecondInFlight(n, Status.Seen, 1);
      && Joined(t, 0) && SetConfirmations(t, "e1", n) == t
      && SetStatus(SettlePaid(t, "o", 0, "p"), "o", Paid) == SecondInFlight(n, Paid, 2)
  {
    var t := SecondInFlight(n, Status.Seen, 1);
    assert t.reservations[0 := t.reservations[0]] == t.reservations;
    assert t.options[0 := t.options[0].(status := Settled)] == t.options;
    assert SetConfirmations(t, "e1", n).events == t.events;
  }

  lemma ConfirmStep(cfg: Config, n: int)
    requires n == RequiredConfirmations(cfg, "tron")
    ensures Run(cfg, SecondInFlight(n, Status.Seen, 1), Confirm("e1", n, "p", true)).0 == SecondInFlight(n, Paid, 2)
  {
    hide RequiredConfirmations, SettlePaid, SetConfirmations;
    SettlesAgain(n);
  }

  lemma Extend(cfg: Config, front: seq<Step>, s: Step, t: Tables, u: Tables)
    requires After(cfg, front).tables == t && Possible(cfg, t, s) && Commits(s) && Run(cfg, t, s).0 == u
    ensures After(cfg, front + [s]).tables == u
  {
    hide Run, Possible, Commits;
    assert (front + [s])[..|front|] == front;
  }

  /** Five transactions: an order, its offers, a payment, an operator's review, and a second transfer. */
  function UpToSecondTransfer(n: int): seq<Step> {
    [NewOrder("o", "m", None)] + [Create("o", "m", [], OFFER, true)] + [Observe(FirstTransfer(n), 0, 0, "p", true)]
    + [Review("o", "r", "needs_review", true)] + [Observe(SECOND_TRANSFER, 0, 1, "p", true)]
  }

  lemma OfferedAfterTwo(cfg: Config)
    ensures After(cfg, [NewOrder("o", "m", None)] + [Create("o", "m", [], OFFER, true)]).tables == OFFERED
  {
    var s0 := NewOrder("o", "m", None);
    assert Run(cfg, EMPTY_TABLES, s0).0 == ORDERED;
    CreateStep(cfg);
    hide Run;
    assert [] + [s0] == [s0];
    Extend(cfg, [], s0, EMPTY_TABLES, ORDERED);
    Extend(cfg, [s0], Create("o", "m", [], OFFER, true), ORDERED, OFFERED);
  }

  lemma SecondTransferInFlight(cfg: Config, n: int)
    requires n == RequiredConfirmations(cfg, "tron")
    ensures After(cfg, UpToSecondTransfer(n)).tables == SecondInFlight(n, Status.Seen, 1)
  {
    hide Run, RequiredConfirmations, After, PaidOnce, SecondInFlight, IsFirstRow;
    var two := [NewOrder("o", "m", None)] + [Create("o", "m", [], OFFER, true)];
    var s2, s3 := Observe(FirstTransfer(n), 0, 0, "p", true), Review("o", "r", "needs_review", true);
    OfferedAfterTwo(cfg);
    FirstStep(cfg, n);
    ReviewStep(cfg, n);
    SecondStep(cfg, n);
    Extend(cfg, two, s2, OFFERED, PaidOnce(n, Paid, 1));
    Extend(cfg, two + [s2], s3, PaidOnce(n, Paid, 1), PaidOnce(n, NeedsReview, 1));
    Extend(cfg, two + [s2] + [s3], Observe(SECOND_TRANSFER, 0, 1, "p", true),
           PaidOnce(n, NeedsReview, 1), SecondInFlight(n, Status.Seen, 1));
  }

  lemma TwoCounted(n: int)
    ensures var t := SecondInFlight(n, Paid, 2); Total(t.usage) == 2 && SettledOptions(t) == {0}
  {
    var none: map<(string, string), nat> := map[];
    CountingAddsOne(none, ("m", "p"));
    CountingAddsOne(none[("m", "p") := 1], ("m", "p"));
    assert none[("m", "p") := 1][("m", "p") := 2] == SecondInFlight(n, Paid, 2).usage;
  }

  /**
   * Under every configuration, such a schedule ends with the worker counting one payment twice. A payment on one
   * network goes to review; a transfer on the other puts the intent in flight again; so the worker's query selects
   * the first payment once more, and its next update pays and counts it a second time for one settled option.
   */
  lemma ReviewedPaymentIsCountedTwice(cfg: Config)
    ensures var n := RequiredConfirmations(cfg, "tron");
      var before := UpToSecondTransfer(n);
      && WorkerSelects(After(cfg, before).tables, "tron", "e1")
      && var t := After(cfg, before + [Confirm("e1", n, "p", true)]).tables;
      Total(t.usage) == 2 && SettledOptions(t) == {0}
  {
    hide Run, RequiredConfirmations, After, Total, SettledOptions, UpToSecondTransfer;
    var n := RequiredConfirmations(cfg, "tron");
    SecondTransferInFlight(cfg, n);
    ConfirmStep(cfg, n);
    Extend(cfg, UpToSecondTransfer(n), Confirm("e1", n, "p", true),
           SecondInFlight(n, Status.Seen, 1), SecondInFlight(n, Paid, 2));
    TwoCounted(n);
  }
}
