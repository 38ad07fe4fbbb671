/** What the counters count: payments, emissions and settled options, over whole schedules. */
module Conservation {
  import opened Basics
  import opened Ledger
  import opened Offers
  import opened Machine
  import opened Invariant
  import opened Preservation
  import opened Settlement

  // ------------------------------------------------------------------- counters

  /** The sum of verified_payments over every merchant and period. */
  ghost function Total(usage: map<(string, string), nat>): nat {
    if usage == map[] then 0
    else
      var k :| k in usage;
      usage[k] + Total(usage - {k})
  }

  lemma {:induction false} TotalSplits(usage: map<(string, string), nat>, k: (string, string))
    requires k in usage
    ensures Total(usage) == usage[k] + Total(usage - {k})
    decreases |usage|
  {
    var j :| j in usage && Total(usage) == usage[j] + Total(usage - {j});
    if j != k {
      TotalSplits(usage - {j}, k);
      TotalSplits(usage - {k}, j);
      assert usage - {j} - {k} == usage - {k} - {j};
    }
  }

  lemma CountingAddsOne(usage: map<(string, string), nat>, k: (string, string))
    ensures Total(usage[k := Counter(usage, k) + 1]) == Total(usage) + 1
  {
    var v := usage[k := Counter(usage, k) + 1];
    TotalSplits(v, k);
    if k in usage {
      TotalSplits(usage, k);
      assert v - {k} == usage - {k};
    } else {
      assert v - {k} == usage;
    }
  }

  function PaidEmissions(sent: seq<Emission>): nat {
    if sent == [] then 0
    else PaidEmissions(sent[..|sent| - 1]) + if sent[|sent| - 1].kind == PAID_EVENT then 1 else 0
  }

  lemma PaidEmissionsAppend(sent: seq<Emission>, more: seq<Emission>)
    requires |more| <= 1
    ensures PaidEmissions(sent + more) == PaidEmissions(sent) + PaidEmissions(more)
  {
    if more == [] {
      assert sent + more == sent;
    } else {
      assert (sent + more)[..|sent|] == sent;
      assert more[..0] == [];
    }
  }

  /** The intents a step moves into Paid. */
  ghost function Entering(t: Tables, u: Tables): set<string> {
    set i | i in u.intents && IsPaid(u, i) && !IsPaid(t, i)
  }

  /** How many times a step of the schedule moved an intent into Paid. */
  ghost function Entries(cfg: Config, steps: seq<Step>): nat {
    if steps == [] then 0
    else
      var front := steps[..|steps| - 1];
      Entries(cfg, front) + |Entering(After(cfg, front).tables, After(cfg, steps).tables)|
  }

  lemma PayingEntersOne(cfg: Config, t: Tables, u: Tables, e: string, period: string)
    requires PaidBy(cfg, t, u, e, period)
    ensures |Entering(t, u)| == 1 && Total(u.usage) == Total(t.usage) + 1
  {
    var i := u.matches[e].intent;
    assert Entering(t, u) == {i};
    CountingAddsOne(t.usage, (t.intents[i].merchant, period));
  }

  lemma QuietEntersNone(t: Tables, u: Tables)
    requires Quiet(t, u)
    ensures Entering(t, u) == {} && u.usage == t.usage
  {
  }

  lemma OneEmission(e: Emission)
    ensures PaidEmissions([e]) == if e.kind == PAID_EVENT then 1 else 0
  {
    assert [e][..0] == [];
  }

  /** A step emits at most once, and payment.paid exactly when it pays. */
  lemma PaidIsEmittedExactly(cfg: Config, t: Tables, s: Step)
    requires Inv(t) && Possible(cfg, t, s)
    ensures |Do(cfg, t, s).1| <= 1
    ensures PaidEmissions(Do(cfg, t, s).1) == if Payment(cfg, t, s).Some? then 1 else 0
  {
    hide Inv, IsFirstRow, EventTime, Classify, Effect, CreateIntent, RefreshQuote, SettlePaid, AddEvent;
    var emitted := Do(cfg, t, s).1;
    if s.Observe? && s.ev.id !in t.events {
      VerdictFits(cfg, t, s.ev, EventTime(s.ev, s.now), s.first);
    } else if s.Confirm? && HasExactMatch(t, s.event) {
      ExactIsJoined(t, s.event);
    }
    if emitted != [] {
      assert emitted == [emitted[0]];
      OneEmission(emitted[0]);
    }
  }

  /** The step pays, in the period of the key, an intent of the merchant of the key. */
  ghost predicate PaysFor(cfg: Config, t: Tables, s: Step, k: (string, string))
    requires Possible(cfg, t, s)
  {
    && Payment(cfg, t, s).Some? && (s.Observe? || s.Confirm?) && s.period == k.1
    && var (u, e) := (Do(cfg, t, s).0, Payment(cfg, t, s).value);
    e in u.matches && u.matches[e].intent in t.intents && t.intents[u.matches[e].intent].merchant == k.0
  }

  /** How many steps of the schedule paid for a merchant in a period. */
  ghost function PaymentsFor(cfg: Config, steps: seq<Step>, k: (string, string)): nat {
    if steps == [] then 0
    else
      var front, s := steps[..|steps| - 1], steps[|steps| - 1];
      var t := After(cfg, front).tables;
      PaymentsFor(cfg, front, k) + if Possible(cfg, t, s) && PaysFor(cfg, t, s, k) then 1 else 0
  }

  /** A paying step adds one to the counter of its merchant and period, and no other counter ever moves. */
  lemma StepCounts(cfg: Config, t: Tables, s: Step, k: (string, string))
    requires Inv(t) && Possible(cfg, t, s)
    ensures Counter(Do(cfg, t, s).0.usage, k) == Counter(t.usage, k) + if PaysFor(cfg, t, s, k) then 1 else 0
  {
    StepPays(cfg, t, s);
    hide Inv, Do, Possible, RequiredConfirmations;
  }

  /** Each usage counter is the number of steps that paid for its merchant in its period. */
  lemma {:induction false} EachCounterIsExact(cfg: Config, steps: seq<Step>, k: (string, string))
    ensures Counter(After(cfg, steps).tables.usage, k) == PaymentsFor(cfg, steps, k)
  {
    hide Inv, Do, PaysFor, Possible;
    if steps != [] {
      var front, s := steps[..|steps| - 1], steps[|steps| - 1];
      EachCounterIsExact(cfg, front, k);
      AfterKeepsInv(cfg, front);
      if Possible(cfg, After(cfg, front).tables, s) {
        StepCounts(cfg, After(cfg, front).tables, s, k);
      }
    }
  }

  /**
   * Conservation. After any schedule each usage counter is the number of steps that paid for its merchant in its
   * period, and their sum is the number of payment.paid emissions, which is the number of steps that moved an intent
   * into Paid; a step that did not commit contributes to none of these.
   */
  lemma {:induction false} PaymentsAreCountedOnce(cfg: Config, steps: seq<Step>)
    ensures forall k :: Counter(After(cfg, steps).tables.usage, k) == PaymentsFor(cfg, steps, k)
    ensures Total(After(cfg, steps).tables.usage) == Entries(cfg, steps)
    ensures PaidEmissions(After(cfg, steps).sent) == Entries(cfg, steps)
  {
    CountersSumUp(cfg, steps);
    hide Counter, After, PaymentsFor, Total, Entries, PaidEmissions;
    forall k: (string, string)
      ensures Counter(After(cfg, steps).tables.usage, k) == PaymentsFor(cfg, steps, k)
    {
      EachCounterIsExact(cfg, steps, k);
    }
  }

  lemma {:induction false} CountersSumUp(cfg: Config, steps: seq<Step>)
    ensures Total(After(cfg, steps).tables.usage) == Entries(cfg, steps)
    ensures PaidEmissions(After(cfg, steps).sent) == Entries(cfg, steps)
  {
    hide Inv, Do, Payment, PaidBy, Quiet, Entering, Possible;
    if steps != [] {
      var front, s := steps[..|steps| - 1], steps[|steps| - 1];
      CountersSumUp(cfg, front);
      AfterKeepsInv(cfg, front);
      var t := After(cfg, front).tables;
      var u := After(cfg, steps).tables;
      if Possible(cfg, t, s) {
        StepPays(cfg, t, s);
        PaidIsEmittedExactly(cfg, t, s);
        PaidEmissionsAppend(After(cfg, front).sent, Do(cfg, t, s).1);
        if Payment(cfg, t, s).Some? {
          PayingEntersOne(cfg, t, u, Payment(cfg, t, s).value, s.period);
        } else {
          QuietEntersNone(t, u);
        }
      } else {
        NothingIsQuiet(t);
        QuietEntersNone(t, u);
      }
    }
  }

  /** The match row and the status a verdict writes are the ones its result reports. */
  lemma EffectIsReported(t: Tables, e: string, v: Verdict, period: string)
    requires e in t.events && e !in t.matches && (!v.Unknown? ==> Joined(t, v.option))
    ensures var (u, r) := (Effect(t, e, v, period), ResultOf(t, v));
      && e in u.events && u.events[e].key == t.events[e].key
      && (r.ignored ==> u.matches == t.matches)
      && (!r.ignored ==>
            && r.option == Some(v.option) && r.kind.Some? && r.newStatus.Some?
            && var i := t.options[v.option].intent;
            && u.matches == t.matches[e := Match(i, v.option, r.kind.value)]
            && i in u.intents && u.intents[i].status == r.newStatus.value)
  {
    var r := ResultOf(t, v);
    if !r.ignored {
      TransitionWrites(t, e, v.option, r.newStatus.value, r.kind.value);
      var moved := Transition(t, e, v.option, r.newStatus.value, r.kind.value);
      SettlingLeaves(Lock(moved, v.option), v.option, period);
    }
    hide Transition, SettlePaid;
  }

  lemma TransitionWrites(t: Tables, e: string, o: OptionId, to: Status, kind: MatchKind)
    requires Joined(t, o) && e !in t.matches
    ensures var (u, i) := (Transition(t, e, o, to, kind), t.options[o].intent);
      && u.matches == t.matches[e := Match(i, o, kind)]
      && u.intents == t.intents[i := t.intents[i].(status := to)]
      && u.events == t.events && u.options == t.options && u.reservations == t.reservations
  {
  }

  /** A fresh event that commits is either ignored or has one match row, the one its result describes. */
  lemma IngestMatchesOrIgnores(cfg: Config, t: Tables, ev: ChainEvent, now: Time, first: OptionId, period: string)
    requires Inv(t) && IsFirstRow(cfg, t, KeyOf(ev), EventTime(ev, now), first) && ev.id !in t.events
    ensures var (u, r, _) := Ingest(cfg, t, ev, now, first, period);
      && ev.id in u.events && u.events[ev.id].key == KeyOf(ev)
      && (r.ignored <==> ev.id !in u.matches)
      && (!r.ignored ==>
            && r.option.Some? && r.option.value in t.options && r.kind.Some? && r.newStatus.Some?
            && var i := t.options[r.option.value].intent;
            && u.matches[ev.id] == Match(i, r.option.value, r.kind.value)
            && i in u.intents && u.intents[i].status == r.newStatus.value)
  {
    hide Inv, IsFirstRow, EventTime, Classify, Effect;
    AddEventKeepsInv(t, ev);
    var v := Classify(cfg, t, ev, EventTime(ev, now), first);
    VerdictFits(cfg, t, ev, EventTime(ev, now), first);
    EffectIsReported(AddEvent(t, ev), ev.id, v, period);
  }
}
