/**
 * The watcher and the payment tables together: the gate of a skip reads the tables, and the gap row withholds
 * checkout.
 */
module Joint {
  import opened Basics
  import opened Checkout
  import opened Ledger
  import opened Offers
  import opened Invariant
  import opened Preservation
  import opened Payments
  import Settlement
  import Machine
  import opened Watcher
  import opened Coverage

  datatype State = State(world: Machine.World, watch: Watch)

  const START := State(Machine.START, NEW_WATCH)

  /** A payment transaction, or one poll of the BSC watcher; what a poll observes is ingested by later transactions. */
  datatype Move = Pay(step: Machine.Step) | Tick(poll: Poll)

  /** The skip a poll would ask the gate for. */
  function Asked(a: Adapter, w: Watch, p: Poll): Option<Window> {
    if p.head.None? then None else Planned(a, p.head.value, CursorSeen(w, p)).snap
  }

  /** The gate the worker installs refuses while any BSC option is live, and records the gap otherwise. */
  function Gated(a: Adapter, s: State, p: Poll): Poll {
    match Asked(a, s.watch, p)
    case None => p
    case Some(gap) => p.(gateOpens := GateCursorSnap(s.world.tables, BSC, gap.from, gap.to).1.None?)
  }

  function Step(cfg: Config, a: Adapter, s: State, m: Move): State {
    match m
    case Pay(step) => s.(world := Machine.Next(cfg, s.world, step))
    case Tick(p) =>
      var watch := PollNetwork(a, s.watch, Gated(a, s, p));
      if |watch.gaps| <= |s.watch.gaps| then s.(watch := watch)
      else
        var gap := watch.gaps[|s.watch.gaps|];
        State(s.world.(tables := GateCursorSnap(s.world.tables, BSC, gap.from, gap.to).0), watch)
  }

  function After(cfg: Config, a: Adapter, moves: seq<Move>): State {
    if moves == [] then START
    else Step(cfg, a, After(cfg, a, moves[..|moves| - 1]), moves[|moves| - 1])
  }

  // ------------------------------------------------------------------ gap rows

  predicate IsRow(g: Gap, w: Window) {
    g.network == BSC && g.from == w.from && g.to == w.to
  }

  ghost predicate OnRecord(gaps: seq<Gap>, w: Window) {
    exists k :: 0 <= k < |gaps| && IsRow(gaps[k], w)
  }

  /** Rows are added and acknowledged, and otherwise stay. */
  ghost predicate RowsStay(s: seq<Gap>, t: seq<Gap>) {
    |s| <= |t| && forall k :: 0 <= k < |s| ==> t[k] == s[k] || t[k] == s[k].(acked := true)
  }

  lemma RecordStays(s: seq<Gap>, t: seq<Gap>, w: Window)
    requires RowsStay(s, t) && OnRecord(s, w)
    ensures OnRecord(t, w)
  {
    var k :| 0 <= k < |s| && IsRow(s[k], w);
    assert IsRow(t[k], w);
  }

  lemma EffectKeepsGaps(t: Tables, e: string, v: Verdict, period: string)
    requires e in t.events && (!v.Unknown? ==> Joined(t, v.option))
    ensures Effect(t, e, v, period).gaps == t.gaps
  {
    var r := ResultOf(t, v);
    if !r.ignored {
      Settlement.TransitionRows(t, e, v.option, r.newStatus.value, r.kind.value);
    }
    hide Transition;
  }

  lemma ObserveKeepsGaps(cfg: Config, t: Tables, s: Machine.Step)
    requires Machine.Possible(cfg, t, s) && s.Observe?
    ensures Machine.Do(cfg, t, s).0.gaps == t.gaps
  {
    hide IsFirstRow, EventTime, Classify, Effect;
    if s.ev.id !in t.events {
      VerdictFits(cfg, t, s.ev, EventTime(s.ev, s.now), s.first);
      EffectKeepsGaps(AddEvent(t, s.ev), s.ev.id, Classify(cfg, t, s.ev, EventTime(s.ev, s.now), s.first), s.period);
    }
  }

  lemma OthersKeepRows(cfg: Config, t: Tables, s: Machine.Step)
    requires Machine.Possible(cfg, t, s) && !s.Observe? && !s.Create? && !s.Refresh?
    ensures RowsStay(t.gaps, Machine.Do(cfg, t, s).0.gaps)
  {
    hide RequiredConfirmations;
  }

  lemma TransactionsKeepRows(cfg: Config, t: Tables, s: Machine.Step)
    requires Inv(t) && Machine.Possible(cfg, t, s)
    ensures RowsStay(t.gaps, Machine.Do(cfg, t, s).0.gaps)
  {
    hide Inv, IsFirstRow, CreateIntent, RefreshQuote, OnlyOffers, Ingest, Machine.Confirmed;
    if s.Observe? {
      ObserveKeepsGaps(cfg, t, s);
    } else if s.Create? {
      if Machine.Commits(s) && CreateIntent(t, s.merchant, s.order, s.requested, s.terms).Some? {
        CreateOnlyOffers(t, s.merchant, s.order, s.requested, s.terms);
        OnlyOffersKeepsGaps(t, Machine.Do(cfg, t, s).0);
      }
    } else if s.Refresh? {
      if Machine.Commits(s) {
        RefreshOnlyOffers(t, s.order, s.now, s.terms);
        OnlyOffersKeepsGaps(t, Machine.Do(cfg, t, s).0);
      }
    } else {
      OthersKeepRows(cfg, t, s);
    }
  }

  lemma OnlyOffersKeepsGaps(t: Tables, u: Tables)
    requires OnlyOffers(t, u)
    ensures u.gaps == t.gaps
  {
  }

  // ----------------------------------------------------------------- joint runs

  /** The poll, with the gate as the tables have it, accounts for the blocks it passes. */
  predicate AccountsAt(a: Adapter, s: State, m: Move) {
    m.Tick? ==> AccountsFor(a, s.watch, Gated(a, s, m.poll))
  }

  /** Every poll of the run accounts for the blocks it passes, where it happens. */
  predicate AllAccount(cfg: Config, a: Adapter, moves: seq<Move>) {
    moves == [] ||
    var front := moves[..|moves| - 1];
    AllAccount(cfg, a, front) && AccountsAt(a, After(cfg, a, front), moves[|moves| - 1])
  }

  ghost predicate Agree(s: State) {
    && Inv(s.world.tables)
    && AllCovered(s.watch)
    && forall k :: 0 <= k < |s.watch.gaps| ==> OnRecord(s.world.tables.gaps, s.watch.gaps[k])
  }

  /** A block could still pay the option. */
  predicate IsLive(t: Tables, o: OptionId) {
    && o in t.options && t.options[o].intent in t.intents
    && t.intents[t.options[o].intent].status in {Awaiting, Status.Seen, Confirming}
  }

  lemma GateCountsEveryLiveOption(t: Tables, network: string)
    requires LiveOptions(t, network) == {}
    ensures forall o :: IsLive(t, o) ==> t.options[o].key.network != network
  {
    forall o | IsLive(t, o)
      ensures t.options[o].key.network != network
    {
      assert o !in LiveOptions(t, network);
    }
  }

  /** A skip goes on record only when the gate let it: nothing on BSC was live. */
  lemma SkipsPassTheGate(cfg: Config, a: Adapter, s: State, p: Poll)
    ensures var u := PollNetwork(a, s.watch, Gated(a, s, p));
      && (|u.gaps| > |s.watch.gaps| ==>
            && Asked(a, s.watch, p).Some? && u.gaps == s.watch.gaps + [Asked(a, s.watch, p).value]
            && var gap := Asked(a, s.watch, p).value;
            && (forall o :: IsLive(s.world.tables, o) ==> s.world.tables.options[o].key.network != BSC)
            && gap.from <= gap.to
            && GateCursorSnap(s.world.tables, BSC, gap.from, gap.to).0
                 == s.world.tables.(gaps := s.world.tables.gaps + [Gap(BSC, gap.from, gap.to, false)]))
      && (|u.gaps| <= |s.watch.gaps| ==> u.gaps == s.watch.gaps)
  {
    if p.head.Some? {
      PlansAreBounded(a, p.head.value, CursorSeen(s.watch, p));
    }
    hide Planned, ValidAddresses, Fetched, Batches, LiveOptions, IsLive;
    if LiveOptions(s.world.tables, BSC) == {} {
      GateCountsEveryLiveOption(s.world.tables, BSC);
    }
  }

  lemma TickKeepsAgreement(cfg: Config, a: Adapter, s: State, p: Poll)
    requires Agree(s) && AccountsAt(a, s, Tick(p))
    ensures Agree(Step(cfg, a, s, Tick(p)))
  {
    hide Inv, AllCovered, PollNetwork, Planned, AccountsFor;
    SkipsPassTheGate(cfg, a, s, p);
    PollKeepsCover(a, s.watch, Gated(a, s, p));
    var u := Step(cfg, a, s, Tick(p));
    if |u.watch.gaps| > |s.watch.gaps| {
      var gap := Asked(a, s.watch, p).value;
      SnapKeepsInv(s.world.tables, BSC, gap.from, gap.to);
      hide Step, GateCursorSnap;
      forall k | 0 <= k < |u.watch.gaps|
        ensures OnRecord(u.world.tables.gaps, u.watch.gaps[k])
      {
        if k < |s.watch.gaps| {
          RecordStays(s.world.tables.gaps, u.world.tables.gaps, s.watch.gaps[k]);
        } else {
          assert IsRow(u.world.tables.gaps[|s.world.tables.gaps|], gap);
        }
      }
    }
  }

  lemma PayKeepsAgreement(cfg: Config, a: Adapter, s: State, step: Machine.Step)
    requires Agree(s)
    ensures Agree(Step(cfg, a, s, Pay(step)))
  {
    hide Inv, AllCovered, Machine.Do, Machine.Possible;
    var t := s.world.tables;
    if Machine.Possible(cfg, t, step) {
      DoKeepsInv(cfg, t, step);
      TransactionsKeepRows(cfg, t, step);
      forall k | 0 <= k < |s.watch.gaps|
        ensures OnRecord(Machine.Do(cfg, t, step).0.gaps, s.watch.gaps[k])
      {
        RecordStays(t.gaps, Machine.Do(cfg, t, step).0.gaps, s.watch.gaps[k]);
      }
    }
  }

  lemma {:induction false} JointRunsAgree(cfg: Config, a: Adapter, moves: seq<Move>)
    requires AllAccount(cfg, a, moves)
    ensures Agree(After(cfg, a, moves))
  {
    hide Agree, Step, AccountsAt;
    if moves == [] {
      StartAgrees();
    } else {
      var front, m := moves[..|moves| - 1], moves[|moves| - 1];
      JointRunsAgree(cfg, a, front);
      match m
      case Pay(step) => PayKeepsAgreement(cfg, a, After(cfg, a, front), step);
      case Tick(p) => TickKeepsAgreement(cfg, a, After(cfg, a, front), p);
    }
  }

  lemma StartAgrees()
    ensures Agree(START)
  {
  }

  predicate IsOfferedOnBsc(t: Tables, o: OptionId) {
    && o in t.options && t.options[o].key.network == BSC && t.options[o].status == Offered
    && t.options[o].intent in t.intents
  }

  /**
   * No block is lost between the watcher and checkout. After any mix of payment transactions and polls, each block
   * below the cursor was scanned, or has a gap row; and while a BSC gap row is unacknowledged, checkout does not
   * offer BSC and no offered BSC option awaits payment.
   */
  lemma SkippedBlocksWithholdCheckout(cfg: Config, a: Adapter, moves: seq<Move>, b: nat)
    requires AllAccount(cfg, a, moves)
    ensures var s := After(cfg, a, moves);
      var t := s.world.tables;
      && (s.watch.origin.Some? && s.watch.origin.value <= b < CursorOf(s.watch) ==>
            || (exists k :: 0 <= k < |s.watch.scans| && InWindow(s.watch.scans[k].window, b))
            || (exists k :: 0 <= k < |t.gaps| && t.gaps[k].network == BSC && t.gaps[k].from <= b <= t.gaps[k].to))
      && (HasOpenGap(t.gaps, BSC) ==>
            && (forall configured: seq<string>, health: Health :: BSC !in Effective(configured, health, t.gaps))
            && (forall o :: IsOfferedOnBsc(t, o) ==> t.intents[t.options[o].intent].status != Awaiting))
  {
    JointRunsAgree(cfg, a, moves);
    var s := After(cfg, a, moves);
    var t := s.world.tables;
    hide After, AllAccount, Effective, ParseBlockCursor;
    if s.watch.origin.Some? && s.watch.origin.value <= b < CursorOf(s.watch) {
      RecordedOrScanned(s, b);
    }
    if HasOpenGap(t.gaps, BSC) {
      forall configured: seq<string>, health: Health
        ensures BSC !in Effective(configured, health, t.gaps)
      {
        GapWithholdsExactly(configured, health, t.gaps, BSC);
      }
      OpenGapHoldsBack(t);
    }
  }

  lemma RecordedOrScanned(s: State, b: nat)
    requires Agree(s) && s.watch.origin.Some? && s.watch.origin.value <= b < CursorOf(s.watch)
    ensures var t := s.world.tables;
      || (exists k :: 0 <= k < |s.watch.scans| && InWindow(s.watch.scans[k].window, b))
      || (exists k :: 0 <= k < |t.gaps| && t.gaps[k].network == BSC && t.gaps[k].from <= b <= t.gaps[k].to)
  {
    hide Inv, ParseBlockCursor;
    var t := s.world.tables;
    assert Covered(s.watch, b);
    if k :| 0 <= k < |s.watch.gaps| && InWindow(s.watch.gaps[k], b) {
      assert OnRecord(t.gaps, s.watch.gaps[k]);
      var j :| 0 <= j < |t.gaps| && IsRow(t.gaps[j], s.watch.gaps[k]);
      assert t.gaps[j].network == BSC && t.gaps[j].from <= b <= t.gaps[j].to;
    }
  }

  lemma OpenGapHoldsBack(t: Tables)
    requires Inv(t) && HasOpenGap(t.gaps, BSC)
    ensures forall o :: IsOfferedOnBsc(t, o) ==> t.intents[t.options[o].intent].status != Awaiting
  {
    hide Rows, Unique, Backed;
  }
}
