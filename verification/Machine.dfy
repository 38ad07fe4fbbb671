/**
 * The payment state machine: worker, API and operators as a free choice among atomic transactions.
 * A step carries what its transaction draws from outside: clocks, the row a query happened to return first,
 * and whether the commit went through.
 */
module Machine {
  import opened Basics
  import opened Ledger
  import opened Offers

  datatype Step =
    | NewOrder(order: string, merchant: string, deadline: Option<Time>)
    | Create(order: string, merchant: string, requested: seq<string>, terms: Terms, commits: bool)
    | Refresh(order: string, now: Time, terms: Terms, commits: bool)
    | Observe(ev: ChainEvent, now: Time, first: OptionId, period: string, commits: bool)
    | Confirm(event: string, confirmations: int, period: string, commits: bool)
    | SweepIntents(now: Time)
    | SweepReservations(now: Time)
    | SweepOrders(now: Time)
    | Review(order: string, reason: string, action: string, commits: bool)
    | Snap(network: string, from: int, to: int)
    | Acknowledge(network: string)

  /** The one thing a step cannot choose freely: the first row is a row its query could return first. */
  predicate Possible(cfg: Config, t: Tables, s: Step) {
    s.Observe? && s.ev.id !in t.events ==> IsFirstRow(cfg, t, KeyOf(s.ev), EventTime(s.ev, s.now), s.first)
  }

  predicate Commits(s: Step) {
    match s
    case Create(_, _, _, _, commits) => commits
    case Refresh(_, _, _, commits) => commits
    case Observe(ev, _, _, _, commits) => commits && IsValidEvent(ev)
    case Confirm(_, _, _, commits) => commits
    case Review(_, _, _, commits) => commits
    case _ => true
  }

  function AddOrder(t: Tables, i: string, merchant: string, deadline: Option<Time>): Tables {
    if i in t.orders then t else t.(orders := t.orders[i := Order(merchant, Created, deadline)])
  }

  /** A committed transaction: the tables it leaves, and what it emits after the commit. */
  function Run(cfg: Config, t: Tables, s: Step): (Tables, seq<Emission>)
    requires Possible(cfg, t, s)
  {
    match s
    case NewOrder(i, merchant, deadline) => (AddOrder(t, i, merchant, deadline), [])
    case Create(i, merchant, requested, terms, _) =>
      var r := CreateIntent(t, merchant, i, requested, terms);
      (if r.Some? then r.value else t, [])
    case Refresh(i, now, terms, _) => (RefreshQuote(t, i, now, terms).0, [])
    case Observe(ev, now, first, period, _) =>
      var r := Ingest(cfg, t, ev, now, first, period);
      (r.0, r.2)
    case Confirm(e, confirmations, period, _) => Confirmed(cfg, t, e, confirmations, period)
    case SweepIntents(now) => (ExpireIntents(t, now), [])
    case SweepReservations(now) => (ReleaseExpired(t, now), [])
    case SweepOrders(now) => (ExpireOrders(t, now), [])
    case Review(i, reason, action, _) => (AdminResolve(t, i, reason, action).0, [])
    case Snap(network, from, to) => (GateCursorSnap(t, network, from, to).0, [])
    case Acknowledge(network) => (AcknowledgeWatcherGaps(t, network), [])
  }

  /** A match row whose option or intent is gone joins with nothing. */
  function Confirmed(cfg: Config, t: Tables, e: string, confirmations: int, period: string): (Tables, seq<Emission>) {
    if HasExactMatch(t, e) && !Joined(t, t.matches[e].option) then (t, [])
    else ApplyConfirmations(cfg, t, e, confirmations, period)
  }

  /** A step that fails anywhere before its commit changes nothing and emits nothing. */
  function Do(cfg: Config, t: Tables, s: Step): (Tables, seq<Emission>)
    requires Possible(cfg, t, s)
  {
    if Commits(s) then Run(cfg, t, s) else (t, [])
  }

  datatype World = World(tables: Tables, sent: seq<Emission>)

  const START := World(EMPTY_TABLES, [])

  /** Every schedule is a run: an entry whose first row no query could return there is passed over. */
  function Next(cfg: Config, w: World, s: Step): World {
    if Possible(cfg, w.tables, s) then
      var (t, emitted) := Do(cfg, w.tables, s);
      World(t, w.sent + emitted)
    else w
  }

  /** The world after a schedule. */
  function After(cfg: Config, steps: seq<Step>): World {
    if steps == [] then START
    else Next(cfg, After(cfg, steps[..|steps| - 1]), steps[|steps| - 1])
  }
}
