/**
 * The payment tables and what each transaction does to them: the specification that the
 * imperative PaymentStore is proved against, and that every run is made of.
 */
module Ledger {
  import opened Basics
  import opened Text
  import opened Checkout

  type OptionId = nat

  datatype Status =
    | Created | Awaiting | Seen | Confirming | Paid | Expired
    | Underpaid | Overpaid | LatePayment | NeedsReview | DuplicatePayment

  datatype ReservationStatus = Active | Matched | Released | Consumed

  datatype OptionStatus = Offered | Settled | Superseded

  datatype MatchKind =
    | ExactMatch | LateMatch | DuplicateMatch | AmbiguousMatch | UnderpaidMatch | OverpaidMatch | RoundedMatch
    | AmbiguousLate

  /** Where a transfer goes, in what, and how much: what a reservation holds. */
  datatype Key = Key(destination: string, network: string, token: string, amount: Int64)

  datatype EventRow = EventRow(key: Key, confirmations: int, processed: bool)
  datatype Intent = Intent(merchant: string, status: Status, expiresAt: Time)
  datatype PayOption = PayOption(intent: string, key: Key, base: Int64, expiresAt: Time, status: OptionStatus)
  datatype Reservation = Reservation(key: Key, status: ReservationStatus, expiresAt: Time)
  datatype Match = Match(intent: string, option: OptionId, kind: MatchKind)
  datatype Order = Order(merchant: string, status: Status, expiresAt: Option<Time>)

  /**
   * An order has at most one intent, so intents are keyed by their order; an option has at most one
   * reservation and an event at most one match, so those are keyed by the option and by the event.
   */
  datatype Tables = Tables(
    orders: map<string, Order>,
    intents: map<string, Intent>,
    options: map<OptionId, PayOption>,
    reservations: map<OptionId, Reservation>,
    events: map<string, EventRow>,
    matches: map<string, Match>,
    usage: map<(string, string), nat>,
    gaps: seq<Gap>,
    nextOption: OptionId)

  const EMPTY_TABLES := Tables(map[], map[], map[], map[], map[], map[], map[], [], 0)

  datatype Config = Config(bscConfirmations: int, tronConfirmations: int, lateWindowMs: int)

  datatype Emission = Emission(merchant: string, intent: string, kind: string)

  const PAID_EVENT := "payment.paid"
  const CONFIRMING_EVENT := "payment.confirming"
  const SEEN_EVENT := "payment.seen"
  const REVIEW_EVENT := "payment.needs_review"
  const UNMATCHED_EVENT := "payment.unmatched_ambiguous"

  // -------------------------------------------------------------------- events

  /** A transfer as the watcher reports it; stamp is the block's time in seconds or milliseconds. */
  datatype ChainEvent = ChainEvent(
    id: string, network: string, token: string, to: string, amount: Int64, confirmations: int,
    stamp: Option<Int64>, observedAt: Option<Time>)

  function NormalizeAddress(network: string, addr: string): string {
    var a := Trim(addr, GoSpace);
    if network == BSC || "0x" <= Lower(a) then Lower(a) else a
  }

  function KeyOf(ev: ChainEvent): Key {
    Key(NormalizeAddress(ev.network, ev.to), ev.network, NormalizeAddress(ev.network, ev.token), ev.amount)
  }

  function EventTime(ev: ChainEvent, now: Time): Time {
    if ev.stamp.Some? && ev.stamp.value > 1_000_000_000_000 then ev.stamp.value
    else if ev.stamp.Some? && ev.stamp.value > 0 then ev.stamp.value * 1000
    else if ev.observedAt.Some? then ev.observedAt.value
    else now
  }

  predicate IsValidEvent(ev: ChainEvent) {
    ev.id != "" && ev.network != "" && ev.token != "" && ev.to != ""
  }

  /** Whatever is configured, no network pays on an unconfirmed transfer. */
  function RequiredConfirmations(cfg: Config, network: string): (n: int)
    ensures n >= 1
    ensures network == BSC ==> n == (if cfg.bscConfirmations > 0 then cfg.bscConfirmations else 15)
    ensures network != BSC ==> n == Max(cfg.tronConfirmations, 1)
  {
    if network == BSC then if cfg.bscConfirmations <= 0 then 15 else cfg.bscConfirmations
    else if cfg.tronConfirmations <= 0 then 1
    else cfg.tronConfirmations
  }

  /** The late window, cut to whole seconds. */
  function LateMs(cfg: Config): (ms: int)
    ensures if cfg.lateWindowMs <= 0 then ms == 2 * 60 * 60 * 1000 else ms <= cfg.lateWindowMs < ms + 1000
    ensures ms >= 0 && ms % 1000 == 0
  {
    (if cfg.lateWindowMs <= 0 then 7_200_000 else cfg.lateWindowMs) / 1000 * 1000
  }

  // ------------------------------------------------------------------- queries

  predicate IsHeld(s: ReservationStatus) {
    s == Active || s == Matched
  }

  predicate IsLocked(s: ReservationStatus) {
    s == Matched || s == Consumed
  }

  /** The row of a reservation joined with its option and intent. */
  predicate Joined(t: Tables, o: OptionId) {
    o in t.reservations && o in t.options && t.options[o].intent in t.intents
  }

  function IntentOf(t: Tables, o: OptionId): Intent
    requires Joined(t, o)
  {
    t.intents[t.options[o].intent]
  }

  function Holders(t: Tables, key: Key): set<OptionId> {
    set o | o in t.reservations && Joined(t, o) && IsHeld(t.reservations[o].status) && t.reservations[o].key == key
  }

  predicate InLateWindow(cfg: Config, r: Reservation, at: Time) {
    r.expiresAt <= at <= r.expiresAt + LateMs(cfg)
  }

  function Releases(cfg: Config, t: Tables, key: Key, at: Time): set<OptionId> {
    set o | o in t.reservations && Joined(t, o)
      && t.reservations[o].status == Released && t.reservations[o].key == key
      && IntentOf(t, o).status != Paid && InLateWindow(cfg, t.reservations[o], at)
  }

  const NEAR := 1000

  predicate IsNear(held: Key, key: Key) {
    && held.destination == key.destination && held.network == key.network && held.token == key.token
    && Wrap64(key.amount - NEAR) <= held.amount <= Wrap64(key.amount + NEAR)
  }

  function Nears(t: Tables, key: Key): set<OptionId> {
    set o | o in t.reservations && Joined(t, o)
      && t.reservations[o].status == Active && IsNear(t.reservations[o].key, key)
      && IntentOf(t, o).status in {Awaiting, Seen, Confirming, Created}
  }

  function Distance(t: Tables, o: OptionId, key: Key): nat
    requires o in t.reservations
  {
    var d := t.reservations[o].key.amount - key.amount;
    if d < 0 then 0 - d else d
  }

  /** The row a query returns first, whatever order the database gives to equal rows. */
  predicate IsFirstHolder(t: Tables, key: Key, first: OptionId) {
    && first in Holders(t, key)
    && ((exists o :: o in Holders(t, key) && t.reservations[o].status == Active) ==>
          t.reservations[first].status == Active)
  }

  predicate IsFirstRelease(cfg: Config, t: Tables, key: Key, at: Time, first: OptionId) {
    && first in Releases(cfg, t, key, at)
    && forall o :: o in Releases(cfg, t, key, at) ==> t.reservations[o].expiresAt <= t.reservations[first].expiresAt
  }

  predicate IsFirstNear(t: Tables, key: Key, first: OptionId) {
    && first in Nears(t, key)
    && forall o :: o in Nears(t, key) ==> Distance(t, first, key) <= Distance(t, o, key)
  }

  /** first is a row the database may return first from whichever query of Ingest finds any. */
  predicate IsFirstRow(cfg: Config, t: Tables, key: Key, at: Time, first: OptionId) {
    if Holders(t, key) != {} then IsFirstHolder(t, key, first)
    else if Releases(cfg, t, key, at) != {} then IsFirstRelease(cfg, t, key, at, first)
    else Nears(t, key) != {} ==> IsFirstNear(t, key, first)
  }

  // -------------------------------------------------------------------- ingest

  datatype Verdict =
    | SecondTransfer(option: OptionId)
    | PastExpiry(option: OptionId)
    | Exact(option: OptionId, next: Status)
    | ReleasedLate(option: OptionId)
    | ReleasedAmbiguous(option: OptionId)
    | Unknown
    | NearAmbiguous(option: OptionId)
    | NearMiss(option: OptionId, kind: MatchKind, next: Status)

  function ExactNext(cfg: Config, ev: ChainEvent): Status {
    if ev.confirmations >= RequiredConfirmations(cfg, ev.network) then Paid
    else if ev.confirmations > 0 then Confirming
    else Seen
  }

  function ClassifyHeld(cfg: Config, t: Tables, ev: ChainEvent, at: Time, o: OptionId): Verdict
    requires Joined(t, o)
  {
    if t.reservations[o].status == Matched || IntentOf(t, o).status in {Paid, Seen, Confirming} then SecondTransfer(o)
    else if at > IntentOf(t, o).expiresAt then PastExpiry(o)
    else Exact(o, ExactNext(cfg, ev))
  }

  function ReleasedVerdict(cfg: Config, t: Tables, key: Key, at: Time, o: OptionId): Verdict {
    if |Releases(cfg, t, key, at)| > 1 then ReleasedAmbiguous(o) else ReleasedLate(o)
  }

  function ClassifyNear(t: Tables, key: Key, o: OptionId): Verdict
    requires o in t.reservations
  {
    if |Nears(t, key)| > 1 then NearAmbiguous(o)
    else
      var diff := Wrap64(key.amount - t.reservations[o].key.amount);
      if diff < 0 then NearMiss(o, UnderpaidMatch, Underpaid)
      else if diff > 0 then NearMiss(o, OverpaidMatch, Overpaid)
      else NearMiss(o, RoundedMatch, NeedsReview)
  }

  function Classify(cfg: Config, t: Tables, ev: ChainEvent, at: Time, first: OptionId): Verdict
    requires IsFirstRow(cfg, t, KeyOf(ev), at, first)
  {
    var key := KeyOf(ev);
    if Holders(t, key) != {} then ClassifyHeld(cfg, t, ev, at, first)
    else if Releases(cfg, t, key, at) != {} then ReleasedVerdict(cfg, t, key, at, first)
    else if Nears(t, key) != {} then ClassifyNear(t, key, first)
    else Unknown
  }

  function SetStatus(t: Tables, i: string, s: Status): Tables
    requires i in t.intents
  {
    t.(intents := t.intents[i := t.intents[i].(status := s)])
  }

  function AddMatch(t: Tables, e: string, o: OptionId, kind: MatchKind): Tables
    requires o in t.options
  {
    t.(matches := t.matches[e := Match(t.options[o].intent, o, kind)])
  }

  /** The state change, and the match row unless the event has one. */
  function Transition(t: Tables, e: string, o: OptionId, to: Status, kind: MatchKind): Tables
    requires Joined(t, o)
  {
    var moved := SetStatus(t, t.options[o].intent, to);
    if e in t.matches then moved else AddMatch(moved, e, o, kind)
  }

  function AddEvent(t: Tables, ev: ChainEvent): Tables {
    t.(events := t.events[ev.id := EventRow(KeyOf(ev), ev.confirmations, false)])
  }

  function MarkProcessed(t: Tables, e: string): Tables
    requires e in t.events
  {
    t.(events := t.events[e := t.events[e].(processed := true)])
  }

  function Lock(t: Tables, o: OptionId): Tables
    requires o in t.reservations
  {
    if t.reservations[o].status == Active then
      t.(reservations := t.reservations[o := t.reservations[o].(status := Matched)])
    else t
  }

  function Consume(t: Tables, o: OptionId): Tables
    requires o in t.reservations && o in t.options
  {
    var r := t.reservations[o];
    t.(reservations := t.reservations[o := if IsHeld(r.status) then r.(status := Consumed) else r],
       options := t.options[o := t.options[o].(status := Settled)])
  }

  function SetOrder(t: Tables, i: string, s: Status): Tables {
    if i in t.orders then t.(orders := t.orders[i := t.orders[i].(status := s)]) else t
  }

  function Counter(usage: map<(string, string), nat>, k: (string, string)): nat {
    if k in usage then usage[k] else 0
  }

  function CountPayment(t: Tables, merchant: string, period: string): Tables {
    t.(usage := t.usage[(merchant, period) := Counter(t.usage, (merchant, period)) + 1])
  }

  function SettlePaid(t: Tables, i: string, o: OptionId, period: string): Tables
    requires Joined(t, o) && i in t.intents
  {
    CountPayment(SetOrder(Consume(t, o), i, Paid), t.intents[i].merchant, period)
  }

  function SecondStatus(current: Status): Status {
    if current in {Seen, Confirming} then NeedsReview else DuplicatePayment
  }

  /** What a verdict does to the tables the event was just added to. */
  function Effect(t: Tables, e: string, v: Verdict, period: string): Tables
    requires e in t.events && (!v.Unknown? ==> Joined(t, v.option))
  {
    match v
    case SecondTransfer(o) => Transition(t, e, o, SecondStatus(IntentOf(t, o).status), DuplicateMatch)
    case PastExpiry(o) => MarkProcessed(Transition(t, e, o, LatePayment, LateMatch), e)
    case Exact(o, next) =>
      var locked := Lock(Transition(t, e, o, next, ExactMatch), o);
      MarkProcessed(if next == Paid then SettlePaid(locked, t.options[o].intent, o, period) else locked, e)
    case ReleasedLate(o) => MarkProcessed(Transition(t, e, o, LatePayment, LateMatch), e)
    case ReleasedAmbiguous(_) => MarkProcessed(t, e)
    case Unknown => MarkProcessed(t, e)
    case NearAmbiguous(o) => Transition(t, e, o, NeedsReview, AmbiguousMatch)
    case NearMiss(o, kind, next) => Transition(t, e, o, next, kind)
  }

  function StatusEvent(s: Status): string {
    if s == Paid then PAID_EVENT else if s == Confirming then CONFIRMING_EVENT else SEEN_EVENT
  }

  function Emitted(t: Tables, v: Verdict): seq<Emission>
    requires !v.Unknown? ==> Joined(t, v.option)
  {
    match v
    case Unknown => []
    case ReleasedAmbiguous(o) => [Emission(IntentOf(t, o).merchant, "", UNMATCHED_EVENT)]
    case Exact(o, next) => [Emission(IntentOf(t, o).merchant, t.options[o].intent, StatusEvent(next))]
    case _ => [Emission(IntentOf(t, v.option).merchant, t.options[v.option].intent, REVIEW_EVENT)]
  }

  /** What the caller of Ingest is told; an ambiguous late event is ignored, and has no match row of its kind. */
  datatype MatchResult = MatchResult(
    option: Option<OptionId>, kind: Option<MatchKind>, newStatus: Option<Status>, duplicate: bool, ignored: bool)

  const NOTHING := MatchResult(None, None, None, false, false)

  function Told(o: OptionId, kind: MatchKind, s: Status): MatchResult {
    MatchResult(Some(o), Some(kind), Some(s), false, false)
  }

  function ResultOf(t: Tables, v: Verdict): MatchResult
    requires !v.Unknown? ==> Joined(t, v.option)
  {
    match v
    case SecondTransfer(o) => Told(o, DuplicateMatch, SecondStatus(IntentOf(t, o).status))
    case PastExpiry(o) => Told(o, LateMatch, LatePayment)
    case Exact(o, next) => Told(o, ExactMatch, next)
    case ReleasedLate(o) => Told(o, LateMatch, LatePayment)
    case ReleasedAmbiguous(_) => NOTHING.(kind := Some(AmbiguousLate), ignored := true)
    case Unknown => NOTHING.(ignored := true)
    case NearAmbiguous(o) => Told(o, AmbiguousMatch, NeedsReview)
    case NearMiss(o, kind, next) => Told(o, kind, next)
  }

  function Ingest(cfg: Config, t: Tables, ev: ChainEvent, now: Time, first: OptionId, period: string)
    : (Tables, MatchResult, seq<Emission>)
    requires ev.id !in t.events ==> IsFirstRow(cfg, t, KeyOf(ev), EventTime(ev, now), first)
  {
    if ev.id in t.events then (t, NOTHING.(duplicate := true, ignored := true), [])
    else
      var v := Classify(cfg, t, ev, EventTime(ev, now), first);
      (Effect(AddEvent(t, ev), ev.id, v, period), ResultOf(t, v), Emitted(t, v))
  }

  // ------------------------------------------------------------- confirmations

  predicate HasExactMatch(t: Tables, e: string) {
    && e in t.events && e in t.matches && t.matches[e].kind == ExactMatch && t.matches[e].intent in t.intents
  }

  /** The events the worker updates on one network: exact matches of intents in flight. */
  predicate WorkerSelects(t: Tables, network: string, e: string) {
    && HasExactMatch(t, e) && t.events[e].key.network == network
    && t.intents[t.matches[e].intent].status in {Seen, Confirming}
  }

  function SetConfirmations(t: Tables, e: string, confirmations: int): Tables
    requires e in t.events
  {
    t.(events := t.events[e := t.events[e].(confirmations := confirmations)])
  }

  function ConfirmedStatus(cfg: Config, network: string, confirmations: int): Status {
    if confirmations >= RequiredConfirmations(cfg, network) then Paid else Confirming
  }

  function ApplyConfirmations(cfg: Config, t: Tables, e: string, confirmations: int, period: string)
    : (Tables, seq<Emission>)
    requires HasExactMatch(t, e) ==> Joined(t, t.matches[e].option)
  {
    if !HasExactMatch(t, e) then (t, [])
    else
      var m := t.matches[e];
      var counted := SetConfirmations(t, e, confirmations);
      var next := ConfirmedStatus(cfg, t.events[e].key.network, confirmations);
      if t.intents[m.intent].status in {Paid, next} then (counted, [])
      else
        var settled := if next == Paid then SettlePaid(counted, m.intent, m.option, period) else counted;
        (SetStatus(settled, m.intent, next), [Emission(t.intents[m.intent].merchant, m.intent, StatusEvent(next))])
  }

  // ----------------------------------------------------- expiry, review and gaps

  function ExpireIntents(t: Tables, now: Time): Tables {
    t.(intents := map i | i in t.intents ::
         if t.intents[i].status in {Created, Awaiting} && t.intents[i].expiresAt < now
         then t.intents[i].(status := Expired) else t.intents[i])
  }

  function ReleaseExpired(t: Tables, now: Time): Tables {
    t.(reservations := map o | o in t.reservations ::
         if t.reservations[o].status == Active && t.reservations[o].expiresAt < now
         then t.reservations[o].(status := Released) else t.reservations[o])
  }

  predicate OrderIsDue(t: Tables, i: string, now: Time)
    requires i in t.orders
  {
    && i in t.intents && t.orders[i].status == Awaiting
    && (t.intents[i].status == Expired || (t.orders[i].expiresAt.Some? && t.orders[i].expiresAt.value < now))
  }

  function ExpireOrders(t: Tables, now: Time): Tables {
    t.(orders := map i | i in t.orders ::
         if OrderIsDue(t, i, now) then t.orders[i].(status := Expired) else t.orders[i])
  }

  datatype ResolveError = BadRequest | Forbidden | BadAction | NoSuchIntent

  /** Operator review: the intent moves to NeedsReview, or only its log does. */
  function AdminResolve(t: Tables, i: string, reason: string, action: string): (Tables, Option<ResolveError>) {
    var a := Trim(action, GoSpace);
    if i == "" || reason == "" then (t, Some(BadRequest))
    else if a in {"mark_paid", "force_paid"} then (t, Some(Forbidden))
    else if a !in {"", "needs_review", "acknowledge_exception", "note"} then (t, Some(BadAction))
    else if i !in t.intents then (t, Some(NoSuchIntent))
    else if a in {"", "needs_review"} then (SetStatus(t, i, NeedsReview), None)
    else (t, None)
  }

  datatype SnapError = SnapBlocked | InvalidGap

  /** The options whose intent a skipped block could still pay. */
  function LiveOptions(t: Tables, network: string): set<OptionId> {
    set o | o in t.options && t.options[o].key.network == network && t.options[o].intent in t.intents
      && t.intents[t.options[o].intent].status in {Awaiting, Seen, Confirming}
  }

  function GateCursorSnap(t: Tables, network: string, from: int, to: int): (Tables, Option<SnapError>) {
    if |LiveOptions(t, network)| > 0 then (t, Some(SnapBlocked))
    else if to < from then (t, Some(InvalidGap))
    else (t.(gaps := t.gaps + [Gap(network, from, to, false)]), None)
  }

  function Acknowledged(gaps: seq<Gap>, network: string): seq<Gap> {
    seq(|gaps|, k requires 0 <= k < |gaps| => if gaps[k].network == network then gaps[k].(acked := true) else gaps[k])
  }

  function AcknowledgeWatcherGaps(t: Tables, network: string): Tables {
    t.(gaps := Acknowledged(t.gaps, network))
  }
}
