/**
 * The payment status poller: a closure over five variables and the browser's timers.
 * A reload that never settles is simply one whose Settled event never comes.
 */
module Poller {
  import opened Basics

  type TimerId = nat

  const POLL_STATUSES: set<string> := {"CREATED", "AWAITING_PAYMENT", "SEEN", "CONFIRMING"}

  const STOP_POLL_STATUSES: set<string> := {
    "PAID", "EXPIRED", "CANCELLED", "NEEDS_REVIEW", "UNDERPAID", "OVERPAID", "LATE_PAYMENT", "DUPLICATE_PAYMENT"
  }

  predicate ShouldPoll(status: Option<string>) {
    && status.Some? && status.value != ""
    && status.value !in STOP_POLL_STATUSES
    && status.value in POLL_STATUSES
  }

  function PollIntervalMs(attempt: int): (ms: int)
    ensures 2000 <= ms <= 5000
  {
    if attempt <= 5 then 2000 else if attempt <= 20 then 3000 else 5000
  }

  /**
   * The closure's variables, the timers the browser holds (with their due times), and history: whether a
   * non-pollable status was read since the last arming, when ticks started reloads, how many of those have not
   * settled, how many reloads becoming visible started, and how many of these have not settled.
   */
  datatype State = State(
    attempt: nat, timer: Option<TimerId>, stopped: bool, hidden: bool, inFlight: bool,
    armed: map<TimerId, Time>, nextTimer: TimerId,
    sawStop: bool, tickReloads: seq<Time>, running: nat, shownReloads: nat, shownRunning: nat)

  const INITIAL := State(0, None, true, false, false, map[], 0, false, [], 0, 0, 0)

  function ClearTimer(s: State): State {
    if s.timer.Some? then s.(armed := s.armed - {s.timer.value}, timer := None) else s
  }

  function Arm(s: State, ms: int, now: Time): State {
    var c := ClearTimer(s);
    if c.stopped then c
    else c.(timer := Some(c.nextTimer), armed := c.armed[c.nextTimer := now + ms],
            nextTimer := c.nextTimer + 1, sawStop := false)
  }

  lemma ArmingKeepsReloads(s: State, ms: int, now: Time)
    ensures var t := Arm(s, ms, now);
      && t.attempt == s.attempt && t.inFlight == s.inFlight && t.running == s.running
      && t.tickReloads == s.tickReloads
  {
  }

  /** A tick up to the point where it waits for the reload. */
  function Tick(s: State, now: Time, status: Option<string>): State {
    if s.stopped then s
    else if !ShouldPoll(status) then s.(attempt := 0, sawStop := true)
    else if s.hidden then Arm(s, 5000, now)
    else
      var counted := s.(attempt := s.attempt + 1);
      var t := Arm(counted, PollIntervalMs(counted.attempt), now);
      if t.inFlight then t
      else t.(inFlight := true, running := t.running + 1, tickReloads := t.tickReloads + [now])
  }

  /** The rest of the tick, once the reload has settled, well or badly. */
  function Settle(s: State, status: Option<string>): State
    requires s.running > 0
  {
    var t := s.(inFlight := false, running := s.running - 1);
    if t.stopped then t
    else if !ShouldPoll(status) then ClearTimer(t.(attempt := 0, sawStop := true))
    else t
  }

  function StartPolling(s: State, now: Time, status: Option<string>): State {
    if !s.stopped then s
    else if !ShouldPoll(status) then s.(attempt := 0)
    else Arm(s.(stopped := false, attempt := 0), PollIntervalMs(0), now)
  }

  function StopPolling(s: State): State {
    ClearTimer(s.(stopped := true, attempt := 0))
  }

  function Show(s: State, nextHidden: bool, now: Time, status: Option<string>): State {
    var t := s.(hidden := nextHidden);
    if t.stopped || !s.hidden || nextHidden || !ShouldPoll(status) then t
    else
      var u := t.(shownReloads := t.shownReloads + 1, shownRunning := t.shownRunning + 1);
      if u.timer.None? then Arm(u, PollIntervalMs(Max(u.attempt, 1)), now) else u
  }

  datatype Event =
    | Started(status: Option<string>)
    | Stopped
    | Visibility(hidden: bool, status: Option<string>)
    | Fired(id: TimerId, status: Option<string>)
    | Settled(status: Option<string>)
    | ShownSettled

  /** A timer fires only while armed and not before it is due; only a reload under way settles. */
  predicate CanHappen(s: State, e: Event, now: Time) {
    match e
    case Fired(id, _) => id in s.armed && s.armed[id] <= now
    case Settled(_) => s.running > 0
    case ShownSettled => s.shownRunning > 0
    case _ => true
  }

  function Step(s: State, e: Event, now: Time): State
    requires CanHappen(s, e, now)
  {
    match e
    case Started(status) => StartPolling(s, now, status)
    case Stopped => StopPolling(s)
    case Visibility(h, status) => Show(s, h, now, status)
    case Fired(id, status) =>
      // The callback forgets whatever timer the closure remembers, then ticks.
      Tick(s.(armed := s.armed - {id}, timer := None), now, status)
    case Settled(status) => Settle(s, status)
    // Nobody waits for the reload of becoming visible.
    case ShownSettled => s.(shownRunning := s.shownRunning - 1)
  }

  class PaymentStatusPoller {
    var attempt: nat
    var timer: Option<TimerId>
    var stopped: bool
    var hidden: bool
    var inFlight: bool
    var armed: map<TimerId, Time>
    var nextTimer: TimerId
    ghost var sawStop: bool
    ghost var tickReloads: seq<Time>
    ghost var running: nat
    ghost var shownReloads: nat
    ghost var shownRunning: nat

    ghost function View(): State
      reads this
    {
      State(attempt, timer, stopped, hidden, inFlight, armed, nextTimer,
            sawStop, tickReloads, running, shownReloads, shownRunning)
    }

    constructor ()
      ensures View() == INITIAL
    {
      attempt, timer, stopped, hidden, inFlight := 0, None, true, false, false;
      armed, nextTimer := map[], 0;
      sawStop, tickReloads, running, shownReloads, shownRunning := false, [], 0, 0, 0;
    }

    method Clear()
      modifies this
      ensures View() == ClearTimer(old(View()))
    {
      if timer.Some? {
        armed := armed - {timer.value};
        timer := None;
      }
    }

    method ArmTimer(ms: int, now: Time)
      modifies this
      ensures View() == Arm(old(View()), ms, now)
    {
      Clear();
      if stopped {
        return;
      }
      timer := Some(nextTimer);
      armed := armed[nextTimer := now + ms];
      nextTimer := nextTimer + 1;
      sawStop := false;
    }

    /** Returns whether a reload was started and is now awaited. */
    method RunTick(now: Time, status: Option<string>) returns (awaiting: bool)
      modifies this
      ensures View() == Tick(old(View()), now, status)
      ensures awaiting <==> running > old(running)
    {
      hide ShouldPoll, PollIntervalMs, ClearTimer, Arm;
      if stopped {
        return false;
      }
      if !ShouldPoll(status) {
        attempt := 0;
        sawStop := true;
        return false;
      }
      if hidden {
        ArmingKeepsReloads(View(), 5000, now);
        ArmTimer(5000, now);
        return false;
      }
      attempt := attempt + 1;
      var nextMs := PollIntervalMs(attempt);
      ArmingKeepsReloads(View(), nextMs, now);
      ArmTimer(nextMs, now);
      if inFlight {
        return false;
      }
      inFlight := true;
      running := running + 1;
      tickReloads := tickReloads + [now];
      return true;
    }

    method TimerFired(id: TimerId, now: Time, status: Option<string>) returns (awaiting: bool)
      requires CanHappen(View(), Fired(id, status), now)
      modifies this
      ensures View() == Step(old(View()), Fired(id, status), now)
    {
      armed := armed - {id};
      timer := None;
      awaiting := RunTick(now, status);
    }

    method ReloadSettled(status: Option<string>)
      requires running > 0
      modifies this
      ensures View() == Settle(old(View()), status)
    {
      inFlight := false;
      running := running - 1;
      if stopped {
        return;
      }
      if !ShouldPoll(status) {
        attempt := 0;
        sawStop := true;
        Clear();
      }
    }

    method Start(now: Time, status: Option<string>)
      modifies this
      ensures View() == StartPolling(old(View()), now, status)
    {
      if !stopped {
        return;
      }
      stopped := false;
      attempt := 0;
      if !ShouldPoll(status) {
        stopped := true;
        return;
      }
      ArmTimer(PollIntervalMs(0), now);
    }

    method Stop()
      modifies this
      ensures View() == StopPolling(old(View()))
    {
      stopped := true;
      attempt := 0;
      Clear();
    }

    method SetHidden(nextHidden: bool, now: Time, status: Option<string>) returns (reload: bool)
      modifies this
      ensures View() == Show(old(View()), nextHidden, now, status)
      ensures reload <==> shownReloads > old(shownReloads)
    {
      var wasHidden := hidden;
      hidden := nextHidden;
      if stopped {
        return false;
      }
      if wasHidden && !hidden && ShouldPoll(status) {
        shownReloads, shownRunning := shownReloads + 1, shownRunning + 1;
        if timer.None? {
          ArmTimer(PollIntervalMs(Max(attempt, 1)), now);
        }
        return true;
      }
      return false;
    }
  }

  // ------------------------------------------------------------------ runs

  /** Starts of tick reloads are two seconds apart. */
  ghost predicate TwoSecondsApart(reloads: seq<Time>) {
    forall i, j :: 0 <= i < j < |reloads| ==> reloads[i] + 2000 <= reloads[j]
  }

  ghost predicate Sound(s: State) {
    && s.armed.Keys == (if s.timer.Some? then {s.timer.value} else {})
    && (s.stopped ==> s.timer.None?)
    && (s.timer.Some? ==> s.timer.value < s.nextTimer)
    && (!s.stopped && s.timer.None? ==> s.sawStop)
    && s.running == (if s.inFlight then 1 else 0)
    && TwoSecondsApart(s.tickReloads)
  }

  /** No armed timer is due within two seconds of the last tick reload, nor more than five seconds away. */
  ghost predicate OnTime(s: State, clock: Time) {
    && (s.tickReloads != [] ==> s.tickReloads[|s.tickReloads| - 1] <= clock)
    && (s.timer.Some? && s.timer.value in s.armed ==>
          && s.armed[s.timer.value] <= clock + 5000
          && (s.tickReloads != [] ==> s.tickReloads[|s.tickReloads| - 1] + 2000 <= s.armed[s.timer.value]))
  }

  lemma ArmKeepsSound(s: State, ms: int, now: Time)
    requires s.armed.Keys == (if s.timer.Some? then {s.timer.value} else {})
    requires s.timer.Some? ==> s.timer.value < s.nextTimer
    requires s.running == (if s.inFlight then 1 else 0) && TwoSecondsApart(s.tickReloads)
    requires 2000 <= ms <= 5000
    requires s.tickReloads != [] ==> s.tickReloads[|s.tickReloads| - 1] <= now
    ensures Sound(Arm(s, ms, now)) && OnTime(Arm(s, ms, now), now)
  {
    var c := ClearTimer(s);
    assert c.armed.Keys == {};
    assert !c.stopped ==> c.armed[c.nextTimer := now + ms].Keys == {c.nextTimer};
  }

  lemma TickKeepsSound(s: State, now: Time, status: Option<string>)
    requires s.timer.None? && s.armed.Keys == {}
    requires s.running == (if s.inFlight then 1 else 0) && TwoSecondsApart(s.tickReloads)
    requires !s.stopped
    requires s.tickReloads != [] ==> s.tickReloads[|s.tickReloads| - 1] + 2000 <= now
    ensures Sound(Tick(s, now, status)) && OnTime(Tick(s, now, status), now)
  {
    hide ShouldPoll, PollIntervalMs;
    if ShouldPoll(status) {
      if s.hidden {
        ArmKeepsSound(s, 5000, now);
      } else {
        var counted := s.(attempt := s.attempt + 1);
        ArmKeepsSound(counted, PollIntervalMs(counted.attempt), now);
      }
    }
  }

  lemma StepKeepsSound(s: State, e: Event, clock: Time, now: Time)
    requires Sound(s) && OnTime(s, clock) && clock <= now && CanHappen(s, e, now)
    ensures Sound(Step(s, e, now)) && OnTime(Step(s, e, now), now)
  {
    hide ShouldPoll, PollIntervalMs, TwoSecondsApart;
    match e
    case Started(status) =>
      if s.stopped && ShouldPoll(status) {
        ArmKeepsSound(s.(stopped := false, attempt := 0), PollIntervalMs(0), now);
      }
    case Stopped =>
      assert s.timer.Some? ==> s.armed.Keys - {s.timer.value} == {};
    case Visibility(h, status) =>
      if !s.stopped && s.hidden && !h && ShouldPoll(status) && s.timer.None? {
        var u := s.(hidden := h, shownReloads := s.shownReloads + 1, shownRunning := s.shownRunning + 1);
        ArmKeepsSound(u, PollIntervalMs(Max(u.attempt, 1)), now);
      }
    case Fired(id, status) =>
      assert s.timer == Some(id);
      var fired := s.(armed := s.armed - {id}, timer := None);
      assert fired.armed.Keys == {};
      TickKeepsSound(fired, now, status);
    case Settled(status) =>
      assert s.timer.Some? ==> s.armed.Keys - {s.timer.value} == {};
    case ShownSettled =>
  }

  datatype Timed = Timed(event: Event, at: Time)

  /** A run: events that can happen, at times that do not go back. */
  ghost predicate IsRun(events: seq<Timed>, states: seq<State>) {
    && |states| == |events| + 1
    && states[0] == INITIAL
    && (forall k :: 0 <= k < |events| ==>
          && CanHappen(states[k], events[k].event, events[k].at)
          && states[k + 1] == Step(states[k], events[k].event, events[k].at))
    && (forall k :: 0 < k < |events| ==> events[k - 1].at <= events[k].at)
  }

  lemma {:induction false} RunKeepsSound(events: seq<Timed>, states: seq<State>, k: nat)
    requires IsRun(events, states) && k <= |events|
    ensures Sound(states[k])
    ensures k > 0 ==> OnTime(states[k], events[k - 1].at)
  {
    if k > 0 {
      RunKeepsSound(events, states, k - 1);
      var clock := if k == 1 then events[0].at else events[k - 2].at;
      StepKeepsSound(states[k - 1], events[k - 1].event, clock, events[k - 1].at);
    }
  }

  /**
   * At every moment of every run: the browser holds at most one timer of the poller, and none once it is
   * stopped; a running poller without a timer has read a non-pollable status since it last armed one, and
   * otherwise its next tick is at most five seconds away, whether or not any reload ever settles; at most one
   * tick reload is unsettled; and ticks start reloads at least two seconds apart.
   */
  lemma PollerIsSound(events: seq<Timed>, states: seq<State>, k: nat)
    requires IsRun(events, states) && 0 < k <= |events|
    ensures var s := states[k];
      && |s.armed| <= 1
      && (s.stopped ==> s.armed == map[])
      && (!s.stopped && !s.sawStop ==>
            exists id :: id in s.armed && s.timer == Some(id) && s.armed[id] <= events[k - 1].at + 5000)
      && s.running <= 1
      && TwoSecondsApart(s.tickReloads)
  {
    RunKeepsSound(events, states, k);
    var s := states[k];
    assert s.armed.Keys <= (if s.timer.Some? then {s.timer.value} else {});
    assert |s.armed| == |s.armed.Keys|;
    if !s.stopped && !s.sawStop {
      assert s.timer.value in s.armed.Keys;
    }
  }

  predicate StartsReload(s: State, t: State) {
    |t.tickReloads| > |s.tickReloads| || t.shownReloads > s.shownReloads
  }

  /** A reload started while another, of either kind, had not settled. */
  predicate Overlaps(s: State, t: State) {
    StartsReload(s, t) && s.running + s.shownRunning > 0
  }

  predicate BecomesVisible(s: State, e: Event) {
    e.Visibility? && s.hidden && !e.hidden && !s.stopped && ShouldPoll(e.status)
  }

  /** A fired tick that passes its guards. */
  predicate TicksThrough(s: State, e: Event) {
    e.Fired? && !s.stopped && ShouldPoll(e.status) && !s.hidden && !s.inFlight
  }

  lemma StepOverlapsExactly(s: State, e: Event, now: Time)
    requires Sound(s) && CanHappen(s, e, now)
    ensures StartsReload(s, Step(s, e, now)) <==> BecomesVisible(s, e) || TicksThrough(s, e)
    ensures Overlaps(s, Step(s, e, now)) <==>
            || (BecomesVisible(s, e) && (s.inFlight || s.shownRunning > 0))
            || (TicksThrough(s, e) && s.shownRunning > 0)
  {
    hide ShouldPoll, PollIntervalMs, TwoSecondsApart;
  }

  /**
   * Reloads overlap at an event of a run if and only if a running poller becomes visible there, with a pollable status,
   * while any reload is unsettled; or a tick that passes its guards fires while a reload of becoming visible is
   * unsettled. The guard of ticks neither stops nor sees the reloads of becoming visible.
   */
  lemma ReloadsOverlapExactly(events: seq<Timed>, states: seq<State>, k: nat)
    requires IsRun(events, states) && k < |events|
    ensures var (s, e) := (states[k], events[k].event);
      Overlaps(s, states[k + 1]) <==>
        || (BecomesVisible(s, e) && (s.inFlight || s.shownRunning > 0))
        || (TicksThrough(s, e) && s.shownRunning > 0)
  {
    RunKeepsSound(events, states, k);
    StepOverlapsExactly(states[k], events[k].event, events[k].at);
  }

  const SEEN := Some("SEEN")
  const STARTED := State(0, Some(0), false, false, false, map[0 := 2000], 1, false, [], 0, 0, 0)

  lemma StartsPolling()
    ensures ShouldPoll(SEEN) && Step(INITIAL, Started(SEEN), 0) == STARTED
  {
  }

  /** Such a run: a page hidden and shown while the reload of its first tick is unsettled. */
  lemma VisibilityReloadOverlaps() returns (events: seq<Timed>, states: seq<State>)
    ensures IsRun(events, states) && |events| == 4
    ensures states[3].inFlight && Overlaps(states[3], states[4])
  {
    events := [Timed(Started(SEEN), 0), Timed(Fired(0, SEEN), 2000),
               Timed(Visibility(true, SEEN), 2000), Timed(Visibility(false, SEEN), 2000)];
    var ticked := State(1, Some(1), false, false, true, map[1 := 4000], 2, false, [2000], 1, 0, 0);
    states := [INITIAL, STARTED, ticked, ticked.(hidden := true), ticked.(shownReloads := 1, shownRunning := 1)];
    StartsPolling();
    hide ShouldPoll;
    assert STARTED.armed - {0} == map[];
    assert Step(STARTED, events[1].event, 2000) == ticked;
    assert Step(ticked, events[2].event, 2000) == states[3];
    assert Step(states[3], events[3].event, 2000) == states[4];
  }

  /** Another: a tick starts its reload while the reload of a page shown just before is unsettled. */
  lemma TickReloadOverlaps() returns (events: seq<Timed>, states: seq<State>)
    ensures IsRun(events, states) && |events| == 4
    ensures events[3].event.Fired? && !states[3].inFlight && Overlaps(states[3], states[4])
  {
    events := [Timed(Started(SEEN), 0), Timed(Visibility(true, SEEN), 1999),
               Timed(Visibility(false, SEEN), 1999), Timed(Fired(0, SEEN), 2000)];
    var shown := STARTED.(shownReloads := 1, shownRunning := 1);
    var ticked := State(1, Some(1), false, false, true, map[1 := 4000], 2, false, [2000], 1, 1, 1);
    states := [INITIAL, STARTED, STARTED.(hidden := true), shown, ticked];
    StartsPolling();
    hide ShouldPoll;
    assert Step(states[2], events[2].event, 1999) == shown;
    assert shown.armed - {0} == map[];
    assert Step(shown, events[3].event, 2000) == ticked;
  }

  /** And one without any tick: a page hidden and shown twice. */
  lemma VisibilityReloadsOverlap() returns (events: seq<Timed>, states: seq<State>)
    ensures IsRun(events, states) && |events| == 5
    ensures !states[4].inFlight && Overlaps(states[4], states[5])
  {
    events := [Timed(Started(SEEN), 0), Timed(Visibility(true, SEEN), 0), Timed(Visibility(false, SEEN), 0),
               Timed(Visibility(true, SEEN), 0), Timed(Visibility(false, SEEN), 0)];
    var shown := STARTED.(shownReloads := 1, shownRunning := 1);
    states := [INITIAL, STARTED, STARTED.(hidden := true), shown, shown.(hidden := true),
               STARTED.(shownReloads := 2, shownRunning := 2)];
    StartsPolling();
    hide ShouldPoll;
  }

  // ------------------------------------------------------- unfinished payments

  /** The statuses of a payment that is not over. */
  predicate IsUnfinished(status: Option<string>) {
    && status.Some?
    && (status.value == "CREATED" || status.value == "AWAITING_PAYMENT" || status.value == "SEEN"
        || status.value == "CONFIRMING")
  }

  lemma UnfinishedIsPolled(status: Option<string>)
    ensures ShouldPoll(status) <==> IsUnfinished(status)
  {
  }

  function StatusOf(e: Event): Option<Option<string>> {
    match e
    case Started(status) => Some(status)
    case Visibility(_, status) => Some(status)
    case Fired(_, status) => Some(status)
    case Settled(status) => Some(status)
    case _ => None
  }

  lemma UnfinishedStepKeepsGoing(s: State, e: Event, now: Time)
    requires CanHappen(s, e, now) && (s.stopped || !s.sawStop)
    requires StatusOf(e).Some? ==> ShouldPoll(StatusOf(e).value)
    ensures var t := Step(s, e, now);
      && (t.stopped || !t.sawStop)
      && (t.stopped <==> e.Stopped? || (s.stopped && !e.Started?))
  {
    hide ShouldPoll, PollIntervalMs;
  }

  /** Started and not stopped since. */
  predicate IsRunning(events: seq<Timed>, k: nat)
    requires k <= |events|
  {
    exists j :: 0 <= j < k && events[j].event.Started? && forall i :: j < i < k ==> !events[i].event.Stopped?
  }

  /**
   * An unfinished payment keeps being polled. As long as the poller reads only the statuses created, awaiting payment,
   * seen and confirming, it runs from its start to its stop, hidden or not, and its next tick is always due within
   * five seconds, whether or not any reload settles.
   */
  lemma {:induction false} UnfinishedKeepsPolling(events: seq<Timed>, states: seq<State>, k: nat)
    requires IsRun(events, states) && k <= |events|
    requires forall j :: 0 <= j < k && StatusOf(events[j].event).Some? ==> IsUnfinished(StatusOf(events[j].event).value)
    ensures !states[k].stopped <==> IsRunning(events, k)
    ensures !states[k].stopped ==> !states[k].sawStop && k > 0
    ensures !states[k].stopped ==>
      exists id ::
        id in states[k].armed && states[k].timer == Some(id) && states[k].armed[id] <= events[k - 1].at + 5000
  {
    if k > 0 {
      UnfinishedKeepsPolling(events, states, k - 1);
      var s, e := states[k - 1], events[k - 1];
      if StatusOf(e.event).Some? {
        UnfinishedIsPolled(StatusOf(e.event).value);
      }
      assert CanHappen(s, e.event, e.at) && states[k] == Step(s, e.event, e.at);
      hide ShouldPoll, IsUnfinished, Step, CanHappen;
      UnfinishedStepKeepsGoing(s, e.event, e.at);
      RunningUnfolds(events, k);
      hide IsRun, IsRunning;
      if !states[k].stopped {
        PollerIsSound(events, states, k);
      }
    }
  }

  lemma RunningUnfolds(events: seq<Timed>, k: nat)
    requires 0 < k <= |events|
    ensures IsRunning(events, k) <==>
            events[k - 1].event.Started? || (IsRunning(events, k - 1) && !events[k - 1].event.Stopped?)
  {
    if IsRunning(events, k - 1) && !events[k - 1].event.Stopped? {
      var j :| 0 <= j < k - 1 && events[j].event.Started? && forall i :: j < i < k - 1 ==> !events[i].event.Stopped?;
      assert forall i :: j < i < k ==> !events[i].event.Stopped?;
    }
  }

  /** The wait after the n-th tick in a row. */
  function Wait(n: int): int {
    if n <= 5 then 2000 else if n <= 20 then 3000 else 5000
  }

  /**
   * What a fired tick does. On a final or unknown status, and once stopped, it arms nothing and reloads nothing.
   * Hidden, it comes back in five seconds. Shown, the first five come back in two seconds, up to the twentieth in
   * three and later ones in five, and it reloads unless its last reload is under way.
   */
  lemma TickDoesExactly(s: State, id: TimerId, status: Option<string>, now: Time)
    requires CanHappen(s, Fired(id, status), now) && s.armed.Keys == {id}
    ensures var t := Step(s, Fired(id, status), now);
      var goesOn := !s.stopped && IsUnfinished(status);
      var n := s.attempt + 1;
      && (!goesOn ==> t.armed == map[] && t.timer == None && t.tickReloads == s.tickReloads)
      && (!goesOn ==> t.attempt == if s.stopped then s.attempt else 0)
      && (goesOn && s.hidden ==>
            t.armed == map[s.nextTimer := now + 5000] && t.attempt == s.attempt && t.tickReloads == s.tickReloads)
      && (goesOn && !s.hidden ==>
            && t.attempt == n
            && t.armed == map[s.nextTimer := now + Wait(n)]
            && t.tickReloads == (if s.inFlight then s.tickReloads else s.tickReloads + [now]))
      && (goesOn ==> t.timer == Some(s.nextTimer))
  {
    UnfinishedIsPolled(status);
    assert s.armed - {id} == map[];
    hide ShouldPoll, IsUnfinished;
  }

  /**
   * What the other events do. A start arms a tick in two seconds, unless the poller runs or the payment is over. A stop
   * disarms it. A settled tick reload lets the next one start, and ends the polling when the payment is over. Becoming
   * visible reloads an unfinished payment at once, and arms a tick if none is.
   */
  lemma OtherEventsDoExactly(s: State, e: Event, now: Time)
    requires Sound(s) && CanHappen(s, e, now) && !e.Fired?
    ensures var t := Step(s, e, now);
      && (e.Started? ==>
            if s.stopped && IsUnfinished(e.status)
            then !t.stopped && t.armed == map[s.nextTimer := now + 2000]
            else t.stopped == s.stopped && t.armed == s.armed)
      && (e.Started? ==> t.attempt == if s.stopped then 0 else s.attempt)
      && (e.Stopped? ==> t.stopped && t.armed == map[] && t.timer == None && t.attempt == 0)
      && (e.Settled? ==>
            && !t.inFlight && t.stopped == s.stopped
            && t.armed == (if s.stopped || IsUnfinished(e.status) then s.armed else map[])
            && t.attempt == (if s.stopped || IsUnfinished(e.status) then s.attempt else 0))
      && (e.Visibility? ==>
            && t.hidden == e.hidden && t.attempt == s.attempt
            && var shown := !s.stopped && s.hidden && !e.hidden && IsUnfinished(e.status);
            && t.shownReloads == s.shownReloads + (if shown then 1 else 0)
            && t.armed == (if shown && s.timer == None then map[s.nextTimer := now + Wait(Max(s.attempt, 1))]
                           else s.armed))
      && t.tickReloads == s.tickReloads
  {
    if StatusOf(e).Some? {
      UnfinishedIsPolled(StatusOf(e).value);
    }
    assert s.timer.Some? ==> s.armed - {s.timer.value} == map[];
    assert s.timer.None? ==> s.armed == map[];
    hide ShouldPoll, IsUnfinished;
  }
}
