/** The two attempt limiters in front of a confirmation: one per proposal, cleared by success, and one for all. */
module ConfirmGate {
  import opened Basics
  import opened Limiters

  const PER_PROPOSAL := 5
  const OVERALL := 100
  const WINDOW_MS := 60_000
  const ALL_KEY := "confirm:all"

  function KeyFor(id: string): string {
    "confirm:" + id
  }

  /** The counters of both limiters; the second only ever sees one key. */
  datatype Counters = Counters(own: map<string, Attempts>, overall: Option<Attempts>)

  const FRESH := Counters(map[], None)

  /** The overall limiter is charged only when the proposal's own limiter let the attempt through. */
  function Admit(c: Counters, id: string, now: Time): (Counters, bool) {
    var (cur, ok) := ConsumeStep(Lookup(c.own, KeyFor(id)), now, PER_PROPOSAL, WINDOW_MS);
    var charged := c.(own := c.own[KeyFor(id) := cur]);
    if !ok then (charged, false)
    else
      var (overall, answer) := ConsumeStep(c.overall, now, OVERALL, WINDOW_MS);
      (charged.(overall := Some(overall)), answer)
  }

  function Cleared(c: Counters, id: string): Counters {
    c.(own := c.own - {KeyFor(id)})
  }

  class ConfirmationGate {
    const limiter: AttemptLimiter
    const globalLimiter: AttemptLimiter

    ghost predicate Valid()
      reads this, limiter, globalLimiter
    {
      && limiter != globalLimiter
      && limiter.max == PER_PROPOSAL && limiter.windowMs == WINDOW_MS
      && globalLimiter.max == OVERALL && globalLimiter.windowMs == WINDOW_MS
    }

    ghost function View(): Counters
      reads this, limiter, globalLimiter
    {
      Counters(limiter.attempts, Lookup(globalLimiter.attempts, ALL_KEY))
    }

    constructor ()
      ensures Valid() && View() == FRESH && fresh(limiter) && fresh(globalLimiter)
    {
      limiter := new AttemptLimiter(PER_PROPOSAL, WINDOW_MS);
      globalLimiter := new AttemptLimiter(OVERALL, WINDOW_MS);
    }

    method AdmitAttempt(id: string, now: Time) returns (ok: bool)
      requires Valid()
      modifies limiter, globalLimiter
      ensures Valid() && (View(), ok) == Admit(old(View()), id, now)
    {
      ok := limiter.Consume(KeyFor(id), now);
      if ok {
        ok := globalLimiter.Consume(ALL_KEY, now);
      }
    }

    method Succeeded(id: string)
      requires Valid()
      modifies limiter
      ensures Valid() && View() == Cleared(old(View()), id)
    {
      limiter.Clear(KeyFor(id));
    }
  }

  // --------------------------------------------------------------------- runs

  datatype Request = Attempt(id: string, at: Time) | Success(id: string)

  /** The counters after a run, the times the overall limiter was asked, and the times attempts were admitted. */
  datatype Log = Log(counters: Counters, asked: seq<Time>, admitted: seq<Time>)

  predicate AsksOverall(c: Counters, id: string, now: Time) {
    ConsumeStep(Lookup(c.own, KeyFor(id)), now, PER_PROPOSAL, WINDOW_MS).1
  }

  function ServeOne(before: Log, r: Request): Log {
    match r
    case Success(id) => before.(counters := Cleared(before.counters, id))
    case Attempt(id, at) =>
      var (after, ok) := Admit(before.counters, id, at);
      Log(after,
          if AsksOverall(before.counters, id, at) then before.asked + [at] else before.asked,
          if ok then before.admitted + [at] else before.admitted)
  }

  function Serve(requests: seq<Request>): Log {
    if requests == [] then Log(FRESH, [], [])
    else ServeOne(Serve(requests[..|requests| - 1]), requests[|requests| - 1])
  }

  function Times(grants: seq<Grant>): seq<Time> {
    seq(|grants|, i requires 0 <= i < |grants| => grants[i].at)
  }

  /** Attempts come in clock order. */
  ghost predicate InOrder(requests: seq<Request>) {
    forall i, j :: 0 <= i < j < |requests| && requests[i].Attempt? && requests[j].Attempt? ==>
      requests[i].at <= requests[j].at
  }

  predicate IsAttemptAt(r: Request, t: Time) {
    r.Attempt? && r.at == t
  }

  ghost predicate LastAskedByAttempt(asked: seq<Time>, requests: seq<Request>) {
    asked != [] ==> exists j :: 0 <= j < |requests| && IsAttemptAt(requests[j], asked[|asked| - 1])
  }

  lemma SortedAppend(s: seq<Time>, t: Time)
    requires Sorted(s) && (s != [] ==> s[|s| - 1] <= t)
    ensures Sorted(s + [t])
  {
  }

  lemma GrantsAppend(calls: seq<Time>, now: Time)
    ensures var (r, s) := (ConsumeAll(calls, OVERALL, WINDOW_MS), ConsumeAll(calls + [now], OVERALL, WINDOW_MS));
      var (cur, ok) := ConsumeStep(r.cur, now, OVERALL, WINDOW_MS);
      s.cur == Some(cur) && Times(s.grants) == if ok then Times(r.grants) + [now] else Times(r.grants)
  {
    ConsumeAllAppend(calls, now, OVERALL, WINDOW_MS);
    hide ConsumeAll;
    var r, s := ConsumeAll(calls, OVERALL, WINDOW_MS), ConsumeAll(calls + [now], OVERALL, WINDOW_MS);
    if |s.grants| > |r.grants| {
      assert Times(s.grants) == Times(r.grants) + [now];
    }
  }

  /** What was admitted is what the overall limiter granted, asked in clock order. */
  ghost predicate Granted(log: Log) {
    var r := ConsumeAll(log.asked, OVERALL, WINDOW_MS);
    log.counters.overall == r.cur && log.admitted == Times(r.grants) && Sorted(log.asked)
  }

  lemma ServeOneKeepsGranted(before: Log, r: Request)
    requires Granted(before)
    requires before.asked != [] && r.Attempt? ==> before.asked[|before.asked| - 1] <= r.at
    ensures Granted(ServeOne(before, r))
  {
    hide ConsumeAll, ConsumeStep, Sorted, KeyFor, Times;
    if r.Attempt? && AsksOverall(before.counters, r.id, r.at) {
      GrantsAppend(before.asked, r.at);
      SortedAppend(before.asked, r.at);
    }
  }

  lemma {:induction false} AdmittedAreGranted(requests: seq<Request>)
    requires InOrder(requests)
    ensures Granted(Serve(requests)) && LastAskedByAttempt(Serve(requests).asked, requests)
  {
    if requests != [] {
      hide Granted, Admit, AsksOverall, Cleared;
      var n := |requests| - 1;
      var front, last := requests[..n], requests[n];
      AdmittedAreGranted(front);
      var before := Serve(front);
      if before.asked != [] {
        var j :| 0 <= j < n && IsAttemptAt(front[j], before.asked[|before.asked| - 1]);
        assert IsAttemptAt(requests[j], before.asked[|before.asked| - 1]);
      }
      ServeOneKeepsGranted(before, last);
      assert last.Attempt? ==> IsAttemptAt(requests[n], last.at);
    } else {
      NothingGranted();
    }
  }

  lemma NothingGranted()
    ensures Granted(Log(FRESH, [], []))
  {
  }

  /**
   * However many proposals are tried, however often successes clear their counters, k windows in a row admit at most
   * (k+1)*100-1 attempts in all.
   */
  lemma AttemptsAreBoundedOverall(requests: seq<Request>, from: Time, k: nat)
    requires InOrder(requests)
    ensures |InWindow(Serve(requests).admitted, from, k * WINDOW_MS)| <= (k + 1) * OVERALL - 1
  {
    AdmittedAreGranted(requests);
    var log := Serve(requests);
    var r := ConsumeAll(log.asked, OVERALL, WINDOW_MS);
    FixedWindowBound(log.asked, OVERALL, WINDOW_MS, from, k);
    assert InWindow(log.admitted, from, k * WINDOW_MS) == GrantsInWindow(r.grants, from, k * WINDOW_MS);
  }

  /** A proposal whose window is full is refused without charging the limiter of all. */
  lemma RefusedAttemptsAreNotChargedOverall(c: Counters, id: string, now: Time)
    requires !AsksOverall(c, id, now)
    ensures !Admit(c, id, now).1 && Admit(c, id, now).0 == c
  {
    assert c.own[KeyFor(id) := c.own[KeyFor(id)]] == c.own;
  }

  /** The requests without the attempts that their own proposal's limiter refused. */
  function WithoutRefused(requests: seq<Request>): seq<Request> {
    if requests == [] then []
    else
      var front, r := requests[..|requests| - 1], requests[|requests| - 1];
      if r.Attempt? && !AsksOverall(Serve(front).counters, r.id, r.at) then WithoutRefused(front)
      else WithoutRefused(front) + [r]
  }

  /** Hammering a proposal whose window is full changes no counter and admits nothing, however often it is done. */
  lemma {:induction false} RefusedAttemptsHaveNoEffect(requests: seq<Request>)
    ensures Serve(WithoutRefused(requests)) == Serve(requests)
  {
    hide ServeOne, AsksOverall;
    if requests != [] {
      var front, r := requests[..|requests| - 1], requests[|requests| - 1];
      RefusedAttemptsHaveNoEffect(front);
      if r.Attempt? && !AsksOverall(Serve(front).counters, r.id, r.at) {
        RefusedAttemptIsSilent(Serve(front), r);
      } else {
        assert (WithoutRefused(front) + [r])[..|WithoutRefused(front)|] == WithoutRefused(front);
      }
    }
  }

  lemma RefusedAttemptIsSilent(before: Log, r: Request)
    requires r.Attempt? && !AsksOverall(before.counters, r.id, r.at)
    ensures ServeOne(before, r) == before
  {
    RefusedAttemptsAreNotChargedOverall(before.counters, r.id, r.at);
    hide Admit, AsksOverall;
  }

  // ------------------------------------------------------------- one proposal

  /** When the proposal was tried since its last success. */
  function TriedAt(requests: seq<Request>, id: string): seq<Time> {
    if requests == [] then []
    else
      var front := TriedAt(requests[..|requests| - 1], id);
      match requests[|requests| - 1]
      case Attempt(other, at) => if other == id then front + [at] else front
      case Success(other) => if other == id then [] else front
  }

  lemma KeysAreApart(a: string, b: string)
    ensures KeyFor(a) == KeyFor(b) <==> a == b
  {
    if KeyFor(a) == KeyFor(b) {
      assert KeyFor(a)[8..] == a && KeyFor(b)[8..] == b;
    }
  }

  /**
   * Whatever is tried on other proposals and whatever succeeds there, the own counter of a proposal is that of five
   * attempts a minute, over its own attempts since its last success.
   */
  lemma {:induction false} OwnCounterIsExact(requests: seq<Request>, id: string)
    ensures Lookup(Serve(requests).counters.own, KeyFor(id)) == ConsumeAll(TriedAt(requests, id), 5, 60_000).cur
  {
    hide ConsumeStep, KeyFor;
    if requests != [] {
      var front, r := requests[..|requests| - 1], requests[|requests| - 1];
      OwnCounterIsExact(front, id);
      KeysAreApart(id, r.id);
      if r.Attempt? && r.id == id {
        OneMoreAttempt(TriedAt(front, id), r.at);
      }
    }
  }

  lemma OneMoreAttempt(calls: seq<Time>, at: Time)
    ensures var r := ConsumeAll(calls, 5, 60_000);
      ConsumeAll(calls + [at], 5, 60_000).cur == Some(ConsumeStep(r.cur, at, 5, 60_000).0)
  {
    assert (calls + [at])[..|calls|] == calls;
    hide ConsumeStep;
  }

  /**
   * An attempt is admitted if and only if its proposal has fewer than five granted in its open minute and all
   * proposals together fewer than a hundred in theirs.
   */
  lemma AdmittedExactly(requests: seq<Request>, id: string, at: Time)
    requires InOrder(requests + [Attempt(id, at)])
    ensures var (before, after) := (Serve(requests), Serve(requests + [Attempt(id, at)]));
      var (own, overall) := (ConsumeAll(TriedAt(requests, id), 5, 60_000), ConsumeAll(before.asked, 100, 60_000));
      after.admitted ==
        if IsFull(own, 5, 60_000, at) || IsFull(overall, 100, 60_000, at) then before.admitted
        else before.admitted + [at]
  {
    var all := requests + [Attempt(id, at)];
    assert all[..|requests|] == requests;
    assert InOrder(requests) by {
      assert forall i :: 0 <= i < |requests| ==> all[i] == requests[i];
    }
    OwnCounterIsExact(requests, id);
    AdmittedAreGranted(requests);
    TriedInOrder(requests, id);
    AskedInOrder(requests);
    FullIsRefused(TriedAt(requests, id), 5, 60_000, at);
    FullIsRefused(Serve(requests).asked, 100, 60_000, at);
    hide ConsumeAll, ConsumeStep, KeyFor, InOrder, IsFull, TriedAt;
  }

  /** A window is open and max attempts were granted in it. */
  predicate IsFull(r: Consumed, max: int, windowMs: int, at: Time) {
    r.starts != [] && at < r.starts[|r.starts| - 1] + windowMs && |SinceOpened(r)| >= max
  }

  lemma FullIsRefused(calls: seq<Time>, max: int, windowMs: int, at: Time)
    requires Sorted(calls) && windowMs > 0
    ensures var r := ConsumeAll(calls, max, windowMs);
      ConsumeStep(r.cur, at, max, windowMs).1 <==> !IsFull(r, max, windowMs, at)
  {
    CounterIsExact(calls, max, windowMs);
    hide ConsumeAll, SinceOpened, Sorted;
  }

  lemma AskedInOrder(requests: seq<Request>)
    requires InOrder(requests)
    ensures Sorted(Serve(requests).asked)
  {
    AdmittedAreGranted(requests);
    hide ConsumeAll;
  }

  lemma {:induction false} TriedInOrder(requests: seq<Request>, id: string)
    requires InOrder(requests)
    ensures Sorted(TriedAt(requests, id)) && LastAskedByAttempt(TriedAt(requests, id), requests)
  {
    if requests != [] {
      var n := |requests| - 1;
      var front, r := requests[..n], requests[n];
      TriedInOrder(front, id);
      var tried := TriedAt(front, id);
      if tried != [] {
        var j :| 0 <= j < n && IsAttemptAt(front[j], tried[|tried| - 1]);
        assert IsAttemptAt(requests[j], tried[|tried| - 1]);
      }
      if r.Attempt? && r.id == id {
        SortedAppend(tried, r.at);
        assert IsAttemptAt(requests[n], r.at);
      }
    }
  }
}
