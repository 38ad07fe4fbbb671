/**
 * The two in-process rate limiters. Each keeps a small per-key state; the full history of
 * admissions is a ghost field, and the bounds are stated about that history.
 */
module Limiters {
  import opened Basics

  predicate Sorted(s: seq<Time>) {
    forall i, j :: 0 <= i < j < |s| ==> s[i] <= s[j]
  }

  /** The admissions later than the cutoff, in order. */
  function After(s: seq<Time>, cutoff: Time): seq<Time> {
    if s == [] then []
    else After(s[..|s| - 1], cutoff) + if s[|s| - 1] > cutoff then [s[|s| - 1]] else []
  }

  lemma {:induction false} AfterAppend(s: seq<Time>, t: Time, cutoff: Time)
    ensures After(s + [t], cutoff) == After(s, cutoff) + if t > cutoff then [t] else []
  {
    assert (s + [t])[..|s|] == s;
  }

  /** Pruning with an older cutoff first changes nothing. */
  lemma {:induction false} AfterTwice(s: seq<Time>, older: Time, cutoff: Time)
    requires older <= cutoff
    ensures After(After(s, older), cutoff) == After(s, cutoff)
  {
    if s != [] {
      var front, last := s[..|s| - 1], s[|s| - 1];
      AfterTwice(front, older, cutoff);
      if last > older {
        AfterAppend(After(front, older), last, cutoff);
      } else {
        assert After(s, older) == After(front, older);
      }
    }
  }

  /** In a sorted history the later admissions are a suffix. */
  lemma {:induction false} AfterIsSuffix(s: seq<Time>, cutoff: Time)
    requires Sorted(s)
    ensures var k := |s| - |After(s, cutoff)|;
      && k >= 0 && After(s, cutoff) == s[k..]
      && (forall i :: 0 <= i < k ==> s[i] <= cutoff)
      && (forall i :: k <= i < |s| ==> s[i] > cutoff)
  {
    if s != [] {
      var front, last := s[..|s| - 1], s[|s| - 1];
      AfterIsSuffix(front, cutoff);
      var k := |front| - |After(front, cutoff)|;
      if last > cutoff {
        assert s[k..] == front[k..] + [last];
      }
    }
  }

  /** Indices of the admissions inside the half-open interval [from, from + length). */
  function InWindow(s: seq<Time>, from: Time, length: int): set<nat> {
    set i: nat | i < |s| && from <= s[i] < from + length
  }

  function Range(lo: int, hi: int): (r: set<int>)
    ensures forall i :: i in r <==> lo <= i < hi
    ensures |r| == if lo < hi then hi - lo else 0
    decreases hi - lo
  {
    if lo >= hi then {} else Range(lo, hi - 1) + {hi - 1}
  }

  lemma {:induction false} SubsetCount(a: set<int>, b: set<int>)
    requires a <= b
    ensures |a| <= |b|
  {
    assert b == a + (b - a);
  }

  /** Indices that are pairwise fewer than m apart are at most m. */
  lemma {:induction false} CloseIndicesAreFew(s: set<nat>, m: nat)
    requires forall i, j :: i in s && j in s && i <= j ==> j - i < m
    ensures |s| <= m
  {
    if s != {} {
      var lo := Least(s);
      assert s <= Range(lo, lo + m);
      SubsetCount(s, Range(lo, lo + m));
    }
  }

  lemma {:induction false} Least(s: set<nat>) returns (lo: nat)
    requires s != {}
    ensures lo in s && forall i :: i in s ==> lo <= i
  {
    lo :| lo in s;
    if s != {lo} {
      var others := s - {lo};
      var rest := Least(others);
      assert forall i :: i in s ==> i == lo || i in others;
      if rest < lo {
        lo := rest;
      }
    }
  }

  // ------------------------------------------------------------------ sliding window

  /** Any maxHits + 1 consecutive admissions span at least one window. */
  predicate Spaced(s: seq<Time>, window: int, maxHits: int) {
    && (maxHits <= 0 ==> s == [])
    && forall i, j :: 0 <= i <= j < |s| && j - i >= maxHits ==> s[i] <= s[j] - window
  }

  /** What one key's history allows at time now: count the whole history, never mind what was pruned. */
  predicate Admits(history: seq<Time>, now: Time, window: int, maxHits: int) {
    |After(history, now - window)| < maxHits
  }

  lemma AfterNothing(cutoff: Time)
    ensures After([], cutoff) == []
  {
  }

  /** Go's in-place filter: kept elements are written over the front of the same backing array. */
  method PruneInPlace(arr: array<Time>, cutoff: Time) returns (kept: nat)
    modifies arr
    ensures kept <= arr.Length
    ensures arr[..kept] == After(old(arr[..]), cutoff)
  {
    hide After;
    kept := 0;
    ghost var was := arr[..];
    AfterNothing(cutoff);
    assert was[..0] == [] && arr[..0] == [];
    for i := 0 to arr.Length
      invariant kept <= i
      invariant forall k :: i <= k < arr.Length ==> arr[k] == was[k]
      invariant arr[..kept] == After(was[..i], cutoff)
    {
      var t := arr[i];
      assert t == was[i] && was[..i + 1] == was[..i] + [t];
      AfterAppend(was[..i], t, cutoff);
      if t > cutoff {
        arr[kept] := t;
        kept := kept + 1;
      }
    }
    assert was[..arr.Length] == was;
  }

  method Prune(list: seq<Time>, cutoff: Time) returns (kept: seq<Time>)
    ensures kept == After(list, cutoff)
  {
    var arr := new Time[|list|](i requires 0 <= i < |list| => list[i]);
    assert arr[..] == list;
    var k := PruneInPlace(arr, cutoff);
    kept := arr[..k];
  }

  function Entry(m: map<string, seq<Time>>, key: string): seq<Time> {
    if key in m then m[key] else []
  }

  /** One call: the list a key is left with, and the answer. */
  function AllowStep(list: seq<Time>, now: Time, window: int, maxHits: int): (seq<Time>, bool) {
    var kept := After(list, now - window);
    if |kept| >= maxHits then (kept, false) else (kept + [now], true)
  }

  class SlidingWindowLimiter {
    const window: int
    const maxHits: int
    var hits: map<string, seq<Time>>

    constructor (window: int, maxHits: int)
      ensures this.window == window && this.maxHits == maxHits && hits == map[]
    {
      this.window, this.maxHits := window, maxHits;
      hits := map[];
    }

    method Allow(key: string, now: Time) returns (ok: bool)
      modifies this
      ensures (hits, ok) == var (list, answer) := AllowStep(Entry(old(hits), key), now, window, maxHits);
                            (old(hits)[key := list], answer)
    {
      var cutoff := now - window;
      var kept := Prune(Entry(hits, key), cutoff);
      if |kept| >= maxHits {
        hits := hits[key := kept];
        return false;
      }
      hits := hits[key := kept + [now]];
      return true;
    }
  }

  /** A key's list after a run of calls, beside every admission the run ever made. */
  datatype Served = Served(list: seq<Time>, admitted: seq<Time>)

  function ServeOne(before: Served, now: Time, window: int, maxHits: int): Served {
    var (list, ok) := AllowStep(before.list, now, window, maxHits);
    Served(list, if ok then before.admitted + [now] else before.admitted)
  }

  function Serve(calls: seq<Time>, window: int, maxHits: int): Served {
    if calls == [] then Served([], [])
    else ServeOne(Serve(calls[..|calls| - 1], window, maxHits), calls[|calls| - 1], window, maxHits)
  }

  ghost predicate GoodHistory(history: seq<Time>, clock: Time, window: int, maxHits: int) {
    && Sorted(history)
    && (history != [] ==> history[|history| - 1] <= clock)
    && Spaced(history, window, maxHits)
  }

  /** For every cutoff still to come, the list and the history say the same. */
  ghost predicate AgreeAfter(list: seq<Time>, history: seq<Time>, cutoff: Time) {
    forall c :: c >= cutoff ==> After(list, c) == After(history, c)
  }

  lemma LaterAgreement(list: seq<Time>, history: seq<Time>, older: Time, cutoff: Time)
    requires AgreeAfter(list, history, older) && older <= cutoff
    ensures After(list, cutoff) == After(history, cutoff)
    ensures AgreeAfter(After(list, cutoff), history, cutoff)
  {
    forall c | c >= cutoff
      ensures After(After(list, cutoff), c) == After(history, c)
    {
      AfterTwice(list, cutoff, c);
    }
  }

  lemma AgreementAppend(list: seq<Time>, history: seq<Time>, cutoff: Time, t: Time)
    requires AgreeAfter(list, history, cutoff)
    ensures AgreeAfter(list + [t], history + [t], cutoff)
  {
    forall c | c >= cutoff
      ensures After(list + [t], c) == After(history + [t], c)
    {
      AfterAppend(list, t, c);
      AfterAppend(history, t, c);
    }
  }

  lemma AdmittingKeepsGood(history: seq<Time>, clock: Time, now: Time, window: int, maxHits: int)
    requires GoodHistory(history, clock, window, maxHits) && clock <= now
    requires Admits(history, now, window, maxHits)
    ensures GoodHistory(history + [now], now, window, maxHits)
  {
    AfterIsSuffix(history, now - window);
    assert forall i :: 0 <= i < |history| ==> history[i] <= history[|history| - 1];
  }

  ghost predicate Tracks(r: Served, clock: Time, window: int, maxHits: int) {
    GoodHistory(r.admitted, clock, window, maxHits) && AgreeAfter(r.list, r.admitted, clock - window)
  }

  lemma ServeOneTracks(before: Served, older: Time, now: Time, window: int, maxHits: int)
    requires Tracks(before, older, window, maxHits) && older <= now
    ensures Tracks(ServeOne(before, now, window, maxHits), now, window, maxHits)
  {
    hide AgreeAfter, After, Spaced, Sorted;
    LaterAgreement(before.list, before.admitted, older - window, now - window);
    if Admits(before.admitted, now, window, maxHits) {
      AdmittingKeepsGood(before.admitted, older, now, window, maxHits);
      AgreementAppend(After(before.list, now - window), before.admitted, now - window, now);
    }
  }

  /** Along any run of calls in clock order, what was pruned no longer matters. */
  lemma {:induction false} ServeTracks(calls: seq<Time>, window: int, maxHits: int)
    requires Sorted(calls) && calls != []
    ensures Tracks(Serve(calls, window, maxHits), calls[|calls| - 1], window, maxHits)
  {
    var now := calls[|calls| - 1];
    var front := calls[..|calls| - 1];
    if front == [] {
      ServeOneTracks(Served([], []), now, now, window, maxHits);
    } else {
      ServeTracks(front, window, maxHits);
      ServeOneTracks(Serve(front, window, maxHits), front[|front| - 1], now, window, maxHits);
    }
  }

  /** The pruned list decides exactly as counting the key's whole admission history would. */
  lemma PrunedListDecidesLikeFullHistory(calls: seq<Time>, now: Time, window: int, maxHits: int)
    requires Sorted(calls + [now])
    ensures AllowStep(Serve(calls, window, maxHits).list, now, window, maxHits).1
         == Admits(Serve(calls, window, maxHits).admitted, now, window, maxHits)
  {
    if calls != [] {
      var all := calls + [now];
      assert forall i :: 0 <= i < |calls| ==> calls[i] == all[i];
      assert all[|calls| - 1] <= all[|calls|];
      ServeTracks(calls, window, maxHits);
    }
  }

  /** No half-open window of the limiter's length, wherever it starts, holds more than maxHits admissions. */
  lemma SlidingWindowBound(calls: seq<Time>, window: int, maxHits: int, from: Time)
    requires Sorted(calls)
    ensures |InWindow(Serve(calls, window, maxHits).admitted, from, window)| <= Max(maxHits, 0)
  {
    var history := Serve(calls, window, maxHits).admitted;
    if calls != [] {
      ServeTracks(calls, window, maxHits);
    }
    var w := InWindow(history, from, window);
    forall i, j | i in w && j in w && i <= j
      ensures j - i < Max(maxHits, 0)
    {
      assert Spaced(history, window, maxHits);
    }
    CloseIndicesAreFew(w, Max(maxHits, 0));
  }

  lemma AfterCountsTheWindow(s: seq<Time>, now: Time, window: int)
    requires Sorted(s) && (s != [] ==> s[|s| - 1] <= now)
    ensures |InWindow(s, now - window + 1, window)| == |After(s, now - window)|
  {
    AfterIsSuffix(s, now - window);
    var k := |s| - |After(s, now - window)|;
    assert InWindow(s, now - window + 1, window) == Indices(k, |s|) by {
      forall i | 0 <= i < |s|
        ensures s[i] <= now
      {
        assert s[i] <= s[|s| - 1];
      }
    }
  }

  function Indices(lo: nat, hi: nat): (r: set<nat>)
    ensures forall i: nat :: i in r <==> lo <= i < hi
    ensures |r| == if lo < hi then hi - lo else 0
    decreases hi - lo
  {
    if lo >= hi then {} else Indices(lo, hi - 1) + {hi - 1}
  }

  lemma SortedFront(calls: seq<Time>, now: Time)
    requires Sorted(calls + [now])
    ensures Sorted(calls) && (calls != [] ==> calls[|calls| - 1] <= now) && (calls + [now])[..|calls|] == calls
  {
    var all := calls + [now];
    assert forall i :: 0 <= i < |calls| ==> calls[i] == all[i];
    assert calls != [] ==> all[|calls| - 1] <= all[|calls|];
  }

  lemma AdmittedInOrder(calls: seq<Time>, window: int, maxHits: int, now: Time)
    requires Sorted(calls) && (calls != [] ==> calls[|calls| - 1] <= now)
    ensures var history := Serve(calls, window, maxHits).admitted;
      Sorted(history) && (history != [] ==> history[|history| - 1] <= now)
  {
    if calls != [] {
      ServeTracks(calls, window, maxHits);
      hide Serve, AgreeAfter;
    }
  }

  /** A call is refused if and only if the window that ends with it holds maxHits admissions already. */
  lemma RefusedExactly(calls: seq<Time>, now: Time, window: int, maxHits: int)
    requires Sorted(calls + [now])
    ensures var before := Serve(calls, window, maxHits).admitted;
      var after := Serve(calls + [now], window, maxHits).admitted;
      after == if |InWindow(before, now - window + 1, window)| >= maxHits then before else before + [now]
  {
    SortedFront(calls, now);
    AdmittedInOrder(calls, window, maxHits, now);
    PrunedListDecidesLikeFullHistory(calls, now, window, maxHits);
    AfterCountsTheWindow(Serve(calls, window, maxHits).admitted, now, window);
    assert Serve(calls + [now], window, maxHits) == ServeOne(Serve(calls, window, maxHits), now, window, maxHits);
    hide Serve, After, InWindow, Sorted;
  }

  // -------------------------------------------------------------------- fixed window

  /** One admission, and the window (numbered from the last clear) it was charged to. */
  datatype Grant = Grant(at: Time, epoch: nat)

  datatype Attempts = Attempts(count: int, resetAt: Time)

  /** A window admits its opener whatever max is. */
  function PerWindow(max: int): nat {
    Max(max, 1)
  }

  ghost predicate EpochsApart(starts: seq<Time>, window: int) {
    forall d, e :: 0 <= d < e < |starts| ==> starts[d] + window <= starts[e]
  }

  /** The first grant of a window opened it. */
  predicate Opened(grants: seq<Grant>, starts: seq<Time>, i: nat)
    requires i < |grants| && grants[i].epoch < |starts|
  {
    grants[i].at == starts[grants[i].epoch] || (i > 0 && grants[i - 1].epoch == grants[i].epoch)
  }

  ghost predicate InOwnWindow(grants: seq<Grant>, starts: seq<Time>, window: int) {
    forall i :: 0 <= i < |grants| ==>
      && grants[i].epoch < |starts|
      && starts[grants[i].epoch] <= grants[i].at < starts[grants[i].epoch] + window
  }

  ghost predicate AllOpened(grants: seq<Grant>, starts: seq<Time>)
    requires forall i :: 0 <= i < |grants| ==> grants[i].epoch < |starts|
  {
    forall i {:trigger Opened(grants, starts, i)} :: 0 <= i < |grants| ==> Opened(grants, starts, i)
  }

  /** Windows are numbered in order and m grants never fit into one. */
  ghost predicate Spread(grants: seq<Grant>, m: nat) {
    && (forall i, j :: 0 <= i <= j < |grants| ==> grants[i].epoch <= grants[j].epoch)
    && (forall i, j :: 0 <= i <= j < |grants| && j - i >= m ==> grants[i].epoch < grants[j].epoch)
  }

  /** Every grant lies in its own window, windows open with a grant, and no window holds more than m. */
  ghost predicate GoodGrants(grants: seq<Grant>, starts: seq<Time>, window: int, m: nat) {
    EpochsApart(starts, window) && InOwnWindow(grants, starts, window) && AllOpened(grants, starts) && Spread(grants, m)
  }

  /** The stored counter describes the last window of the history. */
  ghost predicate Describes(cur: Option<Attempts>, grants: seq<Grant>, starts: seq<Time>, window: int, m: nat) {
    match cur
    case None => grants == [] && starts == []
    case Some(a) =>
      && starts != [] && a.resetAt == starts[|starts| - 1] + window
      && 1 <= a.count <= m && a.count <= |grants|
      && (forall i :: |grants| - a.count <= i < |grants| ==> grants[i].epoch == |starts| - 1)
      && (forall i :: 0 <= i < |grants| - a.count ==> grants[i].epoch < |starts| - 1)
  }

  ghost predicate KeyOk(cur: Option<Attempts>, grants: seq<Grant>, starts: seq<Time>, window: int, m: nat) {
    && GoodGrants(grants, starts, window, m)
    && Describes(cur, grants, starts, window, m)
  }

  predicate OpenedBefore(starts: seq<Time>, clock: Time) {
    starts != [] ==> starts[|starts| - 1] <= clock
  }

  lemma OpeningKeepsKeyOk(
    cur: Option<Attempts>, grants: seq<Grant>, starts: seq<Time>, now: Time, window: int, m: nat)
    requires KeyOk(cur, grants, starts, window, m) && window > 0 && m >= 1
    requires cur.None? || now >= cur.value.resetAt
    ensures KeyOk(Some(Attempts(1, now + window)), grants + [Grant(now, |starts|)], starts + [now], window, m)
  {
    var g, s := grants + [Grant(now, |starts|)], starts + [now];
    assert EpochsApart(s, window) by {
      hide Spread, InOwnWindow, AllOpened;
      assert starts != [] ==> starts[|starts| - 1] + window <= now;
    }
    assert InOwnWindow(g, s, window) by {
      hide Spread, EpochsApart, AllOpened;
    }
    assert Spread(g, m) by {
      hide EpochsApart, AllOpened;
    }
    assert AllOpened(g, s) by {
      hide Spread, EpochsApart, Describes;
      OpenedAfterAppend(grants, starts, Grant(now, |starts|), s);
    }
    hide Spread, EpochsApart, AllOpened;
  }

  lemma OpenedAfterAppend(grants: seq<Grant>, starts: seq<Time>, last: Grant, s: seq<Time>)
    requires starts <= s
    requires forall i :: 0 <= i < |grants| ==> grants[i].epoch < |starts|
    requires AllOpened(grants, starts)
    requires last.epoch < |s|
    requires last.at == s[last.epoch] || (grants != [] && grants[|grants| - 1].epoch == last.epoch)
    ensures AllOpened(grants + [last], s)
  {
    var g := grants + [last];
    forall i | 0 <= i < |g|
      ensures Opened(g, s, i)
    {
      if i < |grants| {
        assert Opened(grants, starts, i);
      }
    }
  }

  lemma CountingKeepsKeyOk(
    cur: Attempts, grants: seq<Grant>, starts: seq<Time>, now: Time, window: int, m: nat)
    requires KeyOk(Some(cur), grants, starts, window, m)
    requires OpenedBefore(starts, now) && now < cur.resetAt && cur.count < m
    ensures KeyOk(Some(cur.(count := cur.count + 1)), grants + [Grant(now, |starts| - 1)], starts, window, m)
  {
    var g := grants + [Grant(now, |starts| - 1)];
    assert grants[|grants| - 1].epoch == |starts| - 1;
    assert InOwnWindow(g, starts, window) by {
      hide Spread, EpochsApart, AllOpened;
    }
    assert Spread(g, m) by {
      hide EpochsApart, AllOpened;
    }
    assert AllOpened(g, starts) by {
      hide Spread, EpochsApart;
      OpenedAfterAppend(grants, starts, Grant(now, |starts| - 1), starts);
    }
    hide Spread, EpochsApart, AllOpened;
  }

  function Lookup(m: map<string, Attempts>, key: string): Option<Attempts> {
    if key in m then Some(m[key]) else None
  }

  /** One attempt: the counter a key is left with, and the answer. */
  function ConsumeStep(cur: Option<Attempts>, now: Time, max: int, windowMs: int): (Attempts, bool) {
    if cur.None? || now >= cur.value.resetAt then (Attempts(1, now + windowMs), true)
    else if cur.value.count >= max then (cur.value, false)
    else (cur.value.(count := cur.value.count + 1), true)
  }

  class AttemptLimiter {
    const max: int
    const windowMs: int
    var attempts: map<string, Attempts>

    constructor (max: int, windowMs: int)
      ensures this.max == max && this.windowMs == windowMs && attempts == map[]
    {
      this.max, this.windowMs := max, windowMs;
      attempts := map[];
    }

    function Used(key: string, now: Time): int
      reads this
    {
      if key !in attempts || now >= attempts[key].resetAt then 0 else attempts[key].count
    }

    method Consume(key: string, now: Time) returns (ok: bool)
      modifies this
      ensures (attempts, ok) == var (cur, answer) := ConsumeStep(Lookup(old(attempts), key), now, max, windowMs);
                                (old(attempts)[key := cur], answer)
      ensures ok && windowMs > 0 ==> Used(key, now) == old(Used(key, now)) + 1
    {
      if key !in attempts || now >= attempts[key].resetAt {
        attempts := attempts[key := Attempts(1, now + windowMs)];
        return true;
      }
      var cur := attempts[key];
      if cur.count >= max {
        assert attempts[key := cur] == attempts;
        return false;
      }
      attempts := attempts[key := cur.(count := cur.count + 1)];
      return true;
    }

    method Clear(key: string)
      modifies this
      ensures attempts == old(attempts) - {key}
    {
      attempts := attempts - {key};
    }
  }

  /** A key's counter after a run of attempts without a clear, the grants of the run, and the windows it opened. */
  datatype Consumed = Consumed(cur: Option<Attempts>, grants: seq<Grant>, starts: seq<Time>)

  function ConsumeOne(before: Consumed, now: Time, max: int, windowMs: int): Consumed {
    var (cur, ok) := ConsumeStep(before.cur, now, max, windowMs);
    if !ok then before.(cur := Some(cur))
    else if before.cur.None? || now >= before.cur.value.resetAt then
      Consumed(Some(cur), before.grants + [Grant(now, |before.starts|)], before.starts + [now])
    else
      Consumed(Some(cur), before.grants + [Grant(now, Max(|before.starts| - 1, 0))], before.starts)
  }

  function ConsumeAll(calls: seq<Time>, max: int, windowMs: int): Consumed {
    if calls == [] then Consumed(None, [], [])
    else ConsumeOne(ConsumeAll(calls[..|calls| - 1], max, windowMs), calls[|calls| - 1], max, windowMs)
  }

  lemma ConsumeOneKeepsOk(before: Consumed, now: Time, max: int, windowMs: int)
    requires windowMs > 0 && OpenedBefore(before.starts, now)
    requires KeyOk(before.cur, before.grants, before.starts, windowMs, PerWindow(max))
    ensures var r := ConsumeOne(before, now, max, windowMs);
      KeyOk(r.cur, r.grants, r.starts, windowMs, PerWindow(max)) && OpenedBefore(r.starts, now)
  {
    hide GoodGrants, EpochsApart, InOwnWindow, AllOpened, Spread;
    if before.cur.None? || now >= before.cur.value.resetAt {
      OpeningKeepsKeyOk(before.cur, before.grants, before.starts, now, windowMs, PerWindow(max));
    } else if before.cur.value.count < max {
      CountingKeepsKeyOk(before.cur.value, before.grants, before.starts, now, windowMs, PerWindow(max));
    }
  }

  lemma {:induction false} ConsumeAllIsOk(calls: seq<Time>, max: int, windowMs: int)
    requires Sorted(calls) && windowMs > 0
    ensures var r := ConsumeAll(calls, max, windowMs);
      && KeyOk(r.cur, r.grants, r.starts, windowMs, PerWindow(max))
      && (if calls == [] then r.starts == [] else OpenedBefore(r.starts, calls[|calls| - 1]))
  {
    if calls != [] {
      var front, now := calls[..|calls| - 1], calls[|calls| - 1];
      ConsumeAllIsOk(front, max, windowMs);
      assert front != [] ==> front[|front| - 1] <= now;
      ConsumeOneKeepsOk(ConsumeAll(front, max, windowMs), now, max, windowMs);
    }
  }

  lemma {:induction false} EpochsFarApart(starts: seq<Time>, window: int, a: nat, b: nat, k: nat)
    requires EpochsApart(starts, window) && window > 0 && a <= b < |starts| && b - a >= k
    ensures starts[a] + k * window <= starts[b]
    decreases b - a
  {
    if a < b {
      if k == 0 {
        EpochsFarApart(starts, window, a, b - 1, 0);
      } else {
        EpochsFarApart(starts, window, a, b - 1, k - 1);
        assert k * window == (k - 1) * window + window;
      }
    }
  }

  lemma {:induction false} FullEpochsPass(
    grants: seq<Grant>, starts: seq<Time>, window: int, m: nat, i: nat, j: nat, d: nat)
    requires GoodGrants(grants, starts, window, m)
    requires i <= j < |grants| && j - i >= d * m
    ensures grants[j].epoch - grants[i].epoch >= d
    decreases d
  {
    if d == 0 {
      } else {
      assert d * m == (d - 1) * m + m;
      assert (d - 1) * m >= 0;
      FullEpochsPass(grants, starts, window, m, i, j - m, d - 1);
    }
  }

  function GrantsInWindow(grants: seq<Grant>, from: Time, length: int): set<nat> {
    set i: nat | i < |grants| && from <= grants[i].at < from + length
  }

  /** Two grants of one interval of k windows lie at most k windows apart, fewer when the first opened its window. */
  lemma GrantsOfOneInterval(
    grants: seq<Grant>, starts: seq<Time>, window: int, m: nat, from: Time, k: nat, i: nat, j: nat)
    requires GoodGrants(grants, starts, window, m) && window > 0
    requires i <= j && i in GrantsInWindow(grants, from, k * window) && j in GrantsInWindow(grants, from, k * window)
    ensures grants[j].epoch - grants[i].epoch <= k
    ensures grants[i].at == starts[grants[i].epoch] ==> grants[j].epoch - grants[i].epoch < k
  {
    var a, b := grants[i].epoch, grants[j].epoch;
    if b - a >= k {
      EpochsFarApart(starts, window, a, b, k);
    }
    if b - a > k {
      EpochsFarApart(starts, window, a + 1, b, k);
    }
  }

  lemma GrantsOfOneIntervalAreClose(
    grants: seq<Grant>, starts: seq<Time>, window: int, m: nat, from: Time, k: nat, i: nat, j: nat)
    requires GoodGrants(grants, starts, window, m) && window > 0 && m >= 1
    requires i <= j && i in GrantsInWindow(grants, from, k * window) && j in GrantsInWindow(grants, from, k * window)
    ensures j - i < (k + 1) * m - 1
  {
    GrantsOfOneInterval(grants, starts, window, m, from, k, i, j);
    var km, kmm := k * m, (k + 1) * m;
    assert kmm == km + m;
    if j - i >= kmm - 1 {
      if grants[i].at == starts[grants[i].epoch] {
        FullEpochsPass(grants, starts, window, m, i, j, k);
      } else {
        assert Opened(grants, starts, i);
        FullEpochsPass(grants, starts, window, m, i - 1, j, k + 1);
      }
    }
  }

  lemma GrantsBound(grants: seq<Grant>, starts: seq<Time>, window: int, m: nat, from: Time, k: nat)
    requires GoodGrants(grants, starts, window, m) && window > 0 && m >= 1
    ensures |GrantsInWindow(grants, from, k * window)| <= (k + 1) * m - 1
  {
    var w := GrantsInWindow(grants, from, k * window);
    forall i, j | i in w && j in w && i <= j
      ensures j - i < (k + 1) * m - 1
    {
      GrantsOfOneIntervalAreClose(grants, starts, window, m, from, k, i, j);
    }
    assert (k + 1) * m >= m by { assert (k + 1) * m == k * m + m && k * m >= 0; }
    CloseIndicesAreFew(w, (k + 1) * m - 1);
  }

  /** k windows in a row, wherever they start, grant at most (k+1)*max - 1 attempts of a key that is not cleared. */
  lemma FixedWindowBound(calls: seq<Time>, max: int, windowMs: int, from: Time, k: nat)
    requires Sorted(calls) && windowMs > 0
    ensures |GrantsInWindow(ConsumeAll(calls, max, windowMs).grants, from, k * windowMs)|
         <= (k + 1) * PerWindow(max) - 1
  {
    ConsumeAllIsOk(calls, max, windowMs);
    var r := ConsumeAll(calls, max, windowMs);
    GrantsBound(r.grants, r.starts, windowMs, PerWindow(max), from, k);
  }

  lemma ConsumeAllAppend(calls: seq<Time>, now: Time, max: int, windowMs: int)
    ensures ConsumeAll(calls + [now], max, windowMs) == ConsumeOne(ConsumeAll(calls, max, windowMs), now, max, windowMs)
  {
    assert (calls + [now])[..|calls|] == calls;
  }

  function Repeat(t: Time, n: nat): seq<Time> {
    seq(n, _ => t)
  }

  function Granted(calls: seq<Time>, max: int, windowMs: int, from: Time, length: int): nat {
    |GrantsInWindow(ConsumeAll(calls, max, windowMs).grants, from, length)|
  }

  lemma GrantAppend(grants: seq<Grant>, g: Grant, from: Time, length: int)
    ensures |GrantsInWindow(grants + [g], from, length)|
         == |GrantsInWindow(grants, from, length)| + if from <= g.at < from + length then 1 else 0
  {
    var more := if from <= g.at < from + length then {|grants|} else {};
    assert GrantsInWindow(grants + [g], from, length) == GrantsInWindow(grants, from, length) + more;
  }

  /** One more attempt that is granted: it opens a window, or is counted in the one that is open. */
  lemma OneGranted(calls: seq<Time>, t: Time, max: int, windowMs: int, from: Time, length: int)
    requires ConsumeStep(ConsumeAll(calls, max, windowMs).cur, t, max, windowMs).1
    ensures ConsumeAll(calls + [t], max, windowMs).cur
         == Some(ConsumeStep(ConsumeAll(calls, max, windowMs).cur, t, max, windowMs).0)
    ensures Granted(calls + [t], max, windowMs, from, length)
         == Granted(calls, max, windowMs, from, length) + if from <= t < from + length then 1 else 0
  {
    ConsumeAllAppend(calls, t, max, windowMs);
    hide ConsumeAll, GrantsInWindow;
    var r := ConsumeAll(calls, max, windowMs);
    GrantAppend(r.grants, Grant(t, |r.starts|), from, length);
    GrantAppend(r.grants, Grant(t, Max(|r.starts| - 1, 0)), from, length);
  }

  /** The state of a run that may go on at time t. */
  ghost predicate Ready(calls: seq<Time>, t: Time, cur: Option<Attempts>, max: int, windowMs: int) {
    && Sorted(calls) && (calls != [] ==> calls[|calls| - 1] <= t)
    && ConsumeAll(calls, max, windowMs).cur == cur
  }

  lemma ReadyAfter(calls: seq<Time>, t: Time, cur: Option<Attempts>, max: int, windowMs: int, from: Time, length: int)
    requires Ready(calls, t, cur, max, windowMs) && ConsumeStep(cur, t, max, windowMs).1
    ensures Ready(calls + [t], t, Some(ConsumeStep(cur, t, max, windowMs).0), max, windowMs)
    ensures Granted(calls + [t], max, windowMs, from, length)
         == Granted(calls, max, windowMs, from, length) + if from <= t < from + length then 1 else 0
  {
    hide ConsumeAll, Granted;
    OneGranted(calls, t, max, windowMs, from, length);
  }

  lemma {:induction false} FillWindow(
    calls: seq<Time>, t: Time, n: nat, c: Attempts, max: int, windowMs: int, from: Time, length: int)
    requires Ready(calls, t, Some(c), max, windowMs) && t < c.resetAt && c.count + n <= max
    ensures Ready(calls + Repeat(t, n), t, Some(c.(count := c.count + n)), max, windowMs)
    ensures Granted(calls + Repeat(t, n), max, windowMs, from, length)
         == Granted(calls, max, windowMs, from, length) + if from <= t < from + length then n else 0
  {
    hide Ready, Granted;
    if n == 0 {
      assert calls + Repeat(t, 0) == calls;
    } else {
      FillWindow(calls, t, n - 1, c, max, windowMs, from, length);
      var front := calls + Repeat(t, n - 1);
      ReadyAfter(front, t, Some(c.(count := c.count + n - 1)), max, windowMs, from, length);
      assert calls + Repeat(t, n) == front + [t];
    }
  }

  /** A window opened at t and filled at once. */
  lemma OpenAndFill(calls: seq<Time>, t: Time, cur: Option<Attempts>, max: nat, windowMs: int, from: Time, length: int)
    requires Ready(calls, t, cur, max, windowMs) && (cur.None? || t >= cur.value.resetAt) && max >= 1 && windowMs > 0
    ensures Ready(calls + Repeat(t, max), t, Some(Attempts(max, t + windowMs)), max, windowMs)
    ensures Granted(calls + Repeat(t, max), max, windowMs, from, length)
         == Granted(calls, max, windowMs, from, length) + if from <= t < from + length then max else 0
  {
    hide Ready, Granted;
    ReadyAfter(calls, t, cur, max, windowMs, from, length);
    FillWindow(calls + [t], t, max - 1, Attempts(1, t + windowMs), max, windowMs, from, length);
    assert calls + [t] + Repeat(t, max - 1) == calls + Repeat(t, max);
  }

  /** One attempt opens the first window, the rest come at its end, and j windows follow that are filled at once. */
  function Burst(max: nat, windowMs: int, j: nat): seq<Time>
    requires max >= 1
  {
    if j == 0 then [0] + Repeat(windowMs - 1, max - 1) else Burst(max, windowMs, j - 1) + Repeat(j * windowMs, max)
  }

  lemma NothingYet(t: Time, max: int, windowMs: int, from: Time, length: int)
    ensures Ready([], t, None, max, windowMs) && Granted([], max, windowMs, from, length) == 0
  {
    assert GrantsInWindow([], from, length) == {};
  }

  lemma ReadyLater(calls: seq<Time>, t: Time, later: Time, cur: Option<Attempts>, max: int, windowMs: int)
    requires Ready(calls, t, cur, max, windowMs) && t <= later
    ensures Ready(calls, later, cur, max, windowMs)
  {
    hide ConsumeAll;
  }

  lemma BurstStarts(max: nat, windowMs: int, length: int)
    requires max >= 1 && windowMs >= 2 && length > 0
    ensures Ready(Burst(max, windowMs, 0), windowMs - 1, Some(Attempts(max, windowMs)), max, windowMs)
    ensures Granted(Burst(max, windowMs, 0), max, windowMs, windowMs - 1, length) == max - 1
  {
    hide Ready, Granted;
    NothingYet(0, max, windowMs, windowMs - 1, length);
    ReadyAfter([], 0, None, max, windowMs, windowMs - 1, length);
    assert [] + [0] == [0];
    ReadyLater([0], 0, windowMs - 1, Some(Attempts(1, windowMs)), max, windowMs);
    FillWindow([0], windowMs - 1, max - 1, Attempts(1, windowMs), max, windowMs, windowMs - 1, length);
  }

  lemma {:induction false} BurstFills(max: nat, windowMs: int, j: nat, k: nat)
    requires max >= 1 && windowMs >= 2 && 1 <= k && j <= k
    ensures var t := if j == 0 then windowMs - 1 else j * windowMs;
      Ready(Burst(max, windowMs, j), t, Some(Attempts(max, j * windowMs + windowMs)), max, windowMs)
    ensures Granted(Burst(max, windowMs, j), max, windowMs, windowMs - 1, k * windowMs) == max - 1 + j * max
  {
    hide Ready, Granted;
    var length := k * windowMs;
    MultipleBounds(j, k, windowMs);
    if j == 0 {
      BurstStarts(max, windowMs, length);
    } else {
      BurstFills(max, windowMs, j - 1, k);
      var front, before := Burst(max, windowMs, j - 1), Attempts(max, (j - 1) * windowMs + windowMs);
      MultipleSteps(j, windowMs);
      MultipleSteps(j, max);
      ReadyLater(front, if j == 1 then windowMs - 1 else (j - 1) * windowMs, j * windowMs, Some(before), max, windowMs);
      OpenAndFill(front, j * windowMs, Some(before), max, windowMs, windowMs - 1, length);
    }
  }

  lemma MultipleBounds(j: nat, k: nat, w: int)
    requires j <= k && w >= 2 && k >= 1
    ensures j * w <= k * w && k * w >= w && (j >= 1 ==> j * w >= w) && (j == 0 ==> j * w == 0)
  {
    MultipleSteps(k, w);
    assert (k - j) * w >= 0 && (k - 1) * w >= 0;
    assert k * w == j * w + (k - j) * w;
    if j >= 1 {
      MultipleSteps(j, w);
      assert (j - 1) * w >= 0;
    }
  }

  lemma MultipleSteps(j: int, w: int)
    ensures j * w == (j - 1) * w + w
  {
  }

  lemma BurstIsSorted(max: nat, windowMs: int, k: nat)
    requires max >= 1 && windowMs >= 2 && 1 <= k
    ensures Sorted(Burst(max, windowMs, k))
  {
    hide Granted, ConsumeAll, Burst, Sorted;
    BurstFills(max, windowMs, k, k);
  }

  ghost predicate Reaches(calls: seq<Time>, max: int, windowMs: int, from: Time, k: nat) {
    Sorted(calls) && Granted(calls, max, windowMs, from, k * windowMs) == (k + 1) * PerWindow(max) - 1
  }

  /** With windows of one tick a grant is at its window's start, so k ticks hold grants of k windows. */
  lemma InstantsAreClose(grants: seq<Grant>, starts: seq<Time>, m: nat, from: Time, k: nat, i: nat, j: nat)
    requires GoodGrants(grants, starts, 1, m)
    requires i <= j && i in GrantsInWindow(grants, from, k * 1) && j in GrantsInWindow(grants, from, k * 1)
    ensures j - i < k * m
  {
    assert grants[i].at == starts[grants[i].epoch];
    GrantsOfOneInterval(grants, starts, 1, m, from, k, i, j);
    hide GoodGrants, EpochsApart, InOwnWindow, AllOpened, Spread;
    if j - i >= k * m {
      FullEpochsPass(grants, starts, 1, m, i, j, k);
    }
  }

  lemma InstantsBound(grants: seq<Grant>, starts: seq<Time>, m: nat, from: Time, k: nat, most: nat)
    requires GoodGrants(grants, starts, 1, m) && most == k * m
    ensures |GrantsInWindow(grants, from, k * 1)| <= most
  {
    hide GoodGrants;
    var w := GrantsInWindow(grants, from, k * 1);
    forall i, j | i in w && j in w && i <= j
      ensures j - i < most
    {
      InstantsAreClose(grants, starts, m, from, k, i, j);
    }
    CloseIndicesAreFew(w, most);
  }

  lemma InstantsGrantLess(calls: seq<Time>, max: nat, from: Time, k: nat)
    requires Sorted(calls) && max >= 2
    ensures Granted(calls, max, 1, from, k * 1) < (k + 1) * max - 1
  {
    hide ConsumeAll, Describes, GoodGrants, GrantsInWindow, Sorted;
    ConsumeAllIsOk(calls, max, 1);
    var r := ConsumeAll(calls, max, 1);
    InstantsBound(r.grants, r.starts, max, from, k, k * max);
    MultipleSteps(k + 1, max);
  }

  /** The bound is tight for every limit of two or more and any number of windows, unless a window is a single tick. */
  lemma FixedWindowBoundIsReached(max: nat, windowMs: int, k: nat)
    requires max >= 2 && windowMs > 0 && k >= 1
    ensures (exists calls, from :: Reaches(calls, max, windowMs, from, k)) <==> windowMs >= 2
  {
    hide Granted;
    if windowMs >= 2 {
      BurstIsSorted(max, windowMs, k);
      BurstFills(max, windowMs, k, k);
      MultipleSteps(k + 1, max);
      assert Reaches(Burst(max, windowMs, k), max, windowMs, windowMs - 1, k);
    } else {
      forall calls, from
        ensures !Reaches(calls, max, windowMs, from, k)
      {
        if Sorted(calls) {
          InstantsGrantLess(calls, max, from, k);
        }
      }
    }
  }

  /** The grants since the current window opened. */
  function SinceOpened(r: Consumed): set<nat> {
    set i: nat | i < |r.grants| && r.starts != [] && r.grants[i].epoch == |r.starts| - 1
  }

  lemma CountedSinceOpened(r: Consumed, windowMs: int, m: nat)
    requires Describes(r.cur, r.grants, r.starts, windowMs, m) && r.cur.Some?
    ensures r.cur.value.count == |SinceOpened(r)|
  {
    assert SinceOpened(r) == Indices(|r.grants| - r.cur.value.count, |r.grants|);
  }

  /** The stored counter counts the grants of the last window, and knows when it closes. */
  lemma CounterIsExact(calls: seq<Time>, max: int, windowMs: int)
    requires Sorted(calls) && windowMs > 0
    ensures var r := ConsumeAll(calls, max, windowMs);
      if r.starts == [] then r.cur == None
      else r.cur == Some(Attempts(|SinceOpened(r)|, r.starts[|r.starts| - 1] + windowMs))
  {
    ConsumeAllIsOk(calls, max, windowMs);
    var r := ConsumeAll(calls, max, windowMs);
    hide ConsumeAll, GoodGrants, Sorted, SinceOpened;
    if r.cur.Some? {
      CountedSinceOpened(r, windowMs, PerWindow(max));
    }
  }

  /**
   * An attempt is granted if and only if no window is open, or fewer than max attempts were granted in the open one;
   * and it opens a window if and only if none is. A window is open from its first grant for its length.
   */
  lemma GrantedExactly(calls: seq<Time>, now: Time, max: int, windowMs: int)
    requires Sorted(calls + [now]) && windowMs > 0
    ensures var (r, s) := (ConsumeAll(calls, max, windowMs), ConsumeAll(calls + [now], max, windowMs));
      var open := r.starts != [] && now < r.starts[|r.starts| - 1] + windowMs;
      && s.starts == (if open then r.starts else r.starts + [now])
      && s.grants == (if open && |SinceOpened(r)| >= max then r.grants else r.grants + [Grant(now, |s.starts| - 1)])
  {
    SortedFront(calls, now);
    CounterIsExact(calls, max, windowMs);
    assert ConsumeAll(calls + [now], max, windowMs) == ConsumeOne(ConsumeAll(calls, max, windowMs), now, max, windowMs);
    hide ConsumeAll, Sorted, SinceOpened;
  }
}
