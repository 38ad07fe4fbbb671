/**
 * The EVM watcher: a block cursor that moves in bounded, overlapping windows, and skips only what it has put on
 * record. The node, the database and the gap gate answer each poll as they like.
 */
module Watcher {
  import opened Basics
  import opened Text
  import opened Amounts
  import opened Checkout

  const COLD_LOOKBACK := 64
  const DEFAULT_SPAN := 64
  const DEFAULT_CATCHUP := 10_000
  const DEFAULT_BATCH := 40

  /** chainId 0 means any chain; spans, limits and batch sizes of 0 stand for their defaults. */
  datatype Adapter = Adapter(
    chainId: int, overlap: nat, maxBlockSpan: nat, maxCatchup: nat, allowSnap: bool, batch: int)

  datatype Window = Window(from: nat, to: nat)

  datatype Log = Log(block: nat, to: string, id: nat)

  datatype Scan = Scan(window: Window, addresses: seq<string>, logs: seq<Log>)

  datatype Plan = Plan(from: nat, to: nat, snap: Option<Window>)

  function Span(a: Adapter): (n: nat)
    ensures n > 0 && (a.maxBlockSpan > 0 ==> n == a.maxBlockSpan) && (a.maxBlockSpan == 0 ==> n == 64)
  {
    if a.maxBlockSpan == 0 then DEFAULT_SPAN else a.maxBlockSpan
  }

  function CatchupLimit(a: Adapter): (n: nat)
    ensures n > 0 && (a.maxCatchup > 0 ==> n == a.maxCatchup) && (a.maxCatchup == 0 ==> n == 10_000)
  {
    if a.maxCatchup == 0 then DEFAULT_CATCHUP else a.maxCatchup
  }

  function BatchSize(a: Adapter): (n: nat)
    ensures n > 0 && (a.batch > 0 ==> n == a.batch) && (a.batch <= 0 ==> n == 40)
  {
    if a.batch <= 0 then DEFAULT_BATCH else a.batch
  }

  /** strconv.ParseUint on the trimmed text; anything it refuses counts as block 0. */
  function ParseBlockCursor(text: string): nat {
    var s := Trim(text, GoSpace);
    if IsNumeral(s, 10) && ValueOf(s, 10) < TWO_64 then ValueOf(s, 10) else 0
  }

  function Below(n: nat, d: nat): nat {
    if n > d then n - d else 0
  }

  /** Where a poll starts: a look back from the head when there is no cursor, an overlap behind it when there is. */
  function Start(a: Adapter, head: nat, cursor: string): nat {
    if cursor == "" then Below(head, COLD_LOOKBACK) else Below(ParseBlockCursor(cursor), a.overlap)
  }

  predicate Skips(a: Adapter, head: nat, cursor: string) {
    var start := Start(a, head, cursor);
    && cursor != "" && head > start && head - start > CatchupLimit(a)
    && Below(head, COLD_LOOKBACK) > start
  }

  function Planned(a: Adapter, head: nat, cursor: string): Plan {
    var start := Start(a, head, cursor);
    if Skips(a, head, cursor) then
      var cold := Below(head, COLD_LOOKBACK);
      Plan(cold, Min(head, cold + Span(a)), Some(Window(start, cold - 1)))
    else Plan(start, Min(head, start + Span(a)), None)
  }

  // --------------------------------------------------------------------- polls

  /** What a poll draws from outside: the database, the gate and the node; eth_getLogs may fail batch by batch. */
  datatype Poll = Poll(
    watched: seq<string>, tokenAllowed: bool, cursorRead: bool, chainId: Option<int>, head: Option<nat>,
    gateOpens: bool, node: (Window, seq<string>) -> Option<seq<Log>>, saves: bool)

  /** The stored cursor, the recorded gaps, and history: completed scans, and where the first saved poll started. */
  datatype Watch = Watch(cursor: string, chainChecked: bool, gaps: seq<Window>, scans: seq<Scan>, origin: Option<nat>)

  const NEW_WATCH := Watch("", false, [], [], None)

  function NormalAddresses(watched: seq<string>): seq<string> {
    seq(|watched|, k requires 0 <= k < |watched| => Lower(Trim(watched[k], GoSpace)))
  }

  function ValidAddresses(watched: seq<string>): seq<string> {
    Keep(NormalAddresses(watched), n => IsEvmAddress(n))
  }

  /** Consecutive pieces of at most size addresses. */
  function Batches(addresses: seq<string>, size: nat): seq<seq<string>>
    requires size > 0
  {
    if addresses == [] then []
    else [addresses[..Min(size, |addresses|)]] + Batches(addresses[Min(size, |addresses|)..], size)
  }

  function Fetched(node: (Window, seq<string>) -> Option<seq<Log>>, w: Window, batches: seq<seq<string>>)
    : Option<seq<Log>>
  {
    if batches == [] then Some([])
    else
      match node(w, batches[0])
      case None => None
      case Some(part) =>
        match Fetched(node, w, batches[1..])
        case None => None
        case Some(rest) => Some(part + rest)
  }

  predicate ChainOk(a: Adapter, w: Watch, p: Poll) {
    w.chainChecked || a.chainId == 0 || p.chainId == Some(a.chainId)
  }

  datatype Outcome = Failed | Observed(next: nat, logs: seq<Log>)

  function CursorSeen(w: Watch, p: Poll): string {
    if p.cursorRead then w.cursor else ""
  }

  /** A gap is on record before anything is fetched, and stays there when the fetch fails. */
  function Observe(a: Adapter, w: Watch, p: Poll): (Watch, Outcome) {
    if !p.tokenAllowed || !ChainOk(a, w, p) then (w, Failed)
    else
      var checked := w.(chainChecked := w.chainChecked || a.chainId != 0);
      if p.head.None? then (checked, Failed)
      else
        var plan := Planned(a, p.head.value, CursorSeen(w, p));
        if plan.snap.Some? && !(a.allowSnap && p.gateOpens) then (checked, Failed)
        else
          var recorded := if plan.snap.Some? then checked.(gaps := w.gaps + [plan.snap.value]) else checked;
          if plan.from > plan.to then (recorded, Observed(p.head.value + 1, []))
          else ScanWindow(a, recorded, p, Window(plan.from, plan.to))
  }

  function ScanWindow(a: Adapter, w: Watch, p: Poll, window: Window): (Watch, Outcome) {
    var addresses := ValidAddresses(p.watched);
    if addresses == [] then (w, Observed(window.to + 1, []))
    else
      match Fetched(p.node, window, Batches(addresses, BatchSize(a)))
      case None => (w, Failed)
      case Some(logs) => (w.(scans := w.scans + [Scan(window, addresses, logs)]), Observed(window.to + 1, logs))
  }

  /** A failed poll and a failed save leave the cursor where it was. */
  function PollNetwork(a: Adapter, w: Watch, p: Poll): Watch {
    if p.watched == [] then w
    else
      var (u, out) := Observe(a, w, p);
      if out.Failed? || !p.saves then u
      else u.(cursor := Numeral(out.next, 10),
              origin := if w.origin.None? then Some(Planned(a, p.head.value, CursorSeen(w, p)).from) else w.origin)
  }

  function Polls(a: Adapter, w: Watch, polls: seq<Poll>): Watch {
    if polls == [] then w
    else PollNetwork(a, Polls(a, w, polls[..|polls| - 1]), polls[|polls| - 1])
  }

  // ------------------------------------------------------------------- the adapter

  class EVMAdapter {
    const a: Adapter
    var chainIdChecked: bool
    var cursor: string
    var gaps: seq<Window>
    ghost var scans: seq<Scan>
    ghost var origin: Option<nat>

    ghost function View(): Watch
      reads this
    {
      Watch(cursor, chainIdChecked, gaps, scans, origin)
    }

    constructor (a: Adapter)
      ensures this.a == a && View() == NEW_WATCH
    {
      this.a := a;
      chainIdChecked, cursor, gaps, scans, origin := false, "", [], [], None;
    }

    method PlanObserveRange(head: nat, fromCursor: string) returns (plan: Plan)
      ensures plan == Planned(a, head, fromCursor)
    {
      var from, snap := 0, None;
      if fromCursor == "" {
        if head > COLD_LOOKBACK {
          from := head - COLD_LOOKBACK;
        }
      } else {
        from := ParseBlockCursor(fromCursor);
        if a.overlap > 0 {
          if from > a.overlap {
            from := from - a.overlap;
          } else {
            from := 0;
          }
        }
        if head > from && head - from > CatchupLimit(a) {
          var start := 0;
          if head > COLD_LOOKBACK {
            start := head - COLD_LOOKBACK;
          }
          if start > from {
            snap := Some(Window(from, start - 1));
            from := start;
          }
        }
      }
      var to := head;
      var span := Span(a);
      if span > 0 && to > from + span {
        to := from + span;
      }
      return Plan(from, to, snap);
    }

    method EnsureChainId(id: Option<int>) returns (ok: bool)
      modifies this`chainIdChecked
      ensures ok <==> old(chainIdChecked) || a.chainId == 0 || id == Some(a.chainId)
      ensures chainIdChecked == (old(chainIdChecked) || (ok && a.chainId != 0))
    {
      if chainIdChecked || a.chainId == 0 {
        return true;
      }
      if id.None? || id.value != a.chainId {
        return false;
      }
      chainIdChecked := true;
      return true;
    }

    method ObserveTransfers(p: Poll, fromCursor: string) returns (out: Outcome)
      requires fromCursor == CursorSeen(View(), p)
      modifies this`chainIdChecked, this`gaps, this`scans
      ensures (View(), out) == Observe(a, old(View()), p)
    {
      if !p.tokenAllowed {
        return Failed;
      }
      var ok := EnsureChainId(p.chainId);
      if !ok || p.head.None? {
        return Failed;
      }
      var plan := PlanObserveRange(p.head.value, fromCursor);
      if plan.snap.Some? {
        if !a.allowSnap || !p.gateOpens {
          return Failed;
        }
        gaps := gaps + [plan.snap.value];
      }
      hide Planned, ValidAddresses, Batches, Fetched;
      if plan.from > plan.to {
        return Observed(p.head.value + 1, []);
      }
      var normalized := FilterAddresses(p.watched);
      if |normalized| == 0 {
        return Observed(plan.to + 1, []);
      }
      var logs := FetchInBatches(p, Window(plan.from, plan.to), normalized);
      if logs.None? {
        return Failed;
      }
      scans := scans + [Scan(Window(plan.from, plan.to), normalized, logs.value)];
      return Observed(plan.to + 1, logs.value);
    }

    method FilterAddresses(watched: seq<string>) returns (normalized: seq<string>)
      ensures normalized == ValidAddresses(watched)
    {
      ghost var all := NormalAddresses(watched);
      ghost var pass := n => IsEvmAddress(n);
      hide IsEvmAddress;
      normalized := [];
      for k := 0 to |watched|
        invariant normalized == Keep(all[..k], pass)
      {
        assert all[..k + 1][..k] == all[..k];
        var n := Lower(Trim(watched[k], GoSpace));
        if !IsEvmAddress(n) {
          continue;
        }
        normalized := normalized + [n];
      }
      assert all[..|watched|] == all;
    }

    method FetchInBatches(p: Poll, window: Window, normalized: seq<string>) returns (logs: Option<seq<Log>>)
      ensures logs == Fetched(p.node, window, Batches(normalized, BatchSize(a)))
    {
      var batch := a.batch;
      if batch <= 0 {
        batch := DEFAULT_BATCH;
      }
      var all: seq<Log> := [];
      var i := 0;
      ghost var wanted := Fetched(p.node, window, Batches(normalized, batch));
      assert normalized[0..] == normalized;
      PrependNothing(wanted);
      while i < |normalized|
        invariant 0 <= i <= |normalized|
        invariant wanted == Prepend(all, Fetched(p.node, window, Batches(normalized[i..], batch)))
      {
        var j := Min(i + batch, |normalized|);
        BatchStep(p.node, window, normalized[i..], batch);
        assert normalized[i..][..j - i] == normalized[i..j] && normalized[i..][j - i..] == normalized[j..];
        var part := p.node(window, normalized[i..j]);
        if part.None? {
          return None;
        }
        PrependTwice(all, part.value, Fetched(p.node, window, Batches(normalized[j..], batch)));
        all := all + part.value;
        i := j;
      }
      assert normalized[i..] == [] && all + [] == all;
      return Some(all);
    }

    method PollOnce(p: Poll)
      modifies this
      ensures View() == PollNetwork(a, old(View()), p)
    {
      if |p.watched| == 0 {
        return;
      }
      var fromCursor := "";
      if p.cursorRead {
        fromCursor := cursor;
      }
      var out := ObserveTransfers(p, fromCursor);
      if out.Failed? {
        return;
      }
      if p.saves {
        if origin.None? {
          origin := Some(Planned(a, p.head.value, fromCursor).from);
        }
        cursor := Numeral(out.next, 10);
      }
    }
  }

  function Prepend(all: seq<Log>, rest: Option<seq<Log>>): Option<seq<Log>> {
    match rest
    case None => None
    case Some(logs) => Some(all + logs)
  }

  lemma PrependTwice(a: seq<Log>, b: seq<Log>, rest: Option<seq<Log>>)
    ensures Prepend(a, Prepend(b, rest)) == Prepend(a + b, rest)
  {
    if rest.Some? {
      assert a + (b + rest.value) == a + b + rest.value;
    }
  }

  lemma PrependNothing(rest: Option<seq<Log>>)
    ensures Prepend([], rest) == rest
  {
    if rest.Some? {
      assert [] + rest.value == rest.value;
    }
  }

  lemma BatchStep(node: (Window, seq<string>) -> Option<seq<Log>>, w: Window, addresses: seq<string>, size: nat)
    requires size > 0 && addresses != []
    ensures var n := Min(size, |addresses|);
      Fetched(node, w, Batches(addresses, size))
        == match node(w, addresses[..n])
           case None => None
           case Some(part) => Prepend(part, Fetched(node, w, Batches(addresses[n..], size)))
  {
    var n := Min(size, |addresses|);
    assert Batches(addresses, size)[1..] == Batches(addresses[n..], size);
  }
}
