/** What polling guarantees: which blocks were looked at, how fast the cursor catches up, and when it does not. */
module Coverage {
  import opened Basics
  import opened Text
  import opened Amounts
  import opened Checkout
  import opened Watcher

  /** The cursor column as a number, when one was saved. */
  function CursorOf(w: Watch): nat {
    ParseBlockCursor(w.cursor)
  }

  lemma {:induction false} NumeralIsSolid(n: nat)
    ensures var s := Numeral(n, 10); s != "" && Trim(s, GoSpace) == s
  {
    hide Numeral;
    var s := Numeral(n, 10);
    assert IsNumeral(s, 10);
    assert DigitOf(s[0]) < 10 && DigitOf(s[|s| - 1]) < 10;
    DigitIsSolid(s[0]);
    DigitIsSolid(s[|s| - 1]);
  }

  lemma DigitIsSolid(c: char)
    requires DigitOf(c) < 10
    ensures !GoSpace(c)
  {
  }

  /** A saved cursor is read back as the number it was, for every block number of 64 bits. */
  lemma SavedCursorIsReadBack(n: nat)
    requires n < TWO_64
    ensures ParseBlockCursor(Numeral(n, 10)) == n
  {
    NumeralIsSolid(n);
    NumeralRoundTrip(n, 10);
    hide Numeral, ValueOf;
  }

  // ----------------------------------------------------------------- the windows

  /** The blocks of one window: its end is at most the configured span, or 64 blocks, past its start. */
  predicate WithinSpan(a: Adapter, w: Window) {
    w.to <= w.from + if a.maxBlockSpan > 0 then a.maxBlockSpan else 64
  }

  /** A poll starts 64 blocks behind the head, or at most the overlap behind the block the cursor names. */
  predicate StartsAt(a: Adapter, head: nat, cursor: string, from: nat) {
    if cursor == "" then from == Max(head - 64, 0) else from == Max(ParseBlockCursor(cursor) - a.overlap, 0)
  }

  /**
   * The plan, in the numbers configured. It skips if and only if there is a cursor, the start lags the head by more
   * than the catch-up limit, 10000 blocks by default, and lies before the last 64 blocks; the skip is then all that
   * lies between, and the window starts 64 blocks behind the head. The window reaches to the head or to the span.
   */
  lemma PlansAreBounded(a: Adapter, head: nat, cursor: string)
    ensures var (p, start) := (Planned(a, head, cursor), Start(a, head, cursor));
      var limit := if a.maxCatchup > 0 then a.maxCatchup else 10_000;
      && StartsAt(a, head, cursor, start)
      && (p.snap.Some? <==> cursor != "" && head > start + limit && head > start + 64)
      && (p.snap.Some? ==> p.snap.value == Window(start, head - 65) && p.from == head - 64 <= p.to)
      && (p.snap.None? ==> p.from == start)
      && p.to <= head && WithinSpan(a, Window(p.from, p.to))
      && (p.to == head || p.to == p.from + if a.maxBlockSpan > 0 then a.maxBlockSpan else 64)
  {
    hide ParseBlockCursor;
  }

  /** A cursor that is no decimal number of 64 bits counts as block 0. */
  lemma UnreadableCursorsAreZero(text: string)
    requires !IsNumeral(Trim(text, GoSpace), 10) || ValueOf(Trim(text, GoSpace), 10) >= 0x1_0000_0000_0000_0000
    ensures ParseBlockCursor(text) == 0
  {
  }

  predicate InWindow(w: Window, b: nat) {
    w.from <= b <= w.to
  }

  /** The block was in the window of a completed scan, or lies in a recorded gap. */
  ghost predicate Covered(w: Watch, b: nat) {
    || (exists k :: 0 <= k < |w.scans| && InWindow(w.scans[k].window, b))
    || (exists k :: 0 <= k < |w.gaps| && InWindow(w.gaps[k], b))
  }

  lemma CoverageStays(w: Watch, u: Watch, b: nat)
    requires Covered(w, b) && w.scans <= u.scans && w.gaps <= u.gaps
    ensures Covered(u, b)
  {
    if k :| 0 <= k < |w.scans| && InWindow(w.scans[k].window, b) {
      assert u.scans[k] == w.scans[k];
    } else {
      var k :| 0 <= k < |w.gaps| && InWindow(w.gaps[k], b);
      assert u.gaps[k] == w.gaps[k];
    }
  }

  /** A poll that moves the cursor: it got through, and its save did. */
  predicate Advances(a: Adapter, w: Watch, p: Poll) {
    p.watched != [] && Observe(a, w, p).1.Observed? && p.saves
  }

  /** What one poll adds, in the cases it can end in. */
  lemma PollOutcome(a: Adapter, w: Watch, p: Poll)
    ensures var u := PollNetwork(a, w, p);
      && w.scans <= u.scans && w.gaps <= u.gaps
      && (!Advances(a, w, p) ==> u.cursor == w.cursor && u.origin == w.origin)
      && (Advances(a, w, p) ==>
            && p.head.Some?
            && var plan := Planned(a, p.head.value, CursorSeen(w, p));
            && u.cursor == Numeral(if plan.from > plan.to then p.head.value + 1 else plan.to + 1, 10)
            && u.origin == (if w.origin.None? then Some(plan.from) else w.origin)
            && u.gaps == (if plan.snap.Some? then w.gaps + [plan.snap.value] else w.gaps)
            && (plan.from <= plan.to && ValidAddresses(p.watched) != [] ==>
                  |u.scans| == |w.scans| + 1 && u.scans[|w.scans|].window == Window(plan.from, plan.to)
                  && u.scans[|w.scans|].addresses == ValidAddresses(p.watched))
            && (plan.from > plan.to || ValidAddresses(p.watched) == [] ==> u.scans == w.scans))
  {
    hide Planned, ValidAddresses, Fetched, Batches, Numeral;
  }

  ghost predicate AddsCover(a: Adapter, w: Watch, p: Poll, b: nat) {
    var u := PollNetwork(a, w, p);
    || (exists k :: |w.scans| <= k < |u.scans| && InWindow(u.scans[k].window, b))
    || (exists k :: |w.gaps| <= k < |u.gaps| && InWindow(u.gaps[k], b))
  }

  /** Where the poll leaves the cursor. */
  function NextCursor(a: Adapter, w: Watch, p: Poll): nat
    requires p.head.Some?
  {
    var plan := Planned(a, p.head.value, CursorSeen(w, p));
    if plan.from > plan.to then p.head.value + 1 else plan.to + 1
  }

  lemma AddedExactly(a: Adapter, w: Watch, p: Poll, b: nat)
    requires Advances(a, w, p)
    ensures p.head.Some?
    ensures var plan := Planned(a, p.head.value, CursorSeen(w, p));
      AddsCover(a, w, p, b) <==>
        || (ValidAddresses(p.watched) != [] && plan.from <= b <= plan.to)
        || (plan.snap.Some? && InWindow(plan.snap.value, b))
  {
    PollOutcome(a, w, p);
    hide Planned, ValidAddresses, PollNetwork, Advances;
    var u := PollNetwork(a, w, p);
    var plan := Planned(a, p.head.value, CursorSeen(w, p));
    if plan.from <= plan.to && ValidAddresses(p.watched) != [] {
      assert InWindow(u.scans[|w.scans|].window, b) <==> plan.from <= b <= plan.to;
    }
    if plan.snap.Some? {
      assert u.gaps[|w.gaps|] == plan.snap.value;
    }
  }

  /** A look back from the head starts no later than the cursor. */
  predicate LooksBackFarEnough(w: Watch, p: Poll)
    requires p.head.Some?
  {
    p.cursorRead || Below(p.head.value, COLD_LOOKBACK) <= CursorOf(w)
  }

  /**
   * A poll that moves a stored cursor forward accounts for every block it passes if and only if some watched address
   * is valid and the cursor was read; a failed read is harmless only while the cursor is within the look-back.
   */
  lemma PollCoversExactly(a: Adapter, w: Watch, p: Poll)
    requires Advances(a, w, p) && w.cursor != ""
    ensures p.head.Some?
    ensures (forall b: nat :: CursorOf(w) <= b < NextCursor(a, w, p) ==> AddsCover(a, w, p, b)) <==>
            || NextCursor(a, w, p) <= CursorOf(w)
            || (ValidAddresses(p.watched) != [] && LooksBackFarEnough(w, p))
  {
    PollOutcome(a, w, p);
    var plan := Planned(a, p.head.value, CursorSeen(w, p));
    PlansAreBounded(a, p.head.value, CursorSeen(w, p));
    var c, next := CursorOf(w), NextCursor(a, w, p);
    forall b: nat
      ensures AddsCover(a, w, p, b) <==>
        || (ValidAddresses(p.watched) != [] && plan.from <= b <= plan.to)
        || (plan.snap.Some? && InWindow(plan.snap.value, b))
    {
      AddedExactly(a, w, p, b);
    }
    hide AddsCover, ValidAddresses, PollNetwork, Advances, ParseBlockCursor, Planned;
    if next > c {
      assert plan.from <= plan.to by {
        StartsBehind(a, w, p);
      }
      StartsBehind(a, w, p);
      if ValidAddresses(p.watched) == [] {
        assert !AddsCover(a, w, p, plan.to);
      } else if !LooksBackFarEnough(w, p) {
        assert !AddsCover(a, w, p, c);
      }
    }
  }

  /** A poll that read the cursor starts at or behind it; one that did not starts at the look-back. */
  lemma StartsBehind(a: Adapter, w: Watch, p: Poll)
    requires p.head.Some?
    ensures p.cursorRead && w.cursor != "" ==> Start(a, p.head.value, CursorSeen(w, p)) <= CursorOf(w)
    ensures CursorSeen(w, p) == "" ==>
      && Start(a, p.head.value, CursorSeen(w, p)) == Below(p.head.value, COLD_LOOKBACK)
      && Planned(a, p.head.value, CursorSeen(w, p)).from <= Planned(a, p.head.value, CursorSeen(w, p)).to
      && Planned(a, p.head.value, CursorSeen(w, p)).snap.None?
    ensures var plan := Planned(a, p.head.value, CursorSeen(w, p));
      plan.from > plan.to ==> p.head.value + 1 <= Start(a, p.head.value, CursorSeen(w, p))
  {
    hide ParseBlockCursor;
  }

  // ------------------------------------------------------------------------ runs

  /**
   * What it takes for a poll to leave no block behind: the condition of PollCoversExactly, and on the first poll that
   * gets through a valid address. A poll that fails or whose save fails always meets it; and a block number fits.
   */
  predicate AccountsFor(a: Adapter, w: Watch, p: Poll) {
    p.head.Some? && Advances(a, w, p) ==>
      && NextCursor(a, w, p) < TWO_64
      && if w.cursor == "" then ValidAddresses(p.watched) != []
         else
           || NextCursor(a, w, p) <= CursorOf(w)
           || (ValidAddresses(p.watched) != [] && LooksBackFarEnough(w, p))
  }

  /** Polls that read the stored cursor and watch some valid address; everything else about them is free. */
  predicate Sound(p: Poll) {
    && p.cursorRead && ValidAddresses(p.watched) != []
    && (p.head.Some? ==> p.head.value < TWO_64 - 1)
  }

  lemma SoundPollsAccount(a: Adapter, w: Watch, p: Poll)
    requires Sound(p)
    ensures AccountsFor(a, w, p)
  {
    if p.head.Some? {
      PlansAreBounded(a, p.head.value, CursorSeen(w, p));
    }
    hide Planned, ValidAddresses, Advances, ParseBlockCursor;
  }

  /** Every block from where polling first got through up to the saved cursor is covered. */
  ghost predicate AllCovered(w: Watch) {
    && (w.cursor == "" <==> w.origin.None?)
    && (w.origin.Some? ==> forall b: nat :: w.origin.value <= b < CursorOf(w) ==> Covered(w, b))
  }

  lemma NumeralIsNotEmpty(n: nat)
    ensures Numeral(n, 10) != ""
  {
  }

  lemma PollKeepsCover(a: Adapter, w: Watch, p: Poll)
    requires AccountsFor(a, w, p) && AllCovered(w)
    ensures AllCovered(PollNetwork(a, w, p))
  {
    var u := PollNetwork(a, w, p);
    PollOutcome(a, w, p);
    hide PollNetwork, ParseBlockCursor, Covered, ValidAddresses, Planned, Advances, Numeral;
    if Advances(a, w, p) {
      PlansAreBounded(a, p.head.value, CursorSeen(w, p));
      StartsBehind(a, w, p);
      SavedCursorIsReadBack(NextCursor(a, w, p));
      NumeralIsNotEmpty(NextCursor(a, w, p));
      forall b: nat | u.origin.value <= b < CursorOf(u)
        ensures Covered(u, b)
      {
        if w.origin.Some? && b < CursorOf(w) {
          CoverageStays(w, u, b);
        } else {
          PassedIsCovered(a, w, p, b);
        }
      }
    } else {
      forall b: nat | w.origin.Some? && w.origin.value <= b < CursorOf(w)
        ensures Covered(u, b)
      {
        CoverageStays(w, u, b);
      }
    }
  }

  lemma PassedIsCovered(a: Adapter, w: Watch, p: Poll, b: nat)
    requires AccountsFor(a, w, p) && Advances(a, w, p)
    requires if w.cursor == "" then p.head.Some? && Planned(a, p.head.value, "").from <= b else CursorOf(w) <= b
    requires p.head.Some? && b < NextCursor(a, w, p)
    ensures Covered(PollNetwork(a, w, p), b)
  {
    hide ParseBlockCursor, ValidAddresses, PollNetwork, Advances, Observe, IsEvmAddress;
    PlansAreBounded(a, p.head.value, CursorSeen(w, p));
    StartsBehind(a, w, p);
    AddedExactly(a, w, p, b);
    AddsCoverMeansCovered(a, w, p, b);
    hide Planned;
  }

  lemma AddsCoverMeansCovered(a: Adapter, w: Watch, p: Poll, b: nat)
    requires AddsCover(a, w, p, b)
    ensures Covered(PollNetwork(a, w, p), b)
  {
    hide PollNetwork;
  }

  /** Every poll of the run accounts for the blocks it passes, where it happens. */
  predicate AllAccount(a: Adapter, w: Watch, polls: seq<Poll>) {
    polls == [] ||
    var front := polls[..|polls| - 1];
    AllAccount(a, w, front) && AccountsFor(a, Polls(a, w, front), polls[|polls| - 1])
  }

  /**
   * Coverage over any run: with head regressions, refused snaps, failed fetches after a recorded gap, failed saves and
   * harmless failed reads in any order, every block from the first cold start up to the saved cursor was scanned or
   * is in a gap row.
   */
  lemma {:induction false} BlocksAreCovered(a: Adapter, polls: seq<Poll>)
    requires AllAccount(a, NEW_WATCH, polls)
    ensures AllCovered(Polls(a, NEW_WATCH, polls))
  {
    hide AllCovered, PollNetwork, AccountsFor;
    if polls == [] {
      NewIsCovered();
    } else {
      var front := polls[..|polls| - 1];
      BlocksAreCovered(a, front);
      PollKeepsCover(a, Polls(a, NEW_WATCH, front), polls[|polls| - 1]);
    }
  }

  lemma NewIsCovered()
    ensures AllCovered(NEW_WATCH)
  {
  }

  /** A poll that gets through at a head, with or without the stored cursor. */
  function ThroughAt(a: Adapter, watched: seq<string>, cursorRead: bool, head: nat): Poll {
    Poll(watched, true, cursorRead, Some(a.chainId), Some(head), true, (w, addresses) => Some([]), true)
  }

  lemma {:induction false} AnsweredBatchesAreFetched(
    node: (Window, seq<string>) -> Option<seq<Log>>, w: Window, batches: seq<seq<string>>)
    requires forall addresses :: node(w, addresses).Some?
    ensures Fetched(node, w, batches).Some?
  {
    if batches != [] {
      AnsweredBatchesAreFetched(node, w, batches[1..]);
    }
  }

  /** A poll without a cursor looks 64 blocks back and accounts for nothing before that. */
  lemma ColdPollGetsThrough(a: Adapter, w: Watch, p: Poll, head: nat, b: nat)
    requires p == ThroughAt(a, p.watched, p.cursorRead, head) && CursorSeen(w, p) == ""
    requires p.watched != [] && COLD_LOOKBACK <= head < TWO_64 - 1
    ensures var u := PollNetwork(a, w, p);
      && u.origin == (if w.origin.None? then Some(head - COLD_LOOKBACK) else w.origin)
      && CursorOf(u) == Min(head, head - COLD_LOOKBACK + Span(a)) + 1
      && (!(head - COLD_LOOKBACK <= b < CursorOf(u)) && !Covered(w, b) ==> !Covered(u, b))
  {
    var plan := Planned(a, head, "");
    var addresses := ValidAddresses(p.watched);
    AnsweredBatchesAreFetched(p.node, Window(plan.from, plan.to), Batches(addresses, BatchSize(a)));
    hide ValidAddresses, Batches, Fetched, ParseBlockCursor, Numeral, Covered, AddsCover;
    assert Advances(a, w, p);
    PollOutcome(a, w, p);
    SavedCursorIsReadBack(NextCursor(a, w, p));
    AddedExactly(a, w, p, b);
    if !AddsCover(a, w, p, b) && !Covered(w, b) {
      NothingAdded(a, w, p, b);
    }
  }

  lemma NothingAdded(a: Adapter, w: Watch, p: Poll, b: nat)
    requires !AddsCover(a, w, p, b) && !Covered(w, b)
    ensures !Covered(PollNetwork(a, w, p), b)
  {
    PollOutcome(a, w, p);
    hide PollNetwork, Planned, Numeral, ValidAddresses, Advances;
  }

  /**
   * A block is lost when the cursor cannot be read far behind the head: whatever the settings and the addresses
   * watched, a cold start at block 100 and a failed read at block 1000 leave block 500 behind the cursor, unrecorded.
   */
  lemma FailedReadLosesBlocks(a: Adapter, watched: seq<string>)
    requires watched != []
    ensures var u := Polls(a, NEW_WATCH, [ThroughAt(a, watched, true, 100), ThroughAt(a, watched, false, 1000)]);
      && u.origin.Some? && u.origin.value < 500 < CursorOf(u) && !Covered(u, 500)
  {
    var p, q := ThroughAt(a, watched, true, 100), ThroughAt(a, watched, false, 1000);
    var v := PollNetwork(a, NEW_WATCH, p);
    TwoPolls(a, NEW_WATCH, p, q);
    ColdPollGetsThrough(a, NEW_WATCH, p, 100, 500);
    ColdPollGetsThrough(a, v, q, 1000, 500);
    hide PollNetwork, Polls, ParseBlockCursor;
  }

  lemma TwoPolls(a: Adapter, w: Watch, p: Poll, q: Poll)
    ensures Polls(a, w, [p, q]) == PollNetwork(a, PollNetwork(a, w, p), q)
  {
    hide PollNetwork;
    assert [p, q][..1] == [p] && [p][..0] == [];
    assert Polls(a, w, []) == w;
    assert Polls(a, w, [p]) == PollNetwork(a, w, p);
  }

  ghost predicate WellFormed(a: Adapter, w: Watch) {
    && (forall k :: 0 <= k < |w.gaps| ==> w.gaps[k].from <= w.gaps[k].to)
    && (forall k :: 0 <= k < |w.scans| ==>
          && w.scans[k].window.from <= w.scans[k].window.to && WithinSpan(a, w.scans[k].window)
          && w.scans[k].addresses != [])
  }

  lemma ObserveKeepsWellFormed(a: Adapter, w: Watch, p: Poll)
    requires WellFormed(a, w)
    ensures WellFormed(a, Observe(a, w, p).0)
  {
    if p.head.Some? {
      PlansAreBounded(a, p.head.value, CursorSeen(w, p));
    }
    hide Planned, ValidAddresses, Fetched, Batches;
  }

  /** Whatever the polls meet, windows never exceed the span, and every gap on record is a proper range. */
  lemma {:induction false} WindowsAndGapsAreWellFormed(a: Adapter, polls: seq<Poll>)
    ensures WellFormed(a, Polls(a, NEW_WATCH, polls))
  {
    hide WellFormed, Observe;
    if polls == [] {
      NewIsWellFormed(a);
    } else {
      var front, p := polls[..|polls| - 1], polls[|polls| - 1];
      WindowsAndGapsAreWellFormed(a, front);
      var w := Polls(a, NEW_WATCH, front);
      ObserveKeepsWellFormed(a, w, p);
      if p.watched != [] {
        SameWindows(a, Observe(a, w, p).0, PollNetwork(a, w, p));
      }
    }
  }

  lemma NewIsWellFormed(a: Adapter)
    ensures WellFormed(a, NEW_WATCH)
  {
  }

  lemma SameWindows(a: Adapter, w: Watch, u: Watch)
    requires WellFormed(a, w) && u.scans == w.scans && u.gaps == w.gaps
    ensures WellFormed(a, u)
  {
  }

  // ---------------------------------------------------------------------- fetching

  /** A node that, when it answers, returns exactly the chain's transfers of the window to the addresses asked for. */
  ghost predicate Honest(node: (Window, seq<string>) -> Option<seq<Log>>, chain: set<Log>) {
    forall w: Window, addresses: seq<string>, l: Log :: node(w, addresses).Some? ==>
      (l in node(w, addresses).value <==> l in chain && InWindow(w, l.block) && l.to in addresses)
  }

  /** Splitting the addresses into batches loses no transfer and invents none. */
  lemma {:induction false} BatchesFetchEverything(
    node: (Window, seq<string>) -> Option<seq<Log>>, chain: set<Log>, w: Window, addresses: seq<string>, size: nat,
    l: Log)
    requires size > 0 && Honest(node, chain) && Fetched(node, w, Batches(addresses, size)).Some?
    ensures l in Fetched(node, w, Batches(addresses, size)).value <==>
            l in chain && InWindow(w, l.block) && l.to in addresses
    decreases |addresses|
  {
    if addresses != [] {
      var n := Min(size, |addresses|);
      BatchStep(node, w, addresses, size);
      BatchesFetchEverything(node, chain, w, addresses[n..], size, l);
      assert addresses == addresses[..n] + addresses[n..];
    }
  }

  /** A completed scan returns exactly the transfers of its window to the valid watched addresses. */
  lemma ScansAreComplete(a: Adapter, w: Watch, p: Poll, chain: set<Log>, l: Log)
    requires Honest(p.node, chain) && Advances(a, w, p)
    requires p.head.Some?
    requires var plan := Planned(a, p.head.value, CursorSeen(w, p)); plan.from <= plan.to
    requires ValidAddresses(p.watched) != []
    ensures var plan := Planned(a, p.head.value, CursorSeen(w, p));
      l in Observe(a, w, p).1.logs <==>
        l in chain && plan.from <= l.block <= plan.to && l.to in ValidAddresses(p.watched)
  {
    var plan := Planned(a, p.head.value, CursorSeen(w, p));
    var addresses := ValidAddresses(p.watched);
    hide Planned, ValidAddresses, Batches, Fetched, Honest;
    BatchesFetchEverything(p.node, chain, Window(plan.from, plan.to), addresses, BatchSize(a), l);
  }

  /** The addresses asked for: those watched that are 0x and 40 hex digits in any case and spacing, lower-cased. */
  lemma ValidAddressesExactly(watched: seq<string>, n: string)
    ensures n in ValidAddresses(watched) <==>
            && |n| == 42 && n[0] == '0' && n[1] == 'x' && (forall k :: 2 <= k < 42 ==> DigitOf(n[k]) < 16)
            && exists k :: 0 <= k < |watched| && Lower(Trim(watched[k], GoSpace)) == n
  {
    hide Trim;
    KeepExactly(NormalAddresses(watched), m => IsEvmAddress(m), n);
    AddressShape(n);
    hide IsEvmAddress;
    if n in NormalAddresses(watched) {
      var k :| 0 <= k < |watched| && NormalAddresses(watched)[k] == n;
      assert Lower(Trim(watched[k], GoSpace)) == n;
    }
    if k :| 0 <= k < |watched| && Lower(Trim(watched[k], GoSpace)) == n {
      assert NormalAddresses(watched)[k] == n;
    }
  }

  lemma AddressShape(n: string)
    ensures IsEvmAddress(n) <==>
            |n| == 42 && n[0] == '0' && n[1] == 'x' && forall k :: 2 <= k < 42 ==> DigitOf(n[k]) < 16
  {
    hide DigitOf;
    if |n| == 42 {
      assert n[..2] == "0x" <==> n[0] == '0' && n[1] == 'x';
      assert forall k :: 0 <= k < 40 ==> n[2..][k] == n[k + 2];
      assert forall k :: 2 <= k < 42 ==> n[k] == n[2..][k - 2];
    }
  }

  /** The addresses in order, in consecutive batches that are not empty and no larger than the size. */
  lemma {:induction false} BatchesPartition(addresses: seq<string>, size: nat)
    requires size > 0
    ensures Flat(Batches(addresses, size)) == addresses
    ensures forall b :: b in Batches(addresses, size) ==> 0 < |b| <= size
    decreases |addresses|
  {
    if addresses != [] {
      var n := Min(size, |addresses|);
      var rest := Batches(addresses[n..], size);
      BatchesPartition(addresses[n..], size);
      assert Batches(addresses, size) == [addresses[..n]] + rest;
      hide Batches;
      assert ([addresses[..n]] + rest)[1..] == rest;
      assert addresses == addresses[..n] + addresses[n..];
    }
  }

  function Flat(batches: seq<seq<string>>): seq<string> {
    if batches == [] then [] else batches[0] + Flat(batches[1..])
  }

  /** Fetching fails if and only if the node fails some batch. */
  lemma {:induction false} FetchFailsExactly(
    node: (Window, seq<string>) -> Option<seq<Log>>, w: Window, batches: seq<seq<string>>)
    ensures Fetched(node, w, batches).None? <==> exists b :: b in batches && node(w, b).None?
  {
    if batches != [] {
      FetchFailsExactly(node, w, batches[1..]);
      assert batches == [batches[0]] + batches[1..];
    }
  }

  /** A skip that the adapter or the gate does not allow. */
  predicate SkipIsRefused(a: Adapter, w: Watch, p: Poll)
    requires p.head.Some?
  {
    Planned(a, p.head.value, CursorSeen(w, p)).snap.Some? && !(a.allowSnap && p.gateOpens)
  }

  predicate SomeBatchFails(a: Adapter, w: Watch, p: Poll)
    requires p.head.Some?
  {
    var plan := Planned(a, p.head.value, CursorSeen(w, p));
    && plan.from <= plan.to
    && exists b :: b in Batches(ValidAddresses(p.watched), if a.batch > 0 then a.batch else 40)
         && p.node(Window(plan.from, plan.to), b).None?
  }

  /**
   * A poll fails if and only if the token is not the allowed one, the chain is another than configured and was not
   * checked before, the node does not tell its head, a skip is refused, or the node fails a batch of the window.
   */
  lemma PollFailsExactly(a: Adapter, w: Watch, p: Poll)
    ensures Observe(a, w, p).1.Failed? <==>
            || !p.tokenAllowed
            || (!w.chainChecked && a.chainId != 0 && p.chainId != Some(a.chainId))
            || p.head.None? || SkipIsRefused(a, w, p) || SomeBatchFails(a, w, p)
  {
    if p.head.Some? {
      var plan := Planned(a, p.head.value, CursorSeen(w, p));
      FetchFailsExactly(p.node, Window(plan.from, plan.to), Batches(ValidAddresses(p.watched), BatchSize(a)));
    }
    hide Planned, ValidAddresses, Fetched;
  }

  /** The chain counts as checked once a poll with the allowed token met the configured chain, and ever after. */
  lemma ChainIsCheckedExactly(a: Adapter, w: Watch, p: Poll)
    ensures Observe(a, w, p).0.chainChecked <==>
            w.chainChecked || (p.tokenAllowed && a.chainId != 0 && p.chainId == Some(a.chainId))
  {
    hide Planned, ValidAddresses, Fetched;
  }

  // ---------------------------------------------------------------------- catch-up

  /** A poll at a fixed head that reads the cursor and gets through. */
  predicate Succeeds(a: Adapter, w: Watch, p: Poll, head: nat) {
    p.cursorRead && p.head == Some(head) && Advances(a, w, p)
  }

  /** The lag behind the head that polls walk without a skip. */
  predicate WithinCatchup(a: Adapter, head: nat, c: nat) {
    head <= Below(c, a.overlap) + CatchupLimit(a)
  }

  function Stride(a: Adapter): int {
    Span(a) + 1 - a.overlap
  }

  /** One successful poll reaches the head or gains a stride; with an overlap beyond the span it gains nothing. */
  lemma PollGains(a: Adapter, w: Watch, p: Poll, head: nat)
    requires Succeeds(a, w, p, head) && w.cursor != "" && CursorOf(w) <= head + 1 && head < TWO_64 - 1
    requires WithinCatchup(a, head, CursorOf(w)) && a.overlap <= Span(a)
    ensures var (c, d) := (CursorOf(w), CursorOf(PollNetwork(a, w, p)));
      && PollNetwork(a, w, p).cursor != ""
      && (d == head + 1 || d >= c + Stride(a)) && c <= d <= head + 1 && WithinCatchup(a, head, d)
  {
    PollOutcome(a, w, p);
    SavedCursorIsReadBack(NextCursor(a, w, p));
    NumeralIsNotEmpty(NextCursor(a, w, p));
    hide ParseBlockCursor, PollNetwork, Advances, Numeral;
  }

  /** Every poll of the list succeeds, where it happens. */
  ghost predicate AllSucceed(a: Adapter, w: Watch, polls: seq<Poll>, head: nat) {
    polls == [] ||
    var front := polls[..|polls| - 1];
    AllSucceed(a, w, front, head) && Succeeds(a, Polls(a, w, front), polls[|polls| - 1], head)
  }

  lemma OneMore(n: int, stride: int)
    ensures n * stride == (n - 1) * stride + stride
  {
  }

  /**
   * Catch-up. With the head fixed, the lag within the limit and the overlap within the span, n successful polls leave
   * the cursor at head + 1 or at least n strides on; so it is at head + 1 after ceil(lag / stride) polls, and stays.
   */
  lemma {:induction false} CursorCatchesUp(a: Adapter, w: Watch, polls: seq<Poll>, head: nat)
    requires AllSucceed(a, w, polls, head) && w.cursor != "" && CursorOf(w) <= head + 1 && head < TWO_64 - 1
    requires WithinCatchup(a, head, CursorOf(w)) && a.overlap <= Span(a)
    ensures var u := Polls(a, w, polls);
      && u.cursor != "" && WithinCatchup(a, head, CursorOf(u))
      && Min(head + 1, CursorOf(w) + |polls| * Stride(a)) <= CursorOf(u) <= head + 1
      && (head + 1 - CursorOf(w) <= |polls| * Stride(a) ==> CursorOf(u) == head + 1)
  {
    hide ParseBlockCursor, Succeeds, PollNetwork, Stride, WithinCatchup, Span;
    if polls != [] {
      var n := |polls|;
      var front, p := polls[..n - 1], polls[n - 1];
      CursorCatchesUp(a, w, front, head);
      PollGains(a, Polls(a, w, front), p, head);
      OneMore(n, Stride(a));
    }
  }

  /** Away from the head a successful poll moves the cursor forward if and only if the span is at least the overlap. */
  lemma ProgressExactly(a: Adapter, w: Watch, p: Poll, head: nat)
    requires Succeeds(a, w, p, head) && w.cursor != "" && head < TWO_64 - 1
    requires WithinCatchup(a, head, CursorOf(w)) && a.overlap < CursorOf(w) && CursorOf(w) + Span(a) <= head
    ensures CursorOf(PollNetwork(a, w, p)) > CursorOf(w) <==> a.overlap <= Span(a)
  {
    PollOutcome(a, w, p);
    SavedCursorIsReadBack(NextCursor(a, w, p));
    PlansAreBounded(a, head, w.cursor);
    hide ParseBlockCursor, PollNetwork, Advances, Numeral, Planned;
  }
}
