/** Which networks a buyer may pay on: the configured ones, less what watchers and gaps withhold. */
module Checkout {
  const TRON := "tron"
  const BSC := "bsc"

  datatype Gap = Gap(network: string, from: int, to: int, acked: bool)

  datatype CursorStatus = CursorStatus(network: string, hasCursor: bool, ok: bool)

  /** Either health query may fail. */
  datatype Health = Unreadable | Readable(cursors: seq<CursorStatus>)

  predicate HasOpenGap(gaps: seq<Gap>, n: string) {
    exists k :: 0 <= k < |gaps| && gaps[k].network == n && !gaps[k].acked
  }

  function OpenGaps(gaps: seq<Gap>, n: string): (count: nat)
    ensures count > 0 <==> HasOpenGap(gaps, n)
  {
    if gaps == [] then 0
    else
      var front, last := gaps[..|gaps| - 1], gaps[|gaps| - 1];
      assert HasOpenGap(gaps, n) <==> HasOpenGap(front, n) || (last.network == n && !last.acked) by {
        assert forall k :: 0 <= k < |front| ==> front[k] == gaps[k];
      }
      OpenGaps(front, n) + if last.network == n && !last.acked then 1 else 0
  }

  /** The counts the query returns: a row for every network with an open gap, and only for those. */
  function UnackedGapCounts(gaps: seq<Gap>): map<string, nat> {
    map n | n in (set g | g in gaps && !g.acked :: g.network) :: OpenGaps(gaps, n)
  }

  function Count(unacked: map<string, nat>, n: string): nat {
    if n in unacked then unacked[n] else 0
  }

  /** A map filled in list order keeps the last entry of each network. */
  function ByNetwork(cursors: seq<CursorStatus>): map<string, CursorStatus> {
    if cursors == [] then map[]
    else
      var last := cursors[|cursors| - 1];
      ByNetwork(cursors[..|cursors| - 1])[last.network := last]
  }

  predicate Withheld(cursors: seq<CursorStatus>, unacked: map<string, nat>, n: string) {
    || Count(unacked, n) > 0
    || (n in ByNetwork(cursors) && ByNetwork(cursors)[n].hasCursor && !ByNetwork(cursors)[n].ok)
  }

  /** The networks that pass a test, in their order and with their repetitions. */
  function Keep(networks: seq<string>, pass: string -> bool): seq<string> {
    if networks == [] then []
    else
      var last := networks[|networks| - 1];
      Keep(networks[..|networks| - 1], pass) + if pass(last) then [last] else []
  }

  lemma {:induction false} KeepExactly(networks: seq<string>, pass: string -> bool, n: string)
    ensures n in Keep(networks, pass) <==> n in networks && pass(n)
  {
    if networks != [] {
      KeepExactly(networks[..|networks| - 1], pass, n);
      assert networks == networks[..|networks| - 1] + [networks[|networks| - 1]];
    }
  }

  /** What is kept is kept in order, each as often as it occurs. */
  lemma {:induction false} KeepSplits(a: seq<string>, b: seq<string>, pass: string -> bool, n: string)
    ensures Keep(a + b, pass) == Keep(a, pass) + Keep(b, pass)
    ensures Keep([n], pass) == if pass(n) then [n] else []
  {
    assert [n][..0] == [];
    if b == [] {
      assert a + b == a;
    } else {
      var front, last := b[..|b| - 1], b[|b| - 1];
      KeepSplits(a, front, pass, n);
      assert (a + b)[..|a + b| - 1] == a + front;
    }
  }

  method EffectiveCheckoutNetworks(configured: seq<string>, cursors: seq<CursorStatus>, unacked: map<string, nat>)
    returns (out: seq<string>)
    ensures out == Keep(configured, n => !Withheld(cursors, unacked, n))
  {
    var byNet: map<string, CursorStatus> := map[];
    for i := 0 to |cursors|
      invariant byNet == ByNetwork(cursors[..i])
    {
      assert cursors[..i + 1][..i] == cursors[..i];
      byNet := byNet[cursors[i].network := cursors[i]];
    }
    assert cursors[..|cursors|] == cursors;
    ghost var pass := n => !Withheld(cursors, unacked, n);
    out := [];
    for i := 0 to |configured|
      invariant out == Keep(configured[..i], pass)
    {
      assert configured[..i + 1][..i] == configured[..i];
      var n := configured[i];
      if Count(unacked, n) > 0 {
        continue;
      }
      if n in byNet && byNet[n].hasCursor && !byNet[n].ok {
        continue;
      }
      out := out + [n];
    }
    assert configured[..|configured|] == configured;
  }

  function Marked(c: CursorStatus, unacked: map<string, nat>): CursorStatus {
    if Count(unacked, c.network) > 0 then c.(ok := false) else c
  }

  function MarkedAll(cursors: seq<CursorStatus>, unacked: map<string, nat>): seq<CursorStatus> {
    seq(|cursors|, i requires 0 <= i < |cursors| => Marked(cursors[i], unacked))
  }

  method MarkCursorsUnhealthyForGaps(cursors: seq<CursorStatus>, unacked: map<string, nat>)
    returns (out: seq<CursorStatus>)
    ensures out == MarkedAll(cursors, unacked)
  {
    if |unacked| == 0 {
      return cursors;
    }
    out := cursors;
    for i := 0 to |out|
      invariant |out| == |cursors|
      invariant forall k :: 0 <= k < i ==> out[k] == Marked(cursors[k], unacked)
      invariant forall k :: i <= k < |out| ==> out[k] == cursors[k]
    {
      if Count(unacked, out[i].network) > 0 {
        out := out[i := out[i].(ok := false)];
      }
    }
  }

  method TronOnly(configured: seq<string>) returns (out: seq<string>)
    ensures out == Keep(configured, n => n == TRON)
  {
    ghost var pass := n => n == TRON;
    out := [];
    for i := 0 to |configured|
      invariant out == Keep(configured[..i], pass)
    {
      assert configured[..i + 1][..i] == configured[..i];
      if configured[i] == TRON {
        out := out + [configured[i]];
      }
    }
    assert configured[..|configured|] == configured;
  }

  /** The buyer-facing list. */
  function Effective(configured: seq<string>, health: Health, gaps: seq<Gap>): seq<string> {
    match health
    case Unreadable => Keep(configured, n => n == TRON)
    case Readable(cursors) =>
      var unacked := UnackedGapCounts(gaps);
      var marked := MarkedAll(cursors, unacked);
      Keep(configured, n => !Withheld(marked, unacked, n))
  }

  method EffectiveNetworks(configured: seq<string>, health: Health, gaps: seq<Gap>) returns (out: seq<string>)
    ensures out == Effective(configured, health, gaps)
  {
    if health.Unreadable? {
      out := TronOnly(configured);
      return;
    }
    var unacked := UnackedGapCounts(gaps);
    var cursors := MarkCursorsUnhealthyForGaps(health.cursors, unacked);
    out := EffectiveCheckoutNetworks(configured, cursors, unacked);
  }

  lemma {:induction false} MarkingKeepsUngapped(cursors: seq<CursorStatus>, unacked: map<string, nat>, n: string)
    requires Count(unacked, n) == 0
    ensures n in ByNetwork(MarkedAll(cursors, unacked)) <==> n in ByNetwork(cursors)
    ensures n in ByNetwork(cursors) ==> ByNetwork(MarkedAll(cursors, unacked))[n] == ByNetwork(cursors)[n]
  {
    if cursors != [] {
      var front := cursors[..|cursors| - 1];
      MarkingKeepsUngapped(front, unacked, n);
      assert MarkedAll(cursors, unacked)[..|cursors| - 1] == MarkedAll(front, unacked);
    }
  }

  lemma CountIsOpen(gaps: seq<Gap>, n: string)
    ensures Count(UnackedGapCounts(gaps), n) > 0 <==> HasOpenGap(gaps, n)
  {
    if HasOpenGap(gaps, n) {
      var k :| 0 <= k < |gaps| && gaps[k].network == n && !gaps[k].acked;
      assert gaps[k] in gaps;
    }
  }

  /** The last entry of the network names a cursor that is not well. */
  predicate IsStale(cursors: seq<CursorStatus>, n: string) {
    exists k :: 0 <= k < |cursors| && IsLastOf(cursors, k, n) && cursors[k].hasCursor && !cursors[k].ok
  }

  predicate IsLastOf(cursors: seq<CursorStatus>, k: nat, n: string)
    requires k < |cursors|
  {
    cursors[k].network == n && forall j :: k < j < |cursors| ==> cursors[j].network != n
  }

  lemma {:induction false} LastEntryCounts(cursors: seq<CursorStatus>, n: string)
    ensures n in ByNetwork(cursors) && ByNetwork(cursors)[n].hasCursor && !ByNetwork(cursors)[n].ok
        <==> IsStale(cursors, n)
  {
    if cursors != [] {
      var m := |cursors| - 1;
      var front, last := cursors[..m], cursors[m];
      LastEntryCounts(front, n);
      assert forall k :: 0 <= k < m ==> front[k] == cursors[k];
      assert last.network == n ==> IsLastOf(cursors, m, n);
      assert last.network != n ==> forall k :: 0 <= k < m ==> IsLastOf(front, k, n) == IsLastOf(cursors, k, n);
    }
  }

  /** Marking changes nothing for the result: a network is offered exactly when nothing withholds it. */
  lemma EffectiveExactly(configured: seq<string>, health: Health, gaps: seq<Gap>, n: string)
    ensures n in Effective(configured, health, gaps) <==>
            && n in configured
            && (match health
                case Unreadable => n == "tron"
                case Readable(cursors) => !HasOpenGap(gaps, n) && !IsStale(cursors, n))
  {
    match health
    case Unreadable => KeepExactly(configured, m => m == TRON, n);
    case Readable(cursors) =>
      var unacked := UnackedGapCounts(gaps);
      KeepExactly(configured, m => !Withheld(MarkedAll(cursors, unacked), unacked, m), n);
      CountIsOpen(gaps, n);
      LastEntryCounts(cursors, n);
      if Count(unacked, n) == 0 {
        MarkingKeepsUngapped(cursors, unacked, n);
      }
  }

  /** An open gap withholds its network, except that tron is still offered while the health queries fail. */
  lemma GapWithholdsExactly(configured: seq<string>, health: Health, gaps: seq<Gap>, n: string)
    requires HasOpenGap(gaps, n)
    ensures n in Effective(configured, health, gaps) <==> n in configured && health.Unreadable? && n == TRON
  {
    EffectiveExactly(configured, health, gaps, n);
  }
}
