/** What whole schedules of payment transactions leave behind. */
module History {
  import opened Basics
  import opened Text
  import opened Ledger
  import opened Offers
  import opened Machine
  import opened Invariant
  import opened Preservation
  import opened Payments
  import opened Settlement

  // ------------------------------------------------------------ nothing is undone

  lemma SettlingKeepsOptions(t: Tables, o: OptionId, period: string)
    requires Joined(t, o) && t.options[o].status != Superseded && t.reservations[o].status != Released
    ensures var u := SettlePaid(t, t.options[o].intent, o, period);
      forall p :: p in t.options && p in t.reservations ==> OptionKept(t, u, p)
  {
  }

  lemma LockingKeepsOptions(t: Tables, o: OptionId)
    requires o in t.reservations && t.reservations[o].status == Active
    ensures forall p :: p in t.options && p in t.reservations ==> OptionKept(t, Lock(t, o), p)
  {
  }

  lemma TransitionGoesForward(t: Tables, e: string, o: OptionId, to: Status, kind: MatchKind)
    requires Joined(t, o)
    ensures Forward(t, Transition(t, e, o, to, kind))
  {
    hide OptionKept, Transition;
    TransitionRows(t, e, o, to, kind);
    SameOptionsAreKept(t, Transition(t, e, o, to, kind));
  }

  lemma ProcessedGoesForward(t: Tables, e: string)
    requires e in t.events
    ensures Forward(t, MarkProcessed(t, e))
  {
  }

  lemma LockGoesForward(t: Tables, o: OptionId)
    requires o in t.reservations && t.reservations[o].status == Active
    ensures Forward(t, Lock(t, o))
  {
    LockingKeepsOptions(t, o);
    hide OptionKept;
  }

  lemma SettleGoesForward(t: Tables, o: OptionId, period: string)
    requires Joined(t, o) && t.options[o].status != Superseded && t.reservations[o].status != Released
    ensures Forward(t, SettlePaid(t, t.options[o].intent, o, period))
  {
    SettlingKeepsOptions(t, o, period);
    hide OptionKept;
  }

  lemma EffectGoesForward(t: Tables, e: string, v: Verdict, period: string)
    requires e in t.events && (!v.Unknown? ==> Joined(t, v.option))
    requires v.Exact? ==> t.reservations[v.option].status == Active && t.options[v.option].status == Offered
    requires e !in t.matches
    ensures Forward(t, Effect(t, e, v, period))
    ensures forall f :: f in Effect(t, e, v, period).matches && f != e ==> f in t.matches
  {
    hide Forward;
    var u := Effect(t, e, v, period);
    match v
    case SecondTransfer(o) => TransitionGoesForward(t, e, o, SecondStatus(IntentOf(t, o).status), DuplicateMatch);
    case PastExpiry(o) =>
      TransitionGoesForward(t, e, o, LatePayment, LateMatch);
      ProcessedGoesForward(Transition(t, e, o, LatePayment, LateMatch), e);
      ForwardTwice(t, Transition(t, e, o, LatePayment, LateMatch), u);
    case ReleasedLate(o) =>
      TransitionGoesForward(t, e, o, LatePayment, LateMatch);
      ProcessedGoesForward(Transition(t, e, o, LatePayment, LateMatch), e);
      ForwardTwice(t, Transition(t, e, o, LatePayment, LateMatch), u);
    case ReleasedAmbiguous(_) => ProcessedGoesForward(t, e);
    case Unknown => ProcessedGoesForward(t, e);
    case NearAmbiguous(o) => TransitionGoesForward(t, e, o, NeedsReview, AmbiguousMatch);
    case NearMiss(o, kind, next) => TransitionGoesForward(t, e, o, next, kind);
    case Exact(o, next) =>
      var moved := Transition(t, e, o, next, ExactMatch);
      var locked := Lock(moved, o);
      TransitionGoesForward(t, e, o, next, ExactMatch);
      LockGoesForward(moved, o);
      ForwardTwice(t, moved, locked);
      if next == Paid {
        SettleGoesForward(locked, o, period);
        ForwardTwice(t, locked, SettlePaid(locked, t.options[o].intent, o, period));
        ProcessedGoesForward(SettlePaid(locked, t.options[o].intent, o, period), e);
        ForwardTwice(t, SettlePaid(locked, t.options[o].intent, o, period), u);
      } else {
        ProcessedGoesForward(locked, e);
        ForwardTwice(t, locked, u);
      }
  }

  lemma ObserveGoesForward(cfg: Config, t: Tables, s: Step)
    requires Inv(t) && Possible(cfg, t, s) && s.Observe?
    ensures Forward(t, Do(cfg, t, s).0) && MatchedAtOnce(t, Do(cfg, t, s).0)
  {
    if Commits(s) && s.ev.id !in t.events {
      hide Inv, Classify, EventTime, IsFirstRow, Effect;
      var v := Classify(cfg, t, s.ev, EventTime(s.ev, s.now), s.first);
      VerdictFits(cfg, t, s.ev, EventTime(s.ev, s.now), s.first);
      AddEventKeepsInv(t, s.ev);
      if v.Exact? {
        ActiveIsOffered(t, v.option);
      }
      hide Inv;
      EffectGoesForward(AddEvent(t, s.ev), s.ev.id, v, s.period);
      AddEventGoesForward(t, s.ev);
      ForwardTwice(t, AddEvent(t, s.ev), Do(cfg, t, s).0);
    }
  }

  lemma ActiveIsOffered(t: Tables, o: OptionId)
    requires Inv(t) && Joined(t, o) && t.reservations[o].status == Active
    ensures t.options[o].status == Offered
  {
    hide Backed, Gated, Unique;
    assert OptionOk(t, o);
  }

  lemma AddEventGoesForward(t: Tables, ev: ChainEvent)
    requires ev.id !in t.events
    ensures Forward(t, AddEvent(t, ev))
  {
  }

  lemma CountingGoesForward(t: Tables, e: string, confirmations: int)
    requires e in t.events
    ensures Forward(t, SetConfirmations(t, e, confirmations))
  {
  }

  lemma SameRowsGoForward(t: Tables, u: Tables)
    requires u.options == t.options && u.reservations == t.reservations
    requires u.events == t.events && u.matches == t.matches
    ensures Forward(t, u) && MatchedAtOnce(t, u)
  {
  }

  lemma ConfirmGoesForward(cfg: Config, t: Tables, s: Step)
    requires Inv(t) && Possible(cfg, t, s) && s.Confirm?
    ensures Forward(t, Do(cfg, t, s).0) && MatchedAtOnce(t, Do(cfg, t, s).0)
  {
    SameGoesForward(t);
    if Commits(s) && HasExactMatch(t, s.event) {
      var o := t.matches[s.event].option;
      ExactIsJoined(t, s.event);
      LockedIsNotSuperseded(t, o);
      ConfirmOutcome(cfg, t, s);
      hide Inv, Forward, Do, Payment, SettlePaid, OptionKept;
      var counted := SetConfirmations(t, s.event, s.confirmations);
      CountingGoesForward(t, s.event, s.confirmations);
      var u := Do(cfg, t, s).0;
      var settled := SettlePaid(counted, t.options[o].intent, o, s.period);
      var base := if Payment(cfg, t, s).Some? then settled else counted;
      SettleGoesForward(counted, o, s.period);
      ForwardTwice(t, counted, settled);
      SettlingKeepsMatches(counted, o, s.period);
      SameRowsGoForward(base, u);
      ForwardTwice(t, base, u);
    }
  }

  lemma SettlingKeepsMatches(t: Tables, o: OptionId, period: string)
    requires Joined(t, o)
    ensures SettlePaid(t, t.options[o].intent, o, period).matches == t.matches
  {
  }

  lemma LockedIsNotSuperseded(t: Tables, o: OptionId)
    requires Inv(t) && Joined(t, o) && IsLocked(t.reservations[o].status)
    ensures t.options[o].status != Superseded
  {
    hide Backed, Gated, Unique;
    assert OptionOk(t, o);
  }

  lemma SweepGoesForward(cfg: Config, t: Tables, s: Step)
    requires Possible(cfg, t, s) && !s.Observe? && !s.Confirm? && !s.Create? && !s.Refresh?
    ensures Forward(t, Do(cfg, t, s).0) && MatchedAtOnce(t, Do(cfg, t, s).0)
  {
    hide Forward, MatchedAtOnce, ReleaseExpired, Trim;
    if s.SweepReservations? {
      ReleaseGoesForward(t, s.now);
    } else {
      SameRowsGoForward(t, Do(cfg, t, s).0);
    }
  }

  lemma ReleaseGoesForward(t: Tables, now: Time)
    ensures Forward(t, ReleaseExpired(t, now)) && MatchedAtOnce(t, ReleaseExpired(t, now))
  {
  }

  lemma OnlyOffersGoesForward(t: Tables, u: Tables)
    requires OnlyOffers(t, u)
    ensures Forward(t, u) && MatchedAtOnce(t, u)
  {
  }

  /** No step takes back a key, an option's progress, an event or a match. */
  lemma StepGoesForward(cfg: Config, t: Tables, s: Step)
    requires Inv(t) && Possible(cfg, t, s)
    ensures Forward(t, Do(cfg, t, s).0) && MatchedAtOnce(t, Do(cfg, t, s).0)
  {
    OnlyOffersGoesForward(t, t) by {
      NothingOnlyOffers(t);
    }
    hide Inv, OnlyOffers, CreateIntent, RefreshQuote, IsFirstRow, Forward, MatchedAtOnce;
    if s.Observe? {
      ObserveGoesForward(cfg, t, s);
    } else if s.Confirm? {
      ConfirmGoesForward(cfg, t, s);
    } else if s.Create? {
      if Commits(s) && CreateIntent(t, s.merchant, s.order, s.requested, s.terms).Some? {
        CreateOnlyOffers(t, s.merchant, s.order, s.requested, s.terms);
        OnlyOffersGoesForward(t, Do(cfg, t, s).0);
      }
    } else if s.Refresh? {
      if Commits(s) {
        RefreshOnlyOffers(t, s.order, s.now, s.terms);
        OnlyOffersGoesForward(t, Do(cfg, t, s).0);
      }
    } else {
      SweepGoesForward(cfg, t, s);
    }
  }

  /**
   * Over any schedule: a reservation only goes from active to matched, consumed or released and from matched to
   * consumed; an option only from offered to settled or superseded, never further; keys, events and matches stay;
   * and an event that was left without a match stays without.
   */
  lemma {:induction false} NothingIsUndone(cfg: Config, steps: seq<Step>, j: nat)
    requires j <= |steps|
    ensures Forward(After(cfg, steps[..j]).tables, After(cfg, steps).tables)
    ensures MatchedAtOnce(After(cfg, steps[..j]).tables, After(cfg, steps).tables)
    decreases |steps| - j
  {
    hide Inv, Do, OptionKept, Possible;
    assert steps[..|steps|] == steps;
    if j < |steps| {
      NothingIsUndone(cfg, steps, j + 1);
      var t, s := After(cfg, steps[..j]).tables, steps[j];
      assert steps[..j + 1][..j] == steps[..j];
      AfterKeepsInv(cfg, steps[..j]);
      var u := After(cfg, steps[..j + 1]).tables;
      hide After;
      if Possible(cfg, t, s) {
        StepGoesForward(cfg, t, s);
      } else {
        SameGoesForward(t);
      }
      ForwardTwice(t, u, After(cfg, steps).tables);
    } else {
      SameGoesForward(After(cfg, steps).tables);
    }
  }

  lemma SameGoesForward(t: Tables)
    ensures Forward(t, t) && MatchedAtOnce(t, t)
  {
  }

  // ---------------------------------------------------------------- paid is sound

  /** The k-th step of the schedule paid intent i. */
  ghost predicate PaidAt(cfg: Config, steps: seq<Step>, k: nat, i: string) {
    && k < |steps|
    && var (t, s) := (After(cfg, steps[..k]).tables, steps[k]);
    && Possible(cfg, t, s) && (s.Observe? || s.Confirm?)
    && Payment(cfg, t, s).Some?
    && var (u, e) := (Do(cfg, t, s).0, Payment(cfg, t, s).value);
    && PaidBy(cfg, t, u, e, s.period) && u.matches[e].intent == i
  }

  ghost predicate SettledFor(t: Tables, e: string, i: string) {
    && e in t.matches && t.matches[e].kind == ExactMatch && t.matches[e].intent == i && e in t.events
    && IsSettled(t, t.matches[e].option) && t.options[t.matches[e].option].intent == i
    && t.events[e].key == t.options[t.matches[e].option].key
  }

  lemma SettledForGoesForward(t: Tables, u: Tables, e: string, i: string)
    requires Forward(t, u) && SettledFor(t, e, i) && t.reservations.Keys == t.options.Keys
    ensures SettledFor(u, e, i)
  {
    assert OptionKept(t, u, t.matches[e].option);
  }

  lemma PaidBySettles(cfg: Config, t: Tables, u: Tables, e: string, period: string)
    requires PaidBy(cfg, t, u, e, period)
    ensures SettledFor(u, e, u.matches[e].intent)
  {
  }

  lemma QuietPaysNothing(t: Tables, u: Tables, i: string)
    requires Quiet(t, u) && IsPaid(u, i)
    ensures IsPaid(t, i)
  {
  }

  /**
   * Paid is sound. If an intent is paid after a schedule, then one of its steps paid it: an ingest or a confirmation
   * update of an exact match whose event had the key of the option it settled and the confirmations its network
   * needs. Creation, refresh, expiry, review and gap steps never pay.
   */
  lemma {:induction false} PaidIsSound(cfg: Config, steps: seq<Step>, i: string)
    requires IsPaid(After(cfg, steps).tables, i)
    ensures exists k: nat :: PaidAt(cfg, steps, k, i)
  {
    hide PaidBy, Quiet, Do, Payment, IsPaid, Inv, Possible;
    var n := |steps| - 1;
    if n < 0 {
      assert IsPaid(EMPTY_TABLES, i);
      NothingPaidAtFirst(i);
    } else {
      var front, s := steps[..n], steps[n];
      var t := After(cfg, front).tables;
      AfterKeepsInv(cfg, front);
      if IsPaid(t, i) {
        PaidIsSound(cfg, front, i);
        var k: nat :| PaidAt(cfg, front, k, i);
        assert front[..k] == steps[..k];
        assert PaidAt(cfg, steps, k, i);
      } else {
        StepPays(cfg, t, s);
        if Payment(cfg, t, s).None? {
          QuietPaysNothing(t, Do(cfg, t, s).0, i);
        } else {
          PaidByPaysOne(cfg, t, Do(cfg, t, s).0, Payment(cfg, t, s).value, s.period, i);
        }
        assert PaidAt(cfg, steps, n, i);
      }
    }
  }

  lemma NothingPaidAtFirst(i: string)
    ensures !IsPaid(EMPTY_TABLES, i)
  {
  }

  lemma PaidByPaysOne(cfg: Config, t: Tables, u: Tables, e: string, period: string, i: string)
    requires PaidBy(cfg, t, u, e, period) && IsPaid(u, i) && !IsPaid(t, i)
    ensures e in u.matches && u.matches[e].intent == i
  {
  }

  /** What a paying step settled stays settled, whatever happens to the intent's status afterwards. */
  lemma SettlementIsFinal(cfg: Config, steps: seq<Step>, k: nat, i: string)
    requires PaidAt(cfg, steps, k, i)
    ensures SettledFor(After(cfg, steps).tables, Payment(cfg, After(cfg, steps[..k]).tables, steps[k]).value, i)
  {
    hide PaidBy, Do, Payment, Inv, Possible, Forward, SettledFor, MatchedAtOnce;
    var t := After(cfg, steps[..k]).tables;
    assert steps[..k + 1][..k] == steps[..k];
    var u := After(cfg, steps[..k + 1]).tables;
    var e := Payment(cfg, t, steps[k]).value;
    PaidBySettles(cfg, t, u, e, steps[k].period);
    NothingIsUndone(cfg, steps, k + 1);
    AfterKeepsInv(cfg, steps[..k + 1]);
    KeysAgree(u);
    SettledForGoesForward(u, After(cfg, steps).tables, e, i);
  }

  lemma KeysAgree(t: Tables)
    requires Inv(t)
    ensures t.reservations.Keys == t.options.Keys
  {
  }
}
