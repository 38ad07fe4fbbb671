/** At-least-once delivery of chain events has an exactly-once effect. */
module Delivery {
  import opened Ledger
  import opened Offers
  import opened Machine
  import opened Invariant
  import opened Preservation
  import opened Payments
  import opened Settlement

  /** An ingest of the event that commits. */
  predicate Ingests(s: Step, id: string) {
    s.Observe? && s.ev.id == id && Commits(s)
  }

  predicate AlreadyIngested(front: seq<Step>, id: string) {
    exists k :: 0 <= k < |front| && Ingests(front[k], id)
  }

  /** The schedule without the ingests of events that an earlier entry already ingested. */
  function WithoutRepeats(steps: seq<Step>): seq<Step> {
    if steps == [] then []
    else
      var front, s := steps[..|steps| - 1], steps[|steps| - 1];
      if s.Observe? && AlreadyIngested(front, s.ev.id) then WithoutRepeats(front) else WithoutRepeats(front) + [s]
  }

  /** Every entry of the schedule is possible where it stands. */
  ghost predicate AllPossible(cfg: Config, steps: seq<Step>) {
    forall k :: 0 <= k < |steps| ==> PossibleAt(cfg, steps, k)
  }

  ghost predicate PossibleAt(cfg: Config, steps: seq<Step>, k: nat)
    requires k < |steps|
  {
    Possible(cfg, After(cfg, steps[..k]).tables, steps[k])
  }

  lemma FrontIsPossible(cfg: Config, steps: seq<Step>)
    requires steps != [] && AllPossible(cfg, steps)
    ensures AllPossible(cfg, steps[..|steps| - 1])
    ensures Possible(cfg, After(cfg, steps[..|steps| - 1]).tables, steps[|steps| - 1])
  {
    var front := steps[..|steps| - 1];
    hide Possible, After;
    forall k | 0 <= k < |front|
      ensures PossibleAt(cfg, front, k)
    {
      assert PossibleAt(cfg, steps, k) && front[..k] == steps[..k];
    }
    assert PossibleAt(cfg, steps, |front|);
  }

  lemma EffectKeepsEventIds(t: Tables, e: string, v: Verdict, period: string)
    requires e in t.events && (!v.Unknown? ==> Joined(t, v.option))
    ensures Effect(t, e, v, period).events.Keys == t.events.Keys
  {
    var r := ResultOf(t, v);
    if !r.ignored {
      TransitionRows(t, e, v.option, r.newStatus.value, r.kind.value);
      SettlingLeaves(Lock(Transition(t, e, v.option, r.newStatus.value, r.kind.value), v.option), v.option, period);
    }
    hide Transition, SettlePaid;
  }

  lemma ObserveIngests(cfg: Config, t: Tables, s: Step)
    requires Possible(cfg, t, s) && s.Observe? && Commits(s)
    ensures Do(cfg, t, s).0.events.Keys == t.events.Keys + {s.ev.id}
  {
    hide IsFirstRow, EventTime, Classify, Effect;
    if s.ev.id !in t.events {
      VerdictFits(cfg, t, s.ev, EventTime(s.ev, s.now), s.first);
      var verdict := Classify(cfg, t, s.ev, EventTime(s.ev, s.now), s.first);
      EffectKeepsEventIds(AddEvent(t, s.ev), s.ev.id, verdict, s.period);
    }
  }

  lemma ConfirmKeepsEventIds(cfg: Config, t: Tables, s: Step)
    requires Possible(cfg, t, s) && s.Confirm?
    requires HasExactMatch(t, s.event) && Joined(t, t.matches[s.event].option)
    ensures Do(cfg, t, s).0.events.Keys == t.events.Keys
  {
    hide RequiredConfirmations;
  }

  lemma OthersIngestNothing(cfg: Config, t: Tables, s: Step)
    requires Possible(cfg, t, s) && !s.Observe? && !s.Create? && !s.Refresh?
    ensures Do(cfg, t, s).0.events.Keys == t.events.Keys
  {
    hide RequiredConfirmations, SettlePaid;
    if s.Confirm? && HasExactMatch(t, s.event) && Joined(t, t.matches[s.event].option) {
      ConfirmKeepsEventIds(cfg, t, s);
    }
  }

  /** The event table grows by what an observing step ingests, and by nothing else. */
  lemma StepIngests(cfg: Config, t: Tables, s: Step)
    requires Inv(t) && Possible(cfg, t, s)
    ensures Do(cfg, t, s).0.events.Keys == if s.Observe? && Commits(s) then t.events.Keys + {s.ev.id} else t.events.Keys
  {
    hide Inv, IsFirstRow, CreateIntent, RefreshQuote, OnlyOffers, Ingest, Confirmed;
    if Commits(s) {
      if s.Observe? {
        ObserveIngests(cfg, t, s);
      } else if s.Create? {
        if CreateIntent(t, s.merchant, s.order, s.requested, s.terms).Some? {
          CreateOnlyOffers(t, s.merchant, s.order, s.requested, s.terms);
          OnlyOffersKeepsEvents(t, Do(cfg, t, s).0);
        }
      } else if s.Refresh? {
        RefreshOnlyOffers(t, s.order, s.now, s.terms);
        OnlyOffersKeepsEvents(t, Do(cfg, t, s).0);
      } else {
        OthersIngestNothing(cfg, t, s);
      }
    }
  }

  lemma OnlyOffersKeepsEvents(t: Tables, u: Tables)
    requires OnlyOffers(t, u)
    ensures u.events == t.events
  {
  }

  lemma {:induction false} EventsAreIngested(cfg: Config, steps: seq<Step>, id: string)
    requires AllPossible(cfg, steps)
    ensures id in After(cfg, steps).tables.events <==> AlreadyIngested(steps, id)
  {
    hide Inv, Do, Possible, Commits;
    if steps != [] {
      var front, s := steps[..|steps| - 1], steps[|steps| - 1];
      FrontIsPossible(cfg, steps);
      hide AllPossible;
      EventsAreIngested(cfg, front, id);
      AfterKeepsInv(cfg, front);
      StepIngests(cfg, After(cfg, front).tables, s);
      IngestedAppend(front, s, id);
      assert steps == front + [s];
    }
  }

  lemma IngestedAppend(front: seq<Step>, s: Step, id: string)
    ensures AlreadyIngested(front + [s], id) <==> AlreadyIngested(front, id) || Ingests(s, id)
  {
    var all := front + [s];
    hide Commits;
    if AlreadyIngested(front, id) {
      var k :| 0 <= k < |front| && Ingests(front[k], id);
      assert Ingests(all[k], id);
    }
    if Ingests(s, id) {
      assert Ingests(all[|front|], id);
    }
  }

  /** An ingest of an event that is already there changes nothing and emits nothing. */
  lemma ReplayIsSilent(cfg: Config, w: World, s: Step)
    requires s.Observe? && s.ev.id in w.tables.events
    ensures Next(cfg, w, s) == w
  {
    assert w.sent + [] == w.sent;
  }

  /**
   * An ingest commits if and only if the database lets it and the event names an id, a network, a token and a
   * destination; one that does not leaves everything as it was.
   */
  lemma EventsAreRefusedExactly(cfg: Config, w: World, s: Step)
    requires s.Observe?
    ensures Commits(s) <==> s.commits && s.ev.id != "" && s.ev.network != "" && s.ev.token != "" && s.ev.to != ""
    ensures !Commits(s) ==> Next(cfg, w, s) == w
  {
    if !Commits(s) {
      UncommittedIsSilent(cfg, w, s);
    }
  }

  /** A step that does not commit changes nothing and emits nothing. */
  lemma UncommittedIsSilent(cfg: Config, w: World, s: Step)
    requires !Commits(s)
    ensures Next(cfg, w, s) == w
  {
    assert w.sent + [] == w.sent;
  }

  /**
   * Deleting every repeated ingest from a schedule leaves the final tables and everything emitted as they are,
   * whatever else happens between the deliveries, and whatever the repeats carry.
   */
  lemma {:induction false} RepeatsHaveNoEffect(cfg: Config, steps: seq<Step>)
    requires AllPossible(cfg, steps)
    ensures After(cfg, WithoutRepeats(steps)) == After(cfg, steps)
  {
    hide Next, Possible;
    if steps != [] {
      var front, s := steps[..|steps| - 1], steps[|steps| - 1];
      FrontIsPossible(cfg, steps);
      hide AllPossible, AlreadyIngested;
      RepeatsHaveNoEffect(cfg, front);
      if s.Observe? && AlreadyIngested(front, s.ev.id) {
        assert AllPossible(cfg, front);
        EventsAreIngested(cfg, front, s.ev.id);
        ReplayIsSilent(cfg, After(cfg, front), s);
      } else {
        assert (WithoutRepeats(front) + [s])[..|WithoutRepeats(front)|] == WithoutRepeats(front);
      }
    }
  }

  /** The entries that commit, less the ingests of events that an earlier entry already ingested. */
  function Essential(steps: seq<Step>): seq<Step> {
    if steps == [] then []
    else
      var front, s := steps[..|steps| - 1], steps[|steps| - 1];
      if !Commits(s) || (s.Observe? && AlreadyIngested(front, s.ev.id)) then Essential(front)
      else Essential(front) + [s]
  }

  /** No two entries observe the same event. */
  ghost predicate ObservesOnce(steps: seq<Step>) {
    forall j, k :: 0 <= j < k < |steps| && steps[j].Observe? && steps[k].Observe? ==> steps[j].ev.id != steps[k].ev.id
  }

  lemma {:induction false} EssentialIngestsAreIngests(steps: seq<Step>, id: string)
    ensures AlreadyIngested(Essential(steps), id) <==> AlreadyIngested(steps, id)
    ensures forall k :: 0 <= k < |Essential(steps)| ==> Commits(Essential(steps)[k])
  {
    hide Commits, AlreadyIngested;
    if steps == [] {
      assert Essential(steps) == steps;
    } else {
      var front, s := steps[..|steps| - 1], steps[|steps| - 1];
      EssentialIngestsAreIngests(front, id);
      assert steps == front + [s];
      IngestedAppend(front, s, id);
      IngestedAppend(Essential(front), s, id);
    }
  }

  lemma OneMoreIsPossible(cfg: Config, front: seq<Step>, s: Step)
    requires AllPossible(cfg, front) && Possible(cfg, After(cfg, front).tables, s)
    ensures AllPossible(cfg, front + [s])
  {
    var all := front + [s];
    hide Possible, After;
    forall k | 0 <= k < |all|
      ensures PossibleAt(cfg, all, k)
    {
      if k < |front| {
        assert all[..k] == front[..k] && PossibleAt(cfg, front, k);
      } else {
        assert all[..k] == front;
      }
    }
  }

  lemma OneMoreIsObservedOnce(front: seq<Step>, s: Step)
    requires ObservesOnce(front) && forall k :: 0 <= k < |front| ==> Commits(front[k])
    requires s.Observe? ==> !AlreadyIngested(front, s.ev.id)
    ensures ObservesOnce(front + [s])
  {
    hide Commits;
    forall j | 0 <= j < |front| && s.Observe? && front[j].Observe?
      ensures front[j].ev.id != s.ev.id
    {
      assert !Ingests(front[j], s.ev.id);
    }
  }

  /**
   * Exactly once. Every schedule, with failed transactions, retries and redeliveries anywhere in it, leaves the tables
   * and the emissions of its essential part, in which every transaction commits and no event is observed twice.
   */
  lemma {:induction false} DeliveriesActOnce(cfg: Config, steps: seq<Step>)
    requires AllPossible(cfg, steps)
    ensures After(cfg, Essential(steps)) == After(cfg, steps)
    ensures AllPossible(cfg, Essential(steps)) && ObservesOnce(Essential(steps))
    ensures forall k :: 0 <= k < |Essential(steps)| ==> Commits(Essential(steps)[k])
  {
    hide Next, Possible, Commits, ObservesOnce;
    EssentialIngestsAreIngests(steps, "");
    if steps == [] {
      NothingIsObserved();
    } else {
      var front, s := steps[..|steps| - 1], steps[|steps| - 1];
      FrontIsPossible(cfg, steps);
      hide AllPossible, AlreadyIngested;
      DeliveriesActOnce(cfg, front);
      if !Commits(s) {
        UncommittedIsSilent(cfg, After(cfg, front), s);
      } else if s.Observe? && AlreadyIngested(front, s.ev.id) {
        EventsAreIngested(cfg, front, s.ev.id);
        ReplayIsSilent(cfg, After(cfg, front), s);
      } else {
        assert (Essential(front) + [s])[..|Essential(front)|] == Essential(front);
        OneMoreIsPossible(cfg, Essential(front), s);
        if s.Observe? {
          EssentialIngestsAreIngests(front, s.ev.id);
        }
        OneMoreIsObservedOnce(Essential(front), s);
      }
    }
  }

  lemma NothingIsObserved()
    ensures ObservesOnce([])
  {
  }
}
