/** The proposal store: two maps, an insert, and a compare-and-swap on the version. */
module Store {
  import opened Basics
  import opened Validation
  import opened Proposals

  datatype Tables = Tables(byId: map<string, Proposal>, byKey: map<string, string>)

  const EMPTY := Tables(map[], map[])

  function Get(s: Tables, id: string): Option<Proposal> {
    if id in s.byId then Some(s.byId[id]) else None
  }

  /** An empty id is falsy in the source and counts as no id. */
  function FindByKey(s: Tables, key: string): Option<Proposal> {
    if key in s.byKey && s.byKey[key] != "" then Get(s, s.byKey[key]) else None
  }

  function InsertInto(s: Tables, p: Proposal): (Tables, Result<Proposal, ErrorCode>) {
    if p.id in s.byId then (s, Err(IDEMPOTENCY_CONFLICT))
    else if p.idempotencyKey in s.byKey && s.byKey[p.idempotencyKey] != "" then (s, Err(IDEMPOTENCY_CONFLICT))
    else (Tables(s.byId[p.id := p], s.byKey[p.idempotencyKey := p.id]), Ok(p))
  }

  function SwapIn(s: Tables, next: Proposal, expected: nat): (Tables, Result<Proposal, ErrorCode>) {
    if next.id !in s.byId then (s, Err(INVALID_STATE))
    else if s.byId[next.id].version != expected then (s, Err(VERSION_CONFLICT))
    else (s.(byId := s.byId[next.id := next]), Ok(next))
  }

  class InMemoryProposalStore {
    var byId: map<string, Proposal>
    var byIdempotency: map<string, string>

    ghost function View(): Tables
      reads this
    {
      Tables(byId, byIdempotency)
    }

    constructor ()
      ensures View() == EMPTY
    {
      byId, byIdempotency := map[], map[];
    }

    method Read(id: string) returns (p: Option<Proposal>)
      ensures p == Get(View(), id)
    {
      if id in byId {
        return Some(byId[id]);
      }
      return None;
    }

    method FindByIdempotencyKey(key: string) returns (p: Option<Proposal>)
      ensures p == FindByKey(View(), key)
    {
      if key in byIdempotency && byIdempotency[key] != "" {
        p := Read(byIdempotency[key]);
        return;
      }
      return None;
    }

    method Insert(p: Proposal) returns (r: Result<Proposal, ErrorCode>)
      modifies this
      ensures (View(), r) == InsertInto(old(View()), p)
    {
      if p.id in byId {
        return Err(IDEMPOTENCY_CONFLICT);
      }
      if p.idempotencyKey in byIdempotency && byIdempotency[p.idempotencyKey] != "" {
        return Err(IDEMPOTENCY_CONFLICT);
      }
      byId := byId[p.id := p];
      byIdempotency := byIdempotency[p.idempotencyKey := p.id];
      return Ok(p);
    }

    method CompareAndSwap(next: Proposal, expectedVersion: nat) returns (r: Result<Proposal, ErrorCode>)
      modifies this
      ensures (View(), r) == SwapIn(old(View()), next, expectedVersion)
    {
      if next.id !in byId {
        return Err(INVALID_STATE);
      }
      if byId[next.id].version != expectedVersion {
        return Err(VERSION_CONFLICT);
      }
      byId := byId[next.id := next];
      return Ok(next);
    }
  }

  // ---------------------------------------------------------------- invariants

  /** The two maps are each other's inverse. */
  predicate Inverse(s: Tables) {
    && (forall id :: id in s.byId ==> s.byId[id].id == id)
    && (forall id :: id in s.byId ==>
          s.byId[id].idempotencyKey in s.byKey && s.byKey[s.byId[id].idempotencyKey] == id)
    && (forall key :: key in s.byKey ==> s.byKey[key] in s.byId && s.byId[s.byKey[key]].idempotencyKey == key)
  }

  /** Looking a used key up finds the proposal it was used for. */
  predicate Findable(s: Tables) {
    forall id :: id in s.byId ==> FindByKey(s, s.byId[id].idempotencyKey) == Some(s.byId[id])
  }

  /** A key names at most one proposal. */
  lemma KeyNamesOne(s: Tables, a: string, b: string)
    requires Inverse(s) && a in s.byId && b in s.byId
    requires s.byId[a].idempotencyKey == s.byId[b].idempotencyKey
    ensures a == b
  {
    assert s.byKey[s.byId[a].idempotencyKey] == a;
  }

  /** A successful insert keeps keys findable if and only if the new id is not the empty string. */
  lemma InsertKeepsFindableExactly(s: Tables, p: Proposal)
    requires Inverse(s) && Findable(s)
    requires InsertInto(s, p).1.Ok?
    ensures Findable(InsertInto(s, p).0) <==> p.id != ""
  {
    var t := InsertInto(s, p).0;
    forall id | id in s.byId
      ensures id == s.byKey[s.byId[id].idempotencyKey] != "" && s.byId[id].idempotencyKey != p.idempotencyKey
    {
      assert FindByKey(s, s.byId[id].idempotencyKey) == Some(s.byId[id]);
    }
    if p.id != "" {
      forall id | id in t.byId
        ensures FindByKey(t, t.byId[id].idempotencyKey) == Some(t.byId[id])
      {
        if id != p.id {
          assert FindByKey(s, s.byId[id].idempotencyKey) == Some(s.byId[id]);
        }
      }
    } else {
      assert FindByKey(t, t.byId[p.id].idempotencyKey) == None;
    }
  }

  lemma InsertKeepsInverse(s: Tables, p: Proposal)
    requires Inverse(s) && Findable(s)
    ensures Inverse(InsertInto(s, p).0)
  {
    forall id | id in s.byId
      ensures s.byKey[s.byId[id].idempotencyKey] != ""
    {
      assert FindByKey(s, s.byId[id].idempotencyKey) == Some(s.byId[id]);
    }
  }

  lemma SwapKeepsMaps(s: Tables, next: Proposal, expected: nat)
    requires Inverse(s) && Findable(s)
    requires next.id in s.byId ==> next.idempotencyKey == s.byId[next.id].idempotencyKey
    ensures Inverse(SwapIn(s, next, expected).0) && Findable(SwapIn(s, next, expected).0)
  {
    var t := SwapIn(s, next, expected).0;
    forall id | id in t.byId
      ensures FindByKey(t, t.byId[id].idempotencyKey) == Some(t.byId[id])
    {
      assert FindByKey(s, s.byId[id].idempotencyKey) == Some(s.byId[id]);
    }
  }

  /** With an empty id the same key is inserted twice: the guard the source relies on is the id's truthiness. */
  lemma EmptyIdBreaksIdempotency(p: Proposal, q: Proposal)
    requires p.id == "" && q.id != "" && p.idempotencyKey == q.idempotencyKey
    ensures var s := InsertInto(EMPTY, p).0;
      && InsertInto(EMPTY, p).1.Ok? && FindByKey(s, q.idempotencyKey) == None
      && var t := InsertInto(s, q).0;
         InsertInto(s, q).1.Ok? && t.byId[""].idempotencyKey == t.byId[q.id].idempotencyKey
  {
  }
}
