// The memory store: embedding checks, the idempotent write and the counted search.
module MemoryStores {
  import opened Prelude
  import opened Runs
  import opened Memories
  import opened Fusion

  // embed: the provider must answer one vector of the configured dimension.
  function Embedding(vectors: seq<seq<real>>, dim: int): Result<seq<real>, Problem> {
    if |vectors| != 1 then Err(WrongVectorCount)
    else if |vectors[0]| != dim then Err(WrongDimension)
    else Ok(vectors[0])
  }

  class MemoryStore {
    var items: MemoryTable
    const space: Space

    constructor (space: Space)
      ensures items == map[] && this.space == space
    {
      items := map[];
      this.space := space;
    }

    // `id` is the key a fresh row would get; `vectors` is what the provider answers for the content.
    method Write(id: MemoryId, m: Memory, vectors: seq<seq<real>>) returns (r: Result<MemoryId, Problem>)
      requires id !in items && UniqueSources(items) && m.space == space
      modifies this
      ensures UniqueSources(items)
      ensures r.Err? <==> (m.sourceRun.Some? && m.kind != RunSummary) || |vectors| != 1 || |vectors[0]| != space.dim
      ensures r.Err? ==> items == old(items)
      ensures r.Ok? ==> items == Upsert(old(items), id, m) && r.value in items
      ensures r.Ok? && r.value != id ==> items == old(items) && SameSource(items[r.value], m)
      ensures r.Ok? ==>
                && items[r.value].sourceRun == m.sourceRun
                && (items[r.value].tenant, items[r.value].subject, items[r.value].namespace)
                   == (m.tenant, m.subject, m.namespace)
      ensures r.Ok? && r.value == id ==> items[id] == m && forall i :: i in old(items) ==> !SameSource(old(items)[i], m)
    {
      if m.sourceRun.Some? && m.kind != RunSummary {
        return Err(SourceOfOtherKind);
      }
      var embedded := Embedding(vectors, space.dim);
      if embedded.Err? {
        return Err(embedded.error);
      }
      UpsertKeepsUnique(items, id, m);
      if conflict :| conflict in items && SameSource(items[conflict], m) {
        items := items[conflict := items[conflict].(updatedAt := items[conflict].updatedAt)];
        return Ok(conflict);
      }
      items := items[id := m];
      return Ok(id);
    }

    // Only the returned rows count as accessed; their contents stay.
    method Search(q: Query, p: Plan, vectors: seq<seq<real>>,
                  ghost distance: map<MemoryId, real>, ghost relevance: map<MemoryId, real>)
      returns (r: Result<seq<MemoryId>, Problem>)
      requires Legal(items, q, distance, relevance, p)
      modifies this
      ensures r.Err? <==> |vectors| != 1 || |vectors[0]| != space.dim
      ensures r.Err? ==> items == old(items)
      ensures forall x :: x in p.arrival ==> x in old(items)
      ensures r.Ok? ==> r.value == SearchMemories(old(items), q, p)
                        && items == Touch(old(items), Elements(r.value), q.now)
      ensures r.Ok? ==> items.Keys == old(items).Keys && |r.value| <= q.limit
      ensures r.Ok? ==>
                forall x :: x in old(items) ==>
                              items[x] == if x in r.value
                                          then old(items)[x].(accessCount := old(items)[x].accessCount + 1,
                                                              lastAccessedAt := Some(q.now))
                                          else old(items)[x]
      ensures UniqueSources(old(items)) ==> UniqueSources(items)
    {
      PlanIsStored(items, q, distance, relevance, p);
      var embedded := Embedding(vectors, space.dim);
      if embedded.Err? {
        return Err(embedded.error);
      }
      var found := SearchMemories(items, q, p);
      if found != [] {
        CountAccess(found, q.now);
      } else {
        NothingTouched(items, q.now);
      }
      return Ok(found);
    }

    method CountAccess(found: seq<MemoryId>, now: int)
      modifies this
      ensures items == Touch(old(items), Elements(found), now)
      ensures UniqueSources(old(items)) ==> UniqueSources(items)
    {
      if UniqueSources(items) {
        TouchKeepsUnique(items, Elements(found), now);
      }
      items := map id | id in items ::
        if id in found then items[id].(accessCount := items[id].accessCount + 1, lastAccessedAt := Some(now))
           else items[id];
      assert items == Touch(old(items), Elements(found), now);
    }
  }

  lemma PlanIsStored(mem: MemoryTable, q: Query, distance: map<MemoryId, real>, relevance: map<MemoryId, real>, p: Plan)
    requires Legal(mem, q, distance, relevance, p)
    ensures forall x :: x in p.arrival ==> x in mem
  {
    FusedInScope(mem, q, distance, relevance, p);
  }

  lemma NothingTouched(mem: MemoryTable, now: int)
    ensures Touch(mem, Elements([]), now) == mem
  {
  }

  lemma TouchKeepsUnique(mem: MemoryTable, returned: set<MemoryId>, now: int)
    requires UniqueSources(mem)
    ensures UniqueSources(Touch(mem, returned, now))
  {
    var done := Touch(mem, returned, now);
    forall i, j | i in done && j in done && SameSource(done[i], done[j])
      ensures i == j
    {
      assert SameSource(mem[i], mem[j]);
    }
  }
}
