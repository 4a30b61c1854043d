// The memory table: the first-write-wins upsert on the source run, and the scope of a search.
module Memories {
  import opened Prelude
  import opened Runs

  datatype MemoryKind = Fact | Preference | Decision | Episode | RunSummary | Feedback

  // `space` records which model embedded the content; the table has no such column.
  datatype Memory = Memory(
    tenant: string, subject: string, namespace: string, kind: MemoryKind, content: string, metadata: Json,
    space: Space, importance: real, accessCount: nat, lastAccessedAt: Option<int>, expiresAt: Option<int>,
    createdAt: int, updatedAt: int, sourceRun: Option<RunId>)

  type MemoryTable = map<MemoryId, Memory>

  datatype Scope = Scope(tenant: string, subject: string, namespace: string)

  function ScopeOf(m: Memory): Scope {
    Scope(m.tenant, m.subject, m.namespace)
  }

  // The partial unique index on (tenant, subject, namespace, source_run_id).
  predicate SameSource(a: Memory, b: Memory) {
    a.sourceRun.Some? && a.sourceRun == b.sourceRun && ScopeOf(a) == ScopeOf(b)
  }

  ghost predicate UniqueSources(mem: MemoryTable) {
    forall i, j :: i in mem && j in mem && SameSource(mem[i], mem[j]) ==> i == j
  }

  // A conflicting insert only rewrites updated_at with its own value.
  function Upsert(mem: MemoryTable, id: MemoryId, m: Memory): MemoryTable {
    if exists i :: i in mem && SameSource(mem[i], m) then mem else mem[id := m]
  }

  lemma UpsertKeepsUnique(mem: MemoryTable, id: MemoryId, m: Memory)
    requires UniqueSources(mem) && id !in mem
    ensures UniqueSources(Upsert(mem, id, m))
    ensures forall i :: i in mem ==> i in Upsert(mem, id, m) && Upsert(mem, id, m)[i] == mem[i]
    ensures m.sourceRun.Some? ==>
              exists i :: i in Upsert(mem, id, m) && SameSource(Upsert(mem, id, m)[i], m)
  {
    var done := Upsert(mem, id, m);
    if done != mem {
      assert forall i :: i in mem ==> !SameSource(mem[i], m);
      forall i, j | i in done && j in done && SameSource(done[i], done[j])
        ensures i == j
      {
        if i != j && i == id {
          assert SameSource(mem[j], m);
        }
      }
      if m.sourceRun.Some? {
        assert SameSource(done[id], m);
      }
    }
  }

  lemma UpsertNew(mem: MemoryTable, id: MemoryId, m: Memory)
    requires forall i :: i in mem ==> mem[i].sourceRun != m.sourceRun
    ensures Upsert(mem, id, m) == mem[id := m]
  {
  }

  // search counts an access of every row it returned.
  function Touch(mem: MemoryTable, returned: set<MemoryId>, now: int): MemoryTable {
    map id | id in mem ::
      if id in returned then mem[id].(accessCount := mem[id].accessCount + 1, lastAccessedAt := Some(now)) else mem[id]
  }

  predicate Unexpired(m: Memory, now: int) {
    m.expiresAt.None? || m.expiresAt.value > now
  }

  // The rows a search considers.
  function Scoped(mem: MemoryTable, scope: Scope, now: int): set<MemoryId> {
    set id | id in mem && ScopeOf(mem[id]) == scope && Unexpired(mem[id], now)
  }
}
