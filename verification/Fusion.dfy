// Hybrid search: two ranked lists over the scoped rows, fused by reciprocal rank and cut to the best.
module Fusion {
  import opened Prelude
  import opened Runs
  import opened Memories

  const LIST_LIMIT := 50

  datatype Query = Query(scope: Scope, now: int, limit: nat, semanticWeight: real, keywordWeight: real)

  // What the database chooses where the statement leaves it free: the numbering of rows with equal
  // distance or text rank, which rows of equal distance the ordered LIMIT keeps (it sorts apart from the
  // numbering), which matches the unordered LIMIT keeps, and the order in which equal scores come out.
  // `semantic` and `keyword` list ids by row number.
  datatype Plan = Plan(semantic: seq<MemoryId>, near: set<MemoryId>, keyword: seq<MemoryId>, kept: set<MemoryId>,
                       arrival: seq<MemoryId>)

  // FULL OUTER JOIN of the two lists.
  function Fused(p: Plan): set<MemoryId> {
    p.near + p.kept
  }

  // `distance` is defined on all rows of the scope, since every write embeds its row, `relevance` on those
  // that match the text query.
  ghost predicate Legal(mem: MemoryTable, q: Query, distance: map<MemoryId, real>, relevance: map<MemoryId, real>,
                        p: Plan) {
    var scoped := Scoped(mem, q.scope, q.now);
    && distance.Keys == scoped && relevance.Keys <= scoped
    && Distinct(p.semantic) && Elements(p.semantic) == distance.Keys
    && (forall i, j :: 0 <= i < j < |p.semantic| ==> p.semantic[i] in distance && p.semantic[j] in distance
                                                     && distance[p.semantic[i]] <= distance[p.semantic[j]])
    && p.near <= distance.Keys && |p.near| == Min(LIST_LIMIT, |p.semantic|)
    && (forall a, b :: a in distance && a !in p.near && b in p.near ==> distance[b] <= distance[a])
    && Distinct(p.keyword) && Elements(p.keyword) == relevance.Keys
    && (forall i, j :: 0 <= i < j < |p.keyword| ==> p.keyword[i] in relevance && p.keyword[j] in relevance
                                                    && relevance[p.keyword[i]] >= relevance[p.keyword[j]])
    && p.kept <= Elements(p.keyword) && |p.kept| == Min(LIST_LIMIT, |p.keyword|)
    && Distinct(p.arrival) && Elements(p.arrival) == Fused(p)
  }

  // The row number of an id, counted from 1.
  function Rank(list: seq<MemoryId>, id: MemoryId): Option<nat> {
    if list == [] then None
    else if list[|list| - 1] == id then Some(|list|)
    else Rank(list[..|list| - 1], id)
  }

  lemma {:induction false} RankIsPosition(list: seq<MemoryId>, i: nat)
    requires Distinct(list) && i < |list|
    ensures Rank(list, list[i]) == Some(i + 1)
  {
    if i < |list| - 1 {
      RankIsPosition(list[..|list| - 1], i);
    }
  }

  lemma {:induction false} RankAbsent(list: seq<MemoryId>, id: MemoryId)
    ensures Rank(list, id).None? <==> id !in list
    ensures Rank(list, id).Some? ==> 1 <= Rank(list, id).value <= |list|
  {
    if list != [] {
      RankAbsent(list[..|list| - 1], id);
      assert id in list <==> id in list[..|list| - 1] || id == list[|list| - 1];
    }
  }

  // A row keeps its number among all rows of its list.
  function SemanticRank(p: Plan, id: MemoryId): Option<nat> {
    if id in p.near then Rank(p.semantic, id) else None
  }

  function KeywordRank(p: Plan, id: MemoryId): Option<nat> {
    if id in p.kept then Rank(p.keyword, id) else None
  }

  // COALESCE(weight / (60 + rank), 0).
  function Term(weight: real, rank: Option<nat>): real {
    if rank.None? then 0.0 else weight / (60.0 + rank.value as real)
  }

  function Weighed(sum: real, importance: real): real {
    sum * (0.8 + 0.2 * importance)
  }

  function Fuse(semanticWeight: real, keywordWeight: real, s: Option<nat>, k: Option<nat>, importance: real): real {
    Weighed(Term(semanticWeight, s) + Term(keywordWeight, k), importance)
  }

  function Score(mem: MemoryTable, q: Query, p: Plan, id: MemoryId): real
    requires id in mem
  {
    Fuse(q.semanticWeight, q.keywordWeight, SemanticRank(p, id), KeywordRank(p, id), mem[id].importance)
  }

  function Scores(mem: MemoryTable, q: Query, p: Plan): map<MemoryId, real> {
    map id | id in p.arrival && id in mem :: Score(mem, q, p, id)
  }

  // A stable descending sort of the fused rows as they arrive.
  function Place(scores: map<MemoryId, real>, sorted: seq<MemoryId>, id: MemoryId): seq<MemoryId>
    requires id in scores && forall x :: x in sorted ==> x in scores
  {
    if sorted == [] then [id]
    else if scores[sorted[|sorted| - 1]] >= scores[id] then sorted + [id]
    else Place(scores, sorted[..|sorted| - 1], id) + [sorted[|sorted| - 1]]
  }

  function SortByScore(scores: map<MemoryId, real>, ids: seq<MemoryId>): (sorted: seq<MemoryId>)
    requires forall x :: x in ids ==> x in scores
    ensures multiset(sorted) == multiset(ids)
  {
    if ids == [] then []
    else
      var front := SortByScore(scores, ids[..|ids| - 1]);
      SameElements(front, ids[..|ids| - 1]);
      PlaceElements(scores, front, ids[|ids| - 1]);
      assert ids == ids[..|ids| - 1] + [ids[|ids| - 1]];
      Place(scores, front, ids[|ids| - 1])
  }

  lemma SameElements(a: seq<MemoryId>, b: seq<MemoryId>)
    requires multiset(a) == multiset(b)
    ensures forall x :: x in a <==> x in b
    ensures |a| == |b|
  {
    forall x
      ensures x in a <==> x in b
    {
      assert x in a <==> x in multiset(a);
      assert x in b <==> x in multiset(b);
    }
    assert |multiset(a)| == |a| && |multiset(b)| == |b|;
  }

  lemma {:induction false} PlaceElements(scores: map<MemoryId, real>, sorted: seq<MemoryId>, id: MemoryId)
    requires id in scores && forall x :: x in sorted ==> x in scores
    ensures multiset(Place(scores, sorted, id)) == multiset(sorted) + multiset{id}
  {
    if sorted != [] {
      var front, last := sorted[..|sorted| - 1], sorted[|sorted| - 1];
      assert sorted == front + [last];
      PlaceElements(scores, front, id);
    }
  }

  ghost predicate Descending(scores: map<MemoryId, real>, ids: seq<MemoryId>) {
    (forall x :: x in ids ==> x in scores) && forall i, j :: 0 <= i < j < |ids| ==> scores[ids[i]] >= scores[ids[j]]
  }

  lemma DescendingSnoc(scores: map<MemoryId, real>, front: seq<MemoryId>, last: MemoryId)
    requires Descending(scores, front) && last in scores && forall x :: x in front ==> scores[x] >= scores[last]
    ensures Descending(scores, front + [last])
  {
    assert forall i :: 0 <= i < |front| ==> front[i] in front;
  }

  lemma {:induction false} PlaceDescending(scores: map<MemoryId, real>, sorted: seq<MemoryId>, id: MemoryId)
    requires id in scores && Descending(scores, sorted)
    ensures Descending(scores, Place(scores, sorted, id))
    ensures forall x :: x in Place(scores, sorted, id) ==> x == id || x in sorted
  {
    if sorted != [] {
      var front, last := sorted[..|sorted| - 1], sorted[|sorted| - 1];
      assert sorted == front + [last];
      forall x | x in front
        ensures scores[x] >= scores[last]
      {
        var k :| 0 <= k < |front| && front[k] == x;
        assert sorted[k] == x && sorted[|sorted| - 1] == last;
      }
      if scores[last] >= scores[id] {
        DescendingSnoc(scores, sorted, id);
      } else {
        PlaceDescending(scores, front, id);
        DescendingSnoc(scores, Place(scores, front, id), last);
      }
    }
  }

  lemma {:induction false} SortDescending(scores: map<MemoryId, real>, ids: seq<MemoryId>)
    requires forall x :: x in ids ==> x in scores
    ensures Descending(scores, SortByScore(scores, ids))
  {
    if ids != [] {
      var front := SortByScore(scores, ids[..|ids| - 1]);
      SortDescending(scores, ids[..|ids| - 1]);
      SameElements(front, ids[..|ids| - 1]);
      PlaceDescending(scores, front, ids[|ids| - 1]);
    }
  }

  // ORDER BY score DESC LIMIT limit.
  function Best(scores: map<MemoryId, real>, ids: seq<MemoryId>, limit: nat): seq<MemoryId>
    requires forall x :: x in ids ==> x in scores
  {
    var sorted := SortByScore(scores, ids);
    sorted[..Min(limit, |sorted|)]
  }

  lemma BestIsTop(scores: map<MemoryId, real>, ids: seq<MemoryId>, limit: nat)
    requires Distinct(ids) && forall x :: x in ids ==> x in scores
    ensures var best := Best(scores, ids, limit);
            && Distinct(best) && |best| == Min(limit, |ids|) && Descending(scores, best)
            && (forall x :: x in best ==> x in ids)
            && (forall x, y :: x in best && y in ids && y !in best ==> x in scores && scores[x] >= scores[y])
  {
    var sorted := SortByScore(scores, ids);
    SameElements(sorted, ids);
    SortDescending(scores, ids);
    DistinctByCount(ids, sorted);
    var best := Best(scores, ids, limit);
    forall x, y | x in best && y in ids && y !in best
      ensures x in scores && scores[x] >= scores[y]
    {
      assert y in sorted;
      var i :| 0 <= i < |best| && best[i] == x;
      var j :| 0 <= j < |sorted| && sorted[j] == y;
      assert forall k :: 0 <= k < |best| ==> sorted[k] == best[k] && best[k] != y;
    }
  }

  function SearchMemories(mem: MemoryTable, q: Query, p: Plan): seq<MemoryId>
    requires forall x :: x in p.arrival ==> x in mem
  {
    Best(Scores(mem, q, p), p.arrival, q.limit)
  }

  lemma FusedInScope(mem: MemoryTable, q: Query, distance: map<MemoryId, real>, relevance: map<MemoryId, real>, p: Plan)
    requires Legal(mem, q, distance, relevance, p)
    ensures Fused(p) <= Scoped(mem, q.scope, q.now)
    ensures forall x :: x in p.arrival <==> x in Fused(p)
  {
    assert forall x :: x in p.arrival <==> x in Elements(p.arrival);
  }

  // The answer: distinct unexpired rows of the scope, best first, as many as asked for or fused, and
  // no omitted fused row scores higher than a returned one.
  lemma SearchIsCorrect(mem: MemoryTable, q: Query, distance: map<MemoryId, real>, relevance: map<MemoryId, real>,
                        p: Plan)
    requires Legal(mem, q, distance, relevance, p)
    ensures forall x :: x in p.arrival <==> x in Fused(p)
    ensures forall x :: x in p.arrival ==>
              && x in mem && mem[x].tenant == q.scope.tenant && mem[x].subject == q.scope.subject
              && mem[x].namespace == q.scope.namespace && (mem[x].expiresAt.Some? ==> mem[x].expiresAt.value > q.now)
    ensures var found := SearchMemories(mem, q, p);
            && Distinct(found) && |found| == Min(q.limit, |Fused(p)|)
            && (forall x :: x in found ==> x in Fused(p))
            && Descending(Scores(mem, q, p), found)
            && (forall x, y :: x in found && y in p.arrival && y !in found ==>
                  x in p.arrival && Score(mem, q, p, x) >= Score(mem, q, p, y))
  {
    FusedInScope(mem, q, distance, relevance, p);
    DistinctCardinality(p.arrival);
    BestIsTop(Scores(mem, q, p), p.arrival, q.limit);
  }

  lemma DistinctByCount(a: seq<MemoryId>, b: seq<MemoryId>)
    requires Distinct(a) && multiset(a) == multiset(b)
    ensures Distinct(b)
  {
    forall i, j | 0 <= i < j < |b|
      ensures b[i] != b[j]
    {
      if b[i] == b[j] {
        CountTwice(b, i, j);
        CountOnce(a, b[i]);
      }
    }
  }

  lemma CountTwice(s: seq<MemoryId>, i: nat, j: nat)
    requires i < j < |s| && s[i] == s[j]
    ensures multiset(s)[s[i]] >= 2
  {
    assert s == s[..j] + s[j..];
    assert s[j..][0] == s[j] && s[..j][i] == s[i];
    assert s[i] in multiset(s[..j]) && s[j] in multiset(s[j..]);
  }

  lemma {:induction false} CountOnce(s: seq<MemoryId>, x: MemoryId)
    requires Distinct(s)
    ensures multiset(s)[x] <= 1
  {
    if s != [] {
      var front, last := s[..|s| - 1], s[|s| - 1];
      assert s == front + [last];
      CountOnce(front, x);
      if x == last {
        assert x !in front;
        assert x !in multiset(front);
      }
    }
  }

  // ---- scores -----------------------------------------------------------------------------------

  lemma RankIs(p: Plan, id: MemoryId, r: nat, s: nat)
    requires Distinct(p.semantic) && Distinct(p.keyword)
    requires id in p.near ==> 1 <= r <= |p.semantic| && p.semantic[r - 1] == id
    requires id in p.kept ==> 1 <= s <= |p.keyword| && p.keyword[s - 1] == id
    ensures SemanticRank(p, id) == if id in p.near then Some(r) else None
    ensures KeywordRank(p, id) == if id in p.kept then Some(s) else None
  {
    if id in p.near {
      RankIsPosition(p.semantic, r - 1);
    }
    if id in p.kept {
      RankIsPosition(p.keyword, s - 1);
    }
  }

  lemma FusedBoth(u: real, v: real, r: nat, s: nat, importance: real)
    ensures Fuse(u, v, Some(r), Some(s), importance)
            == (u / (60.0 + r as real) + v / (60.0 + s as real)) * (0.8 + 0.2 * importance)
  {
  }

  lemma FusedAlone(u: real, v: real, r: nat, importance: real)
    ensures Fuse(u, v, Some(r), None, importance) == u / (60.0 + r as real) * (0.8 + 0.2 * importance)
    ensures Fuse(u, v, None, Some(r), importance) == v / (60.0 + r as real) * (0.8 + 0.2 * importance)
  {
  }

  lemma ScoreIsFused(mem: MemoryTable, q: Query, p: Plan, id: MemoryId, r: nat, s: nat)
    requires Distinct(p.semantic) && Distinct(p.keyword) && id in mem
    requires id in p.near ==> 1 <= r <= |p.semantic| && p.semantic[r - 1] == id
    requires id in p.kept ==> 1 <= s <= |p.keyword| && p.keyword[s - 1] == id
    ensures Score(mem, q, p, id)
            == Fuse(q.semanticWeight, q.keywordWeight, if id in p.near then Some(r) else None,
                    if id in p.kept then Some(s) else None, mem[id].importance)
  {
    RankIs(p, id, r, s);
  }

  // The score on the lists themselves: of a row numbered r in the semantic and s in the keyword list, or
  // kept by one of them alone.
  lemma ScoreOnBoth(mem: MemoryTable, q: Query, p: Plan, id: MemoryId, r: nat, s: nat)
    requires Distinct(p.semantic) && Distinct(p.keyword) && id in mem && id in p.near && id in p.kept
    requires 1 <= r <= |p.semantic| && p.semantic[r - 1] == id && 1 <= s <= |p.keyword| && p.keyword[s - 1] == id
    ensures Score(mem, q, p, id)
            == (q.semanticWeight / (60.0 + r as real) + q.keywordWeight / (60.0 + s as real))
               * (0.8 + 0.2 * mem[id].importance)
  {
    ScoreIsFused(mem, q, p, id, r, s);
    FusedBoth(q.semanticWeight, q.keywordWeight, r, s, mem[id].importance);
  }

  lemma ScoreOnSemantic(mem: MemoryTable, q: Query, p: Plan, id: MemoryId, r: nat)
    requires Distinct(p.semantic) && Distinct(p.keyword) && id in mem && id in p.near && id !in p.kept
    requires 1 <= r <= |p.semantic| && p.semantic[r - 1] == id
    ensures Score(mem, q, p, id) == q.semanticWeight / (60.0 + r as real) * (0.8 + 0.2 * mem[id].importance)
  {
    ScoreIsFused(mem, q, p, id, r, 0);
    FusedAlone(q.semanticWeight, q.keywordWeight, r, mem[id].importance);
  }

  lemma ScoreOnKeyword(mem: MemoryTable, q: Query, p: Plan, id: MemoryId, s: nat)
    requires Distinct(p.semantic) && Distinct(p.keyword) && id in mem && id !in p.near && id in p.kept
    requires 1 <= s <= |p.keyword| && p.keyword[s - 1] == id
    ensures Score(mem, q, p, id) == q.keywordWeight / (60.0 + s as real) * (0.8 + 0.2 * mem[id].importance)
  {
    ScoreIsFused(mem, q, p, id, 0, s);
    FusedAlone(q.semanticWeight, q.keywordWeight, s, mem[id].importance);
  }

  lemma ProductSign(d: real, c: real)
    requires c > 0.0
    ensures d * c > 0.0 <==> d > 0.0
  {
  }

  lemma Scaled(x: real, y: real, c: real)
    requires c > 0.0
    ensures x * c > y * c <==> x > y
  {
    assert x * c - y * c == (x - y) * c;
    ProductSign(x - y, c);
  }

  lemma CrossRatio(u: real, v: real, a: real, b: real)
    requires a > 0.0 && b > 0.0
    ensures u / a > v / b <==> u * b > v * a
  {
    var x, y := u / a, v / b;
    assert x * a == u && y * b == v;
    Scaled(x, y, a);
    Scaled(x * a, y * a, b);
    assert y * a * b == v * a;
  }

  lemma LeadIff(r: nat, s: nat, factor: real)
    requires factor > 0.0
    ensures 1.0 / (60.0 + r as real) * factor > 0.7 / (60.0 + s as real) * factor
            <==> 0.7 * (60.0 + r as real) < 60.0 + s as real
  {
    CrossRatio(1.0, 0.7, 60.0 + r as real, 60.0 + s as real);
    Scaled(1.0 / (60.0 + r as real), 0.7 / (60.0 + s as real), factor);
  }

  lemma FusedLeadIff(r: nat, s: nat, importance: real)
    requires importance >= 0.0
    ensures Fuse(1.0, 0.7, Some(r), None, importance) > Fuse(1.0, 0.7, None, Some(s), importance)
            <==> 0.7 * (60.0 + r as real) < 60.0 + s as real
  {
    FusedAlone(1.0, 0.7, r, importance);
    FusedAlone(1.0, 0.7, s, importance);
    LeadIff(r, s, 0.8 + 0.2 * importance);
  }

  // With the default weights and equal importance, a row of the semantic list alone, numbered r, comes
  // before one of the keyword list alone, numbered s, if and only if 0.7 (60 + r) < 60 + s.
  lemma SemanticBeatsKeywordIff(mem: MemoryTable, q: Query, p: Plan, a: MemoryId, b: MemoryId, r: nat, s: nat)
    requires Distinct(p.semantic) && Distinct(p.keyword) && q.semanticWeight == 1.0 && q.keywordWeight == 0.7
    requires a in p.near - p.kept && 1 <= r <= |p.semantic| && p.semantic[r - 1] == a && a in mem
    requires b in p.kept - p.near && 1 <= s <= |p.keyword| && p.keyword[s - 1] == b && b in mem
    requires mem[a].importance == mem[b].importance >= 0.0
    ensures Score(mem, q, p, a) > Score(mem, q, p, b) <==> 0.7 * (60.0 + r as real) < 60.0 + s as real
  {
    ScoreIsFused(mem, q, p, a, r, 0);
    ScoreIsFused(mem, q, p, b, 0, s);
    FusedLeadIff(r, s, mem[a].importance);
  }

  lemma FusedFirst()
    ensures Fuse(1.0, 0.7, Some(1), None, 0.0) == 0.8 / 61.0
    ensures Fuse(1.0, 0.7, Some(1), None, 1.0) == 1.0 / 61.0
    ensures Fuse(1.0, 0.7, Some(1), Some(1), 1.0) == 1.7 / 61.0
  {
    assert Term(1.0, Some(1)) == 1.0 / 61.0 && Term(0.7, Some(1)) == 0.7 / 61.0;
  }

  // A row first in the semantic list alone scores 0.8 / 61 without importance and 1 / 61 with all of it,
  // one first in both lists up to 1.7 / 61.
  lemma ScoreOfFirst(mem: MemoryTable, q: Query, p: Plan, id: MemoryId)
    requires Distinct(p.semantic) && Distinct(p.keyword) && q.semanticWeight == 1.0 && q.keywordWeight == 0.7
    requires id in p.near && |p.semantic| >= 1 && p.semantic[0] == id && id in mem
    ensures id !in p.kept && mem[id].importance == 0.0 ==> Score(mem, q, p, id) == 0.8 / 61.0
    ensures id !in p.kept && mem[id].importance == 1.0 ==> Score(mem, q, p, id) == 1.0 / 61.0
    ensures id in p.kept && |p.keyword| >= 1 && p.keyword[0] == id && mem[id].importance == 1.0 ==>
              Score(mem, q, p, id) == 1.7 / 61.0
  {
    FusedFirst();
    if id !in p.kept || (|p.keyword| >= 1 && p.keyword[0] == id) {
      ScoreIsFused(mem, q, p, id, 1, 1);
    }
  }

  lemma TermBound(weight: real, rank: Option<nat>)
    requires weight > 0.0 && (rank.Some? ==> rank.value >= 1)
    ensures 0.0 <= Term(weight, rank) <= weight / 61.0
    ensures rank.Some? ==> Term(weight, rank) > 0.0
  {
    if rank.Some? {
      QuotientAntitone(weight, 61.0, 60.0 + rank.value as real);
      assert weight / (60.0 + rank.value as real) > 0.0;
    }
  }

  lemma QuotientAntitone(w: real, a: real, b: real)
    requires w >= 0.0 && 0.0 < a <= b
    ensures w / b <= w / a
  {
    assert (w / a) * a == w && (w / b) * b == w;
    assert (w / b) * a <= (w / b) * b;
  }

  lemma FusedIsRanked(mem: MemoryTable, q: Query, distance: map<MemoryId, real>, relevance: map<MemoryId, real>,
                      p: Plan, id: MemoryId)
    requires Legal(mem, q, distance, relevance, p) && id in Fused(p)
    ensures SemanticRank(p, id).Some? || KeywordRank(p, id).Some?
  {
    RankAbsent(p.semantic, id);
    RankAbsent(p.keyword, id);
    assert id in p.near ==> id in Elements(p.semantic);
    assert id in p.kept ==> id in Elements(p.keyword);
  }

  // With the default weights every fused row scores in (0, 1.7 / 61].
  lemma ScoreBounds(mem: MemoryTable, q: Query, distance: map<MemoryId, real>, relevance: map<MemoryId, real>,
                    p: Plan, id: MemoryId)
    requires Legal(mem, q, distance, relevance, p) && id in Fused(p) && id in mem && 0.0 <= mem[id].importance <= 1.0
    requires q.semanticWeight == 1.0 && q.keywordWeight == 0.7
    ensures 0.0 < Score(mem, q, p, id) <= 1.7 / 61.0
  {
    FusedIsRanked(mem, q, distance, relevance, p, id);
    RankedScoreBounds(mem, q, p, id);
  }

  lemma RankedScoreBounds(mem: MemoryTable, q: Query, p: Plan, id: MemoryId)
    requires id in mem && 0.0 <= mem[id].importance <= 1.0 && (SemanticRank(p, id).Some? || KeywordRank(p, id).Some?)
    requires q.semanticWeight == 1.0 && q.keywordWeight == 0.7
    ensures 0.0 < Score(mem, q, p, id) <= 1.7 / 61.0
  {
    RankAbsent(p.semantic, id);
    RankAbsent(p.keyword, id);
    FusedScoreBound(q.semanticWeight, q.keywordWeight, SemanticRank(p, id), KeywordRank(p, id), mem[id].importance);
  }

  lemma FusedScoreBound(u: real, v: real, s: Option<nat>, k: Option<nat>, importance: real)
    requires u == 1.0 && v == 0.7
    requires (s.Some? || k.Some?) && (s.Some? ==> s.value >= 1) && (k.Some? ==> k.value >= 1)
             && 0.0 <= importance <= 1.0
    ensures 0.0 < Fuse(u, v, s, k, importance) <= 1.7 / 61.0
  {
    SumBound(u, v, s, k);
    WeighedBound(Term(u, s) + Term(v, k), importance);
  }

  lemma SumBound(u: real, v: real, s: Option<nat>, k: Option<nat>)
    requires u == 1.0 && v == 0.7
    requires (s.Some? || k.Some?) && (s.Some? ==> s.value >= 1) && (k.Some? ==> k.value >= 1)
    ensures 0.0 < Term(u, s) + Term(v, k) <= 1.7 / 61.0
  {
    TermBound(u, s);
    TermBound(v, k);
  }

  lemma WeighedBound(sum: real, importance: real)
    requires 0.0 < sum && 0.0 <= importance <= 1.0
    ensures 0.0 < Weighed(sum, importance) <= sum
  {
    ShrinkingProduct(sum, importance);
    assert Weighed(sum, importance) == 0.8 * sum + 0.2 * (sum * importance);
  }

  lemma ShrinkingProduct(sum: real, factor: real)
    requires 0.0 < sum && 0.0 <= factor <= 1.0
    ensures 0.0 <= sum * factor <= sum
  {
  }

  // Absent counts as worst.
  predicate NoWorse(a: Option<nat>, b: Option<nat>) {
    b.None? || (a.Some? && a.value <= b.value)
  }

  lemma TermMonotone(weight: real, a: Option<nat>, b: Option<nat>)
    requires weight >= 0.0 && NoWorse(a, b)
    ensures Term(weight, a) >= Term(weight, b) >= 0.0
  {
    if b.Some? {
      QuotientAntitone(weight, 60.0 + a.value as real, 60.0 + b.value as real);
    }
  }

  lemma FuseMonotone(u: real, v: real, s: Option<nat>, k: Option<nat>, f: real, t: Option<nat>, l: Option<nat>, g: real)
    requires u >= 0.0 && v >= 0.0 && NoWorse(s, t) && NoWorse(k, l) && 0.0 <= g <= f
    ensures Fuse(u, v, s, k, f) >= Fuse(u, v, t, l, g) >= 0.0
  {
    TermMonotone(u, s, t);
    TermMonotone(v, k, l);
    WeighedMonotone(Term(u, s) + Term(v, k), Term(u, t) + Term(v, l), f, g);
  }

  lemma WeighedMonotone(x: real, y: real, f: real, g: real)
    requires x >= y >= 0.0 && f >= g >= 0.0
    ensures Weighed(x, f) >= Weighed(y, g) >= 0.0
  {
    ProductMonotone(x, y, f, g);
    assert Weighed(x, f) == 0.8 * x + 0.2 * (x * f) && Weighed(y, g) == 0.8 * y + 0.2 * (y * g);
  }

  // A row ranked no worse in both lists, with no less importance, never scores below the other; so
  // in a sorted answer it can only come later on a tie.
  lemma DominanceIsRespected(mem: MemoryTable, q: Query, p: Plan, a: MemoryId, b: MemoryId)
    requires a in mem && b in mem && q.semanticWeight >= 0.0 && q.keywordWeight >= 0.0
    requires NoWorse(SemanticRank(p, a), SemanticRank(p, b)) && NoWorse(KeywordRank(p, a), KeywordRank(p, b))
    requires 0.0 <= mem[b].importance <= mem[a].importance
    ensures Score(mem, q, p, a) >= Score(mem, q, p, b) >= 0.0
  {
    FuseMonotone(q.semanticWeight, q.keywordWeight, SemanticRank(p, a), KeywordRank(p, a), mem[a].importance,
                 SemanticRank(p, b), KeywordRank(p, b), mem[b].importance);
  }

  lemma ProductMonotone(x: real, y: real, f: real, g: real)
    requires x >= y >= 0.0 && f >= g >= 0.0
    ensures x * f >= y * g >= 0.0
  {
    assert x * f >= y * f >= y * g;
  }

  function Closer(distance: map<MemoryId, real>, id: MemoryId): set<MemoryId>
    requires id in distance
  {
    set x | x in distance && distance[x] < distance[id]
  }

  function AsClose(distance: map<MemoryId, real>, id: MemoryId): set<MemoryId>
    requires id in distance
  {
    set x | x in distance && x != id && distance[x] <= distance[id]
  }

  // Whatever the database chooses: no row of the semantic list has as many as fifty strictly closer ones,
  // and every row with fewer than fifty others as close is in it.
  lemma SemanticListIsClosest(mem: MemoryTable, q: Query, distance: map<MemoryId, real>, relevance: map<MemoryId, real>,
                              p: Plan, id: MemoryId)
    requires Legal(mem, q, distance, relevance, p) && id in mem && mem[id].tenant == q.scope.tenant
    requires mem[id].subject == q.scope.subject && mem[id].namespace == q.scope.namespace
    requires mem[id].expiresAt.Some? ==> mem[id].expiresAt.value > q.now
    ensures id in distance
    ensures id in p.near ==> |Closer(distance, id)| < 50
    ensures |AsClose(distance, id)| < 50 ==> id in p.near
  {
    assert id in Scoped(mem, q.scope, q.now);
    if id in p.near {
      SubsetIsSmaller(Closer(distance, id), p.near - {id});
    } else {
      SubsetIsSmaller(p.near, AsClose(distance, id));
      DistinctCardinality(p.semantic);
      if |p.semantic| <= LIST_LIMIT {
        SubsetOfSameSize(p.near, distance.Keys);
      }
    }
  }
}
