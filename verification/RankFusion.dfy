/** Reciprocal-rank fusion (`backend/retrieval/inmemory.py`, `_ranked_ids` and `_rrf_fuse`). */
module RankFusion {
  import opened Ordering

  const RRF_K := 60

  datatype Scored = Scored(id: string, score: real)

  /** Higher score first, ties by id. */
  predicate ScoredLeq(a: Scored, b: Scored) {
    a.score > b.score || (a.score == b.score && StringLeq(a.id, b.id))
  }

  lemma ScoredOrderIsTotal()
    ensures TotalOrder(ScoredLeq)
  {
    StringOrderIsTotal();
    assert forall x, y :: ScoredLeq(x, y) && ScoredLeq(y, x) ==> StringLeq(x.id, y.id) && StringLeq(y.id, x.id);
  }

  type Scores = map<string, real>

  predicate Ahead(scores: Scores, a: string, b: string)
    requires a in scores && b in scores
  {
    a != b && ScoredLeq(Scored(a, scores[a]), Scored(b, scores[b]))
  }

  /** The ids that outrank `id`: positive scores that come first. */
  ghost function Outranking(scores: Scores, id: string): set<string>
    requires id in scores
  {
    set a | a in scores && scores[a] > 0.0 && Ahead(scores, a, id)
  }

  /** `id`'s share from one ranking, by counting who outranks it: 1 / (60 + rank). */
  ghost function Contribution(scores: Scores, id: string): real {
    if id in scores && scores[id] > 0.0
    then 1.0 / (RRF_K + 1 + |Outranking(scores, id)|) as real
    else 0.0
  }

  ghost predicate IsRanking(scores: Scores, r: seq<string>) {
    && Distinct(r)
    && (forall id :: id in r <==> id in scores && scores[id] > 0.0)
    && (forall i, j :: 0 <= i < j < |r| ==> Ahead(scores, r[i], r[j]))
  }

  function Ids(s: seq<Scored>): seq<string> {
    seq(|s|, i requires 0 <= i < |s| => s[i].id)
  }

  /** Ids by score descending, zero scores dropped, whatever order the map is walked in. */
  method RankedIds(scores: Scores) returns (r: seq<string>)
    ensures IsRanking(scores, r)
    ensures forall i, j :: 0 <= i < j < |r| ==>
              scores[r[i]] > scores[r[j]] || (scores[r[i]] == scores[r[j]] && StringLeq(r[i], r[j]))
  {
    var scored := Positive(scores);
    r := Ids(Sort(scored, ScoredLeq));
    SortedRanks(scores, scored);
    AllBestFirst(scores, r);
  }

  /** The ids with a positive score, each once, in whatever order the map is walked in. */
  method Positive(scores: Scores) returns (scored: seq<Scored>)
    ensures ArePositive(scores, scored, scores.Keys)
  {
    scored := [];
    var left := scores.Keys;
    while left != {}
      invariant left <= scores.Keys && ArePositive(scores, scored, scores.Keys - left)
    {
      var id :| id in left;
      left := left - {id};
      if scores[id] > 0.0 {
        scored := scored + [Scored(id, scores[id])];
      }
    }
  }

  ghost predicate ArePositive(scores: Scores, scored: seq<Scored>, among: set<string>) {
    && Distinct(scored) && among <= scores.Keys
    && (forall i :: 0 <= i < |scored| ==> scored[i].id in among && scores[scored[i].id] == scored[i].score > 0.0)
    && (forall id <- among | scores[id] > 0.0 :: Scored(id, scores[id]) in scored)
  }

  lemma SortedRanks(scores: Scores, scored: seq<Scored>)
    requires ArePositive(scores, scored, scores.Keys)
    ensures IsRanking(scores, Ids(Sort(scored, ScoredLeq)))
  {
    var sorted := Sort(scored, ScoredLeq);
    ScoredOrderIsTotal();
    SortSorts(scored, ScoredLeq);
    SortKeepsDistinct(scored, ScoredLeq);
    SameMembers(sorted, scored);
    RankingFromSorted(scores, sorted);
  }

  lemma AllBestFirst(scores: Scores, r: seq<string>)
    requires IsRanking(scores, r)
    ensures forall i, j :: 0 <= i < j < |r| ==>
              scores[r[i]] > scores[r[j]] || (scores[r[i]] == scores[r[j]] && StringLeq(r[i], r[j]))
  {
    forall i, j | 0 <= i < j < |r|
      ensures scores[r[i]] > scores[r[j]] || (scores[r[i]] == scores[r[j]] && StringLeq(r[i], r[j]))
    {
      BestComesFirst(scores, r, i, j);
    }
  }

  lemma RankingFromSorted(scores: Scores, sorted: seq<Scored>)
    requires SortedBy(sorted, ScoredLeq) && Distinct(sorted)
    requires forall x <- sorted :: x.id in scores && scores[x.id] == x.score > 0.0
    requires forall id <- scores | scores[id] > 0.0 :: Scored(id, scores[id]) in sorted
    ensures IsRanking(scores, Ids(sorted))
  {
    var r := Ids(sorted);
    forall i, j | 0 <= i < j < |r| ensures r[i] != r[j] && Ahead(scores, r[i], r[j]) {
      assert sorted[i] in sorted && sorted[j] in sorted && sorted[i] != sorted[j];
      assert ScoredLeq(sorted[i], sorted[j]);
    }
    forall id <- scores | scores[id] > 0.0 ensures id in r {
      var i :| 0 <= i < |sorted| && sorted[i] == Scored(id, scores[id]);
      assert r[i] == id;
    }
    forall id <- r ensures id in scores && scores[id] > 0.0 {
      var i :| 0 <= i < |r| && r[i] == id;
      assert sorted[i] in sorted;
    }
  }

  /** The best come first: a higher score, or the same score and the smaller id. */
  lemma BestComesFirst(scores: Scores, r: seq<string>, i: nat, j: nat)
    requires IsRanking(scores, r) && i < |r| && j < |r| && i != j
    ensures i < j <==>
            scores[r[i]] > scores[r[j]] || (scores[r[i]] == scores[r[j]] && StringLeq(r[i], r[j]))
  {
    assert r[i] != r[j] && Ahead(scores, r[if i < j then i else j], r[if i < j then j else i]);
    ScoredOrderIsTotal();
    StringLeqTotal(r[i], r[j]);
  }

  /** The share of the id in place i, counted from 0, is 1 / (61 + i). */
  lemma ShareOfPlace(scores: Scores, r: seq<string>, i: nat)
    requires IsRanking(scores, r) && i < |r|
    ensures Contribution(scores, r[i]) * (61 + i) as real == 1.0
  {
    assert r[i] in r;
    PlaceIsRank(scores, r, i);
  }

  /** The place an id takes in a ranking is the number of ids that outrank it. */
  lemma PlaceIsRank(scores: Scores, r: seq<string>, i: nat)
    requires IsRanking(scores, r) && i < |r|
    ensures |Outranking(scores, r[i])| == i
  {
    assert r[i] in r;
    var before := set k | 0 <= k < i :: r[k];
    PrefixSize(r, i);
    forall a <- Outranking(scores, r[i]) ensures a in before {
      assert a in r;
      var k :| 0 <= k < |r| && r[k] == a;
      if k > i {
        assert Ahead(scores, r[i], r[k]);
        ScoredOrderIsTotal();
        assert false;
      }
    }
    assert Outranking(scores, r[i]) == before;
  }

  lemma {:induction false} PrefixSize(r: seq<string>, i: nat)
    requires Distinct(r) && i <= |r|
    ensures |set k | 0 <= k < i :: r[k]| == i
  {
    if i > 0 {
      PrefixSize(r, i - 1);
      var smaller := set k | 0 <= k < i - 1 :: r[k];
      assert (set k | 0 <= k < i :: r[k]) == smaller + {r[i - 1]};
    }
  }

  function Get(m: Scores, id: string): real { if id in m then m[id] else 0.0 }

  lemma NextInPrefix(r: seq<string>, i: nat)
    requires Distinct(r) && i < |r|
    ensures r[i] !in r[..i]
    ensures forall x :: x in r[..i + 1] <==> x in r[..i] || x == r[i]
  {
    assert r[..i + 1] == r[..i] + [r[i]];
  }

  /** Add one ranking's shares to the running fused scores. */
  method Accumulate(rrf: Scores, ranking: seq<string>, ghost scores: Scores) returns (rrf': Scores)
    requires IsRanking(scores, ranking)
    ensures rrf'.Keys == rrf.Keys + set id | id in ranking
    ensures forall id :: Get(rrf', id) == Get(rrf, id) + Contribution(scores, id)
  {
    rrf' := rrf;
    for i := 0 to |ranking|
      invariant rrf'.Keys == rrf.Keys + set id | id in ranking[..i]
      invariant forall id :: Get(rrf', id) == Get(rrf, id) + if id in ranking[..i] then Contribution(scores, id)
          else 0.0
    {
      var id := ranking[i];
      NextInPrefix(ranking, i);
      var share := 1.0 / (RRF_K + 1 + i) as real;
      assert share == Contribution(scores, id) by {
        assert id in ranking;
        PlaceIsRank(scores, ranking, i);
      }
      rrf' := rrf'[id := Get(rrf', id) + share];
    }
    assert ranking[..|ranking|] == ranking;
  }

  ghost function FusedScore(lexical: Scores, dense: Scores, id: string): real {
    Contribution(lexical, id) + Contribution(dense, id)
  }

  ghost predicate Ranked(scores: Scores, id: string) { id in scores && scores[id] > 0.0 }

  lemma ContributionSign(scores: Scores, id: string)
    ensures if Ranked(scores, id) then Contribution(scores, id) > 0.0 else Contribution(scores, id) == 0.0
  {}

  /** Fuse a lexical and a dense ranking: every ranked id once, with the sum of its shares. */
  method Fuse(lexicalRanking: seq<string>, denseRanking: seq<string>, ghost lexical: Scores, ghost dense: Scores)
    returns (fused: Scores)
    requires IsRanking(lexical, lexicalRanking) && IsRanking(dense, denseRanking)
    ensures forall id :: id in fused <==> Ranked(lexical, id) || Ranked(dense, id)
    ensures forall id :: id in fused ==> fused[id] == FusedScore(lexical, dense, id) > 0.0
  {
    var one := Accumulate(map[], lexicalRanking, lexical);
    fused := Accumulate(one, denseRanking, dense);
    forall id ensures id in fused ==> fused[id] == FusedScore(lexical, dense, id) > 0.0 {
      if id in fused {
        assert id in lexicalRanking || id in denseRanking;
        assert Get(fused, id) == Get(one, id) + Contribution(dense, id);
        assert Get(one, id) == Get(map[], id) + Contribution(lexical, id);
        ContributionSign(lexical, id);
        ContributionSign(dense, id);
      }
    }
  }

  /** An id ahead of another in every ranking that holds the other has the larger fused score. */
  lemma DominanceRaisesScore(lexical: Scores, dense: Scores, x: string, y: string)
    requires Ranked(lexical, y) || Ranked(dense, y)
    requires Ranked(lexical, y) ==> Ranked(lexical, x) && Ahead(lexical, x, y)
    requires Ranked(dense, y) ==> Ranked(dense, x) && Ahead(dense, x, y)
    ensures FusedScore(lexical, dense, x) > FusedScore(lexical, dense, y)
  {
    DominanceInOne(lexical, x, y);
    DominanceInOne(dense, x, y);
  }

  lemma DominanceInOne(scores: Scores, x: string, y: string)
    requires Ranked(scores, y) ==> Ranked(scores, x) && Ahead(scores, x, y)
    ensures Contribution(scores, x) >= Contribution(scores, y)
    ensures Ranked(scores, y) ==> Contribution(scores, x) > Contribution(scores, y)
  {
    if Ranked(scores, y) {
      ScoredOrderIsTotal();
      var above, below := Outranking(scores, x), Outranking(scores, y);
      forall a <- above ensures a in below {
        assert ScoredLeq(Scored(a, scores[a]), Scored(y, scores[y]));
        if a == y {
          assert false;
        }
      }
      assert x in below && x !in above;
      ProperSubsetIsSmaller(above, below);
      assert RRF_K + 1 + |above| < RRF_K + 1 + |below|;
    }
  }

  lemma ProperSubsetIsSmaller(a: set<string>, b: set<string>)
    requires a < b
    ensures |a| < |b|
  {
    assert b - a != {};
    var x :| x in b - a;
    SubsetIsNotLarger(a, b - {x});
  }

  lemma {:induction false} SubsetIsNotLarger(a: set<string>, b: set<string>)
    requires a <= b
    ensures |a| <= |b|
  {
    if a != {} {
      var x :| x in a;
      SubsetIsNotLarger(a - {x}, b - {x});
    }
  }

  /** A fused result: RRF score descending, then lexical score descending, then chunk id. */
  datatype Placed = Placed(score: real, lexical: real, id: string)

  predicate PlacedLeq(a: Placed, b: Placed) {
    a.score > b.score
    || (a.score == b.score && (a.lexical > b.lexical || (a.lexical == b.lexical && StringLeq(a.id, b.id))))
  }

  lemma PlacedOrderIsTotal()
    ensures TotalOrder(PlacedLeq)
  {
    StringOrderIsTotal();
    assert forall x, y :: PlacedLeq(x, y) && PlacedLeq(y, x) ==> StringLeq(x.id, y.id) && StringLeq(y.id, x.id);
  }

  ghost function PlaceOf(lexical: Scores, dense: Scores, id: string): Placed {
    Placed(FusedScore(lexical, dense, id), Get(lexical, id), id)
  }

  ghost predicate Found(lexical: Scores, dense: Scores, id: string) {
    Ranked(lexical, id) || Ranked(dense, id)
  }

  /** Every id found by either half, once, with its fused score, in the total result order. */
  ghost predicate IsFusedOrder(lexical: Scores, dense: Scores, answer: seq<Placed>) {
    && SortedBy(answer, PlacedLeq) && Distinct(answer)
    && (forall p <- answer :: Found(lexical, dense, p.id) && p == PlaceOf(lexical, dense, p.id))
    && (forall id :: Found(lexical, dense, id) ==> PlaceOf(lexical, dense, id) in answer)
  }

  lemma FusedOrderUnique(lexical: Scores, dense: Scores, a: seq<Placed>, b: seq<Placed>)
    requires IsFusedOrder(lexical, dense, a) && IsFusedOrder(lexical, dense, b)
    ensures a == b
  {
    PlacedOrderIsTotal();
    DistinctSameContents(a, b);
    SortedArrangementUnique(a, b, PlacedLeq);
  }

  lemma SortedPlacement(unsorted: seq<Placed>)
    requires Distinct(unsorted)
    ensures var full := Sort(unsorted, PlacedLeq);
            SortedBy(full, PlacedLeq) && Distinct(full) && forall p :: p in full <==> p in unsorted
  {
    PlacedOrderIsTotal();
    SortSorts(unsorted, PlacedLeq);
    SortKeepsDistinct(unsorted, PlacedLeq);
    SameMembers(Sort(unsorted, PlacedLeq), unsorted);
  }

  lemma PlacementIsFusedOrder(lexical: Scores, dense: Scores, fused: Scores, order: seq<string>, unsorted: seq<Placed>)
    requires forall id :: id in fused <==> Found(lexical, dense, id)
    requires forall id <- fused :: fused[id] == FusedScore(lexical, dense, id) > 0.0
    requires IsRanking(fused, order) && |unsorted| == |order|
    requires forall i :: 0 <= i < |order| ==>
        unsorted[i] == Placed(Get(fused, order[i]), Get(lexical, order[i]), order[i])
    ensures IsFusedOrder(lexical, dense, Sort(unsorted, PlacedLeq))
  {
    var full := Sort(unsorted, PlacedLeq);
    forall i, j | 0 <= i < j < |unsorted| ensures unsorted[i] != unsorted[j] {
      assert unsorted[i].id == order[i] && unsorted[j].id == order[j];
    }
    SortedPlacement(unsorted);
    forall p <- full ensures Found(lexical, dense, p.id) && p == PlaceOf(lexical, dense, p.id) {
      var i :| 0 <= i < |unsorted| && unsorted[i] == p;
      assert order[i] in order;
    }
    forall id | Found(lexical, dense, id) ensures PlaceOf(lexical, dense, id) in full {
      assert id in order;
      var i :| 0 <= i < |order| && order[i] == id;
      assert unsorted[i] == PlaceOf(lexical, dense, id);
    }
  }

  /** An id ahead of another in every ranking that holds the other comes first in the final order. */
  lemma DominanceOrdersAnswer(lexical: Scores, dense: Scores, answer: seq<Placed>, i: nat, j: nat)
    requires IsFusedOrder(lexical, dense, answer) && i < |answer| && j < |answer|
    requires var x, y := answer[i].id, answer[j].id;
             && (Ranked(lexical, y) ==> Ranked(lexical, x) && Ahead(lexical, x, y))
             && (Ranked(dense, y) ==> Ranked(dense, x) && Ahead(dense, x, y))
    ensures i < j
  {
    assert answer[i] in answer && answer[j] in answer;
    DominanceRaisesScore(lexical, dense, answer[i].id, answer[j].id);
  }
}
