/** Hop-bounded breadth-first search (`backend/graph/queries.py`, `_bfs_services`) over any step function. */
module BreadthFirst {
  import opened Ordering

  type Next = string -> seq<string>

  /** A walk of exactly h steps. */
  ghost predicate Walk(next: Next, h: nat, x: string, y: string) {
    if h == 0 then x == y else exists z :: Walk(next, h - 1, x, z) && y in next(z)
  }

  /** The shortest walk from x to y has h steps. */
  ghost predicate Distance(next: Next, h: nat, x: string, y: string) {
    Walk(next, h, x, y) && forall n: nat :: n < h ==> !Walk(next, n, x, y)
  }

  type Buckets = map<int, seq<string>>

  predicate InBucket(b: Buckets, h: int, y: string) { h in b && y in b[h] }

  /** Bucket h holds, sorted and once each, exactly the keys at distance h, for 1 <= h <= maxHops;
      empty buckets are absent. */
  ghost predicate ExactBuckets(next: Next, start: string, maxHops: int, b: Buckets) {
    && (forall h <- b :: 1 <= h <= maxHops && b[h] != [] && Distinct(b[h]) && SortedBy(b[h], StringLeq))
    && (forall h: nat, y :: InBucket(b, h, y) <==> 1 <= h <= maxHops && Distance(next, h, start, y))
  }

  datatype Entry = Entry(key: string, hop: nat)

  type Hops = map<string, nat>

  ghost function Open(frontier: seq<Entry>): set<string> { set e | e in frontier :: e.key }

  /** The queue holds seen keys at their hop count, in order, all at `level` or one further; no seen
      key is beyond that. */
  ghost predicate Queued(frontier: seq<Entry>, hops: Hops, level: nat) {
    && (forall e <- frontier :: e.key in hops && hops[e.key] == e.hop && level <= e.hop <= level + 1)
    && (forall i, j :: 0 <= i < j < |frontier| ==> frontier[i].hop <= frontier[j].hop)
    && (forall k <- hops :: hops[k] <= level + 1)
  }

  /** Every seen key was reached by a walk of its hop count. */
  ghost predicate Sound(next: Next, start: string, maxHops: int, hops: Hops) {
    && start in hops && hops[start] == 0
    && (forall k <- hops :: Walk(next, hops[k], start, k) && (k == start || 1 <= hops[k] <= maxHops))
  }

  /** All neighbours of a key are seen, at most one hop further. */
  ghost predicate Expanded(next: Next, hops: Hops, key: string)
    requires key in hops
  {
    forall y <- next(key) :: y in hops && hops[y] <= hops[key] + 1
  }

  /** Keys no longer open are expanded, unless they lie at the bound. */
  ghost predicate AllExpanded(next: Next, maxHops: int, hops: Hops, open: set<string>) {
    forall k <- hops | k !in open && hops[k] < maxHops :: Expanded(next, hops, k)
  }

  /** The buckets hold the seen keys other than the start, by hop count. */
  ghost predicate Filed(b: Buckets, start: string, hops: Hops) {
    && (forall h <- b :: b[h] != [] && Distinct(b[h]))
    && (forall h, y :: InBucket(b, h, y) <==> y in hops && y != start && hops[y] == h)
  }

  function FiledAt(b: Buckets, h: int): seq<string> { if h in b then b[h] else [] }

  lemma FilingOneMore(b: Buckets, start: string, hops: Hops, h: nat, y: string)
    requires Filed(b, start, hops) && y !in hops && y != start
    ensures Filed(b[h := FiledAt(b, h) + [y]], start, hops[y := h])
  {
    var more := FiledAt(b, h) + [y];
    var b' := b[h := more];
    assert forall x :: x in more <==> InBucket(b, h, x) || x == y;
    forall g, x ensures InBucket(b', g, x) <==> InBucket(b, g, x) || (g == h && x == y) {}
    forall i | 0 <= i < |more| - 1 ensures more[i] != y {
      assert InBucket(b, h, more[i]);
    }
  }

  lemma EnqueueKeepsQueued(frontier: seq<Entry>, hops: Hops, level: nat, key: string)
    requires Queued(frontier, hops, level) && key !in hops
    ensures Queued(frontier + [Entry(key, level + 1)], hops[key := level + 1], level)
  {
    forall i | 0 <= i < |frontier| ensures frontier[i].hop <= level + 1 {
      assert frontier[i] in frontier;
    }
  }

  lemma EnqueueKeepsExpanded(next: Next, maxHops: int, hops: Hops, open: set<string>, key: string, hop: nat)
    requires AllExpanded(next, maxHops, hops, open) && key !in hops
    ensures AllExpanded(next, maxHops, hops[key := hop], open + {key})
  {
    forall k <- hops | k !in open && hops[k] < maxHops ensures Expanded(next, hops[key := hop], k) {
      assert Expanded(next, hops, k);
    }
  }

  /** Taking the front entry moves the level to its hop. */
  lemma DequeueKeepsQueued(frontier: seq<Entry>, hops: Hops, level: nat)
    requires Queued(frontier, hops, level) && frontier != []
    ensures Queued(frontier[1..], hops, frontier[0].hop)
  {
    assert frontier[0] in frontier;
    forall e <- frontier[1..] ensures e in frontier && frontier[0].hop <= e.hop {
      var i :| 0 <= i < |frontier[1..]| && frontier[1..][i] == e;
      assert frontier[i + 1] == e;
    }
  }

  lemma OpenSplits(frontier: seq<Entry>)
    requires frontier != []
    ensures Open(frontier) == {frontier[0].key} + Open(frontier[1..])
  {
    assert frontier == [frontier[0]] + frontier[1..];
  }

  lemma OpenAppends(frontier: seq<Entry>, e: Entry)
    ensures Open(frontier + [e]) == Open(frontier) + {e.key}
  {}

  /** Once nothing waits, every key within reach is seen at no more hops than any walk takes. */
  lemma {:induction false} ReachIsSeen(next: Next, start: string, maxHops: int, hops: Hops, h: nat, y: string)
    requires Sound(next, start, maxHops, hops) && AllExpanded(next, maxHops, hops, {})
    requires Walk(next, h, start, y) && h <= maxHops
    ensures y in hops && hops[y] <= h
  {
    if h > 0 {
      var z :| Walk(next, h - 1, start, z) && y in next(z);
      ReachIsSeen(next, start, maxHops, hops, h - 1, z);
      assert Expanded(next, hops, z);
    }
  }

  lemma SeenAtDistance(next: Next, start: string, maxHops: int, hops: Hops, h: nat, y: string)
    requires Sound(next, start, maxHops, hops) && AllExpanded(next, maxHops, hops, {})
    requires 1 <= h <= maxHops
    ensures (y in hops && y != start && hops[y] == h) <==> Distance(next, h, start, y)
  {
    if y in hops && hops[y] == h {
      forall n: nat | n < h ensures !Walk(next, n, start, y) {
        if Walk(next, n, start, y) {
          ReachIsSeen(next, start, maxHops, hops, n, y);
        }
      }
    }
    if Distance(next, h, start, y) {
      ReachIsSeen(next, start, maxHops, hops, h, y);
      assert Walk(next, hops[y], start, y);
      assert Walk(next, 0, start, start);
    }
  }

  /** What holds between steps: `open` are the keys still to be expanded. */
  ghost predicate Searched(next: Next, start: string, maxHops: int, byHop: Buckets, frontier: seq<Entry>,
                           hops: Hops, level: nat, open: set<string>) {
    && Sound(next, start, maxHops, hops) && Filed(byHop, start, hops)
    && Queued(frontier, hops, level) && AllExpanded(next, maxHops, hops, open)
  }

  lemma Discovered(next: Next, start: string, maxHops: int, byHop: Buckets, frontier: seq<Entry>, hops: Hops,
                   hop: nat, open: set<string>, key: string, nxt: string)
    requires Searched(next, start, maxHops, byHop, frontier, hops, hop, open) && hop < maxHops
    requires key in hops && hops[key] == hop && nxt in next(key) && nxt !in hops
    ensures Searched(next, start, maxHops, byHop[hop + 1 := FiledAt(byHop, hop + 1) + [nxt]],
                     frontier + [Entry(nxt, hop + 1)], hops[nxt := hop + 1], hop, open + {nxt})
  {
    WalkOnce(next, hop, start, key, nxt);
    SoundWithOneMore(next, start, maxHops, hops, hop + 1, nxt);
    FilingOneMore(byHop, start, hops, hop + 1, nxt);
    EnqueueKeepsQueued(frontier, hops, hop, nxt);
    EnqueueKeepsExpanded(next, maxHops, hops, open, nxt, hop + 1);
  }

  lemma SoundWithOneMore(next: Next, start: string, maxHops: int, hops: Hops, h: nat, y: string)
    requires Sound(next, start, maxHops, hops) && y !in hops && Walk(next, h, start, y) && 1 <= h <= maxHops
    ensures Sound(next, start, maxHops, hops[y := h])
  {}

  lemma DoneExpanding(next: Next, maxHops: int, hops: Hops, open: set<string>, key: string)
    requires AllExpanded(next, maxHops, hops, {key} + open)
    requires key in hops && Expanded(next, hops, key)
    ensures AllExpanded(next, maxHops, hops, open)
  {}

  ghost predicate AllWithin(keys: seq<string>, hops: Hops, most: nat) {
    forall i :: 0 <= i < |keys| ==> keys[i] in hops && hops[keys[i]] <= most
  }

  /** Visit the neighbours of one dequeued key. */
  method Visit(next: Next, start: string, maxHops: int, key: string, hop: nat, seen: set<string>, byHop: Buckets,
               frontier: seq<Entry>, ghost hops: Hops, ghost universe: set<string>)
    returns (seen': set<string>, byHop': Buckets, frontier': seq<Entry>, ghost hops': Hops)
    requires hop < maxHops && key in hops && hops[key] == hop && seen == hops.Keys
    requires Searched(next, start, maxHops, byHop, frontier, hops, hop, {key} + Open(frontier))
    requires seen <= universe && forall y <- next(key) :: y in universe
    ensures seen' == hops'.Keys && seen <= seen' <= universe
    ensures Searched(next, start, maxHops, byHop', frontier', hops', hop, Open(frontier'))
    ensures seen' == seen ==> frontier' == frontier
  {
    seen', byHop', frontier', hops' := seen, byHop, frontier, hops;
    var neighbors := next(key);
    for i := 0 to |neighbors|
      invariant seen' == hops'.Keys && seen <= seen' <= universe && key in hops' && hops'[key] == hop
      invariant Searched(next, start, maxHops, byHop', frontier', hops', hop, {key} + Open(frontier'))
      invariant AllWithin(neighbors[..i], hops', hop + 1)
      invariant seen' == seen ==> frontier' == frontier
    {
      var nxt := neighbors[i];
      assert nxt in next(key);
      AnotherWithin(neighbors, i, hops', hop);
      SeenWithin(frontier', hops', hop);
      if nxt !in seen' {
        Discovered(next, start, maxHops, byHop', frontier', hops', hop, {key} + Open(frontier'), key, nxt);
        OpenAppends(frontier', Entry(nxt, hop + 1));
        assert {key} + Open(frontier') + {nxt} == {key} + Open(frontier' + [Entry(nxt, hop + 1)]);
        seen' := seen' + {nxt};
        byHop' := byHop'[hop + 1 := FiledAt(byHop', hop + 1) + [nxt]];
        frontier' := frontier' + [Entry(nxt, hop + 1)];
        hops' := hops'[nxt := hop + 1];
      }
    }
    assert neighbors[..|neighbors|] == neighbors;
    assert Expanded(next, hops', key);
    DoneExpanding(next, maxHops, hops', Open(frontier'), key);
  }

  lemma SeenWithin(frontier: seq<Entry>, hops: Hops, level: nat)
    requires Queued(frontier, hops, level)
    ensures forall k <- hops :: hops[k] <= level + 1
  {}

  lemma AnotherWithin(keys: seq<string>, i: nat, hops: Hops, hop: nat)
    requires i < |keys| && AllWithin(keys[..i], hops, hop + 1)
    ensures keys[i] in hops && hops[keys[i]] <= hop + 1 ==> AllWithin(keys[..i + 1], hops, hop + 1)
    ensures keys[i] !in hops ==> AllWithin(keys[..i + 1], hops[keys[i] := hop + 1], hop + 1)
  {
    forall j | 0 <= j < i ensures keys[j] in hops && hops[keys[j]] <= hop + 1 {
      assert keys[..i][j] == keys[j];
    }
  }

  lemma WalkOnce(next: Next, h: nat, x: string, z: string, y: string)
    requires Walk(next, h, x, z) && y in next(z)
    ensures Walk(next, h + 1, x, y)
  {}

  /** The search. `universe` is any finite set of keys closed under the step function. */
  method Search(next: Next, start: string, maxHops: int, ghost universe: set<string>) returns (byHop: Buckets)
    requires start in universe && forall k <- universe, y <- next(k) :: y in universe
    ensures ExactBuckets(next, start, maxHops, byHop)
  {
    var seen := {start};
    byHop := map[];
    var frontier := [Entry(start, 0)];
    ghost var hops: Hops, level := map[start := 0], 0;
    assert Walk(next, 0, start, start);
    assert frontier[0] in frontier;
    while frontier != []
      invariant seen == hops.Keys && seen <= universe
      invariant Searched(next, start, maxHops, byHop, frontier, hops, level, Open(frontier))
      decreases universe - seen, |frontier|
    {
      var Entry(key, hop) := frontier[0];
      assert frontier[0] in frontier;
      DequeueKeepsQueued(frontier, hops, level);
      OpenSplits(frontier);
      frontier, level := frontier[1..], hop;
      if hop < maxHops {
        ghost var before := seen;
        seen, byHop, frontier, hops := Visit(next, start, maxHops, key, hop, seen, byHop, frontier, hops, universe);
        assert seen != before ==> universe - seen < universe - before;
      }
    }
    BucketsAreExact(next, start, maxHops, hops, byHop);
    byHop := SortBuckets(byHop);
  }

  function SortBuckets(b: Buckets): Buckets { map h | h in b :: Sort(b[h], StringLeq) }

  lemma BucketsAreExact(next: Next, start: string, maxHops: int, hops: Hops, b: Buckets)
    requires Sound(next, start, maxHops, hops) && AllExpanded(next, maxHops, hops, {}) && Filed(b, start, hops)
    ensures ExactBuckets(next, start, maxHops, SortBuckets(b))
  {
    forall h <- b
      ensures 1 <= h <= maxHops && SortBuckets(b)[h] != []
      ensures Distinct(SortBuckets(b)[h]) && SortedBy(SortBuckets(b)[h], StringLeq)
    {
      assert InBucket(b, h, b[h][0]);
      SortedBucket(b[h]);
    }
    forall h: nat, y
      ensures InBucket(SortBuckets(b), h, y) <==> 1 <= h <= maxHops && Distance(next, h, start, y)
    {
      FiledMembers(b, start, hops, h, y);
      if 1 <= h <= maxHops {
        SeenAtDistance(next, start, maxHops, hops, h, y);
      }
      assert y in hops && y != start ==> 1 <= hops[y] <= maxHops;
    }
  }

  lemma FiledMembers(b: Buckets, start: string, hops: Hops, h: nat, y: string)
    requires Filed(b, start, hops)
    ensures InBucket(SortBuckets(b), h, y) <==> y in hops && y != start && hops[y] == h
  {
    if h in b {
      SortedBucket(b[h]);
    }
    assert InBucket(b, h, y) <==> y in hops && y != start && hops[y] == h;
  }

  lemma SortedBucket(keys: seq<string>)
    requires keys != [] && Distinct(keys)
    ensures var s := Sort(keys, StringLeq);
            s != [] && Distinct(s) && SortedBy(s, StringLeq) && forall y :: y in s <==> y in keys
  {
    StringOrderIsTotal();
    SortSorts(keys, StringLeq);
    SortKeepsDistinct(keys, StringLeq);
    SameMembers(Sort(keys, StringLeq), keys);
  }

  // ----- Walks backwards -----

  ghost predicate Converse(next: Next, back: Next) { forall x, y :: y in next(x) <==> x in back(y) }

  lemma {:induction false} WalksJoin(next: Next, a: nat, b: nat, x: string, y: string, z: string)
    requires Walk(next, a, x, y) && Walk(next, b, y, z)
    ensures Walk(next, a + b, x, z)
    decreases b
  {
    if b > 0 {
      var v :| Walk(next, b - 1, y, v) && z in next(v);
      WalksJoin(next, a, b - 1, x, y, v);
      WalkOnce(next, a + b - 1, x, v, z);
    }
  }

  lemma {:induction false} WalkReverses(next: Next, back: Next, h: nat, x: string, y: string)
    requires Converse(next, back) && Walk(next, h, x, y)
    ensures Walk(back, h, y, x)
  {
    if h > 0 {
      var z :| Walk(next, h - 1, x, z) && y in next(z);
      WalkReverses(next, back, h - 1, x, z);
      WalkOnce(back, 0, y, y, z);
      WalksJoin(back, 1, h - 1, y, z, x);
    }
  }

  lemma DistanceReverses(next: Next, back: Next, h: nat, x: string, y: string)
    requires Converse(next, back)
    ensures Distance(next, h, x, y) <==> Distance(back, h, y, x)
  {
    forall n: nat ensures Walk(next, n, x, y) <==> Walk(back, n, y, x) {
      if Walk(next, n, x, y) {
        WalkReverses(next, back, n, x, y);
      }
      if Walk(back, n, y, x) {
        WalkReverses(back, next, n, y, x);
      }
    }
  }
}
