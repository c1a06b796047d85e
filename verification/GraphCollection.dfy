/** Collecting per-file results into one graph without repeats (`backend/ingestion/pipeline.py`). */
module GraphCollection {
  import opened Domain
  import EstatePartition
  import EstateLoad

  /** Append the elements whose key is new, keeping the first of each. */
  ghost function AddNew<T, K>(have: seq<T>, more: seq<T>, key: T -> K): seq<T> {
    if more == [] then have
    else AddOne(AddNew(have, more[..|more| - 1], key), more[|more| - 1], key)
  }

  ghost function AddOne<T, K>(have: seq<T>, x: T, key: T -> K): seq<T> {
    if exists i :: 0 <= i < |have| && key(have[i]) == key(x) then have else have + [x]
  }

  ghost function KeysIn<T, K>(xs: seq<T>, key: T -> K): set<K> { set x | x in xs :: key(x) }

  ghost predicate UniqueBy<T(!new), K>(xs: seq<T>, key: T -> K) {
    forall i, j :: 0 <= i < j < |xs| ==> key(xs[i]) != key(xs[j])
  }

  /** Nothing is lost, nothing invented, and no key repeats. */
  lemma {:induction false} AddNewIsUnion<T(!new), K>(have: seq<T>, more: seq<T>, key: T -> K)
    requires UniqueBy(have, key)
    ensures UniqueBy(AddNew(have, more, key), key) && have <= AddNew(have, more, key)
    ensures KeysIn(AddNew(have, more, key), key) == KeysIn(have, key) + KeysIn(more, key)
    ensures forall x <- AddNew(have, more, key) :: x in have || x in more
  {
    if more != [] {
      var rest, x := more[..|more| - 1], more[|more| - 1];
      AddNewIsUnion(have, rest, key);
      assert more == rest + [x];
      AddOneKey(AddNew(have, rest, key), x, key);
      OneMoreKey(rest, x, key);
    }
  }

  lemma AddOneKey<T(!new), K>(have: seq<T>, x: T, key: T -> K)
    requires UniqueBy(have, key)
    ensures UniqueBy(AddOne(have, x, key), key) && have <= AddOne(have, x, key)
    ensures KeysIn(AddOne(have, x, key), key) == KeysIn(have, key) + {key(x)}
    ensures forall y <- AddOne(have, x, key) :: y in have || y == x
  {
    OneMoreKey(have, x, key);
  }

  lemma OneMoreKey<T(!new), K>(xs: seq<T>, x: T, key: T -> K)
    ensures KeysIn(xs + [x], key) == KeysIn(xs, key) + {key(x)}
  {}

  class IngestionResult {
    var chunks: seq<Chunk>
    var nodes: seq<Node>
    var edges: seq<Edge>
    var nodeKeys: set<NodeRef>
    var edgeKeys: set<Link>

    ghost predicate Valid()
      reads this
    {
      && UniqueBy(nodes, NodeKey) && nodeKeys == KeysIn(nodes, NodeKey)
      && UniqueBy(edges, EdgeKey) && edgeKeys == KeysIn(edges, EdgeKey)
    }

    constructor ()
      ensures Valid() && chunks == [] && nodes == [] && edges == []
    {
      chunks, nodes, edges, nodeKeys, edgeKeys := [], [], [], {}, {};
    }

    method AddFile(moreChunks: seq<Chunk>, moreNodes: seq<Node>, moreEdges: seq<Edge>)
      requires Valid()
      modifies this
      ensures Valid()
      ensures chunks == old(chunks) + moreChunks
      ensures nodes == AddNew(old(nodes), moreNodes, NodeKey)
      ensures edges == AddNew(old(edges), moreEdges, EdgeKey)
    {
      chunks := chunks + moreChunks;
      nodes, nodeKeys := AppendNew(nodes, nodeKeys, moreNodes, NodeKey);
      edges, edgeKeys := AppendNew(edges, edgeKeys, moreEdges, EdgeKey);
    }
  }

  function NodeKey(n: Node): NodeRef { n.ref }

  function EdgeKey(e: Edge): Link { e.link }

  method AppendNew<T(!new), K(==)>(have: seq<T>, seen0: set<K>, more: seq<T>, key: T -> K) returns (all: seq<T>,
                     seen: set<K>)
    requires UniqueBy(have, key) && seen0 == KeysIn(have, key)
    ensures all == AddNew(have, more, key) && UniqueBy(all, key) && seen == KeysIn(all, key)
  {
    all, seen := have, seen0;
    for i := 0 to |more|
      invariant all == AddNew(have, more[..i], key) && UniqueBy(all, key) && seen == KeysIn(all, key)
    {
      assert more[..i + 1][..i] == more[..i];
      OneMoreKey(all, more[i], key);
      if key(more[i]) !in seen {
        seen := seen + {key(more[i])};
        all := all + [more[i]];
      }
    }
    assert more[..|more|] == more;
  }

  /** What the collection hands on meets the requirement of the partitioned load. */
  lemma CollectedKeysAreUnique(result: IngestionResult)
    requires result.Valid()
    ensures EstateLoad.UniqueKeys(EstatePartition.GraphBuild(result.nodes, result.edges, result.chunks))
  {
    forall a, b | a in result.nodes && b in result.nodes && a.ref == b.ref ensures a == b {
      var i :| 0 <= i < |result.nodes| && result.nodes[i] == a;
      var j :| 0 <= j < |result.nodes| && result.nodes[j] == b;
      assert NodeKey(result.nodes[i]) == NodeKey(result.nodes[j]);
    }
    forall a, b | a in result.edges && b in result.edges && a.link == b.link ensures a == b {
      var i :| 0 <= i < |result.edges| && result.edges[i] == a;
      var j :| 0 <= j < |result.edges| && result.edges[j] == b;
      assert EdgeKey(result.edges[i]) == EdgeKey(result.edges[j]);
    }
  }
}
