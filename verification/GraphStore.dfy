/** The in-memory graph store (`backend/graph/store.py`): nodes, an index of nodes by kind, and
    two adjacency tables that mirror each other. */
module GraphStore {
  import opened Domain
  import opened Ordering
  import opened Text

  datatype Slot = Slot(node: NodeRef, rel: EdgeKind)

  type Adjacency = map<Slot, seq<NodeRef>>

  predicate Adjacent(adj: Adjacency, node: NodeRef, rel: EdgeKind, other: NodeRef) {
    Slot(node, rel) in adj && other in adj[Slot(node, rel)]
  }

  /** No empty and no repeating adjacency list. */
  ghost predicate Tidy(adj: Adjacency) {
    forall slot <- adj :: adj[slot] != [] && Distinct(adj[slot])
  }

  ghost predicate Mirrors(out: Adjacency, into: Adjacency) {
    forall s, rel, d :: Adjacent(out, s, rel, d) <==> Adjacent(into, d, rel, s)
  }

  /** The relationships an out-adjacency table stands for. */
  ghost function Links(out: Adjacency): (links: set<Link>)
    ensures forall l :: l in links <==> Adjacent(out, l.src, l.rel, l.dst)
  {
    set slot, d | slot in out && d in out[slot] :: Link(slot.node, slot.rel, d)
  }

  function Without(s: seq<NodeRef>, ref: NodeRef): (r: seq<NodeRef>)
    ensures forall x :: x in r <==> x in s && x != ref
    ensures Distinct(s) ==> Distinct(r)
    ensures ref !in s ==> r == s
  {
    if s == [] then []
    else if s[0] == ref then Without(s[1..], ref)
    else
      assert Distinct(s) ==> Distinct(s[1..]) && s[0] !in s[1..];
      [s[0]] + Without(s[1..], ref)
  }

  function At(adj: Adjacency, slot: Slot): seq<NodeRef> { if slot in adj then adj[slot] else [] }

  function Joined(adj: Adjacency, slot: Slot, other: NodeRef): Adjacency {
    if other in At(adj, slot) then adj else adj[slot := At(adj, slot) + [other]]
  }

  lemma JoinedAdjacent(adj: Adjacency, slot: Slot, other: NodeRef)
    requires Tidy(adj)
    ensures Tidy(Joined(adj, slot, other))
    ensures forall s, rel, d :: Adjacent(Joined(adj, slot, other), s, rel, d)
                           <==> Adjacent(adj, s, rel, d) || (Slot(s, rel) == slot && d == other)
  {}

  /** The table with every trace of `ref` gone: its own lists and its entry in other lists. */
  ghost function Detach(adj: Adjacency, ref: NodeRef): Adjacency {
    map slot | slot in adj && slot.node != ref && Without(adj[slot], ref) != []
      :: Without(adj[slot], ref)
  }

  ghost predicate Touches(l: Link, refs: set<NodeRef>) { l.src in refs || l.dst in refs }

  /** The relationships with no endpoint in `refs`. */
  ghost function Untouched(links: set<Link>, refs: set<NodeRef>): set<Link> {
    set l | l in links && !Touches(l, refs)
  }

  ghost predicate EndpointClosed(nodes: map<NodeRef, Node>, links: set<Link>) {
    forall l <- links :: l.src in nodes && l.dst in nodes
  }

  lemma DetachRemovesExactlyTouching(out: Adjacency, ref: NodeRef)
    ensures Links(Detach(out, ref)) == Untouched(Links(out), {ref})
  {
    forall l ensures l in Links(Detach(out, ref)) <==> l in Links(out) && !Touches(l, {ref}) {
      var slot := Slot(l.src, l.rel);
      if slot in out && l.dst in out[slot] && l.dst != ref {
        assert l.dst in Without(out[slot], ref);
      }
    }
  }

  lemma DetachKeepsMirror(out: Adjacency, into: Adjacency, ref: NodeRef)
    requires Mirrors(out, into) && Tidy(out) && Tidy(into)
    ensures Mirrors(Detach(out, ref), Detach(into, ref))
    ensures Tidy(Detach(out, ref)) && Tidy(Detach(into, ref))
  {
    DetachAdjacent(out, ref);
    DetachAdjacent(into, ref);
  }

  lemma DetachAdjacent(adj: Adjacency, ref: NodeRef)
    ensures forall s, rel, d :: Adjacent(Detach(adj, ref), s, rel, d)
                           <==> Adjacent(adj, s, rel, d) && s != ref && d != ref
  {
    forall s, rel, d | Adjacent(adj, s, rel, d) && s != ref && d != ref
      ensures Adjacent(Detach(adj, ref), s, rel, d)
    {
      assert d in Without(adj[Slot(s, rel)], ref);
    }
  }

  /** Intermediate tables of a deletion: `ref` pruned from the lists at `done` only. */
  ghost function PrunedAt(adj: Adjacency, ref: NodeRef, done: set<Slot>): Adjacency {
    map slot | slot in adj && (slot !in done || Without(adj[slot], ref) != [])
      :: if slot in done then Without(adj[slot], ref) else adj[slot]
  }

  function Prune(adj: Adjacency, slot: Slot, ref: NodeRef): Adjacency {
    if slot !in adj then adj
    else if Without(adj[slot], ref) == [] then adj - {slot}
    else adj[slot := Without(adj[slot], ref)]
  }

  lemma PruneOneMore(adj: Adjacency, ref: NodeRef, done: set<Slot>, slot: Slot)
    ensures Prune(PrunedAt(adj, ref, done), slot, ref) == PrunedAt(adj, ref, done + {slot})
  {}

  /** Delete the lists of `ref` in `own`, pruning `ref` from the lists of `other` they point at. */
  method DropLists(own: Adjacency, other: Adjacency, ref: NodeRef)
    returns (own': Adjacency, other': Adjacency, ghost done: set<Slot>)
    ensures own' == map slot | slot in own && slot.node != ref :: own[slot]
    ensures other' == PrunedAt(other, ref, done)
    ensures forall slot <- own | slot.node == ref :: PointedAt(own[slot], slot.rel) <= done
  {
    own', other', done := own, other, {};
    var slots := own.Keys;
    while slots != {}
      invariant slots <= own.Keys
      invariant own' == map slot | slot in own && (slot in slots || slot.node != ref) :: own[slot]
      invariant other' == PrunedAt(other, ref, done)
      invariant forall slot <- own | slot !in slots && slot.node == ref :: PointedAt(own[slot], slot.rel) <= done
    {
      var slot :| slot in slots;
      slots := slots - {slot};
      if slot.node == ref {
        other' := PruneAll(other', own[slot], slot.rel, ref, other, done);
        done := done + PointedAt(own[slot], slot.rel);
        own' := own' - {slot};
      }
    }
  }

  /** Once every out-list of `ref` is dropped, no in-list names `ref`. */
  lemma AfterOutgoing(out0: Adjacency, in0: Adjacency, ref: NodeRef, done: set<Slot>)
    requires Mirrors(out0, in0) && Tidy(in0)
    requires forall slot <- out0 | slot.node == ref :: PointedAt(out0[slot], slot.rel) <= done
    ensures PrunedAt(in0, ref, done) == PrunedAt(in0, ref, in0.Keys)
  {
    forall slot <- in0 | ref in in0[slot] ensures slot in done {
      assert Adjacent(in0, slot.node, slot.rel, ref);
      assert Adjacent(out0, ref, slot.rel, slot.node);
      assert slot in PointedAt(out0[Slot(ref, slot.rel)], slot.rel);
    }
  }

  /** Once the in-lists of `ref` are pruned from its sources and dropped, nothing of it is left. */
  lemma AfterIncoming(out0: Adjacency, in0: Adjacency, out1: Adjacency, in1: Adjacency, ref: NodeRef, done: set<Slot>)
    requires Mirrors(out0, in0) && Tidy(out0) && Tidy(in0)
    requires out1 == map slot | slot in out0 && slot.node != ref :: out0[slot]
    requires in1 == PrunedAt(in0, ref, in0.Keys)
    requires forall slot <- in1 | slot.node == ref :: PointedAt(in1[slot], slot.rel) <= done
    ensures PrunedAt(out1, ref, done) == Detach(out0, ref)
    ensures (map slot | slot in in1 && slot.node != ref :: in1[slot]) == Detach(in0, ref)
  {
    forall slot <- out1 | ref in out1[slot] ensures slot in done {
      assert Adjacent(out0, slot.node, slot.rel, ref);
      assert Adjacent(in0, ref, slot.rel, slot.node);
      assert slot.node in Without(in0[Slot(ref, slot.rel)], ref);
      assert slot in PointedAt(in1[Slot(ref, slot.rel)], slot.rel);
    }
  }

  ghost function PointedAt(others: seq<NodeRef>, rel: EdgeKind): set<Slot> {
    set other | other in others :: Slot(other, rel)
  }

  /** Prune `ref` from the list of every node in `others`. */
  method PruneAll(index: Adjacency, others: seq<NodeRef>, rel: EdgeKind, ref: NodeRef,
                  ghost base: Adjacency, ghost done: set<Slot>)
    returns (r: Adjacency)
    requires index == PrunedAt(base, ref, done)
    ensures r == PrunedAt(base, ref, done + PointedAt(others, rel))
  {
    r := index;
    assert done + PointedAt(others[..0], rel) == done;
    for j := 0 to |others|
      invariant r == PrunedAt(base, ref, done + PointedAt(others[..j], rel))
    {
      PruneOneMore(base, ref, done + PointedAt(others[..j], rel), Slot(others[j], rel));
      PointedAtOneMore(others, j, rel, done);
      r := Prune(r, Slot(others[j], rel), ref);
    }
    assert others[..|others|] == others;
  }

  lemma PointedAtOneMore(others: seq<NodeRef>, j: nat, rel: EdgeKind, done: set<Slot>)
    requires j < |others|
    ensures done + PointedAt(others[..j + 1], rel) == done + PointedAt(others[..j], rel) + {Slot(others[j], rel)}
  {
    assert others[..j + 1] == others[..j] + [others[j]];
  }

  /** Nodes filed under their kind, each once. Whoever lists nodes gets the filed copies. A filed copy
      may carry older properties than `nodes` does: re-adding a node replaces only the latter. */
  ghost predicate Filed(nodes: map<NodeRef, Node>, byKind: map<NodeKind, seq<Node>>) {
    && (forall ref <- nodes :: nodes[ref].ref == ref && ref.kind in byKind)
    && (forall kind <- byKind :: FiledUnder(byKind[kind], kind, nodes.Keys))
  }

  ghost predicate FiledUnder(ns: seq<Node>, kind: NodeKind, refs: set<NodeRef>) {
    && (forall n <- ns :: n.ref.kind == kind && n.ref in refs)
    && (forall ref <- refs | ref.kind == kind :: HasKey(ns, ref.key))
    && DistinctKeys(ns)
  }

  ghost predicate HasKey(ns: seq<Node>, key: string) { exists n <- ns :: n.ref.key == key }

  ghost predicate DistinctKeys(ns: seq<Node>) {
    forall i, j :: 0 <= i < j < |ns| ==> ns[i].ref.key != ns[j].ref.key
  }

  function WithoutKey(ns: seq<Node>, key: string): (r: seq<Node>)
    ensures forall n :: n in r <==> n in ns && n.ref.key != key
    ensures DistinctKeys(ns) ==> DistinctKeys(r)
  {
    if ns == [] then []
    else if ns[0].ref.key == key then WithoutKey(ns[1..], key)
    else
      assert forall n <- WithoutKey(ns[1..], key) :: n in ns[1..];
      [ns[0]] + WithoutKey(ns[1..], key)
  }

  function ListOf(byKind: map<NodeKind, seq<Node>>, kind: NodeKind): seq<Node> {
    if kind in byKind then byKind[kind] else []
  }

  function Refiled(byKind: map<NodeKind, seq<Node>>, node: Node): map<NodeKind, seq<Node>> {
    byKind[node.ref.kind := ListOf(byKind, node.ref.kind) + [node]]
  }

  function Unfiled(byKind: map<NodeKind, seq<Node>>, ref: NodeRef): map<NodeKind, seq<Node>> {
    byKind[ref.kind := WithoutKey(ListOf(byKind, ref.kind), ref.key)]
  }

  /** The nodes that belong to a file: itself and the functions keyed `path#...`. */
  ghost predicate OfFile(ref: NodeRef, path: string) {
    ref == NodeRef(NodeKind.File, path) || (ref.kind.Function? && StartsWith(ref.key, path + "#"))
  }

  ghost function FileRefs(refs: set<NodeRef>, path: string): set<NodeRef> {
    set ref | ref in refs && OfFile(ref, path)
  }

  ghost function FunctionRefs(refs: set<NodeRef>, path: string): set<NodeRef> {
    set ref | ref in refs && ref.kind.Function? && StartsWith(ref.key, path + "#")
  }

  lemma FileAndFunctions(refs: set<NodeRef>, path: string)
    ensures var file := NodeRef(NodeKind.File, path);
            && file !in FunctionRefs(refs, path)
            && FileRefs(refs, path) == FunctionRefs(refs, path) + (if file in refs then {file} else {})
  {}

  /** Remove every trace of `ref` from both tables. */
  method DetachTables(out: Adjacency, into: Adjacency, ref: NodeRef) returns (out': Adjacency, into': Adjacency)
    requires Mirrors(out, into) && Tidy(out) && Tidy(into)
    ensures out' == Detach(out, ref) && into' == Detach(into, ref)
  {
    ghost var done;
    // The lists of `ref` in `out` go first; `into` then no longer names it.
    out', into', done := DropLists(out, into, ref);
    AfterOutgoing(out, into, ref, done);
    // The same with the tables exchanged leaves no trace of it.
    ghost var out1, in1 := out', into';
    into', out', done := DropLists(into', out', ref);
    AfterIncoming(out, into, out1, in1, ref, done);
  }

  // ----- The filed nodes as a set -----

  /** Every node that listing by kind shows. */
  ghost function Shown(byKind: map<NodeKind, seq<Node>>): set<Node> {
    set kind, n | kind in byKind && n in byKind[kind] :: n
  }

  ghost function RefsIn(shown: set<Node>): set<NodeRef> { set n | n in shown :: n.ref }

  /** Adding nodes in order; the first node of a key stays the one shown. */
  ghost function Showing(shown: set<Node>, more: seq<Node>): set<Node>
    decreases |more|
  {
    if more == [] then shown
    else Showing(if more[0].ref in RefsIn(shown) then shown else shown + {more[0]}, more[1..])
  }

  ghost function Hiding(shown: set<Node>, refs: set<NodeRef>): set<Node> { set n | n in shown && n.ref !in refs }

  lemma ShownAreFiled(nodes: map<NodeRef, Node>, byKind: map<NodeKind, seq<Node>>)
    requires Filed(nodes, byKind)
    ensures RefsIn(Shown(byKind)) == nodes.Keys
  {
    forall ref <- nodes ensures ref in RefsIn(Shown(byKind)) {
      assert FiledUnder(byKind[ref.kind], ref.kind, nodes.Keys) && HasKey(byKind[ref.kind], ref.key);
      var n :| n in byKind[ref.kind] && n.ref.key == ref.key;
      assert n in Shown(byKind) && n.ref == ref;
    }
    forall n <- Shown(byKind) ensures n.ref in nodes {
      var kind :| kind in byKind && n in byKind[kind];
      assert FiledUnder(byKind[kind], kind, nodes.Keys);
    }
  }

  lemma ShowingOne(shown: set<Node>, node: Node)
    ensures Showing(shown, [node]) == if node.ref in RefsIn(shown) then shown else shown + {node}
  {
    assert [node][1..] == [];
  }

  lemma RefiledShows(byKind: map<NodeKind, seq<Node>>, node: Node)
    ensures Shown(Refiled(byKind, node)) == Shown(byKind) + {node}
  {
    var after := Refiled(byKind, node);
    assert node in after[node.ref.kind];
    forall n ensures n in Shown(after) <==> n in Shown(byKind) || n == node {
      if n in Shown(byKind) {
        var kind :| kind in byKind && n in byKind[kind];
        assert n in after[kind];
      }
      if n in Shown(after) {
        var kind :| kind in after && n in after[kind];
        assert n == node || (kind in byKind && n in byKind[kind]);
      }
    }
  }

  lemma UnfiledAt(nodes: map<NodeRef, Node>, byKind: map<NodeKind, seq<Node>>, ref: NodeRef, kind: NodeKind, n: Node)
    requires Filed(nodes, byKind) && kind in Unfiled(byKind, ref)
    ensures n in Unfiled(byKind, ref)[kind] <==> kind in byKind && n in byKind[kind] && n.ref != ref
  {
    assert kind in byKind ==> FiledUnder(byKind[kind], kind, nodes.Keys);
  }

  lemma UnfiledHides(nodes: map<NodeRef, Node>, byKind: map<NodeKind, seq<Node>>, ref: NodeRef)
    requires Filed(nodes, byKind)
    ensures Shown(Unfiled(byKind, ref)) == Hiding(Shown(byKind), {ref})
  {
    var after := Unfiled(byKind, ref);
    forall n ensures n in Shown(after) <==> n in Hiding(Shown(byKind), {ref}) {
      if n in Shown(after) {
        var kind :| kind in after && n in after[kind];
        UnfiledAt(nodes, byKind, ref, kind, n);
      }
      if n in Hiding(Shown(byKind), {ref}) {
        var kind :| kind in byKind && n in byKind[kind];
        UnfiledAt(nodes, byKind, ref, kind, n);
      }
    }
  }

  lemma HidingTwice(shown: set<Node>, a: set<NodeRef>, b: set<NodeRef>)
    ensures Hiding(Hiding(shown, a), b) == Hiding(shown, a + b)
    ensures Hiding(shown, {}) == shown
  {}

  function Upserts(nodes: map<NodeRef, Node>, more: seq<Node>): map<NodeRef, Node>
    decreases |more|
  {
    if more == [] then nodes else Upserts(nodes[more[0].ref := more[0]], more[1..])
  }

  ghost function LinksOf(edges: seq<Edge>): set<Link> { set e | e in edges :: e.link }

  class InMemoryGraphStore {
    var nodes: map<NodeRef, Node>
    var outAdj: Adjacency
    var inAdj: Adjacency
    var byKind: map<NodeKind, seq<Node>>

    ghost predicate Valid()
      reads this
    {
      && Mirrors(outAdj, inAdj) && Tidy(outAdj) && Tidy(inAdj)
      && Filed(nodes, byKind)
    }

    constructor ()
      ensures Valid() && nodes == map[] && Links(outAdj) == {} && Shown(byKind) == {}
    {
      nodes, outAdj, inAdj, byKind := map[], map[], map[], map[];
    }

    method AddNode(node: Node)
      requires Valid()
      modifies this
      ensures Valid()
      ensures nodes == old(nodes)[node.ref := node]
      ensures outAdj == old(outAdj) && inAdj == old(inAdj)
      ensures node.ref in old(nodes) ==> byKind == old(byKind)
      ensures node.ref !in old(nodes) ==> Nodes(node.ref.kind) == old(Nodes(node.ref.kind)) + [node]
      ensures Shown(byKind) == Showing(old(Shown(byKind)), [node])
    {
      AddedIsShown(nodes, byKind, node);
      if node.ref !in nodes {
        byKind := Refiled(byKind, node);
      }
      nodes := nodes[node.ref := node];
    }

    method AddEdge(edge: Edge)
      requires Valid()
      modifies this
      ensures Valid()
      ensures Links(outAdj) == old(Links(outAdj)) + {edge.link}
      ensures outAdj == Joined(old(outAdj), Slot(edge.link.src, edge.link.rel), edge.link.dst)
      ensures inAdj == Joined(old(inAdj), Slot(edge.link.dst, edge.link.rel), edge.link.src)
      ensures nodes == old(nodes) && byKind == old(byKind)
    {
      var Link(src, rel, dst) := edge.link;
      JoinedAdjacent(outAdj, Slot(src, rel), dst);
      JoinedAdjacent(inAdj, Slot(dst, rel), src);
      var outList := OutNeighbors(src, rel);
      if dst !in outList {
        outAdj := outAdj[Slot(src, rel) := outList + [dst]];
      }
      var inList := InNeighbors(dst, rel);
      if src !in inList {
        inAdj := inAdj[Slot(dst, rel) := inList + [src]];
      }
      assert outAdj == Joined(old(outAdj), Slot(src, rel), dst);
      assert inAdj == Joined(old(inAdj), Slot(dst, rel), src);
    }

    method UpsertNodes(more: seq<Node>)
      requires Valid()
      modifies this
      ensures Valid() && nodes == Upserts(old(nodes), more) && outAdj == old(outAdj) && inAdj == old(inAdj)
      ensures Shown(byKind) == Showing(old(Shown(byKind)), more)
    {
      for i := 0 to |more|
        invariant Valid() && outAdj == old(outAdj) && inAdj == old(inAdj)
        invariant Upserts(nodes, more[i..]) == Upserts(old(nodes), more)
        invariant Showing(Shown(byKind), more[i..]) == Showing(old(Shown(byKind)), more)
      {
        ghost var shown := Shown(byKind);
        AddNode(more[i]);
        ShowingNext(shown, more, i);
        assert more[i..][1..] == more[i + 1..];
      }
    }

    method UpsertEdges(more: seq<Edge>)
      requires Valid()
      modifies this
      ensures Valid() && nodes == old(nodes) && byKind == old(byKind)
      ensures Links(outAdj) == old(Links(outAdj)) + LinksOf(more)
    {
      for i := 0 to |more|
        invariant Valid() && nodes == old(nodes) && byKind == old(byKind)
        invariant Links(outAdj) == old(Links(outAdj)) + LinksOf(more[..i])
      {
        AddEdge(more[i]);
        LinksOfNext(more, i);
      }
      assert more[..|more|] == more;
    }

    function Nodes(kind: NodeKind): seq<Node>
      reads this
    {
      ListOf(byKind, kind)
    }

    function OutNeighbors(ref: NodeRef, rel: EdgeKind): seq<NodeRef>
      reads this
    {
      At(outAdj, Slot(ref, rel))
    }

    function InNeighbors(ref: NodeRef, rel: EdgeKind): seq<NodeRef>
      reads this
    {
      At(inAdj, Slot(ref, rel))
    }

    /** The node goes with every relationship it is an end of; an unknown node leaves the store as it was. */
    method DeleteNode(ref: NodeRef) returns (found: bool)
      requires Valid()
      modifies this
      ensures Valid()
      ensures found <==> ref in old(nodes)
      ensures nodes == old(nodes) - {ref}
      ensures found ==> outAdj == Detach(old(outAdj), ref) && inAdj == Detach(old(inAdj), ref)
      ensures found ==> Links(outAdj) == Untouched(old(Links(outAdj)), {ref})
      ensures !found ==> outAdj == old(outAdj) && inAdj == old(inAdj) && byKind == old(byKind)
      ensures Shown(byKind) == Hiding(old(Shown(byKind)), {ref})
    {
      if ref !in nodes {
        AbsentHidesNothing(nodes, byKind, ref);
        return false;
      }
      RemovedIsHidden(nodes, byKind, ref);
      DetachKeepsMirror(outAdj, inAdj, ref);
      DetachRemovesExactlyTouching(outAdj, ref);
      nodes := nodes - {ref};
      byKind := Unfiled(byKind, ref);
      outAdj, inAdj := DetachTables(outAdj, inAdj, ref);
      return true;
    }

    /** Cascade-delete a File node and its Function nodes. */
    method DeleteFile(path: string) returns (removed: nat)
      requires Valid()
      modifies this
      ensures Valid()
      ensures nodes == old(nodes) - FileRefs(old(nodes).Keys, path)
      ensures Links(outAdj) == Untouched(old(Links(outAdj)), FileRefs(old(nodes).Keys, path))
      ensures Shown(byKind) == Hiding(old(Shown(byKind)), FileRefs(old(nodes).Keys, path))
      ensures removed == |FileRefs(old(nodes).Keys, path)|
    {
      ghost var nodes0, links0, shown0 := nodes, Links(outAdj), Shown(byKind);
      ShownAreFiled(nodes, byKind);
      removed := DeleteFunctions(path);
      ghost var gone := FunctionRefs(nodes0.Keys, path);
      var file := NodeRef(NodeKind.File, path);
      FileAndFunctions(nodes0.Keys, path);
      var found := DeleteNode(file);
      if found {
        removed := removed + 1;
        UntouchedTwice(links0, gone, {file});
      }
      MinusOne(nodes0, gone, file);
      FileHides(shown0, nodes0.Keys, path);
    }

    method DeleteFunctions(path: string) returns (removed: nat)
      requires Valid()
      modifies this
      ensures Valid()
      ensures nodes == old(nodes) - FunctionRefs(old(nodes).Keys, path)
      ensures Links(outAdj) == Untouched(old(Links(outAdj)), FunctionRefs(old(nodes).Keys, path))
      ensures Shown(byKind) == Hiding(old(Shown(byKind)), FunctionRefs(old(nodes).Keys, path))
      ensures removed == |FunctionRefs(old(nodes).Keys, path)|
    {
      removed := 0;
      ghost var nodes0, links0, shown0 := nodes, Links(outAdj), Shown(byKind);
      ghost var gone: set<NodeRef> := {};
      HidingTwice(shown0, {}, {});
      var fns := WithPrefix(Nodes(NodeKind.Function), path + "#");
      DoomedAreFileFunctions(nodes, byKind, path, fns);
      for i := 0 to |fns|
        invariant Valid()
        invariant gone == RefsOf(fns[..i])
        invariant nodes == nodes0 - gone
        invariant Links(outAdj) == Untouched(links0, gone)
        invariant Shown(byKind) == Hiding(shown0, gone)
        invariant removed == |gone|
      {
        var ref := fns[i].ref;
        NextDoomed(nodes0, fns, i);
        MinusOne(nodes0, gone, ref);
        UntouchedTwice(links0, gone, {ref});
        HidingTwice(shown0, gone, {ref});
        var found := DeleteNode(ref);
        if found {
          removed := removed + 1;
        }
        gone := gone + {ref};
      }
      assert fns[..|fns|] == fns;
    }
  }

  lemma ShowingNext(shown: set<Node>, more: seq<Node>, i: nat)
    requires i < |more|
    ensures Showing(Showing(shown, [more[i]]), more[i + 1..]) == Showing(shown, more[i..])
  {
    assert more[i..][1..] == more[i + 1..] && [more[i]][1..] == [];
    var next := if more[i].ref in RefsIn(shown) then shown else shown + {more[i]};
    assert Showing(shown, [more[i]]) == Showing(next, []) == next;
  }

  /** Hiding the functions of a file, then the file, hides what belongs to the file. */
  lemma FileHides(shown: set<Node>, refs: set<NodeRef>, path: string)
    requires RefsIn(shown) == refs
    ensures Hiding(Hiding(shown, FunctionRefs(refs, path)), {NodeRef(NodeKind.File, path)})
         == Hiding(shown, FileRefs(refs, path))
  {
    forall n <- shown ensures n.ref in refs {
      assert n.ref in RefsIn(shown);
    }
  }

  lemma LinksOfNext(edges: seq<Edge>, i: nat)
    requires i < |edges|
    ensures LinksOf(edges[..i + 1]) == LinksOf(edges[..i]) + {edges[i].link}
  {
    assert edges[..i + 1] == edges[..i] + [edges[i]];
  }

  function WithPrefix(ns: seq<Node>, prefix: string): (r: seq<Node>)
    ensures forall n :: n in r <==> n in ns && StartsWith(n.ref.key, prefix)
    ensures DistinctKeys(ns) ==> DistinctKeys(r)
  {
    if ns == [] then []
    else
      assert forall n <- WithPrefix(ns[1..], prefix) :: n in ns[1..];
      if StartsWith(ns[0].ref.key, prefix) then [ns[0]] + WithPrefix(ns[1..], prefix)
      else WithPrefix(ns[1..], prefix)
  }

  ghost function RefsOf(ns: seq<Node>): set<NodeRef> { set n | n in ns :: n.ref }

  lemma NextDoomed(nodes: map<NodeRef, Node>, ns: seq<Node>, i: nat)
    requires i < |ns| && DistinctKeys(ns) && RefsOf(ns) <= nodes.Keys
    ensures RefsOf(ns[..i + 1]) == RefsOf(ns[..i]) + {ns[i].ref}
    ensures |RefsOf(ns[..i + 1])| == |RefsOf(ns[..i])| + 1
    ensures ns[i].ref in nodes - RefsOf(ns[..i])
  {
    assert ns[..i + 1] == ns[..i] + [ns[i]];
    assert ns[i].ref in RefsOf(ns);
    assert ns[i].ref !in RefsOf(ns[..i]);
    assert RefsOf(ns[..i + 1]) == RefsOf(ns[..i]) + {ns[i].ref};
  }

  lemma DoomedAreFileFunctions(nodes: map<NodeRef, Node>, byKind: map<NodeKind, seq<Node>>, path: string,
                               fns: seq<Node>)
    requires Filed(nodes, byKind)
    requires fns == WithPrefix(ListOf(byKind, NodeKind.Function), path + "#")
    ensures DistinctKeys(fns)
    ensures RefsOf(fns) == FunctionRefs(nodes.Keys, path)
  {
    forall ref <- FunctionRefs(nodes.Keys, path) ensures ref in RefsOf(fns) {
      var n :| n in byKind[NodeKind.Function] && n.ref.key == ref.key;
      assert n in fns;
    }
  }

  lemma MinusOne<K, V>(m: map<K, V>, gone: set<K>, k: K)
    ensures (m - gone) - {k} == m - (gone + {k})
    ensures k !in m - gone ==> (m - gone) - {k} == m - gone
  {}

  lemma UntouchedTwice(links: set<Link>, a: set<NodeRef>, b: set<NodeRef>)
    ensures Untouched(Untouched(links, a), b) == Untouched(links, a + b)
  {}

  /** A node whose key is new is listed; of a known key the listing stays. */
  lemma AddedIsShown(nodes: map<NodeRef, Node>, byKind: map<NodeKind, seq<Node>>, node: Node)
    requires Filed(nodes, byKind)
    ensures var after := if node.ref in nodes then byKind else Refiled(byKind, node);
            Filed(nodes[node.ref := node], after) && Shown(after) == Showing(Shown(byKind), [node])
  {
    FiledAfterAdding(nodes, byKind, node);
    ShownAreFiled(nodes, byKind);
    RefiledShows(byKind, node);
    ShowingOne(Shown(byKind), node);
  }

  lemma FiledAfterAdding(nodes: map<NodeRef, Node>, byKind: map<NodeKind, seq<Node>>, node: Node)
    requires Filed(nodes, byKind)
    ensures node.ref in nodes ==> Filed(nodes[node.ref := node], byKind)
    ensures node.ref !in nodes ==> Filed(nodes[node.ref := node], Refiled(byKind, node))
  {
    var refs := nodes[node.ref := node].Keys;
    assert refs == nodes.Keys + {node.ref};
    if node.ref !in nodes {
      forall k <- Refiled(byKind, node) ensures FiledUnder(Refiled(byKind, node)[k], k, refs) {
        FiledUnderAtKind(nodes, byKind, node, k);
      }
    }
  }

  lemma FiledUnderAtKind(nodes: map<NodeRef, Node>, byKind: map<NodeKind, seq<Node>>, node: Node, kind: NodeKind)
    requires Filed(nodes, byKind) && node.ref !in nodes && kind in Refiled(byKind, node)
    ensures FiledUnder(Refiled(byKind, node)[kind], kind, nodes.Keys + {node.ref})
  {
    if kind == node.ref.kind {
      FiledUnderAfterAdding(ListOf(byKind, kind), node, nodes.Keys);
    } else {
      assert FiledUnder(byKind[kind], kind, nodes.Keys);
    }
  }

  lemma FiledUnderAfterAdding(ns: seq<Node>, node: Node, refs: set<NodeRef>)
    requires FiledUnder(ns, node.ref.kind, refs) && node.ref !in refs
    ensures FiledUnder(ns + [node], node.ref.kind, refs + {node.ref})
  {
    var more := ns + [node];
    assert node in more;
    forall ref <- refs | ref.kind == node.ref.kind ensures HasKey(more, ref.key) {
      var n :| n in ns && n.ref.key == ref.key;
      assert n in more;
    }
    forall i | 0 <= i < |ns| ensures ns[i].ref.key != node.ref.key {
      assert ns[i] in ns;
      assert ns[i].ref == NodeRef(node.ref.kind, ns[i].ref.key);
    }
  }

  lemma RemovedIsHidden(nodes: map<NodeRef, Node>, byKind: map<NodeKind, seq<Node>>, ref: NodeRef)
    requires Filed(nodes, byKind) && ref in nodes
    ensures Filed(nodes - {ref}, Unfiled(byKind, ref)) && Shown(Unfiled(byKind, ref)) == Hiding(Shown(byKind), {ref})
  {
    FiledAfterRemoval(nodes, byKind, ref);
    UnfiledHides(nodes, byKind, ref);
  }

  lemma AbsentHidesNothing(nodes: map<NodeRef, Node>, byKind: map<NodeKind, seq<Node>>, ref: NodeRef)
    requires Filed(nodes, byKind) && ref !in nodes
    ensures nodes - {ref} == nodes && Hiding(Shown(byKind), {ref}) == Shown(byKind)
  {
    ShownAreFiled(nodes, byKind);
  }

  lemma FiledAfterRemoval(nodes: map<NodeRef, Node>, byKind: map<NodeKind, seq<Node>>, ref: NodeRef)
    requires Filed(nodes, byKind) && ref in nodes
    ensures Filed(nodes - {ref}, Unfiled(byKind, ref))
  {
    assert (nodes - {ref}).Keys == nodes.Keys - {ref};
    FiledUnderAfterRemoval(byKind[ref.kind], ref, nodes.Keys);
    forall kind <- byKind | kind != ref.kind ensures FiledUnder(byKind[kind], kind, nodes.Keys - {ref}) {
      assert FiledUnder(byKind[kind], kind, nodes.Keys);
    }
  }

  lemma FiledUnderAfterRemoval(ns: seq<Node>, ref: NodeRef, refs: set<NodeRef>)
    requires FiledUnder(ns, ref.kind, refs)
    ensures FiledUnder(WithoutKey(ns, ref.key), ref.kind, refs - {ref})
  {
    var rest := WithoutKey(ns, ref.key);
    forall r <- refs | r != ref && r.kind == ref.kind ensures HasKey(rest, r.key) {
      var n :| n in ns && n.ref.key == r.key;
      assert n in rest;
    }
  }

  /** Deleting a node keeps a closed graph closed. */
  lemma DetachKeepsClosed(nodes: map<NodeRef, Node>, out: Adjacency, ref: NodeRef)
    requires EndpointClosed(nodes, Links(out))
    ensures EndpointClosed(nodes - {ref}, Links(Detach(out, ref)))
  {
    DetachRemovesExactlyTouching(out, ref);
  }
}
