/** Call-chain enumeration and flow candidates (`backend/flows/identify.py`). */
module FlowPaths {
  import opened Domain
  import opened Ordering
  import opened Text
  import opened GraphStore
  import opened StructuralQueries
  import BreadthFirst

  type Chain = seq<string>

  /** A walk along calls that repeats no service. */
  ghost predicate SimplePath(callees: BreadthFirst.Next, p: Chain) {
    && p != [] && Distinct(p)
    && forall i :: 0 <= i < |p| - 1 ==> p[i + 1] in callees(p[i])
  }

  ghost predicate DeadEnd(callees: BreadthFirst.Next, p: Chain)
    requires p != []
  {
    forall c <- callees(p[|p| - 1]) :: c in p
  }

  /** A chain the enumeration reports: it has the full length, or it has at least two services and
      cannot be continued. A bound below one acts as one. */
  ghost predicate Reported(callees: BreadthFirst.Next, maxLen: int, p: Chain) {
    && SimplePath(callees, p)
    && (|p| == (if maxLen < 1 then 1 else maxLen) || (2 <= |p| < maxLen && DeadEnd(callees, p)))
  }

  function OffPath(keys: seq<string>, path: Chain): (r: seq<string>)
    ensures forall c :: c in r <==> c in keys && c !in path
    ensures Distinct(keys) ==> Distinct(r)
  {
    if keys == [] then []
    else if keys[0] in path then OffPath(keys[1..], path)
    else [keys[0]] + OffPath(keys[1..], path)
  }

  /** What `dfs` appends for a path, in order. */
  function Chains(callees: BreadthFirst.Next, maxLen: int, path: Chain): seq<Chain>
    requires path != []
    decreases maxLen - |path|, 1, 0
  {
    if |path| >= maxLen then [path]
    else
      var onward := OffPath(callees(path[|path| - 1]), path);
      if onward == [] then (if |path| >= 2 then [path] else [])
      else ChainsVia(callees, maxLen, path, onward)
  }

  function ChainsVia(callees: BreadthFirst.Next, maxLen: int, path: Chain, onward: seq<string>): seq<Chain>
    requires path != [] && |path| < maxLen
    decreases maxLen - |path|, 0, |onward|
  {
    if onward == [] then []
    else Chains(callees, maxLen, path + [onward[0]]) + ChainsVia(callees, maxLen, path, onward[1..])
  }

  ghost predicate CanContinue(callees: BreadthFirst.Next, path: Chain, onward: seq<string>)
    requires path != []
  {
    forall i :: 0 <= i < |onward| ==> onward[i] in callees(path[|path| - 1]) && onward[i] !in path
  }

  ghost predicate Continues(path: Chain, p: Chain) { |path| <= |p| && p[..|path|] == path }

  lemma {:induction false} ChainsExact(callees: BreadthFirst.Next, maxLen: int, path: Chain, p: Chain)
    requires SimplePath(callees, path) && (|path| <= maxLen || |path| == 1)
    ensures p in Chains(callees, maxLen, path) <==> Continues(path, p) && Reported(callees, maxLen, p)
    decreases maxLen - |path|, 1, 0
  {
    assert |p| == |path| ==> p[..|path|] == p;
    if |path| < maxLen {
      var onward := OffPath(callees(path[|path| - 1]), path);
      ViaExact(callees, maxLen, path, onward, p);
      if Continues(path, p) && SimplePath(callees, p) {
        NextIsOnward(callees, path, p);
        assert onward != [] ==> onward[0] in onward && !DeadEnd(callees, path);
        assert onward == [] ==> DeadEnd(callees, path);
      }
    }
  }

  lemma NextIsOnward(callees: BreadthFirst.Next, path: Chain, p: Chain)
    requires path != [] && Continues(path, p) && SimplePath(callees, p)
    ensures |p| == |path| ==> p == path
    ensures |p| > |path| ==> p[|path|] in callees(path[|path| - 1]) && p[|path|] !in path
  {
    if |p| > |path| {
      assert p[|path| - 1] == path[|path| - 1];
      assert p[(|path| - 1) + 1] in callees(p[|path| - 1]);
      forall i | 0 <= i < |path| ensures path[i] != p[|path|] {
        assert path[i] == p[i];
      }
    }
  }

  lemma {:induction false} ViaExact(callees: BreadthFirst.Next, maxLen: int, path: Chain, onward: seq<string>, p: Chain)
    requires SimplePath(callees, path) && |path| < maxLen
    requires CanContinue(callees, path, onward)
    ensures p in ChainsVia(callees, maxLen, path, onward)
       <==> Continues(path, p) && |p| > |path| && p[|path|] in onward && Reported(callees, maxLen, p)
    decreases maxLen - |path|, 0, |onward|
  {
    if onward != [] {
      var longer := path + [onward[0]];
      LongerIsSimple(callees, path, onward[0]);
      ChainsExact(callees, maxLen, longer, p);
      ViaExact(callees, maxLen, path, onward[1..], p);
      assert Continues(longer, p) <==> Continues(path, p) && |p| > |path| && p[|path|] == onward[0];
    }
  }

  lemma LongerIsSimple(callees: BreadthFirst.Next, path: Chain, c: string)
    requires SimplePath(callees, path) && c in callees(path[|path| - 1]) && c !in path
    ensures SimplePath(callees, path + [c])
  {}

  lemma {:induction false} ChainsDistinct(callees: BreadthFirst.Next, maxLen: int, path: Chain)
    requires SimplePath(callees, path) && (|path| <= maxLen || |path| == 1)
    requires forall x :: Distinct(callees(x))
    ensures Distinct(Chains(callees, maxLen, path))
    decreases maxLen - |path|, 1, 0
  {
    if |path| < maxLen {
      ViaDistinct(callees, maxLen, path, OffPath(callees(path[|path| - 1]), path));
    }
  }

  lemma {:induction false} ViaDistinct(callees: BreadthFirst.Next, maxLen: int, path: Chain, onward: seq<string>)
    requires SimplePath(callees, path) && |path| < maxLen && Distinct(onward)
    requires CanContinue(callees, path, onward)
    requires forall x :: Distinct(callees(x))
    ensures Distinct(ChainsVia(callees, maxLen, path, onward))
    decreases maxLen - |path|, 0, |onward|
  {
    if onward != [] {
      var longer, rest := path + [onward[0]], onward[1..];
      LongerIsSimple(callees, path, onward[0]);
      ChainsDistinct(callees, maxLen, longer);
      ViaDistinct(callees, maxLen, path, rest);
      forall p | p in Chains(callees, maxLen, longer) ensures p !in ChainsVia(callees, maxLen, path, rest) {
        ChainsExact(callees, maxLen, longer, p);
        ViaExact(callees, maxLen, path, rest, p);
        assert p[|path|] == onward[0];
      }
      JoinDistinct(Chains(callees, maxLen, longer), ChainsVia(callees, maxLen, path, rest));
    }
  }

  lemma JoinDistinct<T>(a: seq<T>, b: seq<T>)
    requires Distinct(a) && Distinct(b) && forall x | x in a :: x !in b
    ensures Distinct(a + b)
  {
    forall i, j | 0 <= i < |a| <= j < |a| + |b| ensures (a + b)[i] != (a + b)[j] {
      assert a[i] in a && b[j - |a|] in b;
    }
  }

  /** One enumeration: `results` grows as the search goes. */
  /** A branch's chains and those of the branches after it, in order. */
  lemma ViaNext(callees: BreadthFirst.Next, maxLen: int, path: Chain, onward: seq<string>, i: nat, before: seq<Chain>)
    requires path != [] && |path| < maxLen && i < |onward|
    ensures before + ChainsVia(callees, maxLen, path, onward[i..])
         == before + Chains(callees, maxLen, path + [onward[i]]) + ChainsVia(callees, maxLen, path, onward[i + 1..])
  {
    assert onward[i..][1..] == onward[i + 1..];
  }

  class ChainWalk {
    var results: seq<Chain>

    constructor ()
      ensures results == []
    {
      results := [];
    }

    method Dfs(callees: BreadthFirst.Next, maxLen: int, path: Chain)
      requires path != []
      modifies this
      ensures results == old(results) + Chains(callees, maxLen, path)
      decreases maxLen - |path|
    {
      if |path| >= maxLen {
        results := results + [path];
        return;
      }
      var onward := OffPath(callees(path[|path| - 1]), path);
      if onward == [] {
        if |path| >= 2 {
          results := results + [path];
        }
        return;
      }
      for i := 0 to |onward|
        invariant results + ChainsVia(callees, maxLen, path, onward[i..])
               == old(results) + ChainsVia(callees, maxLen, path, onward)
      {
        ViaNext(callees, maxLen, path, onward, i, results);
        Dfs(callees, maxLen, path + [onward[i]]);
      }
    }
  }

  /** Exactly the reported chains from the start, for every bound and every call graph, cyclic or not. */
  method WalkCalls(callees: BreadthFirst.Next, start: string, maxLen: int) returns (chains: seq<Chain>)
    ensures forall p :: p in chains <==> Reported(callees, maxLen, p) && p[0] == start
    ensures (forall x :: Distinct(callees(x))) ==> Distinct(chains)
  {
    var walk := new ChainWalk();
    walk.Dfs(callees, maxLen, [start]);
    chains := walk.results;
    forall p ensures p in chains <==> Reported(callees, maxLen, p) && p[0] == start {
      ChainsExact(callees, maxLen, [start], p);
      assert p != [] ==> (Continues([start], p) <==> p[0] == start);
    }
    if forall x :: Distinct(callees(x)) {
      ChainsDistinct(callees, maxLen, [start]);
    }
  }

  // ----- Candidates -----

  datatype FlowCandidate = FlowCandidate(id: string, title: string, services: Chain, trigger: string, signature: string)

  datatype Relay = Relay(publisher: string, topic: string, consumer: string)

  /** The structural signature of services and trigger; a parameter, being a hash. */
  type Signer = (Chain, string) -> string

  /** A candidate with its readable id: the services and the head of the signature. */
  function CandidateOf(sign: Signer, services: Chain, trigger: string): FlowCandidate {
    var signature := sign(services, trigger);
    FlowCandidate(JoinWith(services, "-") + "-" + (if |signature| < 6 then signature else signature[..6]),
                  JoinWith(services, " \U{2192} "), services, trigger, signature)
  }

  /** What flow identification reads of the store. */
  datatype Graph = Graph(nodes: map<NodeRef, Node>, out: Adjacency, into: Adjacency)

  predicate CrossService(services: Chain) { exists i, j :: 0 <= i < j < |services| && services[i] != services[j] }

  function SortedKeysAt(adj: Adjacency, kind: NodeKind, key: string, rel: EdgeKind): (r: seq<string>)
    ensures forall k :: k in r <==> k in KeysOf(At(adj, Slot(NodeRef(kind, key), rel)))
  {
    var keys := KeysOf(At(adj, Slot(NodeRef(kind, key), rel)));
    SameMembers(Sort(keys, StringLeq), keys);
    Sort(keys, StringLeq)
  }

  function DirectCallees(g: Graph): BreadthFirst.Next {
    key => SortedKeysAt(g.out, NodeKind.Service, key, CALLS)
  }

  /** When calls join services only, no callee is listed twice, so no chain is reported twice. */
  lemma CalleesAreDistinct(g: Graph, key: string)
    requires Tidy(g.out) && BetweenServices(g.out, CALLS)
    ensures Distinct(DirectCallees(g)(key))
  {
    var slot := Slot(NodeRef(NodeKind.Service, key), CALLS);
    var refs := At(g.out, slot);
    forall i | 0 <= i < |refs| ensures refs[i].kind.Service? {
      assert Adjacent(g.out, slot.node, CALLS, refs[i]);
    }
    SortKeepsDistinct(KeysOf(refs), StringLeq);
  }

  /** A service nothing else calls. */
  predicate Entry(g: Graph, service: string) {
    NodeRef(NodeKind.Service, service) in g.nodes && SortedKeysAt(g.into, NodeKind.Service, service, CALLS) == []
  }

  ghost predicate CallChain(g: Graph, maxLen: int, p: Chain) {
    Reported(DirectCallees(g), maxLen, p) && Entry(g, p[0])
  }

  ghost predicate EventLink(g: Graph, l: Relay) {
    && NodeRef(NodeKind.Topic, l.topic) in g.nodes && l.publisher != l.consumer
    && l.publisher in SortedKeysAt(g.into, NodeKind.Topic, l.topic, PUBLISHES)
    && l.consumer in SortedKeysAt(g.into, NodeKind.Topic, l.topic, CONSUMES)
  }

  /** What the graph offers as a flow: a cross-service call chain, or a publisher and a consumer of a topic. */
  ghost predicate Offered(g: Graph, sign: Signer, maxLen: int, f: FlowCandidate) {
    || (CrossService(f.services) && CallChain(g, maxLen, f.services) && f == CallFlow(sign, f.services))
    || (exists l :: EventLink(g, l) && f == EventFlow(sign, l))
  }

  function CallFlow(sign: Signer, p: Chain): FlowCandidate { CandidateOf(sign, p, "call graph") }

  function EventFlow(sign: Signer, l: Relay): FlowCandidate {
    CandidateOf(sign, [l.publisher, l.consumer], "topic: " + l.topic)
  }

  type Candidates = map<string, FlowCandidate>

  /** The collected candidates are offered ones under their own ids. */
  ghost predicate Collected(offered: FlowCandidate -> bool, cs: Candidates) {
    forall id <- cs :: cs[id].id == id && offered(cs[id])
  }

  /** Sorted by id, each id once; only offered flows, and every offered id. */
  ghost predicate ServesOffered(g: Graph, maxLen: int, sign: Signer, flows: seq<FlowCandidate>) {
    && (forall i, j :: 0 <= i < j < |flows| ==>
          flows[i].id != flows[j].id && StringLeq(flows[i].id, flows[j].id))
    && (forall f | f in flows :: Offered(g, sign, maxLen, f))
    && (forall f | Offered(g, sign, maxLen, f) :: exists e :: e in flows && e.id == f.id)
  }

  /** With ids that tell flows apart, the offered flows are served, all of them and nothing else. */
  lemma DistinctNamesServeAll(g: Graph, maxLen: int, sign: Signer, flows: seq<FlowCandidate>)
    requires ServesOffered(g, maxLen, sign, flows)
    requires forall e, f | Offered(g, sign, maxLen, e) && Offered(g, sign, maxLen, f) && e.id == f.id :: e == f
    ensures forall f :: f in flows <==> Offered(g, sign, maxLen, f)
  {
    forall f | Offered(g, sign, maxLen, f) ensures f in flows {
      var e :| e in flows && e.id == f.id;
    }
  }

  function NodeKeys(ns: seq<Node>): seq<string> { seq(|ns|, i requires 0 <= i < |ns| => ns[i].ref.key) }

  lemma FiledKeys(nodes: map<NodeRef, Node>, byKind: map<NodeKind, seq<Node>>, kind: NodeKind, key: string)
    requires Filed(nodes, byKind)
    ensures key in NodeKeys(ListOf(byKind, kind)) <==> NodeRef(kind, key) in nodes
  {
    var ns := ListOf(byKind, kind);
    if kind in byKind {
      assert FiledUnder(ns, kind, nodes.Keys);
      KeysListed(ns, kind, nodes.Keys, key);
    }
  }

  lemma KeysListed(ns: seq<Node>, kind: NodeKind, refs: set<NodeRef>, key: string)
    requires FiledUnder(ns, kind, refs)
    ensures key in NodeKeys(ns) <==> NodeRef(kind, key) in refs
  {
    if key in NodeKeys(ns) {
      var i :| 0 <= i < |ns| && ns[i].ref.key == key;
      assert ns[i] in ns && ns[i].ref == NodeRef(kind, key);
    }
    if NodeRef(kind, key) in refs {
      assert HasKey(ns, NodeRef(kind, key).key);
      var n :| n in ns && n.ref.key == key;
      var i :| 0 <= i < |ns| && ns[i] == n;
      assert NodeKeys(ns)[i] == key;
    }
  }

  method CallChains(g: Graph, services: seq<string>, maxLen: int) returns (chains: seq<Chain>)
    requires forall s :: s in services <==> NodeRef(NodeKind.Service, s) in g.nodes
    ensures forall p :: p in chains <==> CallChain(g, maxLen, p)
  {
    chains := [];
    for i := 0 to |services|
      invariant forall p :: p in chains <==> CallChain(g, maxLen, p) && p[0] in services[..i]
    {
      assert services[..i + 1] == services[..i] + [services[i]];
      assert services[i] in services;
      if SortedKeysAt(g.into, NodeKind.Service, services[i], CALLS) == [] {
        var more := WalkCalls(DirectCallees(g), services[i], maxLen);
        chains := chains + more;
      }
    }
    assert services[..|services|] == services;
  }

  ghost predicate AllOffered(offered: FlowCandidate -> bool, fs: seq<FlowCandidate>) {
    forall j | 0 <= j < |fs| && CrossService(fs[j].services) :: offered(fs[j])
  }

  ghost predicate AllKept(fs: seq<FlowCandidate>, ids: set<string>) {
    forall j | 0 <= j < |fs| && CrossService(fs[j].services) :: fs[j].id in ids
  }

  function FromChains(sign: Signer, chains: seq<Chain>): seq<FlowCandidate> {
    seq(|chains|, i requires 0 <= i < |chains| => CallFlow(sign, chains[i]))
  }

  function FromLinks(sign: Signer, links: seq<Relay>): seq<FlowCandidate> {
    seq(|links|, i requires 0 <= i < |links| => EventFlow(sign, links[i]))
  }

  /** Keep the cross-service candidates of a list, by id, later ones replacing earlier ones. */
  method Collect(ghost offered: FlowCandidate -> bool, more: seq<FlowCandidate>, found: Candidates)
    returns (cs: Candidates)
    requires Collected(offered, found)
    requires AllOffered(offered, more)
    ensures Collected(offered, cs) && AllKept(more, cs.Keys) && found.Keys <= cs.Keys
  {
    cs := found;
    for i := 0 to |more|
      invariant Collected(offered, cs) && found.Keys <= cs.Keys
      invariant forall j | 0 <= j < i && CrossService(more[j].services) :: more[j].id in cs
    {
      if CrossService(more[i].services) {
        cs := cs[more[i].id := more[i]];
      }
    }
  }

  method EventLinks(g: Graph, topics: seq<string>) returns (links: seq<Relay>)
    requires forall t :: t in topics <==> NodeRef(NodeKind.Topic, t) in g.nodes
    ensures forall l :: l in links <==> EventLink(g, l)
  {
    links := [];
    for i := 0 to |topics|
      invariant forall l :: l in links <==> EventLink(g, l) && l.topic in topics[..i]
    {
      assert topics[i] in topics;
      assert topics[..i + 1] == topics[..i] + [topics[i]];
      var more := TopicLinks(SortedKeysAt(g.into, NodeKind.Topic, topics[i], PUBLISHES), topics[i],
                             SortedKeysAt(g.into, NodeKind.Topic, topics[i], CONSUMES));
      links := links + more;
    }
    assert topics[..|topics|] == topics;
  }

  ghost predicate Pairs(l: Relay, publishers: seq<string>, topic: string, consumers: seq<string>) {
    l.topic == topic && l.publisher in publishers && l.consumer in consumers && l.publisher != l.consumer
  }

  method TopicLinks(publishers: seq<string>, topic: string, consumers: seq<string>) returns (links: seq<Relay>)
    ensures forall l :: l in links <==> Pairs(l, publishers, topic, consumers)
  {
    links := [];
    for i := 0 to |publishers|
      invariant forall l :: l in links <==> Pairs(l, publishers[..i], topic, consumers)
    {
      ghost var before := links;
      for j := 0 to |consumers|
        invariant forall l :: l in links <==> l in before || Pairs(l, [publishers[i]], topic, consumers[..j])
      {
        assert consumers[..j + 1] == consumers[..j] + [consumers[j]];
        if publishers[i] != consumers[j] {
          links := links + [Relay(publishers[i], topic, consumers[j])];
        }
      }
      assert consumers[..|consumers|] == consumers;
      assert publishers[..i + 1] == publishers[..i] + [publishers[i]];
    }
    assert publishers[..|publishers|] == publishers;
  }

  method IdentifyFlows(store: InMemoryGraphStore, maxLen: int, sign: Signer) returns (flows: seq<FlowCandidate>)
    requires store.Valid()
    ensures ServesOffered(Graph(store.nodes, store.outAdj, store.inAdj), maxLen, sign, flows)
  {
    var g := Graph(store.nodes, store.outAdj, store.inAdj);
    forall kind, key {
      FiledKeys(store.nodes, store.byKind, kind, key);
    }
    flows := IdentifyIn(g, NodeKeys(store.Nodes(NodeKind.Service)), NodeKeys(store.Nodes(NodeKind.Topic)), maxLen,
        sign);
  }

  method IdentifyIn(g: Graph, services: seq<string>, topics: seq<string>, maxLen: int, sign: Signer)
    returns (flows: seq<FlowCandidate>)
    requires forall s :: s in services <==> NodeRef(NodeKind.Service, s) in g.nodes
    requires forall t :: t in topics <==> NodeRef(NodeKind.Topic, t) in g.nodes
    ensures ServesOffered(g, maxLen, sign, flows)
  {
    ghost var offered := OfferedBy(g, sign, maxLen);
    var chains := CallChains(g, services, maxLen);
    ChainsAreOffered(g, sign, maxLen, chains);
    var chained := Collect(offered, FromChains(sign, chains), map[]);
    var links := EventLinks(g, topics);
    LinksAreOffered(g, sign, maxLen, links);
    var cs := Collect(offered, FromLinks(sign, links), chained);
    EverythingCollected(g, maxLen, sign, chains, links, chained.Keys, cs.Keys);
    StringOrderIsTotal();
    var ids := SortedKeys(cs.Keys, StringLeq);
    ValuesServe(g, maxLen, sign, cs, ids);
    flows := ValuesAt(cs, ids);
  }

  ghost function OfferedBy(g: Graph, sign: Signer, maxLen: int): FlowCandidate -> bool {
    f => Offered(g, sign, maxLen, f)
  }

  lemma ChainsAreOffered(g: Graph, sign: Signer, maxLen: int, chains: seq<Chain>)
    requires forall p :: p in chains <==> CallChain(g, maxLen, p)
    ensures AllOffered(OfferedBy(g, sign, maxLen), FromChains(sign, chains))
  {
    forall j | 0 <= j < |chains| ensures CallChain(g, maxLen, chains[j]) {
      assert chains[j] in chains;
    }
  }

  lemma LinksAreOffered(g: Graph, sign: Signer, maxLen: int, links: seq<Relay>)
    requires forall l :: l in links <==> EventLink(g, l)
    ensures AllOffered(OfferedBy(g, sign, maxLen), FromLinks(sign, links))
  {
    forall j | 0 <= j < |links| ensures Offered(g, sign, maxLen, EventFlow(sign, links[j])) {
      assert links[j] in links;
    }
  }

  lemma EverythingCollected(g: Graph, maxLen: int, sign: Signer, chains: seq<Chain>, links: seq<Relay>,
                            chained: set<string>, ids: set<string>)
    requires forall p :: p in chains <==> CallChain(g, maxLen, p)
    requires forall l :: l in links <==> EventLink(g, l)
    requires AllKept(FromChains(sign, chains), chained) && AllKept(FromLinks(sign, links), ids) && chained <= ids
    ensures forall f | Offered(g, sign, maxLen, f) :: f.id in ids
  {
    forall f | Offered(g, sign, maxLen, f) ensures f.id in ids {
      OfferedIsListed(g, maxLen, sign, chains, links, f);
    }
  }

  lemma OfferedIsListed(g: Graph, maxLen: int, sign: Signer, chains: seq<Chain>, links: seq<Relay>, f: FlowCandidate)
    requires forall p :: p in chains <==> CallChain(g, maxLen, p)
    requires forall l :: l in links <==> EventLink(g, l)
    requires Offered(g, sign, maxLen, f)
    ensures CrossService(f.services) && (f in FromChains(sign, chains) || f in FromLinks(sign, links))
  {
    if CallChain(g, maxLen, f.services) && CrossService(f.services) && f == CallFlow(sign, f.services) {
      ChainListed(sign, chains, f.services);
    } else {
      var l :| EventLink(g, l) && f == EventFlow(sign, l);
      RelayListed(sign, links, l);
      assert f.services[0] != f.services[1];
    }
  }

  lemma ChainListed(sign: Signer, chains: seq<Chain>, p: Chain)
    requires p in chains
    ensures CallFlow(sign, p) in FromChains(sign, chains)
  {
    var j :| 0 <= j < |chains| && chains[j] == p;
    assert FromChains(sign, chains)[j] == CallFlow(sign, p);
  }

  lemma RelayListed(sign: Signer, links: seq<Relay>, l: Relay)
    requires l in links
    ensures EventFlow(sign, l) in FromLinks(sign, links)
  {
    var j :| 0 <= j < |links| && links[j] == l;
    assert FromLinks(sign, links)[j] == EventFlow(sign, l);
  }

  function ValuesAt(cs: Candidates, ids: seq<string>): seq<FlowCandidate>
    requires forall id <- ids :: id in cs
  {
    seq(|ids|, i requires 0 <= i < |ids| => cs[ids[i]])
  }

  lemma ValuesServe(g: Graph, maxLen: int, sign: Signer, cs: Candidates, ids: seq<string>)
    requires Collected(OfferedBy(g, sign, maxLen), cs)
    requires forall f | Offered(g, sign, maxLen, f) :: f.id in cs
    requires Distinct(ids) && SortedBy(ids, StringLeq) && forall id :: id in ids <==> id in cs
    ensures ServesOffered(g, maxLen, sign, ValuesAt(cs, ids))
  {
    var flows := ValuesAt(cs, ids);
    forall i | 0 <= i < |ids| ensures flows[i].id == ids[i] {
      assert ids[i] in cs;
    }
    forall f | Offered(g, sign, maxLen, f) ensures exists e :: e in flows && e.id == f.id {
      var i :| 0 <= i < |ids| && ids[i] == f.id;
      assert flows[i] in flows;
    }
  }

  // ----- What a candidate and an offer mean -----

  /** A candidate's id is its services, joined by hyphens, and the first six characters of its signature; its title
      names every service. */
  lemma CandidateIsNamed(sign: Signer, services: Chain, trigger: string)
    ensures var f, slug := CandidateOf(sign, services, trigger), JoinWith(services, "-");
            && f.services == services && f.trigger == trigger && f.signature == sign(services, trigger)
            && |f.id| == |slug| + 1 + (if |f.signature| < 6 then |f.signature| else 6)
            && f.id[..|slug|] == slug && f.id[|slug|] == '-' && f.id[|slug| + 1..] <= f.signature
            && forall i :: 0 <= i < |services| ==> Contains(f.title, services[i])
  {
    var f, slug := CandidateOf(sign, services, trigger), JoinWith(services, "-");
    var head := if |f.signature| < 6 then f.signature else f.signature[..6];
    assert f.id == slug + "-" + head && f.id[|slug| + 1..] == head;
    forall i | 0 <= i < |services| ensures Contains(f.title, services[i]) {
      JoinKeepsParts(services, " \U{2192} ", i);
    }
  }

  /** Flows are triggered by the call graph or by their topic. */
  lemma FlowsNameTheirTrigger(sign: Signer, p: Chain, l: Relay)
    ensures CallFlow(sign, p).services == p && CallFlow(sign, p).trigger == "call graph"
    ensures EventFlow(sign, l).services == [l.publisher, l.consumer]
        && EventFlow(sign, l).trigger == "topic: " + l.topic
  {}

  /** Two services make a flow cross services exactly when they differ. */
  lemma PairCrosses(a: string, b: string)
    ensures CrossService([a, b]) <==> a != b
    ensures !CrossService([a])
  {
    if a != b {
      assert [a, b][0] != [a, b][1];
    }
  }

  /** Calls lead along CALLS relationships between services, and an entry is a service none comes into. */
  lemma CallsFollowGraph(g: Graph, x: string, y: string)
    requires Mirrors(g.out, g.into) && BetweenServices(g.out, CALLS)
    ensures y in DirectCallees(g)(x) <==>
              Link(NodeRef(NodeKind.Service, x), CALLS, NodeRef(NodeKind.Service, y)) in Links(g.out)
    ensures Entry(g, y) ==> NodeRef(NodeKind.Service, y) in g.nodes
                            && Link(NodeRef(NodeKind.Service, x), CALLS, NodeRef(NodeKind.Service, y)) !in Links(g.out)
  {
    StepIsAdjacency(g.out, CALLS, x, y);
    CalledIsNoEntry(g, x, y);
  }

  lemma CalledIsNoEntry(g: Graph, x: string, y: string)
    requires Mirrors(g.out, g.into)
    ensures Entry(g, y) ==> !Adjacent(g.out, NodeRef(NodeKind.Service, x), CALLS, NodeRef(NodeKind.Service, y))
  {
    var s, d := NodeRef(NodeKind.Service, x), NodeRef(NodeKind.Service, y);
    if Adjacent(g.out, s, CALLS, d) {
      assert Adjacent(g.into, d, CALLS, s);
      var refs := At(g.into, Slot(d, CALLS));
      var i :| 0 <= i < |refs| && refs[i] == s;
      assert KeysOf(refs)[i] == x;
      assert x in SortedKeysAt(g.into, NodeKind.Service, y, CALLS);
    }
  }

  /** And a service that nothing calls is an entry. */
  lemma UncalledIsEntry(g: Graph, y: string)
    requires Mirrors(g.out, g.into) && NodeRef(NodeKind.Service, y) in g.nodes
    requires forall s :: !Adjacent(g.out, s, CALLS, NodeRef(NodeKind.Service, y))
    ensures Entry(g, y)
  {
    var callers := SortedKeysAt(g.into, NodeKind.Service, y, CALLS);
    if callers != [] {
      var refs := At(g.into, Slot(NodeRef(NodeKind.Service, y), CALLS));
      assert callers[0] in callers;
      var i :| 0 <= i < |KeysOf(refs)| && KeysOf(refs)[i] == callers[0];
      assert Adjacent(g.into, NodeRef(NodeKind.Service, y), CALLS, refs[i]);
    }
  }

  /** An event link is a topic that one service publishes to and another consumes from. */
  lemma LinkIsPublishedAndConsumed(g: Graph, l: Relay)
    requires Mirrors(g.out, g.into)
    ensures EventLink(g, l) <==>
              && NodeRef(NodeKind.Topic, l.topic) in g.nodes && l.publisher != l.consumer
              && Reaches(g.out, l.publisher, PUBLISHES, l.topic) && Reaches(g.out, l.consumer, CONSUMES, l.topic)
  {
    ReachedBy(g, l.publisher, PUBLISHES, l.topic);
    ReachedBy(g, l.consumer, CONSUMES, l.topic);
  }

  /** Something of this name has the relationship to the topic. */
  ghost predicate Reaches(out: Adjacency, name: string, rel: EdgeKind, topic: string) {
    exists s: NodeRef :: s.key == name && Adjacent(out, s, rel, NodeRef(NodeKind.Topic, topic))
  }

  lemma ReachedBy(g: Graph, name: string, rel: EdgeKind, topic: string)
    requires Mirrors(g.out, g.into)
    ensures name in SortedKeysAt(g.into, NodeKind.Topic, topic, rel) <==> Reaches(g.out, name, rel, topic)
  {
    var t := NodeRef(NodeKind.Topic, topic);
    var refs := At(g.into, Slot(t, rel));
    if name in SortedKeysAt(g.into, NodeKind.Topic, topic, rel) {
      var i :| 0 <= i < |KeysOf(refs)| && KeysOf(refs)[i] == name;
      assert Adjacent(g.into, t, rel, refs[i]);
      assert Adjacent(g.out, refs[i], rel, t);
    }
    if s: NodeRef :| s.key == name && Adjacent(g.out, s, rel, t) {
      assert Adjacent(g.into, t, rel, s);
      var i :| 0 <= i < |refs| && refs[i] == s;
      assert KeysOf(refs)[i] == name;
    }
  }
}
