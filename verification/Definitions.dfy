/** Definitions found in a syntax tree, and the chunk drafts they give (`backend/ingestion/chunker.py`,
    `_collect`, `_resolve_span_and_name`). The tree itself is an input. */
module Definitions {
  import opened Domain
  import opened Residue

  datatype Role = Plain | Func | Container

  /** A named node of a syntax tree: its role and whether it is a wrapper by its type, its rows, and the
      name it declares. */
  datatype Syntax = Syntax(role: Role, wrapper: bool, start: nat, end: nat, name: Option<string>, children: seq<Syntax>)

  /** A definition to be emitted, in rows from 0. */
  datatype Draft = Draft(kind: ChunkKind, span: Span, symbol: Option<string>)

  /** The unbroken chain of wrappers above a node: the rows of its topmost member, and the name declared
      nearest to the node. */
  datatype Chain = Unwrapped | Wrapped(span: Span, name: Option<string>)

  /** The chain above the children of a node, given the chain above the node. */
  function Above(node: Syntax, chain: Chain): Chain {
    if !node.wrapper then Unwrapped
    else if chain.Unwrapped? then Wrapped(Span(node.start, node.end), node.name)
    else Wrapped(chain.span, if node.name.Some? then node.name else chain.name)
  }

  function SpanOf(node: Syntax, chain: Chain): Span {
    if chain.Wrapped? then chain.span else Span(node.start, node.end)
  }

  function SymbolOf(node: Syntax, chain: Chain): Option<string> {
    if node.name.Some? || chain.Unwrapped? then node.name else chain.name
  }

  // ----- The definitions of a tree -----

  /** A function, or a class with what it defines; nested definitions of a function stay part of it. */
  datatype Definition =
    | Callable(span: Span, symbol: Option<string>)
    | Class(span: Span, symbol: Option<string>, members: Forest)

  /** Sibling definitions in order. */
  datatype Forest = Bare | Grow(rest: Forest, last: Definition)

  function Joined(a: Forest, b: Forest): Forest {
    match b
    case Bare => a
    case Grow(rest, last) => Grow(Joined(a, rest), last)
  }

  /** The definitions among the first i children of a node, wrappers and other nodes looked through. */
  function Defined(node: Syntax, i: nat, chain: Chain): Forest
    requires i <= |node.children|
    decreases node, i
  {
    if i == 0 then Bare
    else
      var child := node.children[i - 1];
      var here := Above(node, chain);
      var before := Defined(node, i - 1, chain);
      match child.role
      case Plain => Joined(before, Defined(child, |child.children|, here))
      case Func => Grow(before, Callable(SpanOf(child, here), SymbolOf(child, here)))
      case Container =>
        Grow(before, Class(SpanOf(child, here), SymbolOf(child, here), Defined(child, |child.children|, here)))
  }

  function FirstStart(drafts: seq<Draft>): nat
    requires drafts != []
  {
    if |drafts| == 1 then drafts[0].span.start
    else
      var rest := FirstStart(drafts[..|drafts| - 1]);
      if drafts[|drafts| - 1].span.start < rest then drafts[|drafts| - 1].span.start else rest
  }

  /** The class chunk: the rows above the first member, none if there are no such rows, or the whole class
      if it has no members. */
  function Header(span: Span, symbol: Option<string>, nested: seq<Draft>): seq<Draft> {
    if nested == [] then [Draft(CLASS, span, symbol)]
    else if FirstStart(nested) - 1 >= span.start then [Draft(CLASS, Span(span.start, FirstStart(nested) - 1), symbol)]
    else []
  }

  function DraftsOf(d: Definition, inside: bool): seq<Draft> {
    match d
    case Callable(span, symbol) => [Draft(if inside then METHOD else FUNCTION, span, symbol)]
    case Class(span, symbol, members) =>
      var nested := Drafts(members, true);
      Header(span, symbol, nested) + nested
  }

  function Drafts(f: Forest, inside: bool): seq<Draft> {
    match f
    case Bare => []
    case Grow(rest, last) => Drafts(rest, inside) + DraftsOf(last, inside)
  }

  function ClassSpansOf(d: Definition): seq<Span> {
    if d.Class? then [d.span] + ClassSpans(d.members) else []
  }

  function ClassSpans(f: Forest): seq<Span> {
    match f
    case Bare => []
    case Grow(rest, last) => ClassSpans(rest) + ClassSpansOf(last)
  }

  lemma {:induction false} JoinedDrafts(a: Forest, b: Forest, inside: bool)
    ensures Drafts(Joined(a, b), inside) == Drafts(a, inside) + Drafts(b, inside)
    ensures ClassSpans(Joined(a, b)) == ClassSpans(a) + ClassSpans(b)
  {
    if b.Grow? {
      JoinedDrafts(a, b.rest, inside);
    }
  }

  /** What one more child adds to the drafts and class spans. */
  lemma NextDefined(node: Syntax, i: nat, chain: Chain, inside: bool)
    requires i < |node.children|
    ensures var child, here := node.children[i], Above(node, chain);
            var below := Defined(child, |child.children|, here);
            var nested := Drafts(below, true);
            var before, after := Defined(node, i, chain), Defined(node, i + 1, chain);
            match child.role
            case Plain =>
              && Drafts(after, inside) == Drafts(before, inside) + Drafts(below, inside)
              && ClassSpans(after) == ClassSpans(before) + ClassSpans(below)
            case Func =>
              && Drafts(after, inside)
                 == Drafts(before, inside) + [Draft(if inside then METHOD
                     else FUNCTION, SpanOf(child, here), SymbolOf(child, here))]
              && ClassSpans(after) == ClassSpans(before)
            case Container =>
              && Drafts(after, inside)
                 == Drafts(before, inside) + (Header(SpanOf(child, here), SymbolOf(child, here), nested) + nested)
              && ClassSpans(after) == ClassSpans(before) + ([SpanOf(child, here)] + ClassSpans(below))
  {
    var child, here := node.children[i], Above(node, chain);
    if child.role.Plain? {
      JoinedDrafts(Defined(node, i, chain), Defined(child, |child.children|, here), inside);
    }
  }

  lemma Regrouped<T>(a: seq<T>, b: seq<T>, c: seq<T>, d: seq<T>)
    ensures a + b + c == a + (b + c) && a + b + c + d == a + (b + (c + d))
  {}

  /** The recursive walk; `containers` collects the rows of every class met. */
  class Collector {
    var containers: seq<Span>

    constructor ()
      ensures containers == []
    {
      containers := [];
    }

    method Collect(node: Syntax, chain: Chain, insideClass: bool) returns (defs: seq<Draft>)
      modifies this
      ensures var found := Defined(node, |node.children|, chain);
              defs == Drafts(found, insideClass) && containers == old(containers) + ClassSpans(found)
      decreases node
    {
      defs := [];
      var here := Above(node, chain);
      for i := 0 to |node.children|
        invariant defs == Drafts(Defined(node, i, chain), insideClass)
        invariant containers == old(containers) + ClassSpans(Defined(node, i, chain))
      {
        var child := node.children[i];
        ghost var before := ClassSpans(Defined(node, i, chain));
        ghost var below := ClassSpans(Defined(child, |child.children|, here));
        NextDefined(node, i, chain, insideClass);
        Regrouped(old(containers), before, [SpanOf(child, here)], below);
        Regrouped(old(containers), before, below, []);
        match child.role
        case Plain =>
          var more := Collect(child, here, insideClass);
          defs := defs + more;
        case Func =>
          defs := defs + [Draft(if insideClass then METHOD else FUNCTION, SpanOf(child, here), SymbolOf(child, here))];
        case Container =>
          containers := containers + [SpanOf(child, here)];
          var nested := Collect(child, here, true);
          defs := defs + (Header(SpanOf(child, here), SymbolOf(child, here), nested) + nested);
      }
    }
  }

  // ----- Disjoint rows -----

  predicate Apart(a: Span, b: Span) { a.end < b.start || b.end < a.start }

  predicate Inside(a: Span, b: Span) { b.start <= a.start <= a.end <= b.end }

  /** Siblings occupy different rows, or are functions promoted to one and the same statement. */
  predicate Neighbours(a: Definition, b: Definition) {
    Apart(a.span, b.span) || (a.Callable? && b.Callable? && a.span == b.span)
  }

  predicate AllNeighbours(f: Forest, d: Definition) { f.Grow? ==> Neighbours(f.last, d) && AllNeighbours(f.rest, d) }

  predicate AllInside(f: Forest, span: Span) { f.Grow? ==> Inside(f.last.span, span) && AllInside(f.rest, span) }

  /** Sibling definitions are row-disjoint and members lie within their class. */
  predicate Layered(f: Forest) {
    f.Grow? ==>
      && Layered(f.rest) && AllNeighbours(f.rest, f.last) && f.last.span.start <= f.last.span.end
      && (f.last.Class? ==> Layered(f.last.members) && AllInside(f.last.members, f.last.span))
  }

  predicate DraftsInside(drafts: seq<Draft>, span: Span) {
    forall i :: 0 <= i < |drafts| ==> Inside(drafts[i].span, span)
  }

  lemma {:induction false} DraftsStayInside(f: Forest, inside: bool, span: Span)
    requires Layered(f) && AllInside(f, span)
    ensures DraftsInside(Drafts(f, inside), span)
  {
    if f.Grow? {
      DraftsStayInside(f.rest, inside, span);
      DefinitionDraftsInside(f.last, inside);
    }
  }

  lemma {:induction false} DefinitionDraftsInside(d: Definition, inside: bool)
    requires d.span.start <= d.span.end && (d.Class? ==> Layered(d.members) && AllInside(d.members, d.span))
    ensures DraftsInside(DraftsOf(d, inside), d.span)
  {
    if d.Class? {
      DraftsStayInside(d.members, true, d.span);
      var nested := Drafts(d.members, true);
      if nested != [] {
        FirstStartIsLeast(nested);
      }
    }
  }

  lemma {:induction false} FirstStartIsLeast(drafts: seq<Draft>)
    requires drafts != []
    ensures forall i :: 0 <= i < |drafts| ==> FirstStart(drafts) <= drafts[i].span.start
    ensures exists i :: 0 <= i < |drafts| && drafts[i].span.start == FirstStart(drafts)
  {
    var last := |drafts| - 1;
    if last == 0 {
      assert drafts[0].span.start == FirstStart(drafts);
    } else {
      FirstStartIsLeast(drafts[..last]);
      var i :| 0 <= i < last && drafts[..last][i].span.start == FirstStart(drafts[..last]);
      assert drafts[i].span.start == FirstStart(drafts[..last]);
      assert drafts[last].span.start == FirstStart(drafts) || drafts[i].span.start == FirstStart(drafts);
    }
  }

  predicate SameOrApart(a: Span, b: Span) { a == b || Apart(a, b) }

  predicate Disjoint(drafts: seq<Draft>) {
    forall i, j :: 0 <= i < j < |drafts| ==> SameOrApart(drafts[i].span, drafts[j].span)
  }

  predicate AcrossApart(a: seq<Draft>, b: seq<Draft>) {
    forall i, j :: 0 <= i < |a| && 0 <= j < |b| ==> SameOrApart(a[i].span, b[j].span)
  }

  lemma {:induction false} NeighboursDraftApart(f: Forest, d: Definition, inside: bool)
    requires Layered(f) && AllNeighbours(f, d)
    requires d.span.start <= d.span.end && (d.Class? ==> Layered(d.members) && AllInside(d.members, d.span))
    ensures AcrossApart(Drafts(f, inside), DraftsOf(d, inside))
  {
    if f.Grow? {
      NeighboursDraftApart(f.rest, d, inside);
      DefinitionDraftsInside(f.last, inside);
      DefinitionDraftsInside(d, inside);
    }
  }

  /** The chunks of definitions never share a row, unless they have the same rows. */
  lemma {:induction false} DraftsAreDisjoint(f: Forest, inside: bool)
    requires Layered(f)
    ensures Disjoint(Drafts(f, inside))
  {
    if f.Grow? {
      DraftsAreDisjoint(f.rest, inside);
      NeighboursDraftApart(f.rest, f.last, inside);
      ClassDraftsDisjoint(f.last, inside);
    }
  }

  lemma {:induction false} ClassDraftsDisjoint(d: Definition, inside: bool)
    requires d.Class? ==> Layered(d.members) && AllInside(d.members, d.span)
    ensures Disjoint(DraftsOf(d, inside))
  {
    if d.Class? {
      DraftsAreDisjoint(d.members, true);
      DraftsStayInside(d.members, true, d.span);
      var nested := Drafts(d.members, true);
      if nested != [] {
        FirstStartIsLeast(nested);
      }
    }
  }

  /** Every definition's first row is covered, and classes are covered whole. */
  lemma {:induction false} NonEmptyDrafts(f: Forest, inside: bool)
    requires Layered(f)
    ensures forall i :: 0 <= i < |Drafts(f, inside)| ==>
        Drafts(f, inside)[i].span.start <= Drafts(f, inside)[i].span.end
  {
    if f.Grow? {
      NonEmptyDrafts(f.rest, inside);
      DefinitionDraftsInside(f.last, inside);
    }
  }

  // ----- Class chunks, kinds and names -----

  /** The class chunk holds exactly the rows of the class above everything drafted from its members; of a class without
      members it holds all rows. There is one, unless a member begins where the class does. */
  lemma HeaderHoldsRowsAbove(span: Span, symbol: Option<string>, nested: seq<Draft>, r: nat)
    ensures var header := Header(span, symbol, nested);
            && |header| <= 1
            && (forall i :: 0 <= i < |header| ==> header[i].kind == CLASS && header[i].symbol == symbol)
            && (nested != [] ==>
                  ((exists i :: 0 <= i < |header| && Holds(header[i].span, r)) <==>
                   span.start <= r && forall i :: 0 <= i < |nested| ==> r < nested[i].span.start))
            && (nested == [] ==> |header| == 1 && header[0].span == span)
  {
    if nested != [] {
      FirstStartIsLeast(nested);
      var header := Header(span, symbol, nested);
      assert header != [] ==> (Holds(header[0].span, r) <==> span.start <= r <= FirstStart(nested) - 1);
    }
  }

  /** Functions of a class are methods, and only they; the header is of the class. */
  lemma {:induction false} KindsByPlace(f: Forest, inside: bool)
    ensures forall i :: 0 <= i < |Drafts(f, inside)| ==>
              Drafts(f, inside)[i].kind in {if inside then METHOD else FUNCTION, METHOD, CLASS}
  {
    if f.Grow? {
      KindsByPlace(f.rest, inside);
      KindsOf(f.last, inside);
    }
  }

  lemma {:induction false} KindsOf(d: Definition, inside: bool)
    ensures d.Callable? ==> DraftsOf(d, inside) == [Draft(if inside then METHOD else FUNCTION, d.span, d.symbol)]
    ensures d.Class? ==> forall i :: 0 <= i < |DraftsOf(d, inside)| ==> DraftsOf(d, inside)[i].kind in {METHOD, CLASS}
  {
    if d.Class? {
      KindsByPlace(d.members, true);
      var nested := Drafts(d.members, true);
      forall i | 0 <= i < |DraftsOf(d, inside)| ensures DraftsOf(d, inside)[i].kind in {METHOD, CLASS} {
        var n := |Header(d.span, d.symbol, nested)|;
        if i >= n {
          assert DraftsOf(d, inside)[i] == nested[i - n];
        }
      }
    }
  }

  /** The chain below the nodes of a path, from the root down. */
  function ChainBelow(path: seq<Syntax>): Chain {
    if path == [] then Unwrapped else Above(path[|path| - 1], ChainBelow(path[..|path| - 1]))
  }

  /** The last n nodes of a path are the wrappers a definition below it stands under without a break. */
  ghost predicate UnbrokenRun(path: seq<Syntax>, n: nat) {
    && n <= |path| && (forall i :: |path| - n <= i < |path| ==> path[i].wrapper)
    && (n < |path| ==> !path[|path| - n - 1].wrapper)
  }

  /** The chain of such a run: its topmost node's rows. */
  lemma {:induction false} RunGivesSpan(path: seq<Syntax>, n: nat)
    requires UnbrokenRun(path, n)
    ensures ChainBelow(path).Unwrapped? <==> n == 0
    ensures n > 0 ==> ChainBelow(path).span == Span(path[|path| - n].start, path[|path| - n].end)
    decreases |path|
  {
    if path != [] && n > 0 {
      var up := path[..|path| - 1];
      assert forall i :: 0 <= i < |up| ==> up[i] == path[i];
      RunGivesSpan(up, n - 1);
    }
  }

  /** And the name of the nearest of its nodes that declares one. */
  lemma {:induction false} RunGivesName(path: seq<Syntax>, n: nat, k: int)
    requires UnbrokenRun(path, n) && n > 0 && |path| - n - 1 <= k < |path|
    requires forall i :: k < i < |path| ==> path[i].name.None?
    requires k >= |path| - n ==> path[k].name.Some?
    ensures ChainBelow(path).Wrapped?
    ensures ChainBelow(path).name == if k >= |path| - n then path[k].name else None
    decreases |path|
  {
    var up, last := path[..|path| - 1], path[|path| - 1];
    assert forall i :: 0 <= i < |up| ==> up[i] == path[i];
    assert UnbrokenRun(up, n - 1);
    RunGivesSpan(up, n - 1);
    if n > 1 && k < |path| - 1 {
      RunGivesName(up, n - 1, k);
    }
  }

  /** A definition spans the topmost of the wrappers it stands under without a break, or its own rows under none. */
  lemma WrappersGiveSpan(path: seq<Syntax>, n: nat, node: Syntax)
    requires UnbrokenRun(path, n)
    ensures SpanOf(node, ChainBelow(path))
         == if n == 0 then Span(node.start, node.end) else Span(path[|path| - n].start, path[|path| - n].end)
  {
    RunGivesSpan(path, n);
  }

  /** It has its own name, or else that of the nearest of them that declares one, if any does. */
  lemma WrappersGiveName(path: seq<Syntax>, n: nat, node: Syntax, k: int)
    requires UnbrokenRun(path, n) && |path| - n - 1 <= k < |path|
    requires forall i :: k < i < |path| ==> path[i].name.None?
    requires k >= |path| - n ==> path[k].name.Some?
    ensures SymbolOf(node, ChainBelow(path))
         == if node.name.Some? then node.name else if k >= |path| - n then path[k].name else None
  {
    RunGivesSpan(path, n);
    if n > 0 {
      RunGivesName(path, n, k);
    }
  }
}
