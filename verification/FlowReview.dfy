/** Generation, review and invalidation of flow narratives (`backend/flows/service.py`). */
module FlowReview {
  import opened Domain
  import opened Ordering
  import opened Text
  import FlowPaths

  datatype ReviewStatus = PENDING | NEEDS_REVIEW | APPROVED | CHANGES_REQUESTED | REJECTED

  type FlowCandidate = FlowPaths.FlowCandidate

  /** A narrative; update times are not modelled. */
  datatype Narrative = Narrative(
    id: string, title: string, services: seq<string>, trigger: string, signature: string, text: string,
    summary: string, promptVersion: string, contentHash: string, status: ReviewStatus,
    reviewReason: Option<string>, lastApprovedText: Option<string>, lastApprovedBy: Option<string>)
  {
    predicate IsAuthoritative() { status == APPROVED }

    predicate Touches(names: set<string>) { exists i :: 0 <= i < |services| && services[i] in names }
  }

  type Narratives = map<string, Narrative>

  datatype Written = Written(text: string, summary: string)

  /** What the gateway writes for a candidate on its n-th call, or a failure, which ends the batch. */
  type Writer = (FlowCandidate, nat) -> Option<Written>

  datatype Settings = Settings(promptVersion: string, contentHash: (string, string) -> string) {
    function HashOf(cand: FlowCandidate): string { contentHash(cand.signature, promptVersion) }

    /** The stored narrative was generated from this structure and prompt. */
    predicate IsCurrent(rows: Narratives, cand: FlowCandidate) {
      cand.id in rows && rows[cand.id].contentHash == HashOf(cand)
    }

    function Generated(rows: Narratives, cand: FlowCandidate, w: Written): Narrative {
      if cand.id in rows then
        // Re-generation needs re-approval.
        rows[cand.id].(text := w.text, summary := w.summary, contentHash := HashOf(cand), status := PENDING,
                       reviewReason := None)
      else
        Narrative(cand.id, cand.title, cand.services, cand.trigger, cand.signature, w.text, w.summary,
                  promptVersion, HashOf(cand), PENDING, None, None, None)
    }
  }

  /** Store, gateway calls made, and whether every candidate was treated. */
  datatype Generation = Generation(rows: Narratives, calls: nat, finished: bool)

  function GenerateAll(s: Settings, writer: Writer, rows: Narratives, cands: seq<FlowCandidate>, calls: nat): Generation
    decreases |cands|
  {
    if cands == [] then Generation(rows, calls, true)
    else if s.IsCurrent(rows, cands[0]) then GenerateAll(s, writer, rows, cands[1..], calls)
    else match writer(cands[0], calls)
      case None => Generation(rows, calls + 1, false)
      case Some(w) =>
        GenerateAll(s, writer, rows[cands[0].id := s.Generated(rows, cands[0], w)], cands[1..], calls + 1)
  }

  function Approved(n: Narrative, architect: string): Narrative {
    n.(status := APPROVED, reviewReason := None, lastApprovedText := Some(n.text), lastApprovedBy := Some(architect))
  }

  /** The services a change and a flow share, each once, in order. */
  function Overlap(services: seq<string>, changed: set<string>): seq<string> {
    Sort(SharedOnce(services, changed), StringLeq)
  }

  function SharedOnce(services: seq<string>, changed: set<string>): (r: seq<string>)
    ensures Distinct(r) && forall x :: x in r <==> x in services && x in changed
  {
    if services == [] then []
    else
      var rest := SharedOnce(services[1..], changed);
      if services[0] in changed && services[0] !in rest then [services[0]] + rest else rest
  }

  function Flagged(n: Narrative, changed: set<string>): Narrative {
    if n.IsAuthoritative() && n.Touches(changed) then
      n.(status := NEEDS_REVIEW, reviewReason := Some(StaleReason(Overlap(n.services, changed))))
    else n
  }

  function StaleReason(overlap: seq<string>): string {
    "code changed in " + JoinWith(overlap, ", ") + " since last approval"
  }

  function InvalidateAll(rows: Narratives, changed: set<string>): Narratives {
    map id | id in rows :: Flagged(rows[id], changed)
  }

  ghost predicate Keyed(rows: Narratives) { forall id <- rows :: rows[id].id == id }

  class InMemoryFlowStore {
    var rows: Narratives

    constructor ()
      ensures rows == map[]
    {
      rows := map[];
    }

    method Upsert(n: Narrative)
      modifies this
      ensures rows == old(rows)[n.id := n]
    {
      rows := rows[n.id := n];
    }

    /** All narratives, sorted by id. */
    method All() returns (all: seq<Narrative>)
      requires Keyed(rows)
      ensures Lists(all, rows)
    {
      StringOrderIsTotal();
      var ids := SortedKeys(rows.Keys, StringLeq);
      all := RowsAt(rows, ids);
      SortedRowsList(rows, ids);
    }
  }

  function RowsAt(rows: Narratives, ids: seq<string>): seq<Narrative>
    requires forall id <- ids :: id in rows
  {
    seq(|ids|, i requires 0 <= i < |ids| => rows[ids[i]])
  }

  lemma SortedRowsList(rows: Narratives, ids: seq<string>)
    requires Keyed(rows) && SortedBy(ids, StringLeq) && Distinct(ids) && forall id :: id in ids <==> id in rows
    ensures Lists(RowsAt(rows, ids), rows)
  {
    var all := RowsAt(rows, ids);
    forall id <- rows ensures rows[id] in all {
      var i :| 0 <= i < |ids| && ids[i] == id;
      assert all[i] == rows[id];
    }
  }

  datatype GenerateReport = GenerateReport(created: nat, regenerated: nat, skipped: nat, ids: seq<string>)

  /** What evidence shows of a narrative. */
  datatype Hit = Hit(chunkId: string, service: string, path: string, lines: nat, symbol: string, content: string)

  function Newlines(text: string): nat {
    if text == "" then 0 else (if text[0] == '\n' then 1 else 0) + Newlines(text[1..])
  }

  function ToHit(n: Narrative): Hit {
    Hit("flow:" + n.id, if n.services == [] then ""
        else n.services[0], "flow/" + n.id, Newlines(n.text) + 1, n.title, n.text)
  }

  class FlowNarrativeService {
    const store: InMemoryFlowStore
    const settings: Settings
    const writer: Writer

    constructor (store: InMemoryFlowStore, settings: Settings, writer: Writer)
      ensures this.store == store && this.settings == settings && this.writer == writer
    {
      this.store, this.settings, this.writer := store, settings, writer;
    }

    /** Generate what is new or has changed in structure; stops where the gateway fails. */
    method Generate(cands: seq<FlowCandidate>) returns (report: GenerateReport, calls: nat, finished: bool)
      modifies store
      ensures Generation(store.rows, calls, finished) == GenerateAll(settings, writer, old(store.rows), cands, 0)
      ensures finished ==>
          report.created + report.regenerated == calls == |report.ids| && calls + report.skipped == |cands|
    {
      report, calls, finished := GenerateReport(0, 0, 0, []), 0, true;
      for i := 0 to |cands|
        invariant GenerateAll(settings, writer, store.rows, cands[i..], calls)
               == GenerateAll(settings, writer, old(store.rows), cands, 0)
        invariant report.created + report.regenerated == calls == |report.ids| && calls + report.skipped == i
      {
        var cand := cands[i];
        assert cands[i..][1..] == cands[i + 1..];
        if settings.IsCurrent(store.rows, cand) {
          report := report.(skipped := report.skipped + 1);
          continue;
        }
        var written := writer(cand, calls);
        calls := calls + 1;
        if written.None? {
          return report, calls, false;
        }
        if cand.id in store.rows {
          report := report.(regenerated := report.regenerated + 1);
        } else {
          report := report.(created := report.created + 1);
        }
        AddGenerated(cand, written.value);
        report := report.(ids := report.ids + [cand.id]);
      }
    }

    method AddGenerated(cand: FlowCandidate, w: Written)
      modifies store
      ensures store.rows == old(store.rows)[cand.id := settings.Generated(old(store.rows), cand, w)]
    {
      store.rows := store.rows[cand.id := settings.Generated(store.rows, cand, w)];
    }

    /** An unknown flow is an error and changes nothing. */
    method Approve(id: string, architect: string) returns (found: bool)
      requires Keyed(store.rows)
      modifies store
      ensures found <==> id in old(store.rows)
      ensures store.rows == if found then old(store.rows)[id := Approved(old(store.rows)[id], architect)]
          else old(store.rows)
    {
      if id !in store.rows {
        return false;
      }
      store.Upsert(Approved(store.rows[id], architect));
      return true;
    }

    method SetStatus(id: string, status: ReviewStatus, reason: Option<string>) returns (found: bool)
      requires Keyed(store.rows)
      modifies store
      ensures found <==> id in old(store.rows)
      ensures store.rows == WithStatus(old(store.rows), id, status, reason)
    {
      if id !in store.rows {
        return false;
      }
      store.Upsert(store.rows[id].(status := status, reviewReason := reason));
      return true;
    }

    method RequestChanges(id: string, reason: string) returns (found: bool)
      requires Keyed(store.rows)
      modifies store
      ensures found <==> id in old(store.rows)
      ensures store.rows == WithStatus(old(store.rows), id, CHANGES_REQUESTED, Some(reason))
    {
      found := SetStatus(id, CHANGES_REQUESTED, Some(reason));
    }

    method Reject(id: string, reason: Option<string>) returns (found: bool)
      requires Keyed(store.rows)
      modifies store
      ensures found <==> id in old(store.rows)
      ensures store.rows == WithStatus(old(store.rows), id, REJECTED, reason)
    {
      found := SetStatus(id, REJECTED, reason);
    }

    method FlagOne(n: Narrative, changed: set<string>) returns (flagged: bool)
      requires n.id in store.rows && store.rows[n.id] == n && Keyed(store.rows)
      modifies store
      ensures flagged <==> Stale(n, changed)
      ensures store.rows == old(store.rows)[n.id := Flagged(n, changed)]
    {
      flagged := false;
      if n.IsAuthoritative() {
        var overlap := Overlap(n.services, changed);
        OverlapIsTouching(n, changed);
        if overlap != [] {
          flagged := SetStatus(n.id, NEEDS_REVIEW, Some(StaleReason(overlap)));
        }
      }
    }

    /** Flag every approved narrative that touches a changed service, and report exactly those. */
    method InvalidateOnChange(changed: set<string>) returns (affected: seq<string>)
      requires Keyed(store.rows)
      modifies store
      ensures store.rows == InvalidateAll(old(store.rows), changed)
      ensures Distinct(affected) && SortedBy(affected, StringLeq)
      ensures forall id :: id in affected <==> id in old(store.rows) && Stale(old(store.rows)[id], changed)
    {
      ghost var rows0 := store.rows;
      var all := store.All();
      affected := [];
      NoneFlagged(rows0, changed);
      for i := 0 to |all|
        invariant store.rows == FlaggedAmong(rows0, changed, Ids(all[..i]))
        invariant affected == StaleIds(all[..i], changed)
      {
        FlagOneMore(rows0, changed, all, i);
        KeyedFlagging(rows0, changed, Ids(all[..i]));
        var flagged := FlagOne(all[i], changed);
        if flagged {
          affected := affected + [all[i].id];
        }
      }
      assert all[..|all|] == all;
      AllFlagged(rows0, changed, all);
      StaleIdsExact(rows0, changed, all);
    }

    /** Approved narratives that touch the anchors, in order of id. */
    method EvidenceFor(anchors: set<string>) returns (hits: seq<Hit>)
      requires Keyed(store.rows)
      ensures exists served :: Serves(store.rows, anchors, served) && hits == Hits(served)
    {
      var all := store.All();
      hits := [];
      ghost var served: seq<Narrative> := [];
      for i := 0 to |all|
        invariant hits == Hits(served)
        invariant ServesOf(all[..i], anchors, served)
      {
        ServesNext(all, i, anchors, served);
        if all[i].IsAuthoritative() && all[i].Touches(anchors) {
          hits := hits + [ToHit(all[i])];
          served := served + [all[i]];
        }
      }
      assert all[..|all|] == all;
      assert Serves(store.rows, anchors, served);
    }
  }

  ghost predicate Ascending(ns: seq<Narrative>) {
    forall i, j :: 0 <= i < j < |ns| ==> ns[i].id != ns[j].id && StringLeq(ns[i].id, ns[j].id)
  }

  /** Of these narratives, in order, those that are approved and touch the anchors. */
  ghost predicate ServesOf(ns: seq<Narrative>, anchors: set<string>, served: seq<Narrative>) {
    Ascending(served) && forall n :: n in served <==> n in ns && n.IsAuthoritative() && n.Touches(anchors)
  }

  lemma ServesNext(ns: seq<Narrative>, i: nat, anchors: set<string>, served: seq<Narrative>)
    requires i < |ns| && Ascending(ns) && ServesOf(ns[..i], anchors, served)
    ensures var more := if ns[i].IsAuthoritative() && ns[i].Touches(anchors) then [ns[i]] else [];
            ServesOf(ns[..i + 1], anchors, served + more)
  {
    assert ns[..i + 1] == ns[..i] + [ns[i]];
    assert served + [] == served;
    forall k | 0 <= k < |served| ensures served[k].id != ns[i].id && StringLeq(served[k].id, ns[i].id) {
      assert served[k] in ns[..i];
    }
  }

  /** The approved narratives that touch the anchors, each once, in order of id. */
  ghost predicate Serves(rows: Narratives, anchors: set<string>, served: seq<Narrative>) {
    && Ascending(served)
    && (forall n :: n in served <==> n.id in rows && rows[n.id] == n && n.IsAuthoritative() && n.Touches(anchors))
  }

  function Hits(ns: seq<Narrative>): seq<Hit> { seq(|ns|, i requires 0 <= i < |ns| => ToHit(ns[i])) }

  ghost function Ids(ns: seq<Narrative>): set<string> { set n | n in ns :: n.id }

  function WithStatus(rows: Narratives, id: string, status: ReviewStatus, reason: Option<string>): Narratives {
    if id in rows then rows[id := rows[id].(status := status, reviewReason := reason)] else rows
  }

  predicate Stale(n: Narrative, changed: set<string>) { n.IsAuthoritative() && n.Touches(changed) }

  // ----- Invalidation, one narrative at a time -----

  ghost function FlaggedAmong(rows: Narratives, changed: set<string>, ids: set<string>): Narratives {
    map id | id in rows :: if id in ids then Flagged(rows[id], changed) else rows[id]
  }

  function StaleIds(ns: seq<Narrative>, changed: set<string>): seq<string> {
    if ns == [] then []
    else StaleIds(ns[..|ns| - 1], changed) + if Stale(ns[|ns| - 1], changed) then [ns[|ns| - 1].id] else []
  }

  /** All rows, each once, in order of id. */
  ghost predicate Lists(all: seq<Narrative>, rows: Narratives) {
    && Ascending(all)
    && (forall i :: 0 <= i < |all| ==> all[i].id in rows && rows[all[i].id] == all[i])
    && (forall id <- rows :: rows[id] in all)
  }

  lemma KeyedFlagging(rows: Narratives, changed: set<string>, ids: set<string>)
    requires Keyed(rows)
    ensures Keyed(FlaggedAmong(rows, changed, ids))
  {}

  lemma NoneFlagged(rows: Narratives, changed: set<string>)
    ensures FlaggedAmong(rows, changed, {}) == rows
  {}

  lemma OverlapIsTouching(n: Narrative, changed: set<string>)
    ensures Overlap(n.services, changed) != [] <==> n.Touches(changed)
  {
    var shared := SharedOnce(n.services, changed);
    SameMembers(Overlap(n.services, changed), shared);
    assert shared != [] ==> shared[0] in n.services && shared[0] in changed;
  }

  lemma FlagOneMore(rows: Narratives, changed: set<string>, all: seq<Narrative>, i: nat)
    requires Lists(all, rows) && i < |all|
    ensures var id := all[i].id;
            var sofar := FlaggedAmong(rows, changed, Ids(all[..i]));
            && id in sofar && sofar[id] == all[i]
            && FlaggedAmong(rows, changed, Ids(all[..i + 1])) == sofar[id := Flagged(all[i], changed)]
    ensures StaleIds(all[..i + 1], changed) == StaleIds(all[..i], changed) + if Stale(all[i], changed) then [all[i].id]
        else []
  {
    assert all[..i + 1][..i] == all[..i];
    assert all[..i + 1] == all[..i] + [all[i]];
    assert Ids(all[..i + 1]) == Ids(all[..i]) + {all[i].id};
    assert all[i].id !in Ids(all[..i]);
  }

  lemma AllFlagged(rows: Narratives, changed: set<string>, all: seq<Narrative>)
    requires Lists(all, rows) && Keyed(rows)
    ensures FlaggedAmong(rows, changed, Ids(all)) == InvalidateAll(rows, changed)
  {
    forall id <- rows ensures id in Ids(all) {
      assert rows[id] in all && rows[id].id == id;
    }
  }

  lemma {:induction false} StaleIdsMembers(ns: seq<Narrative>, changed: set<string>)
    ensures forall id :: id in StaleIds(ns, changed) <==>
        exists i :: 0 <= i < |ns| && ns[i].id == id && Stale(ns[i], changed)
  {
    if ns != [] {
      var rest, last := ns[..|ns| - 1], ns[|ns| - 1];
      StaleIdsMembers(rest, changed);
      assert ns == rest + [last];
    }
  }

  lemma {:induction false} StaleIdsOf(ns: seq<Narrative>, changed: set<string>)
    requires forall i, j :: 0 <= i < j < |ns| ==> ns[i].id != ns[j].id && StringLeq(ns[i].id, ns[j].id)
    ensures Distinct(StaleIds(ns, changed)) && SortedBy(StaleIds(ns, changed), StringLeq)
  {
    if ns != [] {
      var rest, last := ns[..|ns| - 1], ns[|ns| - 1];
      StaleIdsOf(rest, changed);
      StaleIdsMembers(rest, changed);
      var ids := StaleIds(rest, changed);
      forall k | 0 <= k < |ids| ensures ids[k] != last.id && StringLeq(ids[k], last.id) {
        assert ids[k] in ids;
        var i :| 0 <= i < |rest| && rest[i].id == ids[k];
        assert rest[i] == ns[i];
      }
    }
  }

  lemma StaleIdsExact(rows: Narratives, changed: set<string>, all: seq<Narrative>)
    requires Lists(all, rows) && Keyed(rows)
    ensures Distinct(StaleIds(all, changed)) && SortedBy(StaleIds(all, changed), StringLeq)
    ensures forall id :: id in StaleIds(all, changed) <==> id in rows && Stale(rows[id], changed)
  {
    StaleIdsOf(all, changed);
    StaleIdsMembers(all, changed);
    forall id <- rows | Stale(rows[id], changed) ensures id in StaleIds(all, changed) {
      var i :| 0 <= i < |all| && all[i] == rows[id];
      assert all[i].id == id;
    }
  }

  // ----- What each step means -----

  /** A hit shows the narrative's text under its title, at its first service, and spans its lines. */
  lemma HitShows(n: Narrative)
    ensures var hit := ToHit(n);
            && hit.content == n.text && hit.symbol == n.title
            && hit.chunkId == "flow:" + n.id && hit.path == "flow/" + n.id
            && (if |n.services| > 0 then hit.service == n.services[0] else hit.service == "")
            && hit.lines == 1 + Newlines(n.text)
  {}

  /** Every line break is counted, and nothing else. */
  lemma {:induction false} NewlinesAreCounted(before: string, after: string)
    ensures Newlines(before + "\n" + after) == Newlines(before) + 1 + Newlines(after)
    ensures '\n' !in before ==> Newlines(before) == 0
  {
    var text := before + "\n" + after;
    if before == "" {
      assert text[1..] == after;
    } else {
      assert text[1..] == before[1..] + "\n" + after;
      NewlinesAreCounted(before[1..], after);
    }
  }

  /** Evidence is approved text that touches an anchor, and every such text is evidence. */
  lemma EvidenceIsApproved(rows: Narratives, anchors: set<string>, served: seq<Narrative>)
    requires Serves(rows, anchors, served)
    ensures forall i :: 0 <= i < |served| ==>
              && served[i].id in rows && rows[served[i].id] == served[i] && served[i].status == APPROVED
              && exists s <- served[i].services :: s in anchors
    ensures forall id <- rows | rows[id].id == id && rows[id].status == APPROVED
                                && exists s <- rows[id].services :: s in anchors :: rows[id] in served
  {
    forall i | 0 <= i < |served| ensures exists s <- served[i].services :: s in anchors {
      assert served[i] in served;
    }
    forall id <- rows | rows[id].id == id && rows[id].status == APPROVED
                        && exists s <- rows[id].services :: s in anchors
      ensures rows[id] in served
    {
      var s :| s in rows[id].services && s in anchors;
      var i :| 0 <= i < |rows[id].services| && rows[id].services[i] == s;
    }
  }

  /** A candidate is passed over exactly when a narrative of its id was made from this structure and prompt version. */
  lemma CurrentIffSameStructure(s: Settings, rows: Narratives, cand: FlowCandidate)
    ensures s.IsCurrent(rows, cand) <==>
              cand.id in rows && rows[cand.id].contentHash == s.contentHash(cand.signature, s.promptVersion)
  {}

  /** What is generated has the writer's words, awaits review, and is current; of an existing narrative everything
      else stays. */
  lemma GeneratedAwaitsReview(s: Settings, rows: Narratives, cand: FlowCandidate, w: Written)
    ensures var n := s.Generated(rows, cand, w);
            && n.text == w.text && n.summary == w.summary && n.status == PENDING && n.reviewReason == None
            && s.IsCurrent(rows[cand.id := n], cand)
            && (cand.id in rows ==>
                  && n.id == rows[cand.id].id && n.title == rows[cand.id].title && n.services == rows[cand.id].services
                  && n.lastApprovedText == rows[cand.id].lastApprovedText
                  && n.lastApprovedBy == rows[cand.id].lastApprovedBy)
            && (cand.id !in rows ==>
                  && n.id == cand.id && n.title == cand.title && n.services == cand.services
                  && n.trigger == cand.trigger && n.signature == cand.signature && n.promptVersion == s.promptVersion
                  && n.lastApprovedText == None && n.lastApprovedBy == None)
  {}

  /** Approval puts the present text and the architect on record and changes nothing else. */
  lemma ApprovalRecords(n: Narrative, architect: string)
    ensures var a := Approved(n, architect);
            && a.status == APPROVED && a.reviewReason == None
            && a.lastApprovedText == Some(n.text) && a.lastApprovedBy == Some(architect)
            && a.(status := n.status, reviewReason := n.reviewReason, lastApprovedText := n.lastApprovedText,
                  lastApprovedBy := n.lastApprovedBy) == n
  {}

  /** The reason given names exactly the services the change and the flow share, each once, in order. */
  lemma ReasonNamesShared(services: seq<string>, changed: set<string>)
    ensures var shared := Overlap(services, changed);
            && (forall x :: x in shared <==> x in services && x in changed)
            && (forall i, j :: 0 <= i < j < |shared| ==> shared[i] != shared[j] && StringLeq(shared[i], shared[j]))
            && forall i :: 0 <= i < |shared| ==> Contains(StaleReason(shared), shared[i])
  {
    var once, shared := SharedOnce(services, changed), Overlap(services, changed);
    StringOrderIsTotal();
    SortSorts(once, StringLeq);
    SortKeepsDistinct(once, StringLeq);
    SameMembers(shared, once);
    forall i | 0 <= i < |shared| ensures Contains(StaleReason(shared), shared[i]) {
      JoinKeepsParts(shared, ", ", i);
      ContainedFurther(JoinWith(shared, ", "), "code changed in ", " since last approval", shared[i]);
    }
  }
}
