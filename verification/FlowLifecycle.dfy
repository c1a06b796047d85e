/** What holds over every sequence of generation, review and invalidation actions. */
module FlowLifecycle {
  import opened Domain
  import opened FlowReview
  import opened Ordering
  import opened DiffEffect
  import FlowPaths
  import IndexEntries
  import Reindex

  datatype Action =
    | Generate(settings: Settings, writer: Writer, cands: seq<FlowCandidate>)
    | Approve(id: string, architect: string)
    | RequestChanges(id: string, asked: string)
    | Reject(id: string, reason: Option<string>)
    | Invalidate(changed: set<string>)

  function After(rows: Narratives, a: Action): Narratives {
    match a
    case Generate(settings, writer, cands) => GenerateAll(settings, writer, rows, cands, 0).rows
    case Approve(id, architect) => if id in rows then rows[id := Approved(rows[id], architect)] else rows
    case RequestChanges(id, asked) => WithStatus(rows, id, CHANGES_REQUESTED, Some(asked))
    case Reject(id, reason) => WithStatus(rows, id, REJECTED, reason)
    case Invalidate(changed) => InvalidateAll(rows, changed)
  }

  function Run(rows: Narratives, actions: seq<Action>): Narratives {
    if actions == [] then rows else After(Run(rows, actions[..|actions| - 1]), actions[|actions| - 1])
  }

  predicate Approves(rows: Narratives, a: Action, id: string) { a.Approve? && a.id == id && id in rows }

  predicate Served(rows: Narratives, id: string) { id in rows && rows[id].IsAuthoritative() }

  // ----- Single actions -----

  /** What generation does to one narrative: nothing, or it becomes pending; what it is about stays. */
  lemma {:induction false} GenerationPends(s: Settings, writer: Writer, rows: Narratives, cands: seq<FlowCandidate>,
                                           calls: nat, id: string)
    requires Keyed(rows)
    ensures var r := GenerateAll(s, writer, rows, cands, calls).rows;
            && Keyed(r) && rows.Keys <= r.Keys
            && (id in r ==> (id in rows && r[id] == rows[id]) || r[id].status == PENDING)
            && (id in rows ==>
                r[id].services == rows[id].services && r[id].lastApprovedText == rows[id].lastApprovedText)
            && (id in r && id !in rows ==> r[id].lastApprovedText == None)
    decreases |cands|
  {
    if cands != [] && !s.IsCurrent(rows, cands[0]) {
      var w := writer(cands[0], calls);
      if w.Some? {
        GenerationPends(s, writer, rows[cands[0].id := s.Generated(rows, cands[0], w.value)], cands[1..], calls + 1,
            id);
      }
    } else if cands != [] {
      GenerationPends(s, writer, rows, cands[1..], calls, id);
    }
  }

  /** After any action a narrative is served only if that action approved it, or it was served and is unchanged.
      No action removes a narrative or alters what it is about. */
  lemma ServedOnlyByApproval(rows: Narratives, a: Action, id: string)
    requires Keyed(rows)
    ensures var next := After(rows, a);
            && Keyed(next) && rows.Keys <= next.Keys
            && (Served(next, id) ==> Approves(rows, a, id) || (id in rows && next[id] == rows[id]))
            && (Approves(rows, a, id) ==> Served(next, id))
            && (id in rows ==> next[id].services == rows[id].services)
  {
    if a.Generate? {
      GenerationPends(a.settings, a.writer, rows, a.cands, 0, id);
    }
  }

  /** Invalidation withholds exactly the served narratives that touch a changed service; it alters nothing but
      status and reason, so never a text. */
  lemma InvalidationWithholds(rows: Narratives, changed: set<string>, id: string)
    requires id in rows
    ensures var next := InvalidateAll(rows, changed);
            && next.Keys == rows.Keys
            && next[id].(status := rows[id].status, reviewReason := rows[id].reviewReason) == rows[id]
            && (Served(next, id) <==> Served(rows, id) && !rows[id].Touches(changed))
            && (next[id] != rows[id] ==> next[id].status == NEEDS_REVIEW)
  {}

  // ----- Whole histories -----

  /** The text of a narrative when it was last approved, as the history tells it. */
  function LastApproved(rows: Narratives, actions: seq<Action>, id: string): Option<string> {
    if actions == [] then (if id in rows then rows[id].lastApprovedText else None)
    else
      var before := Run(rows, actions[..|actions| - 1]);
      if Approves(before, actions[|actions| - 1], id) then Some(before[id].text)
      else LastApproved(rows, actions[..|actions| - 1], id)
  }

  /** A served narrative shows its last approved text. */
  ghost predicate Faithful(rows: Narratives) {
    Keyed(rows) && forall id <- rows :: rows[id].IsAuthoritative() ==> rows[id].lastApprovedText == Some(rows[id].text)
  }

  lemma ActionKeepsApprovedText(rows: Narratives, a: Action, id: string)
    requires Keyed(rows) && id in After(rows, a)
    ensures After(rows, a)[id].lastApprovedText
         == if Approves(rows, a, id) then Some(rows[id].text) else if id in rows then rows[id].lastApprovedText
             else None
  {
    if a.Generate? {
      GenerationPends(a.settings, a.writer, rows, a.cands, 0, id);
    }
  }

  /** Over every history, an approved narrative's text is the text its last approval saw. */
  lemma {:induction false} ServedTextIsLastApproved(rows: Narratives, actions: seq<Action>, id: string)
    requires Faithful(rows)
    ensures Keyed(Run(rows, actions))
    ensures id in Run(rows, actions) ==> Run(rows, actions)[id].lastApprovedText == LastApproved(rows, actions, id)
    ensures id !in Run(rows, actions) ==> LastApproved(rows, actions, id) == None
    ensures Served(Run(rows, actions), id) ==> LastApproved(rows, actions, id) == Some(Run(rows, actions)[id].text)
  {
    if actions != [] {
      var prefix, a := actions[..|actions| - 1], actions[|actions| - 1];
      var before := Run(rows, prefix);
      ServedTextIsLastApproved(rows, prefix, id);
      ServedOnlyByApproval(before, a, id);
      if id in After(before, a) {
        ActionKeepsApprovedText(before, a, id);
      }
    }
  }

  /** What is not served comes to be served only through an approval. */
  lemma {:induction false} WithheldUntilApproved(rows: Narratives, actions: seq<Action>, id: string)
    requires Keyed(rows) && !Served(rows, id)
    requires forall i :: 0 <= i < |actions| ==> !(actions[i].Approve? && actions[i].id == id)
    ensures Keyed(Run(rows, actions)) && rows.Keys <= Run(rows, actions).Keys && !Served(Run(rows, actions), id)
    ensures id in rows ==> Run(rows, actions)[id].services == rows[id].services
  {
    if actions != [] {
      var prefix := actions[..|actions| - 1];
      WithheldUntilApproved(rows, prefix, id);
      ServedOnlyByApproval(Run(rows, prefix), actions[|actions| - 1], id);
    }
  }

  lemma {:induction false} ServicesStay(rows: Narratives, actions: seq<Action>, id: string)
    requires Keyed(rows) && id in rows
    ensures Keyed(Run(rows, actions)) && id in Run(rows, actions)
    ensures Run(rows, actions)[id].services == rows[id].services
  {
    if actions != [] {
      var prefix := actions[..|actions| - 1];
      ServicesStay(rows, prefix, id);
      ServedOnlyByApproval(Run(rows, prefix), actions[|actions| - 1], id);
    }
  }

  /** After an invalidation, whatever happens next, a narrative touching a changed service is served only if an
      architect has approved it since. */
  lemma StaleClaimsStayWithheld(rows: Narratives, changed: set<string>, later: seq<Action>, id: string)
    requires Keyed(rows)
    ensures var final := Run(InvalidateAll(rows, changed), later);
            Served(final, id) && final[id].Touches(changed) ==>
              exists i :: 0 <= i < |later| && later[i].Approve? && later[i].id == id
  {
    var start := InvalidateAll(rows, changed);
    if forall i :: 0 <= i < |later| ==> !(later[i].Approve? && later[i].id == id) {
      if id in rows {
        InvalidationWithholds(rows, changed, id);
        ServicesStay(start, later, id);
        if rows[id].Touches(changed) {
          WithheldUntilApproved(start, later, id);
        }
      } else {
        WithheldUntilApproved(start, later, id);
      }
    }
  }

  // ----- Generation is not repeated -----

  ghost predicate OneHashPerId(s: Settings, cands: seq<FlowCandidate>) {
    forall i, j :: 0 <= i < |cands| && 0 <= j < |cands| && cands[i].id == cands[j].id ==>
        s.HashOf(cands[i]) == s.HashOf(cands[j])
  }

  lemma {:induction false} CurrentStays(s: Settings, writer: Writer, rows: Narratives, cands: seq<FlowCandidate>,
                                        calls: nat, cand: FlowCandidate)
    requires s.IsCurrent(rows, cand)
    requires forall i :: 0 <= i < |cands| && cands[i].id == cand.id ==> s.HashOf(cands[i]) == s.HashOf(cand)
    ensures s.IsCurrent(GenerateAll(s, writer, rows, cands, calls).rows, cand)
    decreases |cands|
  {
    if cands != [] && s.IsCurrent(rows, cands[0]) {
      CurrentStays(s, writer, rows, cands[1..], calls, cand);
    } else if cands != [] && writer(cands[0], calls).Some? {
      var next := rows[cands[0].id := s.Generated(rows, cands[0], writer(cands[0], calls).value)];
      CurrentStays(s, writer, next, cands[1..], calls + 1, cand);
    }
  }

  lemma {:induction false} FinishedIsCurrent(s: Settings, writer: Writer, rows: Narratives, cands: seq<FlowCandidate>,
                                             calls: nat)
    requires OneHashPerId(s, cands) && GenerateAll(s, writer, rows, cands, calls).finished
    ensures forall i :: 0 <= i < |cands| ==> s.IsCurrent(GenerateAll(s, writer, rows, cands, calls).rows, cands[i])
    decreases |cands|
  {
    if cands != [] {
      var current := s.IsCurrent(rows, cands[0]);
      var next := if current then rows
          else rows[cands[0].id := s.Generated(rows, cands[0], writer(cands[0], calls).value)];
      var made := if current then calls else calls + 1;
      FinishedIsCurrent(s, writer, next, cands[1..], made);
      CurrentStays(s, writer, next, cands[1..], made, cands[0]);
      assert forall i :: 1 <= i < |cands| ==> cands[i] == cands[1..][i - 1];
    }
  }

  lemma {:induction false} CurrentIsFree(s: Settings, writer: Writer, rows: Narratives, cands: seq<FlowCandidate>,
                                         calls: nat)
    requires forall i :: 0 <= i < |cands| ==> s.IsCurrent(rows, cands[i])
    ensures GenerateAll(s, writer, rows, cands, calls) == Generation(rows, calls, true)
    decreases |cands|
  {
    if cands != [] {
      CurrentIsFree(s, writer, rows, cands[1..], calls);
    }
  }

  /** Generating again for the same flows makes no gateway call and touches no narrative, reviewed or not. */
  lemma RegenerationIsFree(s: Settings, writer: Writer, again: Writer, rows: Narratives, cands: seq<FlowCandidate>)
    requires OneHashPerId(s, cands) && GenerateAll(s, writer, rows, cands, 0).finished
    ensures var first := GenerateAll(s, writer, rows, cands, 0).rows;
            GenerateAll(s, again, first, cands, 0) == Generation(first, 0, true)
  {
    FinishedIsCurrent(s, writer, rows, cands, 0);
    CurrentIsFree(s, again, GenerateAll(s, writer, rows, cands, 0).rows, cands, 0);
  }

  /** Flows just identified carry each id once, so generating for them twice spends once. */
  lemma IdentifiedFlowsGenerateOnce(s: Settings, writer: Writer, again: Writer, rows: Narratives, g: FlowPaths.Graph,
                                    sign: FlowPaths.Signer, maxLen: int, flows: seq<FlowCandidate>)
    requires FlowPaths.ServesOffered(g, maxLen, sign, flows) && GenerateAll(s, writer, rows, flows, 0).finished
    ensures var first := GenerateAll(s, writer, rows, flows, 0).rows;
            GenerateAll(s, again, first, flows, 0) == Generation(first, 0, true)
  {
    assert forall i, j :: 0 <= i < j < |flows| ==> flows[i].id != flows[j].id;
    RegenerationIsFree(s, writer, again, rows, flows);
  }

  // ----- After a reindex -----

  /** Apply a diff and flag the flows of the affected services: exactly the served narratives that touch one are
      flagged, and none is then served that touches a service with changed indexed content. */
  method ReindexThenFlag(reindexer: Reindex.Reindexer, changes: seq<Change>, flows: FlowNarrativeService)
    returns (flagged: seq<string>)
    requires reindexer.Valid() && forall change <- changes :: PlainChange(change)
    requires Keyed(flows.store.rows)
    modifies reindexer, reindexer.searchBackend, reindexer.graphStore, reindexer.fileLedger, flows.store
    ensures reindexer.Valid()
    ensures var start := Progress(old(reindexer.indexed), old(reindexer.fileLedger.rows), EMPTY_REPORT);
            var done := reindexer.Source().AppliedAll(start, changes);
            && reindexer.indexed == done.tree && reindexer.fileLedger.rows == done.rows
            && flows.store.rows == InvalidateAll(old(flows.store.rows), done.report.affected)
            && Distinct(flagged) && SortedBy(flagged, StringLeq)
            && (forall id :: id in flagged <==>
                  id in old(flows.store.rows) && Stale(old(flows.store.rows)[id], done.report.affected))
    ensures NoServedFlowIsStale(reindexer.estate, old(reindexer.indexed), reindexer.indexed, flows.store.rows)
  {
    flagged := [];
    ghost var before, rows := reindexer.indexed, flows.store.rows;
    DiffAccounts(reindexer.Source(), Progress(reindexer.indexed, reindexer.fileLedger.rows, EMPTY_REPORT), changes);
    var result := reindexer.Apply(changes);
    NothingAffectedNothingStale(rows);
    if result.affectedServices != {} {
      flagged := flows.InvalidateOnChange(result.affectedServices);
    }
    InvalidatedIsSafe(reindexer.estate, before, reindexer.indexed, rows, result.affectedServices);
  }

  /** No served narrative touches the owner of a file whose indexed content differs. */
  ghost predicate NoServedFlowIsStale(estate: IndexEntries.Estate, before: IndexEntries.Tree, after: IndexEntries.Tree,
                                      rows: Narratives) {
    forall path, id | !SameAt(before, after, path) && Served(rows, id) ::
      estate.owner(path).Some? && !rows[id].Touches({estate.owner(path).value})
  }

  lemma NothingAffectedNothingStale(rows: Narratives)
    ensures InvalidateAll(rows, {}) == rows && forall id <- rows :: !Stale(rows[id], {})
  {}

  lemma InvalidatedIsSafe(estate: IndexEntries.Estate, before: IndexEntries.Tree, after: IndexEntries.Tree,
                          rows: Narratives, affected: set<string>)
    requires ChangesAccounted(estate, before, after, affected)
    ensures NoServedFlowIsStale(estate, before, after, InvalidateAll(rows, affected))
  {
    var next := InvalidateAll(rows, affected);
    forall path, id | !SameAt(before, after, path) && Served(next, id)
      ensures estate.owner(path).Some? && !next[id].Touches({estate.owner(path).value})
    {
      InvalidationWithholds(rows, affected, id);
    }
  }
}
