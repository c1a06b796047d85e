/** When an incrementally updated index equals a rebuilt one (`backend/freshness/reindex.py`). */
module IncrementalRebuild {
  import opened Domain
  import opened Persistence
  import opened IndexEntries
  import opened DiffEffect
  import Store = GraphStore
  import Index = SearchIndex

  /** The exact condition, read off the index, the ledger, the diff and the disk before the call: a path the
      diff leaves dropped is gone; a path it leaves untouched gives the index what it gave before; and so does
      a path that is refreshed but never read because the ledger row has the hash of the file on disk. */
  ghost predicate Complete(disk: Disk, analyzer: Index.Analyzer, before: Tree, rows: LedgerRows, changes: seq<Change>) {
    forall path | disk.estate.owner(path).Some? :: CompleteAt(disk, analyzer, before, rows, changes, path)
  }

  ghost predicate CompleteAt(disk: Disk, analyzer: Index.Analyzer, before: Tree, rows: LedgerRows,
                             changes: seq<Change>, path: Path) {
    match LastTouch(changes, path)
    case Refreshed =>
      NeverRead(disk, before, rows, changes, path) ==> AlikeAt(disk.estate, analyzer, before, disk.tree, path)
    case Dropped => path !in disk.tree
    case Untouched => AlikeAt(disk.estate, analyzer, before, disk.tree, path)
  }

  /** The part of the condition that does not mention the ledger. */
  ghost predicate NamesEveryChange(disk: Disk, analyzer: Index.Analyzer, before: Tree, changes: seq<Change>) {
    forall path | disk.estate.owner(path).Some? ::
      match LastTouch(changes, path)
      case Refreshed => true
      case Dropped => path !in disk.tree
      case Untouched => AlikeAt(disk.estate, analyzer, before, disk.tree, path)
  }

  lemma SameIsAlike(estate: Estate, analyzer: Index.Analyzer, a: Tree, b: Tree, path: Path)
    requires SameAt(a, b, path)
    ensures AlikeAt(estate, analyzer, a, b, path)
  {}

  /** Present and absent are never alike: an indexed file has its File node. */
  lemma PresentIsSeen(estate: Estate, analyzer: Index.Analyzer, a: Tree, b: Tree, path: Path)
    requires estate.Lawful() && Plain(path) && estate.owner(path).Some? && path in a && path !in b
    ensures !AlikeAt(estate, analyzer, a, b, path)
  {
    IndexedFileHasNode(estate, analyzer, a, path);
    assert Store.RefsIn(EntryAt(NOTHING, path).nodes) == {};
  }

  lemma CompleteHere(disk: Disk, analyzer: Index.Analyzer, p: Progress, changes: seq<Change>, path: Path)
    requires disk.estate.Lawful() && disk.estate.owner(path).Some? && (path in disk.tree ==> Plain(path))
    ensures AlikeAt(disk.estate, analyzer, disk.AppliedAll(p, changes).tree, disk.estate.Owned(disk.tree), path)
       <==> CompleteAt(disk, analyzer, p.tree, p.rows, changes, path)
  {
    var after, goal := disk.AppliedAll(p, changes).tree, disk.estate.Owned(disk.tree);
    AppliedAllAt(disk, p, changes, path);
    SameIsAlike(disk.estate, analyzer, goal, disk.tree, path);
    if LastTouch(changes, path).Dropped? {
      if path in disk.tree {
        PresentIsSeen(disk.estate, analyzer, disk.tree, after, path);
      } else {
        SameIsAlike(disk.estate, analyzer, after, goal, path);
      }
    } else if SameAt(after, p.tree, path) {
      SameIsAlike(disk.estate, analyzer, after, p.tree, path);
    } else {
      SameIsAlike(disk.estate, analyzer, after, disk.tree, path);
    }
    if SameAt(after, disk.tree, path) {
      SameIsAlike(disk.estate, analyzer, after, disk.tree, path);
    }
  }

  /** Incremental equals rebuild exactly when the diff is complete: for any ledger, in any order, with any
      repeats. Equal are the search documents, the File and Function nodes and the DEFINES edges. */
  lemma IncrementalEqualsRebuild(disk: Disk, analyzer: Index.Analyzer, p: Progress, changes: seq<Change>,
                                 updated: Files, rebuilt: Files)
    requires disk.estate.Lawful() && forall path <- disk.tree :: Plain(path)
    requires Reflects(disk.estate, analyzer, updated, disk.AppliedAll(p, changes).tree)
    requires Reflects(disk.estate, analyzer, rebuilt, disk.estate.Owned(disk.tree))
    ensures SameIndex(updated, rebuilt) <==> Complete(disk, analyzer, p.tree, p.rows, changes)
  {
    var after, goal := disk.AppliedAll(p, changes).tree, disk.estate.Owned(disk.tree);
    SameIndexIffAlike(disk.estate, analyzer, updated, after, rebuilt, goal);
    forall path | disk.estate.owner(path).Some?
      ensures AlikeAt(disk.estate, analyzer, after, goal, path)
         <==> CompleteAt(disk, analyzer, p.tree, p.rows, changes, path)
    {
      CompleteHere(disk, analyzer, p, changes, path);
    }
  }

  /** With a ledger in step and a hash without collisions, an unread file is an unchanged one, so the ledger
      drops out of the condition. */
  lemma LedgerInStepIsSafe(disk: Disk, analyzer: Index.Analyzer, before: Tree, rows: LedgerRows, changes: seq<Change>)
    requires LedgerAgrees(disk.estate, rows, before) && disk.estate.HashIsInjective()
    ensures Complete(disk, analyzer, before, rows, changes) <==> NamesEveryChange(disk, analyzer, before, changes)
  {
    forall path | disk.estate.owner(path).Some? && disk.Skips(before, rows, path)
      ensures AlikeAt(disk.estate, analyzer, before, disk.tree, path)
    {
      SameIsAlike(disk.estate, analyzer, before, disk.tree, path);
    }
  }

  // ----- Inputs that fail the condition -----

  /** Two files that swap names are a diff of two renames; the second rename drops the first result. */
  lemma SwapRenameLosesFile(disk: Disk, analyzer: Index.Analyzer, p: Progress, a: Path, b: Path)
    requires a != b && disk.estate.owner(a).Some? && disk.estate.owner(b).Some?
    requires a in disk.tree && b in disk.tree
    ensures var changes := [Renamed(b, Some(a)), Renamed(a, Some(b))];
            b !in disk.AppliedAll(p, changes).tree && !Complete(disk, analyzer, p.tree, p.rows, changes)
  {
    var changes := [Renamed(b, Some(a)), Renamed(a, Some(b))];
    assert changes[1..] == [Renamed(a, Some(b))] && changes[1..][1..] == [];
    assert LastTouch(changes[1..], b) == Dropped;
    assert LastTouch(changes, b) == Dropped;
    AppliedAllAt(disk, p, changes, b);
    assert !CompleteAt(disk, analyzer, p.tree, p.rows, changes, b);
  }

  /** A copy line is applied as a rename, so the copied file leaves the index though it is on disk. */
  lemma CopyDropsItsSource(disk: Disk, analyzer: Index.Analyzer, p: Progress, source: Path, copy: Path)
    requires source != copy && disk.estate.owner(source).Some? && source in disk.tree
    ensures var changes := [Renamed(copy, Some(source))];
            source !in disk.AppliedAll(p, changes).tree && !Complete(disk, analyzer, p.tree, p.rows, changes)
  {
    var changes := [Renamed(copy, Some(source))];
    assert LastTouch(changes, source) == Dropped;
    AppliedAllAt(disk, p, changes, source);
    assert !CompleteAt(disk, analyzer, p.tree, p.rows, changes, source);
  }

  /** A row whose hash is that of the new content, though the index was made from another, hides the change:
      the diff names the file, and the file is skipped. */
  lemma StaleRowHidesChange(disk: Disk, analyzer: Index.Analyzer, p: Progress, path: Path)
    requires disk.Skips(p.tree, p.rows, path)
    requires !AlikeAt(disk.estate, analyzer, p.tree, disk.tree, path)
    ensures SameAt(disk.AppliedAll(p, [Modified(path)]).tree, p.tree, path)
    ensures !Complete(disk, analyzer, p.tree, p.rows, [Modified(path)])
  {
    var changes := [Modified(path)];
    AppliedAllAt(disk, p, changes, path);
    assert LastTouch(changes, path) == Refreshed && !EverDropped(changes, path);
    assert !CompleteAt(disk, analyzer, p.tree, p.rows, changes, path);
  }
}
