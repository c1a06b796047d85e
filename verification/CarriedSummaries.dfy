/** A rename carries a ledger row to the new path, not the summary stored under the old one
    (`backend/freshness/reindex.py`): when a diff leaves every summarised row with its summary. */
module CarriedSummaries {
  import opened Domain
  import opened Persistence
  import opened IndexEntries
  import opened DiffEffect
  import Driver
  import EditCascade

  function FileSummaryKey(key: FileKey): SummaryKey { SummaryKey(1, key.service + ":" + key.path) }

  predicate BackedBy(summaries: SummaryRows, key: FileKey, hash: string) {
    FileSummaryKey(key) in summaries && summaries[FileSummaryKey(key)].contentHash == hash
  }

  /** Every summarised row has a stored summary of its hash. */
  ghost predicate RowsBacked(rows: LedgerRows, summaries: SummaryRows) {
    forall key <- rows | rows[key].status.Summarised? :: BackedBy(summaries, key, rows[key].contentHash)
  }

  /** Backed rows put every file in sync, whatever its content. */
  lemma BackedIsInSync(s: Driver.Settings, w: Driver.World, files: seq<Driver.SourceFile>)
    requires RowsBacked(w.rows, w.summaries)
    ensures EditCascade.InSync(s, w, files)
  {
    forall f <- files | s.IsDone(w.rows, f) ensures EditCascade.HasSummary(s, w.summaries, f) {
      assert BackedBy(w.summaries, f.Key(), w.rows[f.Key()].contentHash);
    }
  }

  /** The rename re-ingests the new path and carries the old row to it. */
  predicate Carries(disk: Disk, p: Progress, oldPath: Path, path: Path) {
    && disk.estate.owner(path).Some? && path in disk.tree
    && !disk.Skips(disk.AfterDelete(p, oldPath).tree, disk.AfterDelete(p, oldPath).rows, path)
    && CanCarry(disk.RowAt(p.rows, oldPath), disk.estate.hash(disk.tree[path]))
  }

  /** One rename, told before it is applied: it keeps rows backed exactly when it carries nothing, or the summary of
      the file's hash is already stored under the new path. The reindexer never writes a summary. */
  lemma RenameKeepsBackingIff(disk: Disk, p: Progress, oldPath: Path, path: Path, summaries: SummaryRows)
    requires RowsBacked(p.rows, summaries)
    ensures RowsBacked(disk.AfterRename(p, oldPath, path).rows, summaries) <==>
            (Carries(disk, p, oldPath, path) ==>
             BackedBy(summaries, FileKey(disk.estate.owner(path).value, path), disk.estate.hash(disk.tree[path])))
  {
    var q := disk.AfterDelete(p, oldPath);
    var after := disk.AfterRename(p, oldPath, path).rows;
    assert RowsBacked(q.rows, summaries);
    if Carries(disk, p, oldPath, path) {
      var key := FileKey(disk.estate.owner(path).value, path);
      var row := disk.RowAt(p.rows, oldPath).value;
      assert after == q.rows[key := row];
      assert key in after && after[key] == row && row.contentHash == disk.estate.hash(disk.tree[path]);
      assert forall k <- after | k != key :: k in q.rows && after[k] == q.rows[k];
    } else {
      UpsertWithoutCarry(disk, q, path, disk.RowAt(p.rows, oldPath), summaries);
    }
  }

  lemma UpsertWithoutCarry(disk: Disk, p: Progress, path: Path, carry: Option<LedgerRow>, summaries: SummaryRows)
    requires RowsBacked(p.rows, summaries)
    requires !(&& disk.estate.owner(path).Some? && path in disk.tree && !disk.Skips(p.tree, p.rows, path)
               && CanCarry(carry, disk.estate.hash(disk.tree[path])))
    ensures RowsBacked(disk.AfterUpsert(p, path, carry).rows, summaries)
  {}

  /** A row of q that is not one of p and is summarised was carried to a path the report names, at the hash of the
      file on disk. */
  ghost predicate NewRowsCarried(disk: Disk, p: Progress, q: Progress) {
    && p.report.carriedForward <= q.report.carriedForward
    && forall key <- q.rows | q.rows[key].status.Summarised? ::
         SameRow(p.rows, q.rows, key) || CarriedTo(disk, p, q, key)
  }

  ghost predicate CarriedTo(disk: Disk, p: Progress, q: Progress, key: FileKey) {
    && disk.estate.owner(key.path) == Some(key.service) && key.path in disk.tree
    && p.report.carriedForward <= q.report.carriedForward
    && key.path in q.report.carriedForward[|p.report.carriedForward|..]
    && key in q.rows && q.rows[key].contentHash == disk.estate.hash(disk.tree[key.path])
  }

  lemma CarriedThen(disk: Disk, p: Progress, q: Progress, r: Progress)
    requires NewRowsCarried(disk, p, q) && NewRowsCarried(disk, q, r)
    ensures NewRowsCarried(disk, p, r)
  {
    var a, b, c := p.report.carriedForward, q.report.carriedForward, r.report.carriedForward;
    assert c[|a|..] == b[|a|..] + c[|b|..];
    forall key <- r.rows | r.rows[key].status.Summarised? && !SameRow(p.rows, r.rows, key)
      ensures CarriedTo(disk, p, r, key)
    {
      if SameRow(q.rows, r.rows, key) {
        assert CarriedTo(disk, p, q, key);
      } else {
        assert CarriedTo(disk, q, r, key);
      }
    }
  }

  lemma DeleteCarries(disk: Disk, p: Progress, path: Path)
    ensures NewRowsCarried(disk, p, disk.AfterDelete(p, path))
  {}

  lemma UpsertCarries(disk: Disk, p: Progress, path: Path, carry: Option<LedgerRow>)
    ensures NewRowsCarried(disk, p, disk.AfterUpsert(p, path, carry))
  {
    if disk.estate.owner(path).Some? && path !in disk.tree {
      DeleteCarries(disk, p, path);
    }
  }

  lemma ChangeCarries(disk: Disk, p: Progress, change: Change)
    ensures NewRowsCarried(disk, p, disk.Applied(p, change))
  {
    match change
    case Added(path) => UpsertCarries(disk, p, path, None);
    case Modified(path) => UpsertCarries(disk, p, path, None);
    case Deleted(path) => DeleteCarries(disk, p, path);
    case Renamed(path, oldPath) =>
      if oldPath.Some? {
        var q, carry := disk.AfterDelete(p, oldPath.value), disk.RowAt(p.rows, oldPath.value);
        DeleteCarries(disk, p, oldPath.value);
        UpsertCarries(disk, q, path, carry);
        CarriedThen(disk, p, q, disk.AfterUpsert(q, path, carry));
      }
  }

  lemma {:induction false} DiffCarries(disk: Disk, p: Progress, changes: seq<Change>)
    ensures NewRowsCarried(disk, p, disk.AppliedAll(p, changes))
    decreases |changes|
  {
    if changes != [] {
      var q := disk.Applied(p, changes[0]);
      ChangeCarries(disk, p, changes[0]);
      DiffCarries(disk, q, changes[1..]);
      CarriedThen(disk, p, q, disk.AppliedAll(q, changes[1..]));
    }
  }

  /** A whole diff, run on the ledger alone: it keeps rows backed exactly when each row it carries and leaves standing
      has, under its new path, a stored summary of the hash of the file on disk. */
  lemma DiffKeepsBackingIff(disk: Disk, p: Progress, changes: seq<Change>, summaries: SummaryRows)
    requires RowsBacked(p.rows, summaries)
    ensures var q := disk.AppliedAll(p, changes);
            RowsBacked(q.rows, summaries) <==>
            forall key <- q.rows | q.rows[key].status.Summarised? && CarriedTo(disk, p, q, key) ::
              BackedBy(summaries, key, disk.estate.hash(disk.tree[key.path]))
  {
    DiffCarries(disk, p, changes);
  }

  /** A failing input: a file is summarised, then renamed with its content. The row is carried, so the file counts as
      done under its new path, and every run skips it without ever storing a summary for it. */
  lemma CarriedRenameLosesSummary(disk: Disk, service: string, a: Path, b: Path, row: LedgerRow, record: SummaryRecord,
                                  s: Driver.Settings, g: Driver.Gateway, w: Driver.World, file: Driver.SourceFile,
                                  today: int)
    requires a != b && disk.estate.owner(a) == Some(service) && disk.estate.owner(b) == Some(service)
    requires b in disk.tree && row.status.Summarised? && row.contentHash == disk.estate.hash(disk.tree[b])
    requires s.quota.Valid() && file.Key() == FileKey(service, b) && s.HashOf(file) == row.contentHash
    requires s.promptVersion == row.promptVersion
    requires var p := Progress(map[a := disk.tree[b]], map[FileKey(service, a) := row], EMPTY_REPORT);
             && w.rows == disk.AppliedAll(p, [Renamed(b, Some(a))]).rows
             && w.summaries == map[FileSummaryKey(FileKey(service, a)) := record]
    ensures w.rows == map[FileKey(service, b) := row] && !RowsBacked(w.rows, w.summaries)
    ensures s.IsDone(w.rows, file) && !EditCascade.HasSummary(s, w.summaries, file)
    ensures var batch := Driver.SummarisedAll(s, g, w, [file], today, false);
            batch.world == w && batch.rows == [Driver.ResultRow(file.Key(), Driver.WasSkipped, 0)]
  {
    var p := Progress(map[a := disk.tree[b]], map[FileKey(service, a) := row], EMPTY_REPORT);
    var changes := [Renamed(b, Some(a))];
    assert changes[1..] == [];
    assert w.rows == disk.AfterRename(p, a, b).rows;
    DifferentSummaryKeys(service, a, b);
    assert [file][1..] == [];
    assert !BackedBy(w.summaries, FileKey(service, b), row.contentHash);
    assert Driver.SummarisedAll(s, g, w, [], today, false) == Driver.Batch(w, [], false);
  }

  lemma DifferentSummaryKeys(service: string, a: Path, b: Path)
    requires a != b
    ensures FileSummaryKey(FileKey(service, a)) != FileSummaryKey(FileKey(service, b))
  {
    var prefix := service + ":";
    assert (prefix + a)[|prefix|..] == a && (prefix + b)[|prefix|..] == b;
  }
}
