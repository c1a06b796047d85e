/** What applying a diff does (`backend/freshness/reindex.py`, `backend/freshness/diff.py`), on the tree the
    index reflects, the ledger rows and the report, and when that equals a rebuild. */
module DiffEffect {
  import opened Domain
  import opened Persistence
  import opened IndexEntries

  /** One line of a diff; `Renamed` stands for rename and copy lines alike. */
  datatype Change =
    | Added(path: Path)
    | Modified(path: Path)
    | Deleted(path: Path)
    | Renamed(path: Path, oldPath: Option<Path>)

  predicate PlainChange(change: Change) {
    Plain(change.path) && (change.Renamed? && change.oldPath.Some? ==> Plain(change.oldPath.value))
  }

  datatype Report = Report(
    reindexed: seq<Path>, deleted: seq<Path>, renamed: seq<(Path, Path)>, skippedUnchanged: seq<Path>,
    skippedUnmanifested: seq<Path>, carriedForward: seq<Path>, resummarise: seq<FileKey>, affected: set<string>)

  const EMPTY_REPORT := Report([], [], [], [], [], [], [], {})

  /** The tree the index reflects, the ledger, and what has been reported. */
  datatype Progress = Progress(tree: Tree, rows: LedgerRows, report: Report)

  predicate CanCarry(entry: Option<LedgerRow>, newHash: string) {
    entry.Some? && entry.value.status.Summarised? && entry.value.contentHash == newHash
  }

  /** The files on disk, the estate they are read through, and the prompt version of new ledger rows. */
  datatype Disk = Disk(estate: Estate, tree: Tree, promptVersion: string) {
    /** The file has a document in an index that reflects `cur`. */
    predicate HasChunks(cur: Tree, service: string, path: Path) {
      path in cur && estate.chunksOf(service, path, cur[path]) != []
    }

    /** The ledger row carries the hash of what is on disk, and the file is indexed. */
    predicate Skips(cur: Tree, rows: LedgerRows, path: Path) {
      estate.owner(path).Some? && path in tree &&
      var key := FileKey(estate.owner(path).value, path);
      && key in rows && rows[key].contentHash == estate.hash(tree[path])
      && HasChunks(cur, key.service, path)
    }

    /** A re-ingested file keeps a carried summary of the same content, else its summary is pending. */
    function RowAfter(path: Path, carry: Option<LedgerRow>): LedgerRow
      requires path in tree
    {
      var newHash := estate.hash(tree[path]);
      if CanCarry(carry, newHash) then carry.value else LedgerRow(newHash, promptVersion, 0, Pending)
    }

    function RowAt(rows: LedgerRows, path: Path): Option<LedgerRow> {
      if estate.owner(path).None? || FileKey(estate.owner(path).value, path) !in rows then None
      else Some(rows[FileKey(estate.owner(path).value, path)])
    }

    function Reported(r: Report, path: Path): Report {
      if path in r.deleted then r else r.(deleted := r.deleted + [path])
    }

    function AfterDelete(p: Progress, path: Path): Progress {
      var owner := estate.owner(path);
      if owner.None? then p.(report := Reported(p.report, path))
      else
        Progress(p.tree - {path}, p.rows - {FileKey(owner.value, path)},
                 Reported(p.report, path).(affected := p.report.affected + {owner.value}))
    }

    function AfterIngest(p: Progress, path: Path, service: string, carry: Option<LedgerRow>): Progress
      requires path in tree
    {
      var key := FileKey(service, path);
      var report := p.report.(reindexed := p.report.reindexed + [path], affected := p.report.affected + {service});
      Progress(p.tree[path := tree[path]], p.rows[key := RowAfter(path, carry)],
               if CanCarry(carry, estate.hash(tree[path]))
                   then report.(carriedForward := report.carriedForward + [path])
               else report.(resummarise := report.resummarise + [key]))
    }

    function AfterUpsert(p: Progress, path: Path, carry: Option<LedgerRow>): Progress {
      var owner := estate.owner(path);
      if owner.None? then p.(report := p.report.(skippedUnmanifested := p.report.skippedUnmanifested + [path]))
      else if path !in tree then AfterDelete(p, path)
      else if Skips(p.tree, p.rows, path) then
        p.(report := p.report.(skippedUnchanged := p.report.skippedUnchanged + [path]))
      else AfterIngest(p, path, owner.value, carry)
    }

    function AfterRename(p: Progress, oldPath: Path, path: Path): Progress {
      var q := AfterUpsert(AfterDelete(p, oldPath), path, RowAt(p.rows, oldPath));
      q.(report := q.report.(renamed := q.report.renamed + [(oldPath, path)]))
    }

    function Applied(p: Progress, change: Change): Progress {
      match change
      case Added(path) => AfterUpsert(p, path, None)
      case Modified(path) => AfterUpsert(p, path, None)
      case Deleted(path) => AfterDelete(p, path)
      case Renamed(path, oldPath) => if oldPath.None? then p else AfterRename(p, oldPath.value, path)
    }

    function AppliedAll(p: Progress, changes: seq<Change>): Progress
      decreases |changes|
    {
      if changes == [] then p else AppliedAll(Applied(p, changes[0]), changes[1..])
    }
  }

  // ----- What happens to one path -----

  /** What a diff does last to a path: `Refreshed` from disk, `Dropped`, or nothing. */
  datatype Touch = Untouched | Refreshed | Dropped

  function TouchOf(change: Change, path: Path): Touch {
    match change
    case Added(p) => if p == path then Refreshed else Untouched
    case Modified(p) => if p == path then Refreshed else Untouched
    case Deleted(p) => if p == path then Dropped else Untouched
    case Renamed(p, from) =>
      if from.None? then Untouched
      else if p == path then Refreshed
      else if from.value == path then Dropped
      else Untouched
  }

  function LastTouch(changes: seq<Change>, path: Path): Touch {
    if changes == [] then Untouched
    else
      var later := LastTouch(changes[1..], path);
      if later.Untouched? then TouchOf(changes[0], path) else later
  }

  /** Some line takes the path out of the index, be it to put it back at once. */
  predicate EverDropped(changes: seq<Change>, path: Path) {
    changes != [] && (changes[0] == Deleted(path) || (changes[0].Renamed? && changes[0].oldPath == Some(path))
                      || EverDropped(changes[1..], path))
  }

  predicate SameAt(a: Tree, b: Tree, path: Path) {
    (path in a <==> path in b) && (path in a ==> a[path] == b[path])
  }

  /** The file is never read: its row has the hash of what is on disk, it is indexed, and no line drops it. */
  predicate NeverRead(disk: Disk, cur: Tree, rows: LedgerRows, changes: seq<Change>, path: Path) {
    disk.Skips(cur, rows, path) && !EverDropped(changes, path)
  }

  /** The tree and the ledger row at one path are the same. */
  predicate Alike(disk: Disk, p: Progress, q: Progress, path: Path) {
    SameAt(p.tree, q.tree, path) && disk.RowAt(p.rows, path) == disk.RowAt(q.rows, path)
  }

  lemma DeletedAt(disk: Disk, p: Progress, gone: Path, path: Path)
    requires disk.estate.owner(path).Some?
    ensures var q := disk.AfterDelete(p, gone);
            if gone == path then path !in q.tree else Alike(disk, p, q, path)
  {}

  lemma UpsertedAt(disk: Disk, p: Progress, put: Path, carry: Option<LedgerRow>, path: Path)
    requires disk.estate.owner(path).Some?
    ensures var q := disk.AfterUpsert(p, put, carry);
            if put != path || disk.Skips(p.tree, p.rows, path) then Alike(disk, p, q, path)
            else SameAt(q.tree, disk.tree, path)
  {
    if disk.estate.owner(put).Some? && put !in disk.tree {
      DeletedAt(disk, p, put, path);
    }
  }

  lemma SkipsAlike(disk: Disk, p: Progress, q: Progress, path: Path)
    requires Alike(disk, p, q, path)
    ensures disk.Skips(p.tree, p.rows, path) <==> disk.Skips(q.tree, q.rows, path)
  {}

  lemma AppliedAt(disk: Disk, p: Progress, change: Change, path: Path)
    requires disk.estate.owner(path).Some?
    ensures var q, drops := disk.Applied(p, change), EverDropped([change], path);
            match TouchOf(change, path)
            case Untouched => Alike(disk, p, q, path) && !drops
            case Dropped => path !in q.tree && drops
            case Refreshed => if disk.Skips(p.tree, p.rows, path) && !drops then Alike(disk, p, q, path)
                              else SameAt(q.tree, disk.tree, path)
  {
    assert EverDropped([change], path) <==>
        change == Deleted(path) || (change.Renamed? && change.oldPath == Some(path));
    match change
    case Added(put) => UpsertedAt(disk, p, put, None, path);
    case Modified(put) => UpsertedAt(disk, p, put, None, path);
    case Deleted(gone) => DeletedAt(disk, p, gone, path);
    case Renamed(put, oldPath) =>
      if oldPath.Some? {
        var q := disk.AfterDelete(p, oldPath.value);
        DeletedAt(disk, p, oldPath.value, path);
        UpsertedAt(disk, q, put, disk.RowAt(p.rows, oldPath.value), path);
        if oldPath.value != path {
          SkipsAlike(disk, p, q, path);
        }
      }
  }

  /** What a diff leaves at a path is decided by what it does last to the path, and by whether it ever
      reads the file. */
  lemma {:induction false} AppliedAllAt(disk: Disk, p: Progress, changes: seq<Change>, path: Path)
    requires disk.estate.owner(path).Some?
    ensures var after := disk.AppliedAll(p, changes).tree;
            match LastTouch(changes, path)
            case Refreshed =>
              && (NeverRead(disk, p.tree, p.rows, changes, path) ==> SameAt(after, p.tree, path))
              && (!NeverRead(disk, p.tree, p.rows, changes, path) ==> SameAt(after, disk.tree, path))
            case Dropped => path !in after
            case Untouched => SameAt(after, p.tree, path)
    decreases |changes|
  {
    if changes != [] {
      var q, rest := disk.Applied(p, changes[0]), changes[1..];
      AppliedAt(disk, p, changes[0], path);
      AppliedAllAt(disk, q, rest, path);
      OneDropOrLater(changes, path);
      if Alike(disk, p, q, path) {
        SkipsAlike(disk, p, q, path);
      }
      DroppedIsTouched(rest, path);
    }
  }

  lemma {:induction false} DroppedIsTouched(changes: seq<Change>, path: Path)
    ensures EverDropped(changes, path) ==> LastTouch(changes, path) != Untouched
  {
    if changes != [] {
      DroppedIsTouched(changes[1..], path);
    }
  }

  lemma OneDropOrLater(changes: seq<Change>, path: Path)
    requires changes != []
    ensures EverDropped(changes, path) <==> EverDropped([changes[0]], path) || EverDropped(changes[1..], path)
  {}

  /** Rows of files the diff does not touch stay as they were, and so do rows under a service that does not
      own the path. */
  lemma {:induction false} OtherRowsStay(disk: Disk, p: Progress, changes: seq<Change>, key: FileKey)
    requires disk.estate.owner(key.path) != Some(key.service) || LastTouch(changes, key.path) == Untouched
    ensures SameRow(p.rows, disk.AppliedAll(p, changes).rows, key)
    decreases |changes|
  {
    if changes != [] {
      var q := disk.Applied(p, changes[0]);
      if disk.estate.owner(key.path) == Some(key.service) {
        AppliedAt(disk, p, changes[0], key.path);
        assert SameRow(p.rows, q.rows, key);
      } else {
        ForeignRowStays(disk, p, changes[0], key);
      }
      OtherRowsStay(disk, q, changes[1..], key);
    }
  }

  lemma ForeignRowStaysByOne(disk: Disk, p: Progress, path: Path, carry: Option<LedgerRow>, key: FileKey)
    requires disk.estate.owner(key.path) != Some(key.service)
    ensures SameRow(p.rows, disk.AfterDelete(p, path).rows, key)
    ensures SameRow(p.rows, disk.AfterUpsert(p, path, carry).rows, key)
  {}

  lemma ForeignRowStays(disk: Disk, p: Progress, change: Change, key: FileKey)
    requires disk.estate.owner(key.path) != Some(key.service)
    ensures SameRow(p.rows, disk.Applied(p, change).rows, key)
  {
    ForeignRowStaysByOne(disk, p, change.path, None, key);
    if change.Renamed? && change.oldPath.Some? {
      var carry := disk.RowAt(p.rows, change.oldPath.value);
      ForeignRowStaysByOne(disk, p, change.oldPath.value, None, key);
      ForeignRowStaysByOne(disk, disk.AfterDelete(p, change.oldPath.value), change.path, carry, key);
    }
  }

  // ----- The ledger in step -----

  /** Exactly the files of the tree have a row, and it carries the hash of the content in the tree. */
  ghost predicate LedgerAgrees(estate: Estate, rows: LedgerRows, tree: Tree) {
    && (forall path <- tree | estate.owner(path).Some? :: FileKey(estate.owner(path).value, path) in rows)
    && (forall key <- rows ::
          && key.path in tree && estate.owner(key.path) == Some(key.service)
          && rows[key].contentHash == estate.hash(tree[key.path]))
  }

  lemma DeleteKeepsAgreement(disk: Disk, p: Progress, path: Path)
    requires LedgerAgrees(disk.estate, p.rows, p.tree)
    ensures LedgerAgrees(disk.estate, disk.AfterDelete(p, path).rows, disk.AfterDelete(p, path).tree)
  {}

  lemma UpsertKeepsAgreement(disk: Disk, p: Progress, path: Path, carry: Option<LedgerRow>)
    requires LedgerAgrees(disk.estate, p.rows, p.tree)
    ensures LedgerAgrees(disk.estate, disk.AfterUpsert(p, path, carry).rows, disk.AfterUpsert(p, path, carry).tree)
  {
    if disk.estate.owner(path).Some? && path !in disk.tree {
      DeleteKeepsAgreement(disk, p, path);
    }
  }

  lemma ChangeKeepsAgreement(disk: Disk, p: Progress, change: Change)
    requires LedgerAgrees(disk.estate, p.rows, p.tree)
    ensures LedgerAgrees(disk.estate, disk.Applied(p, change).rows, disk.Applied(p, change).tree)
  {
    match change
    case Added(path) => UpsertKeepsAgreement(disk, p, path, None);
    case Modified(path) => UpsertKeepsAgreement(disk, p, path, None);
    case Deleted(path) => DeleteKeepsAgreement(disk, p, path);
    case Renamed(path, oldPath) =>
      if oldPath.Some? {
        DeleteKeepsAgreement(disk, p, oldPath.value);
        UpsertKeepsAgreement(disk, disk.AfterDelete(p, oldPath.value), path, disk.RowAt(p.rows, oldPath.value));
      }
  }

  /** A ledger in step with the index stays in step through any diff. */
  lemma {:induction false} LedgerStaysInStep(disk: Disk, p: Progress, changes: seq<Change>)
    requires LedgerAgrees(disk.estate, p.rows, p.tree)
    ensures LedgerAgrees(disk.estate, disk.AppliedAll(p, changes).rows, disk.AppliedAll(p, changes).tree)
    decreases |changes|
  {
    if changes != [] {
      ChangeKeepsAgreement(disk, p, changes[0]);
      LedgerStaysInStep(disk, disk.Applied(p, changes[0]), changes[1..]);
    }
  }

  // ----- What the report accounts for -----

  /** Every changed path belongs to an affected service. */
  ghost predicate ChangesAccounted(estate: Estate, before: Tree, after: Tree, affected: set<string>) {
    forall path | !SameAt(before, after, path) :: estate.owner(path).Some? && estate.owner(path).value in affected
  }

  /** Every summary that became pending is queued for summarisation. */
  ghost predicate PendingQueued(before: LedgerRows, after: LedgerRows, queued: seq<FileKey>) {
    forall key <- after | after[key].status.Pending? ::
      (key in before && before[key] == after[key]) || key in queued
  }

  ghost function Owners(estate: Estate, paths: set<Path>): set<string> {
    set path | path in paths && estate.owner(path).Some? :: estate.owner(path).value
  }

  function TouchedBy(change: Change): set<Path> {
    match change
    case Renamed(path, oldPath) => if oldPath.Some? then {oldPath.value, path} else {}
    case _ => {change.path}
  }

  function TouchedByAll(changes: seq<Change>): set<Path> {
    if changes == [] then {} else TouchedBy(changes[0]) + TouchedByAll(changes[1..])
  }

  /** From p to q: what changed is reported, and nothing but the owners of `touched` is called affected. */
  ghost predicate Accounts(estate: Estate, p: Progress, q: Progress, touched: set<Path>) {
    && ChangesAccounted(estate, p.tree, q.tree, q.report.affected)
    && PendingQueued(p.rows, q.rows, q.report.resummarise)
    && p.report.affected <= q.report.affected <= p.report.affected + Owners(estate, touched)
    && p.report.resummarise <= q.report.resummarise
  }

  lemma AccountsThen(estate: Estate, p: Progress, q: Progress, r: Progress, a: set<Path>, b: set<Path>)
    requires Accounts(estate, p, q, a) && Accounts(estate, q, r, b)
    ensures Accounts(estate, p, r, a + b)
  {
    forall path | !SameAt(p.tree, r.tree, path)
      ensures estate.owner(path).Some? && estate.owner(path).value in r.report.affected
    {
      assert !SameAt(p.tree, q.tree, path) || !SameAt(q.tree, r.tree, path);
    }
    assert Owners(estate, a + b) == Owners(estate, a) + Owners(estate, b);
  }

  lemma DeleteAccounts(disk: Disk, p: Progress, path: Path)
    ensures Accounts(disk.estate, p, disk.AfterDelete(p, path), {path})
  {
    assert disk.estate.owner(path).Some? ==> disk.estate.owner(path).value in Owners(disk.estate, {path});
  }

  lemma UpsertAccounts(disk: Disk, p: Progress, path: Path, carry: Option<LedgerRow>)
    ensures Accounts(disk.estate, p, disk.AfterUpsert(p, path, carry), {path})
  {
    if disk.estate.owner(path).Some? {
      assert disk.estate.owner(path).value in Owners(disk.estate, {path});
      if path !in disk.tree {
        DeleteAccounts(disk, p, path);
      }
    }
  }

  lemma RenameAccounts(disk: Disk, p: Progress, oldPath: Path, path: Path)
    ensures Accounts(disk.estate, p, disk.AfterRename(p, oldPath, path), {oldPath, path})
  {
    var q, carry := disk.AfterDelete(p, oldPath), disk.RowAt(p.rows, oldPath);
    DeleteAccounts(disk, p, oldPath);
    UpsertAccounts(disk, q, path, carry);
    AccountsThen(disk.estate, p, q, disk.AfterUpsert(q, path, carry), {oldPath}, {path});
    assert {oldPath} + {path} == {oldPath, path};
  }

  lemma ChangeAccounts(disk: Disk, p: Progress, change: Change)
    ensures Accounts(disk.estate, p, disk.Applied(p, change), TouchedBy(change))
  {
    match change
    case Added(path) => UpsertAccounts(disk, p, path, None);
    case Modified(path) => UpsertAccounts(disk, p, path, None);
    case Deleted(path) => DeleteAccounts(disk, p, path);
    case Renamed(path, oldPath) =>
      if oldPath.Some? {
        RenameAccounts(disk, p, oldPath.value, path);
      }
  }

  /** Every service whose indexed content changed is reported, every summary that became pending is queued,
      and only services that own a touched path are reported. */
  lemma {:induction false} DiffAccounts(disk: Disk, p: Progress, changes: seq<Change>)
    ensures Accounts(disk.estate, p, disk.AppliedAll(p, changes), TouchedByAll(changes))
    decreases |changes|
  {
    if changes != [] {
      var q := disk.Applied(p, changes[0]);
      ChangeAccounts(disk, p, changes[0]);
      DiffAccounts(disk, q, changes[1..]);
      AccountsThen(disk.estate, p, q, disk.AppliedAll(q, changes[1..]), TouchedBy(changes[0]),
          TouchedByAll(changes[1..]));
    }
  }

  // ----- Rows and reports, spelled out -----

  /** A row is carried exactly when it is of a finished summary of the very content on disk; any other re-ingested file
      has its summary pending. */
  lemma CarriedIffSummarisedAlike(disk: Disk, path: Path, carry: Option<LedgerRow>)
    requires path in disk.tree
    ensures var hash := disk.estate.hash(disk.tree[path]);
            if carry.Some? && carry.value.status == Summarised && carry.value.contentHash == hash
            then disk.RowAfter(path, carry) == carry.value
            else disk.RowAfter(path, carry) == LedgerRow(hash, disk.promptVersion, 0, Pending)
  {}

  /** A file is passed over exactly when its row has the hash of what is on disk and the index has a chunk of it. */
  lemma SkippedIffKnown(disk: Disk, cur: Tree, rows: LedgerRows, path: Path, service: string)
    requires disk.estate.owner(path) == Some(service) && path in disk.tree
    ensures disk.Skips(cur, rows, path) <==>
              && FileKey(service, path) in rows
              && rows[FileKey(service, path)].contentHash == disk.estate.hash(disk.tree[path])
              && path in cur && |disk.estate.chunksOf(service, path, cur[path])| > 0
  {}

  /** What each kind of treatment adds to the report, and to nothing else of it. */
  lemma ReportOfUpsert(disk: Disk, p: Progress, path: Path, carry: Option<LedgerRow>)
    ensures var r, q := p.report, disk.AfterUpsert(p, path, carry).report;
            var owner := disk.estate.owner(path);
            && (owner.None? ==> q == r.(skippedUnmanifested := r.skippedUnmanifested + [path]))
            && (owner.Some? && path !in disk.tree ==>
                  q == r.(deleted := if path in r.deleted then r.deleted else r.deleted + [path],
                          affected := r.affected + {owner.value}))
            && (owner.Some? && path in disk.tree && disk.Skips(p.tree, p.rows, path) ==>
                  q == r.(skippedUnchanged := r.skippedUnchanged + [path]))
            && (owner.Some? && path in disk.tree && !disk.Skips(p.tree, p.rows, path) ==>
                  var carried := disk.RowAfter(path, carry).status == Summarised;
                  q == r.(reindexed := r.reindexed + [path], affected := r.affected + {owner.value},
                          carriedForward := if carried then r.carriedForward + [path] else r.carriedForward,
                          resummarise := if carried then r.resummarise
                                         else r.resummarise + [FileKey(owner.value, path)]))
  {}
}
