/** The durable row stores (`backend/persistence/file_ledger.py`, `backend/summarise/store.py`,
    `backend/orchestration/state.py`, `backend/persistence/dead_letter.py`). */
module Persistence {
  import opened Domain

  datatype FileKey = FileKey(service: string, path: string)

  datatype FileStatus = Pending | Summarised | DeadLettered

  datatype LedgerRow = LedgerRow(contentHash: string, promptVersion: string, tier: nat, status: FileStatus) {
    /** Whether a re-run can skip the file: summarised at this content and prompt. */
    predicate Matches(hash: string, version: string) {
      status.Summarised? && contentHash == hash && promptVersion == version
    }
  }

  type LedgerRows = map<FileKey, LedgerRow>

  predicate SameRow(a: LedgerRows, b: LedgerRows, key: FileKey) {
    (key in a <==> key in b) && (key in a ==> a[key] == b[key])
  }

  class InMemoryFileLedger {
    var rows: LedgerRows

    constructor ()
      ensures rows == map[]
    {
      rows := map[];
    }

    function Get(key: FileKey): Option<LedgerRow>
      reads this
    {
      if key in rows then Some(rows[key]) else None
    }

    method Upsert(key: FileKey, row: LedgerRow)
      modifies this
      ensures rows == old(rows)[key := row]
    {
      rows := rows[key := row];
    }

    method Delete(key: FileKey) returns (found: bool)
      modifies this
      ensures found <==> key in old(rows)
      ensures rows == old(rows) - {key}
    {
      found := key in rows;
      rows := rows - {key};
    }
  }

  datatype SummaryKey = SummaryKey(tier: nat, key: string)

  datatype SummaryRecord = SummaryRecord(kind: string, text: string, contentHash: string, promptVersion: string)

  type SummaryRows = map<SummaryKey, SummaryRecord>

  class InMemorySummaryStore {
    var rows: SummaryRows

    constructor ()
      ensures rows == map[]
    {
      rows := map[];
    }

    method Upsert(key: SummaryKey, record: SummaryRecord)
      modifies this
      ensures rows == old(rows)[key := record]
    {
      rows := rows[key := record];
    }
  }

  datatype DeadLetterEntry = DeadLetterEntry(file: FileKey, kind: string)

  class InMemoryDeadLetter {
    var entries: seq<DeadLetterEntry>

    constructor ()
      ensures entries == []
    {
      entries := [];
    }

    method Add(entry: DeadLetterEntry)
      modifies this
      ensures entries == old(entries) + [entry]
    {
      entries := entries + [entry];
    }
  }
}
