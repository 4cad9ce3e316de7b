/** The Postgres backend: one COPY inside one transaction. */
module Postgres {
  import opened Text

  datatype Record = Record(cluster: string, node: string, machine: string, source: string,
                           chassis: string, gpu: string, time: int)

  datatype TableRow = TableRow(cluster: string, node: string, machine: string, source: string,
                     chassis: string, gpu: string, readTime: int, createdAt: int)

  /** The columns of the UNIQUE constraint. */
  function UniqueColumns(r: TableRow): (string, string, string, string, string, string, int) {
    (r.cluster, r.node, r.machine, r.source, r.chassis, r.gpu, r.readTime)
  }

  function RowOf(r: Record, now: int): TableRow {
    var chassis := if r.chassis == "" then "unknown" else r.chassis;
    TableRow(r.cluster, r.node, r.machine, r.source, chassis, r.gpu, r.time, now)
  }

  /** The rows of the records that are not nil, in order. */
  function RowsOf(records: seq<Option<Record>>, now: int): seq<TableRow> {
    if records == [] then []
    else RowsOf(records[..|records| - 1], now) +
         match records[|records| - 1] case None => [] case Some(r) => [RowOf(r, now)]
  }

  datatype WriteError = BeginFailed | PrepareFailed | BufferFailed | FlushFailed | CloseFailed | CommitFailed

  /** The connection as `database/sql` presents it. Every call may fail; a failed commit has
      not been applied. Buffered rows reach the transaction when they are flushed, and the
      table when the transaction commits. */
  class Database {
    var table: seq<TableRow>
    var open: bool
    var prepared: bool
    var buffer: seq<TableRow>
    var staged: seq<TableRow>

    constructor (table: seq<TableRow>)
      ensures this.table == table && !open
    {
      this.table := table;
      open, prepared, buffer, staged := false, false, [], [];
    }

    method Begin() returns (ok: bool)
      requires !open
      modifies this
      ensures table == old(table) && open == ok
      ensures ok ==> !prepared && staged == [] && buffer == []
    {
      ok := *;
      if ok {
        open, prepared, staged, buffer := true, false, [], [];
      }
    }

    method PrepareCopy() returns (ok: bool)
      requires open && !prepared
      modifies this`prepared
      ensures prepared == ok
    {
      ok := *;
      prepared := ok;
    }

    method Exec(row: TableRow) returns (ok: bool)
      requires open && prepared
      modifies this`buffer
      ensures buffer == if ok then old(buffer) + [row] else old(buffer)
    {
      ok := *;
      if ok {
        buffer := buffer + [row];
      }
    }

    method Flush() returns (ok: bool)
      requires open && prepared
      modifies this`buffer, this`staged
      ensures ok ==> staged == old(staged) + old(buffer) && buffer == []
    {
      ok := *;
      if ok {
        staged, buffer := staged + buffer, [];
      }
    }

    method CloseStatement() returns (ok: bool)
      requires open && prepared
      modifies this`prepared
      ensures !prepared
    {
      prepared := false;
      ok := *;
    }

    /** Commit needs the statement closed. The transaction is over whatever the answer. */
    method Commit() returns (ok: bool)
      requires open && !prepared
      modifies this
      ensures !open
      ensures table == if ok then old(table) + old(staged) else old(table)
    {
      ok := *;
      if ok {
        table := table + staged;
      }
      open := false;
    }

    /** `Rollback` of a finished transaction is `ErrTxDone` and does nothing. */
    method Rollback()
      modifies this
      ensures !open && table == old(table)
    {
      open, prepared, buffer, staged := false, false, [], [];
    }
  }

  /** Everything between `BeginTx` and the deferred rollback. */
  method CopyAndCommit(db: Database, records: seq<Option<Record>>, now: int)
    returns (err: Option<WriteError>, committed: bool, rows: nat)
    requires db.open && !db.prepared && db.staged == [] && db.buffer == []
    modifies db
    ensures committed == err.None?
    ensures committed ==> !db.open && rows == |RowsOf(records, now)|
    ensures db.table == if committed then old(db.table) + RowsOf(records, now) else old(db.table)
  {
    committed, rows := false, 0;
    var ok := db.PrepareCopy();
    if !ok {
      return Some(PrepareFailed), false, 0;
    }
    for i := 0 to |records|
      invariant db.open && db.prepared && db.staged == [] && db.table == old(db.table)
      invariant db.buffer == RowsOf(records[..i], now) && rows == |db.buffer|
    {
      assert records[..i + 1][..i] == records[..i];
      if records[i].None? {
        continue;
      }
      ok := db.Exec(RowOf(records[i].value, now));
      if !ok {
        var _ := db.CloseStatement();
        return Some(BufferFailed), false, rows;
      }
      rows := rows + 1;
    }
    assert records[..|records|] == records;
    ok := db.Flush();
    if !ok {
      var _ := db.CloseStatement();
      return Some(FlushFailed), false, rows;
    }
    ok := db.CloseStatement();
    if !ok {
      return Some(CloseFailed), false, rows;
    }
    ok := db.Commit();
    if !ok {
      return Some(CommitFailed), false, rows;
    }
    committed := true;
    return None, committed, rows;
  }

  /** `Write`: all of the batch or nothing of it, wherever a failure strikes. */
  method Write(db: Database, records: seq<Option<Record>>, now: int) returns (err: Option<WriteError>)
    requires !db.open
    modifies db
    ensures !db.open
    ensures records == [] ==> err.None?
    ensures db.table == if err.None? then old(db.table) + RowsOf(records, now) else old(db.table)
  {
    if |records| == 0 {
      return None;
    }
    var ok := db.Begin();
    if !ok {
      return Some(BeginFailed);
    }
    var committed, rows;
    err, committed, rows := CopyAndCommit(db, records, now);
    if !committed {
      db.Rollback();
    }
  }

  /** How many of the first records are not nil. */
  function NonNil(records: seq<Option<Record>>): nat {
    if records == [] then 0
    else NonNil(records[..|records| - 1]) + if records[|records| - 1].Some? then 1 else 0
  }

  /** The row, column by column, holds this record. */
  predicate Holds(row: TableRow, r: Record, now: int) {
    && row.cluster == r.cluster && row.node == r.node && row.machine == r.machine && row.source == r.source
    && row.chassis == (if r.chassis == "" then "unknown" else r.chassis)
    && row.gpu == r.gpu && row.readTime == r.time && row.createdAt == now
  }

  /** A record that is not nil is written, column by column, at the place its predecessors leave it,
      and nothing else is. */
  lemma {:induction false} RowsAreTheRecords(records: seq<Option<Record>>, now: int, i: nat)
    requires i < |records|
    ensures |RowsOf(records, now)| == NonNil(records)
    ensures records[i].Some? ==>
              NonNil(records[..i]) < NonNil(records) &&
              Holds(RowsOf(records, now)[NonNil(records[..i])], records[i].value, now)
  {
    var n := |records| - 1;
    if n == 0 {
    } else if i == n {
      RowsAreTheRecords(records[..n], now, 0);
    } else {
      RowsAreTheRecords(records[..n], now, i);
      assert records[..n][..i] == records[..i];
    }
  }

  /** The UNIQUE constraint looks at all columns but the time of creation. */
  lemma {:induction false} UniqueColumnsSpelledOut(a: TableRow, b: TableRow)
    ensures UniqueColumns(a) == UniqueColumns(b) <==>
              && a.cluster == b.cluster && a.node == b.node && a.machine == b.machine && a.source == b.source
              && a.chassis == b.chassis && a.gpu == b.gpu && a.readTime == b.readTime
  {
  }

  /** The records that are not nil. */
  function Existing(records: seq<Option<Record>>): seq<Record> {
    if records == [] then []
    else Existing(records[..|records| - 1]) +
         match records[|records| - 1] case None => [] case Some(r) => [r]
  }

  /** The columns read back as a record. */
  function ReadBack(rows: seq<TableRow>): (records: seq<Record>)
    ensures |records| == |rows|
  {
    seq(|rows|, i requires 0 <= i < |rows| =>
      var row := rows[i];
      Record(row.cluster, row.node, row.machine, row.source, row.chassis, row.gpu, row.readTime))
  }

  /** The round trip: the columns of a batch of records with a chassis, read back, are the records
      that are not nil, in order. */
  lemma {:induction false} RowsReadBack(records: seq<Option<Record>>, now: int)
    requires forall i :: 0 <= i < |records| && records[i].Some? ==> records[i].value.chassis != ""
    ensures ReadBack(RowsOf(records, now)) == Existing(records)
  {
    if records != [] {
      var n := |records| - 1;
      var before := RowsOf(records[..n], now);
      RowsReadBack(records[..n], now);
      match records[n]
      case None => assert before + [] == before;
      case Some(r) => assert ReadBack(before + [RowOf(r, now)]) == ReadBack(before) + [r];
    }
  }
}
