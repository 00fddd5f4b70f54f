/**
  The task_status table as rows with sort keys, and the queries over it.  Row keys (created_at, id)
  increase in insertion order; on such a table every query agrees with the per-task histories.
 */
module StatusTable {
  import opened Tasks
  import opened Operations

  datatype StatusRow = StatusRow(createdAt: int, id: nat, task: TaskId, record: Record)

  predicate Newer(a: StatusRow, b: StatusRow) {
    a.createdAt > b.createdAt || (a.createdAt == b.createdAt && a.id > b.id)
  }

  predicate Chronological(rows: seq<StatusRow>) {
    forall i, j :: 0 <= i < j < |rows| ==> Newer(rows[j], rows[i])
  }

  /** The records of one task in insertion order. */
  function HistoryOf(rows: seq<StatusRow>, t: TaskId): seq<Record> {
    if rows == [] then []
    else
      var r := rows[|rows| - 1];
      HistoryOf(rows[..|rows| - 1], t) + (if r.task == t then [r.record] else [])
  }

  /** latest_status.sql: the row with the greatest key, wherever it stands in the table. */
  function NewestOf(rows: seq<StatusRow>, t: TaskId): (r: Option<StatusRow>)
    ensures r.None? ==> forall i :: 0 <= i < |rows| ==> rows[i].task != t
    ensures r.Some? ==> r.value in rows && r.value.task == t
    ensures r.Some? ==> forall i :: 0 <= i < |rows| && rows[i].task == t ==> !Newer(rows[i], r.value)
  {
    if rows == [] then None
    else
      var best, r := NewestOf(rows[..|rows| - 1], t), rows[|rows| - 1];
      if r.task == t && (best.None? || Newer(r, best.value)) then Some(r) else best
  }

  /** The CTE `latest`: per task the row that comes first by created_at DESC, id DESC. */
  function DistinctLatest(rows: seq<StatusRow>): map<TaskId, StatusRow> {
    if rows == [] then map[]
    else
      var m, r := DistinctLatest(rows[..|rows| - 1]), rows[|rows| - 1];
      if r.task in m && !Newer(r, m[r.task]) then m else m[r.task := r]
  }

  /** The CTE `failed_counts`: a group for each task with a FAILED row. */
  function FailedCounts(rows: seq<StatusRow>): map<TaskId, nat> {
    if rows == [] then map[]
    else
      var m, r := FailedCounts(rows[..|rows| - 1]), rows[|rows| - 1];
      if r.record.status != Failed then m
      else m[r.task := 1 + (if r.task in m then m[r.task] else 0)]
  }

  /** The WHERE clause of claim_queued.sql over the raw table. */
  predicate Claimable(tasks: map<TaskId, Task>, rows: seq<StatusRow>, t: TaskId) {
    && t in tasks && t in DistinctLatest(rows)
    && DistinctLatest(rows)[t].record.status in {Queued, WorkerLost}
    && (if t in FailedCounts(rows) then FailedCounts(rows)[t] else 0) < tasks[t].maxRetries
  }

  /** On a chronological table the greatest key is the last insertion. */
  lemma {:induction false} NewestIsLastInserted(rows: seq<StatusRow>, t: TaskId)
    requires Chronological(rows)
    ensures NewestOf(rows, t).None? <==> HistoryOf(rows, t) == []
    ensures NewestOf(rows, t).Some? ==> Latest(HistoryOf(rows, t)) == Some(NewestOf(rows, t).value.record.status)
  {
    if rows != [] {
      NewestIsLastInserted(rows[..|rows| - 1], t);
    }
  }

  /** The two formulations of "latest" agree on every table. */
  lemma {:induction false} DistinctIsNewest(rows: seq<StatusRow>, t: TaskId)
    ensures t in DistinctLatest(rows) <==> NewestOf(rows, t).Some?
    ensures t in DistinctLatest(rows) ==> NewestOf(rows, t) == Some(DistinctLatest(rows)[t])
  {
    if rows != [] {
      DistinctIsNewest(rows[..|rows| - 1], t);
    }
  }

  lemma {:induction false} FailedCountsAgree(rows: seq<StatusRow>, t: TaskId)
    ensures (if t in FailedCounts(rows) then FailedCounts(rows)[t] else 0) == Count(HistoryOf(rows, t), Failed)
  {
    if rows != [] {
      var init, r := rows[..|rows| - 1], rows[|rows| - 1];
      FailedCountsAgree(init, t);
      if r.task == t {
        CountAppend(HistoryOf(init, t), r.record, Failed);
      } else {
        assert HistoryOf(rows, t) == HistoryOf(init, t);
      }
    }
  }

  /** The tables seen as histories. */
  function ViewOf(tasks: map<TaskId, Task>, rows: seq<StatusRow>, leases: map<TaskId, Lease>): Db {
    Db(tasks, map t | t in tasks :: HistoryOf(rows, t), leases)
  }

  /** The raw claim filter selects exactly the eligible tasks. */
  lemma ClaimableIsEligible(tasks: map<TaskId, Task>, rows: seq<StatusRow>, leases: map<TaskId, Lease>, t: TaskId)
    requires Chronological(rows)
    ensures Claimable(tasks, rows, t) <==> Eligible(ViewOf(tasks, rows, leases), t)
  {
    NewestIsLastInserted(rows, t);
    DistinctIsNewest(rows, t);
    FailedCountsAgree(rows, t);
  }

  lemma HistoryAfterInsert(rows: seq<StatusRow>, row: StatusRow, t: TaskId)
    ensures HistoryOf(rows + [row], t) ==
            if row.task == t then HistoryOf(rows, t) + [row.record] else HistoryOf(rows, t)
  {
    assert (rows + [row])[..|rows|] == rows;
  }

  /** Inserting a row appends one record to one history. */
  lemma ViewAfterInsert(tasks: map<TaskId, Task>, rows: seq<StatusRow>, leases: map<TaskId, Lease>, row: StatusRow)
    requires row.task in tasks
    ensures ViewOf(tasks, rows + [row], leases) == InsertStatus(ViewOf(tasks, rows, leases), row.task, row.record)
  {
    var v, u := ViewOf(tasks, rows + [row], leases), InsertStatus(ViewOf(tasks, rows, leases), row.task, row.record);
    forall t | t in tasks
      ensures v.history[t] == u.history[t]
    {
      HistoryAfterInsert(rows, row, t);
    }
  }

  lemma {:induction false} NoRowsNoHistory(rows: seq<StatusRow>, t: TaskId)
    requires forall i :: 0 <= i < |rows| ==> rows[i].task != t
    ensures HistoryOf(rows, t) == []
  {
    if rows != [] {
      NoRowsNoHistory(rows[..|rows| - 1], t);
    }
  }

  /** A new task with its first row is a new history [QUEUED]. */
  lemma ViewAfterSubmit(tasks: map<TaskId, Task>, rows: seq<StatusRow>, leases: map<TaskId, Lease>,
                        task: Task, row: StatusRow)
    requires row.task !in tasks && row.record == QUEUED
    requires forall i :: 0 <= i < |rows| ==> rows[i].task in tasks
    ensures var v := ViewOf(tasks, rows, leases);
            ViewOf(tasks[row.task := task], rows + [row], leases) ==
            v.(tasks := tasks[row.task := task], history := v.history[row.task := [QUEUED]])
  {
    NoRowsNoHistory(rows, row.task);
    var v, u := ViewOf(tasks, rows, leases), ViewOf(tasks[row.task := task], rows + [row], leases);
    forall t | t in u.history
      ensures u.history[t] == v.history[row.task := [QUEUED]][t]
    {
      HistoryAfterInsert(rows, row, t);
    }
    assert u.history == v.history[row.task := [QUEUED]];
  }
}
