/** The table of task output chunks: `LogRepository` in environment_runtime/persistence/repositories.py.
    The table is a sequence of rows in commit order; a commit is one atomic step.  Both queries of the
    repository order rows by offset, so both are defined here through a real (stable) sort. */
module LogStore {

  datatype LogRow = LogRow(taskId: string, stream: string, offset: nat, chunk: string)

  /** The rows of one task, in commit order (`WHERE task_id = id`). */
  function TaskRows(rows: seq<LogRow>, id: string): seq<LogRow> {
    if rows == [] then []
    else
      var last := rows[|rows| - 1];
      var before := TaskRows(rows[..|rows| - 1], id);
      if last.taskId == id then before + [last] else before
  }

  function InsertByOffset(sorted: seq<LogRow>, row: LogRow): seq<LogRow> {
    if sorted == [] || sorted[|sorted| - 1].offset <= row.offset then sorted + [row]
    else InsertByOffset(sorted[..|sorted| - 1], row) + [sorted[|sorted| - 1]]
  }

  /** `ORDER BY offset ASC`, ties kept in commit order. */
  function SortByOffset(rows: seq<LogRow>): seq<LogRow> {
    if rows == [] then [] else InsertByOffset(SortByOffset(rows[..|rows| - 1]), rows[|rows| - 1])
  }

  ghost predicate Ascending(rows: seq<LogRow>) {
    forall i, j :: 0 <= i < j < |rows| ==> rows[i].offset <= rows[j].offset
  }

  /** The chunks of a sequence of rows, joined: what `logs_text` returns for them. */
  function Text(rows: seq<LogRow>): string {
    if rows == [] then "" else Text(rows[..|rows| - 1]) + rows[|rows| - 1].chunk
  }

  function GetTaskLogs(rows: seq<LogRow>, id: string): seq<LogRow> {
    SortByOffset(TaskRows(rows, id))
  }

  /** `ORDER BY offset DESC LIMIT 1`, plus the length of that chunk; 0 when there is no row. */
  function ResumeOffset(rows: seq<LogRow>, id: string): nat {
    var sorted := GetTaskLogs(rows, id);
    if sorted == [] then 0 else sorted[|sorted| - 1].offset + |sorted[|sorted| - 1].chunk|
  }

  /** Every row starts where the rows committed before it end. */
  ghost predicate Contiguous(rows: seq<LogRow>) {
    forall i :: 0 <= i < |rows| ==> rows[i].offset == |Text(rows[..i])|
  }

  // ---- The sort is a sort

  lemma AppendedIsOrdered(sorted: seq<LogRow>, last: LogRow)
    requires Ascending(sorted) && forall x :: x in sorted ==> x.offset <= last.offset
    ensures Ascending(sorted + [last])
  {
    forall i | 0 <= i < |sorted| ensures sorted[i].offset <= last.offset {
      assert sorted[i] in sorted;
    }
  }

  lemma {:induction false} InsertIsOrdered(sorted: seq<LogRow>, row: LogRow)
    requires Ascending(sorted)
    ensures Ascending(InsertByOffset(sorted, row))
    ensures multiset(InsertByOffset(sorted, row)) == multiset(sorted) + multiset{row}
    ensures forall x :: x in InsertByOffset(sorted, row) ==> x == row || x in sorted
  {
    if sorted == [] || sorted[|sorted| - 1].offset <= row.offset {
    } else {
      var front, last := sorted[..|sorted| - 1], sorted[|sorted| - 1];
      assert sorted == front + [last];
      InsertIsOrdered(front, row);
      AppendedIsOrdered(InsertByOffset(front, row), last);
    }
  }

  lemma {:induction false} SortIsOrdered(rows: seq<LogRow>)
    ensures Ascending(SortByOffset(rows))
    ensures multiset(SortByOffset(rows)) == multiset(rows)
  {
    if rows != [] {
      var front, last := rows[..|rows| - 1], rows[|rows| - 1];
      assert rows == front + [last];
      SortIsOrdered(front);
      InsertIsOrdered(SortByOffset(front), last);
    }
  }

  // ---- Contiguous tables

  lemma TextSnoc(rows: seq<LogRow>, row: LogRow)
    ensures Text(rows + [row]) == Text(rows) + row.chunk
  {
    assert (rows + [row])[..|rows|] == rows;
  }

  lemma {:induction false} TextPrefixGrows(rows: seq<LogRow>, i: nat, j: nat)
    requires i <= j <= |rows|
    ensures Text(rows[..i]) <= Text(rows[..j])
    decreases j
  {
    if i < j {
      TextPrefixGrows(rows, i, j - 1);
      assert rows[..j] == rows[..j - 1] + [rows[j - 1]];
      TextSnoc(rows[..j - 1], rows[j - 1]);
    }
  }

  lemma ContiguousSnoc(rows: seq<LogRow>, row: LogRow)
    requires Contiguous(rows) && row.offset == |Text(rows)|
    ensures Contiguous(rows + [row])
  {
    var all := rows + [row];
    forall i | 0 <= i < |all| ensures all[i].offset == |Text(all[..i])| {
      assert all[..i] == rows[..i];
      if i == |rows| { assert rows[..i] == rows; }
    }
  }

  /** On a contiguous table offset order is commit order. */
  lemma {:induction false} ContiguousIsSorted(rows: seq<LogRow>)
    requires Contiguous(rows)
    ensures SortByOffset(rows) == rows
  {
    if rows != [] {
      var front, last := rows[..|rows| - 1], rows[|rows| - 1];
      assert rows == front + [last];
      forall i | 0 <= i < |front| ensures front[i].offset == |Text(front[..i])| {
        assert front[..i] == rows[..i];
      }
      ContiguousIsSorted(front);
      if front != [] {
        assert rows[..|front|] == front;
        TextPrefixGrows(rows, |front| - 1, |front|);
      }
    }
  }

  /** The resume point of a contiguous task log is the length of its text. */
  lemma ResumeIsTextLength(rows: seq<LogRow>, id: string)
    requires Contiguous(TaskRows(rows, id))
    ensures GetTaskLogs(rows, id) == TaskRows(rows, id)
    ensures ResumeOffset(rows, id) == |Text(GetTaskLogs(rows, id))|
  {
    ContiguousIsSorted(TaskRows(rows, id));
  }

  lemma TaskRowsSnoc(rows: seq<LogRow>, row: LogRow, id: string)
    ensures row.taskId == id ==> TaskRows(rows + [row], id) == TaskRows(rows, id) + [row]
    ensures row.taskId != id ==> TaskRows(rows + [row], id) == TaskRows(rows, id)
  {
    assert (rows + [row])[..|rows|] == rows;
  }

  class LogRepository {
    var rows: seq<LogRow>

    constructor ()
      ensures rows == []
    {
      rows := [];
    }

    method Append(taskId: string, stream: string, offset: nat, chunk: string)
      modifies this
      ensures rows == old(rows) + [LogRow(taskId, stream, offset, chunk)]
      ensures TaskRows(rows, taskId) == TaskRows(old(rows), taskId) + [LogRow(taskId, stream, offset, chunk)]
      ensures forall id | id != taskId :: TaskRows(rows, id) == TaskRows(old(rows), id)
    {
      var row := LogRow(taskId, stream, offset, chunk);
      rows := rows + [row];
      forall id
        ensures id == taskId ==> TaskRows(rows, id) == TaskRows(old(rows), id) + [row]
        ensures id != taskId ==> TaskRows(rows, id) == TaskRows(old(rows), id)
      {
        TaskRowsSnoc(old(rows), row, id);
      }
    }
  }
}
