/** `samples.jsonl` and the in-memory record of it: which samples are complete
    and how many passed. The first line of a sample counts. */
module SampleLog {
  import opened Wrappers

  /** A JSON value; `Entries` lists the keys of an object and their values. */
  datatype Value =
    | Null
    | Flag(flag: bool)
    | Number(number: int)
    | Text(text: string)
    | Values(items: seq<Value>)
    | Entries(names: seq<string>, contents: seq<Value>)

  /** A JSON object: its keys in order, and their values. */
  datatype Fields = Fields(keys: seq<string>, values: map<string, Value>)

  /** An element of an extracted list: `null` and the like, an object, or a
      value that is neither. */
  datatype Item = Falsy | Object(fields: Fields) | Scalar

  /** `extracted` is an object, a list, or something else, read as {}. */
  datatype Extracted = Single(fields: Fields) | Many(items: seq<Item>) | Other

  /** One parsed line. A missing or empty `sample_id` is "". */
  datatype Row = Row(
    sampleId: string, rowIndex: Option<int>, verdict: string, extracted: Extracted)

  /** What a line of the file can be. `json.loads` accepts a bare number or
      list, and `.get` on it raises. */
  datatype Line = Blank | Garbled | NotAnObject | Parsed(row: Row)

  datatype Memory = Memory(completed: set<string>, total: nat, passed: nat, failed: nat)

  const EMPTY := Memory({}, 0, 0, 0)

  predicate Passed(row: Row) { row.verdict == "pass" }

  function Tally(m: Memory, row: Row): Memory {
    Memory(m.completed + {row.sampleId}, m.total + 1,
           m.passed + (if Passed(row) then 1 else 0), m.failed + (if Passed(row) then 0 else 1))
  }

  function LoadRow(m: Memory, row: Row): Memory {
    if row.sampleId == "" || row.sampleId in m.completed then m else Tally(m, row)
  }

  function LoadRows(m: Memory, rows: seq<Row>): Memory {
    if rows == [] then m else LoadRow(LoadRows(m, rows[..|rows| - 1]), rows[|rows| - 1])
  }

  /** The lines read before `.get` raises, if it does. */
  function Readable(lines: seq<Line>): seq<Line> {
    if lines == [] || lines[0].NotAnObject? then [] else [lines[0]] + Readable(lines[1..])
  }

  function Rows(lines: seq<Line>): seq<Row> {
    if lines == [] then []
    else Rows(lines[..|lines| - 1]) +
         (if lines[|lines| - 1].Parsed? then [lines[|lines| - 1].row] else [])
  }

  lemma {:induction false} ReadableStops(lines: seq<Line>, n: nat)
    requires n <= |lines| && (forall k :: 0 <= k < n ==> !lines[k].NotAnObject?)
    requires n < |lines| ==> lines[n].NotAnObject?
    ensures Readable(lines) == lines[..n]
  {
    if n > 0 {
      ReadableStops(lines[1..], n - 1);
    }
  }

  lemma LoadNextLine(m: Memory, lines: seq<Line>, i: nat)
    requires i < |lines|
    ensures LoadRows(m, Rows(lines[..i + 1])) ==
            if lines[i].Parsed? then LoadRow(LoadRows(m, Rows(lines[..i])), lines[i].row)
            else LoadRows(m, Rows(lines[..i]))
  {
    assert lines[..i + 1][..i] == lines[..i];
    var rows := Rows(lines[..i]);
    if lines[i].Parsed? {
      assert (rows + [lines[i].row])[..|rows|] == rows;
    } else {
      assert rows + [] == rows;
    }
  }

  /** The file and the memory of one process. */
  class RunLog {
    var completed: set<string>
    var total: nat
    var passed: nat
    var failed: nat
    var jsonl: seq<Line>

    function Mem(): Memory
      reads this
    {
      Memory(completed, total, passed, failed)
    }

    constructor (jsonl: seq<Line>)
      ensures Mem() == EMPTY && this.jsonl == jsonl
    {
      completed, total, passed, failed := {}, 0, 0, 0;
      this.jsonl := jsonl;
    }

    method Count(row: Row)
      modifies this`completed, this`total, this`passed, this`failed
      ensures Mem() == Tally(old(Mem()), row)
    {
      completed := completed + {row.sampleId};
      total := total + 1;
      if row.verdict == "pass" {
        passed := passed + 1;
      } else {
        failed := failed + 1;
      }
    }

    /** `_load_completed_from_disk`; `ok` is false when a line raised. */
    method LoadCompleted() returns (ok: bool)
      modifies this`completed, this`total, this`passed, this`failed
      ensures ok <==> NotAnObject !in jsonl
      ensures Mem() == LoadRows(old(Mem()), Rows(Readable(jsonl)))
    {
      ok := true;
      for i := 0 to |jsonl|
        invariant ok && forall k :: 0 <= k < i ==> !jsonl[k].NotAnObject?
        invariant Mem() == LoadRows(old(Mem()), Rows(jsonl[..i]))
      {
        LoadNextLine(old(Mem()), jsonl, i);
        if jsonl[i].NotAnObject? {
          ReadableStops(jsonl, i);
          return false;
        }
        if jsonl[i].Parsed? {
          var row := jsonl[i].row;
          if row.sampleId != "" && row.sampleId !in completed {
            Count(row);
          }
        }
        assert Mem() == LoadRows(old(Mem()), Rows(jsonl[..i + 1]));
      }
      assert jsonl[..|jsonl|] == jsonl;
      ReadableStops(jsonl, |jsonl|);
    }

    /** `_record_result`, under the results lock. */
    method RecordResult(row: Row)
      modifies this
      ensures row.sampleId in old(completed) ==> Mem() == old(Mem()) && jsonl == old(jsonl)
      ensures row.sampleId !in old(completed) ==>
                Mem() == Tally(old(Mem()), row) && jsonl == old(jsonl) + [Parsed(row)]
    {
      if row.sampleId in completed {
        return;
      }
      Count(row);
      jsonl := jsonl + [Parsed(row)];
    }
  }

  // --- what loading means ---

  predicate Mentions(rows: seq<Row>, sample: string) {
    exists row <- rows :: row.sampleId == sample
  }

  /** The first line of each sample, in file order. */
  function FirstRows(rows: seq<Row>): seq<Row> {
    if rows == [] then []
    else
      var front, last := rows[..|rows| - 1], rows[|rows| - 1];
      if last.sampleId == "" || Mentions(front, last.sampleId)
      then FirstRows(front) else FirstRows(front) + [last]
  }

  function PassCount(rows: seq<Row>): nat {
    if rows == [] then 0
    else PassCount(rows[..|rows| - 1]) + (if Passed(rows[|rows| - 1]) then 1 else 0)
  }

  ghost predicate OneLineEach(rows: seq<Row>) {
    && (forall row <- rows :: row.sampleId != "")
    && (forall i, j :: 0 <= i < j < |rows| ==> rows[i].sampleId != rows[j].sampleId)
  }

  lemma MentionsMore(front: seq<Row>, last: Row, sample: string)
    ensures Mentions(front + [last], sample) <==> Mentions(front, sample) || last.sampleId == sample
  {
    var rows := front + [last];
    assert rows[|front|] == last;
    assert forall row <- rows :: row in front || row == last;
    assert forall row <- front :: row in rows;
  }

  lemma {:induction false} CompletedAreMentioned(rows: seq<Row>, sample: string)
    ensures sample in LoadRows(EMPTY, rows).completed <==> sample != "" && Mentions(rows, sample)
  {
    if rows != [] {
      var front, last := rows[..|rows| - 1], rows[|rows| - 1];
      assert rows == front + [last];
      CompletedAreMentioned(front, sample);
      CompletedAreMentioned(front, last.sampleId);
      MentionsMore(front, last, sample);
    }
  }

  /** The indices of the lines that passed. */
  function PassingLines(rows: seq<Row>): set<nat> { set i: nat | i < |rows| && rows[i].verdict == "pass" }

  lemma {:induction false} PassCountIs(rows: seq<Row>)
    ensures PassCount(rows) == |PassingLines(rows)|
  {
    if rows != [] {
      var n: nat := |rows| - 1;
      PassCountIs(rows[..n]);
      assert PassingLines(rows) == PassingLines(rows[..n]) + (if rows[n].verdict == "pass" then {n} else {});
    }
  }

  /** The line names a sample that no line before it names. */
  predicate IsFirst(rows: seq<Row>, i: nat) {
    i < |rows| && rows[i].sampleId != "" && forall k :: 0 <= k < i ==> rows[k].sampleId != rows[i].sampleId
  }

  lemma FirstMore(front: seq<Row>, last: Row)
    ensures forall i: nat :: i < |front| ==> (IsFirst(front + [last], i) <==> IsFirst(front, i))
    ensures IsFirst(front + [last], |front|) <==> last.sampleId != "" && !Mentions(front, last.sampleId)
  {
    var rows := front + [last];
    assert rows[|front|] == last && forall i :: 0 <= i < |front| ==> rows[i] == front[i];
    if Mentions(front, last.sampleId) {
      var row :| row in front && row.sampleId == last.sampleId;
      var k :| 0 <= k < |front| && front[k] == row;
      assert rows[k].sampleId == rows[|front|].sampleId;
    }
  }

  lemma {:induction false} FirstRowsAreOwn(rows: seq<Row>)
    ensures OneLineEach(FirstRows(rows)) && forall row <- FirstRows(rows) :: row in rows
  {
    if rows != [] {
      FirstRowsAreOwn(rows[..|rows| - 1]);
    }
  }

  /** The first rows are the lines that name a sample first, each once. */
  lemma {:induction false} FirstRowsAreFirst(rows: seq<Row>)
    ensures forall row :: row in FirstRows(rows) <==> exists i: nat :: IsFirst(rows, i) && rows[i] == row
  {
    if rows != [] {
      var front, last := rows[..|rows| - 1], rows[|rows| - 1];
      FirstRowsAreFirst(front);
      assert front + [last] == rows;
      FirstMore(front, last);
      forall row | row in FirstRows(rows) ensures exists i: nat :: IsFirst(rows, i) && rows[i] == row {
        if row in FirstRows(front) {
          var i: nat :| IsFirst(front, i) && front[i] == row;
          assert rows[i] == row;
        } else {
          assert IsFirst(rows, |front|) && rows[|front|] == row;
        }
      }
      forall i: nat | IsFirst(rows, i) ensures rows[i] in FirstRows(rows) {
        if i < |front| {
          assert IsFirst(front, i) && front[i] == rows[i];
        }
      }
    }
  }

  /** The counters count the first line of every named sample. */
  lemma {:induction false} LoadCountsFirstRows(rows: seq<Row>)
    ensures var m := LoadRows(EMPTY, rows);
            && m.total == |FirstRows(rows)| == |m.completed|
            && m.passed == PassCount(FirstRows(rows)) == |PassingLines(FirstRows(rows))|
            && m.failed == m.total - m.passed
  {
    PassCountIs(FirstRows(rows));
    if rows != [] {
      var front, last := rows[..|rows| - 1], rows[|rows| - 1];
      LoadCountsFirstRows(front);
      CompletedAreMentioned(front, last.sampleId);
      var f := FirstRows(front);
      assert (f + [last])[..|f|] == f;
    }
  }

  lemma {:induction false} FirstRowsOfUnique(rows: seq<Row>)
    requires OneLineEach(rows)
    ensures FirstRows(rows) == rows
  {
    if rows != [] {
      FirstRowsOfUnique(rows[..|rows| - 1]);
      assert rows[..|rows| - 1] + [rows[|rows| - 1]] == rows;
    }
  }

  // --- a file only this program wrote ---

  /** The file the workers wrote. */
  function FileOf(log: seq<Row>): seq<Line> {
    if log == [] then [] else FileOf(log[..|log| - 1]) + [Parsed(log[|log| - 1])]
  }

  lemma {:induction false} FileReadsBack(log: seq<Row>)
    ensures Rows(FileOf(log)) == log && NotAnObject !in FileOf(log)
  {
    if log != [] {
      var front := FileOf(log[..|log| - 1]);
      FileReadsBack(log[..|log| - 1]);
      assert (front + [Parsed(log[|log| - 1])])[..|front|] == front;
      assert log[..|log| - 1] + [log[|log| - 1]] == log;
    }
  }
}
