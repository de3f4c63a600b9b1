/** `finalize`: the totals, the summary and the CSV of a finished run, all read
    back from `samples.jsonl`. */
module Finalizer {
  import opened Wrappers
  import opened SampleLog
  import opened SampleReport
  import opened AggregateCsv
  import RunHistory
  import RunLoop

  /** The totals of the run's result, and those of its manifest. */
  datatype Report = Report(counters: Memory, samples: seq<Row>, passed: nat, csv: Csv)

  /** The manifest's `totals.passed`. */
  method CountPasses(samples: seq<Row>) returns (passed: nat)
    ensures passed == PassCount(samples)
  {
    passed := 0;
    for i := 0 to |samples|
      invariant passed == PassCount(samples[..i])
    {
      assert samples[..i + 1][..i] == samples[..i];
      if Passed(samples[i]) {
        passed := passed + 1;
      }
    }
    assert samples[..|samples|] == samples;
  }

  /** A line that is no object raises while the file is loaded, an item that is
      neither empty nor an object while the CSV is written. */
  function Finalized(lines: seq<Line>): Result<Report, string> {
    if NotAnObject in lines || SomeRaise(Summary(Rows(lines))) then Err("AttributeError")
    else
      var samples := Summary(Rows(lines));
      Ok(Report(LoadRows(EMPTY, Rows(lines)), samples, PassCount(samples), Render(samples)))
  }

  /** Counters and completed ids are rebuilt; the file is only read. */
  method Finalize(run: RunLog) returns (r: Result<Report, string>)
    modifies run`completed, run`total, run`passed, run`failed
    ensures run.Mem() == LoadRows(EMPTY, Rows(Readable(run.jsonl)))
    ensures r == Finalized(run.jsonl)
  {
    run.completed, run.total, run.passed, run.failed := {}, 0, 0, 0;
    var ok := run.LoadCompleted();
    if !ok {
      return Err("AttributeError");
    }
    AllReadable(run.jsonl);
    var samples := SamplesSummary(Rows(run.jsonl));
    var csv := RebuildCsv(samples);
    if csv.Err? {
      return Err("AttributeError");
    }
    var passed := CountPasses(samples);
    return Ok(Report(run.Mem(), samples, passed, csv.value));
  }

  lemma AllReadable(lines: seq<Line>)
    requires NotAnObject !in lines
    ensures Readable(lines) == lines
  {
    ReadableStops(lines, |lines|);
  }

  lemma SummaryKeepsUniqueRows(log: seq<Row>, row: Row)
    requires OneLineEach(log) && row in log
    ensures row in Summary(log)
  {
    SummaryIsLastLinePerSample(log);
    OneRowPerSample(log, row, LastLine(log, row.sampleId));
  }

  lemma SummaryRaisesIff(log: seq<Row>)
    requires OneLineEach(log)
    ensures SomeRaise(Summary(log)) <==> exists row <- log :: RowRaises(row)
  {
    SummaryIsLastLinePerSample(log);
    if row :| row in log && RowRaises(row) {
      SummaryKeepsUniqueRows(log, row);
      var n :| 0 <= n < |Summary(log)| && Summary(log)[n] == row;
    }
    if SomeRaise(Summary(log)) {
      var n :| 0 <= n < |Summary(log)| && RowRaises(Summary(log)[n]);
      assert Summary(log)[n] in Summary(log);
      assert LastLine(log, Summary(log)[n].sampleId) in log;
    }
  }

  /** The lines of the sample, read under the header, are its items in order. */
  ghost predicate ReportedInFull(r: Report, row: Row) {
    var lines, lead := Group(r.csv.lines, row.sampleId), if exists s <- r.samples :: s.extracted.Many? then 4 else 3;
    && |r.csv.header| >= lead && |lines| == ItemCount(row)
    && forall i :: 0 <= i < |lines| ==>
         |lines[i]| == |r.csv.header| && ReadBack(lines[i], r.csv.header[lead..]) == NonEmpty(ItemAt(row, i))
  }

  lemma UniqueRowsAreReported(log: seq<Row>, row: Row, r: Report)
    requires OneLineEach(log) && row in log && RowOk(row)
    requires r.samples == Summary(log) && r.csv == Render(Summary(log)) && !SomeRaise(Summary(log))
    ensures ReportedInFull(r, row)
  {
    SummaryKeepsUniqueRows(log, row);
    SummaryIsLastLinePerSample(log);
    var n :| 0 <= n < |Summary(log)| && Summary(log)[n] == row;
    CsvRecoversEveryItem(Summary(log), n);
  }

  lemma MentionedStaysInSummary(log: seq<Row>, sample: string)
    requires OneLineEach(log) && Mentions(log, sample)
    ensures Mentions(Summary(log), sample)
  {
    var row :| row in log && row.sampleId == sample;
    SummaryKeepsUniqueRows(log, row);
  }

  /** The file of a run is finalized exactly when no recorded list holds an item
      that is neither empty nor an object. */
  lemma FinalizeSucceedsIff(rows: seq<string>, steps: seq<RunLoop.Step>, max: int)
    requires RunLoop.IsRun(RunLoop.Start(rows), steps, max)
    ensures var s := RunLoop.After(RunLoop.Start(rows), steps, max);
            Finalized(FileOf(s.log)).Ok? <==>
            forall row <- s.log :: row.extracted.Many? ==> Scalar !in row.extracted.items
  {
    RunLoop.EveryRunIsSafe(rows, steps, max);
    var s := RunLoop.After(RunLoop.Start(rows), steps, max);
    FileReadsBack(s.log);
    SummaryRaisesIff(s.log);
  }

  /** Whatever file is finalized - also one that containers appended several lines
      of a sample to - samples, passes and CSV are all those of its summary: one
      line per named sample, the last, and the CSV in the same order. */
  lemma ReportIsOfTheSummary(lines: seq<Line>)
    requires Finalized(lines).Ok?
    ensures var r, rows := Finalized(lines).value, Rows(lines);
            && (forall row <- r.samples :: Mentions(rows, row.sampleId) && row == LastLine(rows, row.sampleId))
            && (forall row <- rows :: row.sampleId != "" ==> LastLine(rows, row.sampleId) in r.samples)
            && OneLineEach(r.samples) && r.passed == |PassingLines(r.samples)|
            && r.counters.total == |r.samples| && FirstCells(r.csv.lines) == SampleCells(r.samples)
  {
    var rows := Rows(lines);
    SummaryIsLastLinePerSample(rows);
    PassCountIs(Summary(rows));
    CountersAgreeWithSummaryIff(rows);
    LinesFollowSamples(Summary(rows));
  }

  /** However a run went - any interleaving, crashes, resumes - if finalizing it
      succeeds, it reports as many samples and passes in the result as in the
      manifest, and the same as its last process held in memory. The CSV gives
      every recorded item back, and a completed item is in the summary. */
  lemma FinalizeReportsTheRun(rows: seq<string>, steps: seq<RunLoop.Step>, max: int)
    requires RunLoop.IsRun(RunLoop.Start(rows), steps, max)
    requires Finalized(FileOf(RunLoop.After(RunLoop.Start(rows), steps, max).log)).Ok?
    ensures var s := RunLoop.After(RunLoop.Start(rows), steps, max);
            var r := Finalized(FileOf(s.log)).value;
            && r.counters.total == |r.samples| == |s.log|
            && r.counters.passed == r.passed
            && (!s.proc.Down? ==> r.counters == s.proc.mem)
            && (forall row <- s.log | RowOk(row) :: ReportedInFull(r, row))
            && (forall id <- s.queue | s.queue[id].status.Done? ::
                  id in s.sampleOf && Mentions(r.samples, s.sampleOf[id]))
  {
    RunLoop.EveryRunIsSafe(rows, steps, max);
    var s := RunLoop.After(RunLoop.Start(rows), steps, max);
    FileReadsBack(s.log);
    UniqueLinesAgree(s.log);
    var r := Finalized(FileOf(s.log)).value;
    forall row | row in s.log && RowOk(row) ensures ReportedInFull(r, row) {
      UniqueRowsAreReported(s.log, row, r);
    }
    forall id | id in s.queue && s.queue[id].status.Done?
      ensures id in s.sampleOf && Mentions(r.samples, s.sampleOf[id])
    {
      MentionedStaysInSummary(s.log, s.sampleOf[id]);
    }
  }

  /** One bad item stops the whole run from being finalized: a sample that
      passes with a list holding a bare value is recorded and done, and then
      there is no result, no CSV and no manifest. */
  lemma OneBadItemStopsFinalize() returns (steps: seq<RunLoop.Step>, row: Row)
    ensures RunHistory.EndsDoneWithLine(steps, row) && Passed(row)
    ensures Finalized(FileOf(RunLoop.After(RunLoop.Start(["sample"]), steps, 3).log)).Err?
  {
    row := Row("sample", None, "pass", Many([Scalar]));
    steps := RunHistory.OneAttemptEndsDone(row, true);
    FinalizeSucceedsIff(["sample"], steps, 3);
    var s := RunLoop.After(RunLoop.Start(["sample"]), steps, 3);
    assert s.log == [row] && row in s.log && Scalar in row.extracted.items;
  }
}
