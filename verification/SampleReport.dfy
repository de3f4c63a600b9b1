/** What the finalizer derives from `samples.jsonl`: one summary entry per
    sample, and the aggregate CSV. The last line of a sample is reported. */
module SampleReport {
  import opened SampleLog

  // --- the summary ---

  function Position(seen: seq<Row>, sample: string): (i: nat)
    requires Mentions(seen, sample)
    ensures i < |seen| && seen[i].sampleId == sample
  {
    if seen[0].sampleId == sample then 0
    else
      assert Mentions(seen[1..], sample);
      1 + Position(seen[1..], sample)
  }

  /** Assignment to a Python dict: a known key keeps its place. */
  function Put(seen: seq<Row>, row: Row): seq<Row> {
    if row.sampleId == "" then seen
    else if Mentions(seen, row.sampleId) then seen[Position(seen, row.sampleId) := row]
    else seen + [row]
  }

  function Latest(rows: seq<Row>): seq<Row> {
    if rows == [] then [] else Put(Latest(rows[..|rows| - 1]), rows[|rows| - 1])
  }

  function Key(row: Row): int { if row.rowIndex.Some? then row.rowIndex.value else 0 }

  /** Stable insertion: after every entry whose key is no larger. */
  function Insert(sorted: seq<Row>, row: Row): seq<Row> {
    if sorted == [] || Key(sorted[|sorted| - 1]) <= Key(row) then sorted + [row]
    else Insert(sorted[..|sorted| - 1], row) + [sorted[|sorted| - 1]]
  }

  function Sorted(rows: seq<Row>): seq<Row> {
    if rows == [] then [] else Insert(Sorted(rows[..|rows| - 1]), rows[|rows| - 1])
  }

  function Summary(rows: seq<Row>): seq<Row> { Sorted(Latest(rows)) }

  method SamplesSummary(rows: seq<Row>) returns (summary: seq<Row>)
    ensures summary == Summary(rows)
  {
    var seen := [];
    for i := 0 to |rows|
      invariant seen == Latest(rows[..i])
    {
      assert rows[..i + 1][..i] == rows[..i];
      var row := rows[i];
      if row.sampleId == "" {
        continue;
      }
      if Mentions(seen, row.sampleId) {
        seen := seen[Position(seen, row.sampleId) := row];
      } else {
        seen := seen + [row];
      }
    }
    assert rows[..|rows|] == rows;
    summary := Sorted(seen);
  }

  /** The last line of a sample. */
  function LastLine(rows: seq<Row>, sample: string): (row: Row)
    requires Mentions(rows, sample)
    ensures row in rows && row.sampleId == sample
  {
    if rows[|rows| - 1].sampleId == sample then rows[|rows| - 1]
    else
      assert Mentions(rows[..|rows| - 1], sample);
      LastLine(rows[..|rows| - 1], sample)
  }

  lemma {:induction false} InsertIsPermutation(sorted: seq<Row>, row: Row)
    ensures multiset(Insert(sorted, row)) == multiset(sorted) + multiset{row}
  {
    if sorted != [] {
      var front := sorted[..|sorted| - 1];
      assert sorted == front + [sorted[|sorted| - 1]];
      InsertIsPermutation(front, row);
    }
  }

  lemma {:induction false} SortedIsPermutation(rows: seq<Row>)
    ensures multiset(Sorted(rows)) == multiset(rows)
  {
    if rows != [] {
      var front, last := rows[..|rows| - 1], rows[|rows| - 1];
      assert rows == front + [last];
      SortedIsPermutation(front);
      InsertIsPermutation(Sorted(front), last);
    }
  }

  ghost predicate InOrder(rows: seq<Row>) {
    forall i, j :: 0 <= i < j < |rows| ==> Key(rows[i]) <= Key(rows[j])
  }

  lemma {:induction false} InsertKeepsOrder(sorted: seq<Row>, row: Row)
    requires InOrder(sorted)
    ensures InOrder(Insert(sorted, row))
    ensures forall r <- Insert(sorted, row) :: r in sorted || r == row
  {
    if sorted != [] && Key(sorted[|sorted| - 1]) > Key(row) {
      var front := sorted[..|sorted| - 1];
      InsertKeepsOrder(front, row);
      assert forall r <- front :: Key(r) <= Key(sorted[|sorted| - 1]);
    }
  }

  lemma {:induction false} SortedIsInOrder(rows: seq<Row>)
    ensures InOrder(Sorted(rows))
  {
    if rows != [] {
      SortedIsInOrder(rows[..|rows| - 1]);
      InsertKeepsOrder(Sorted(rows[..|rows| - 1]), rows[|rows| - 1]);
    }
  }

  lemma PutReplaces(seen: seq<Row>, row: Row, sample: string)
    requires OneLineEach(seen)
    ensures OneLineEach(Put(seen, row))
    ensures Mentions(Put(seen, row), sample) <==>
            Mentions(seen, sample) || (sample != "" && row.sampleId == sample)
    ensures forall r <- Put(seen, row) :: r == row || (r in seen && r.sampleId != row.sampleId)
    ensures row.sampleId != "" ==> row in Put(seen, row)
    ensures forall r <- seen :: r.sampleId != row.sampleId ==> r in Put(seen, row)
  {
    var seen' := Put(seen, row);
    if row.sampleId != "" {
      if Mentions(seen, row.sampleId) {
        var p := Position(seen, row.sampleId);
        assert seen'[p] == row;
        forall r | r in seen && r.sampleId != row.sampleId ensures r in seen' {
          var i :| 0 <= i < |seen| && seen[i] == r;
          assert seen'[i] == r;
        }
      } else {
        assert seen'[|seen|] == row;
        forall r | r in seen ensures r in seen' {}
      }
    }
    if Mentions(seen, sample) && row.sampleId != sample {
      var r :| r in seen && r.sampleId == sample;
      assert r in seen';
    }
  }

  lemma {:induction false} LatestIsLast(rows: seq<Row>, sample: string)
    ensures OneLineEach(Latest(rows))
    ensures Mentions(Latest(rows), sample) <==> sample != "" && Mentions(rows, sample)
    ensures sample != "" && Mentions(rows, sample) ==> LastLine(rows, sample) in Latest(rows)
  {
    if rows != [] {
      var front, last := rows[..|rows| - 1], rows[|rows| - 1];
      assert rows == front + [last];
      LatestIsLast(front, sample);
      PutReplaces(Latest(front), last, sample);
      MentionsMore(front, last, sample);
    }
  }

  lemma UniqueUnderPermutation(a: seq<Row>, b: seq<Row>)
    requires OneLineEach(a) && multiset(a) == multiset(b)
    ensures OneLineEach(b)
  {
    forall row | row in b ensures row.sampleId != "" {
      assert row in multiset(a);
    }
    forall i, j | 0 <= i < j < |b| ensures b[i].sampleId != b[j].sampleId {
      assert b[i] in multiset(a) && b[j] in multiset(a);
      if b[i] == b[j] {
        OccursTwice(b, i, j);
        OccursOnce(a, b[i]);
      } else {
        var k :| 0 <= k < |a| && a[k] == b[i];
        var l :| 0 <= l < |a| && a[l] == b[j];
        assert k != l;
      }
    }
  }

  lemma OccursTwice(s: seq<Row>, i: nat, j: nat)
    requires i < j < |s| && s[i] == s[j]
    ensures multiset(s)[s[i]] >= 2
  {
    assert s == s[..j] + [s[j]] + s[j + 1..];
    assert s[..j][i] == s[i];
    assert s[i] in multiset(s[..j]);
  }

  lemma {:induction false} OccursOnce(s: seq<Row>, row: Row)
    requires OneLineEach(s)
    ensures multiset(s)[row] <= 1
  {
    if s != [] {
      var front := s[..|s| - 1];
      assert s == front + [s[|s| - 1]];
      OccursOnce(front, row);
      if row == s[|s| - 1] {
        assert row !in front;
      }
    }
  }

  lemma OneRowPerSample(rows: seq<Row>, a: Row, b: Row)
    requires OneLineEach(rows) && a in rows && b in rows && a.sampleId == b.sampleId
    ensures a == b
  {
    var i :| 0 <= i < |rows| && rows[i] == a;
    var j :| 0 <= j < |rows| && rows[j] == b;
    assert i == j;
  }

  /** The summary has one entry per named sample, its last line, ordered by row. */
  lemma SummaryIsLastLinePerSample(rows: seq<Row>)
    ensures OneLineEach(Summary(rows))
    ensures forall i, j :: 0 <= i < j < |Summary(rows)| ==>
              var first, second := Summary(rows)[i].rowIndex, Summary(rows)[j].rowIndex;
              (if first.Some? then first.value else 0) <= (if second.Some? then second.value else 0)
    ensures forall row <- Summary(rows) ::
              row.sampleId != "" && Mentions(rows, row.sampleId) && row == LastLine(rows, row.sampleId)
    ensures forall row <- rows :: row.sampleId != "" ==> LastLine(rows, row.sampleId) in Summary(rows)
  {
    var latest := Latest(rows);
    SortedIsPermutation(latest);
    SortedIsInOrder(latest);
    LatestIsLast(rows, "");
    UniqueUnderPermutation(latest, Summary(rows));
    forall row | row in Summary(rows)
      ensures row.sampleId != "" && Mentions(rows, row.sampleId) && row == LastLine(rows, row.sampleId)
    {
      assert row in multiset(latest);
      LatestIsLast(rows, row.sampleId);
      assert Mentions(latest, row.sampleId);
      OneRowPerSample(latest, row, LastLine(rows, row.sampleId));
    }
    forall row | row in rows && row.sampleId != ""
      ensures LastLine(rows, row.sampleId) in Summary(rows)
    {
      LatestIsLast(rows, row.sampleId);
      assert LastLine(rows, row.sampleId) in multiset(Summary(rows));
    }
  }

  // --- ties ---

  /** Where a sample first appears. */
  function FirstLine(rows: seq<Row>, sample: string): (i: nat)
    requires Mentions(rows, sample)
    ensures i < |rows| && rows[i].sampleId == sample && forall k :: 0 <= k < i ==> rows[k].sampleId != sample
  {
    if rows[0].sampleId == sample then 0
    else
      assert Mentions(rows[1..], sample);
      1 + FirstLine(rows[1..], sample)
  }

  type Rank = string -> int

  ghost predicate Ranked(rows: seq<Row>, rank: Rank) {
    forall i, j :: 0 <= i < j < |rows| ==> rank(rows[i].sampleId) < rank(rows[j].sampleId)
  }

  predicate Below(a: Row, b: Row, rank: Rank) {
    Key(a) < Key(b) || (Key(a) == Key(b) && rank(a.sampleId) < rank(b.sampleId))
  }

  /** Ordered by row index, and by rank where these are equal. */
  ghost predicate OrderedBy(rows: seq<Row>, rank: Rank) {
    forall i, j :: 0 <= i < j < |rows| ==> Below(rows[i], rows[j], rank)
  }

  lemma {:induction false} InsertIsStable(sorted: seq<Row>, row: Row, rank: Rank)
    requires OrderedBy(sorted, rank) && forall r <- sorted :: rank(r.sampleId) < rank(row.sampleId)
    ensures OrderedBy(Insert(sorted, row), rank)
    ensures forall r <- Insert(sorted, row) :: r in sorted || r == row
  {
    if sorted != [] && Key(sorted[|sorted| - 1]) > Key(row) {
      var front, last := sorted[..|sorted| - 1], sorted[|sorted| - 1];
      InsertIsStable(front, row, rank);
      forall r | r in front ensures Below(r, last, rank) {
        var i :| 0 <= i < |front| && front[i] == r;
        assert sorted[i] == r;
      }
      OrderedMore(Insert(front, row), last, rank);
    } else {
      forall r | r in sorted ensures Below(r, row, rank) {
        var i :| 0 <= i < |sorted| && sorted[i] == r;
      }
      OrderedMore(sorted, row, rank);
    }
  }

  lemma OrderedMore(front: seq<Row>, last: Row, rank: Rank)
    requires OrderedBy(front, rank) && forall r <- front :: Below(r, last, rank)
    ensures OrderedBy(front + [last], rank)
  {
    var rows := front + [last];
    forall i, j | 0 <= i < j < |rows| ensures Below(rows[i], rows[j], rank) {
      assert rows[i] == front[i];
    }
  }

  lemma {:induction false} SortedIsStable(rows: seq<Row>, rank: Rank)
    requires Ranked(rows, rank)
    ensures OrderedBy(Sorted(rows), rank)
  {
    if rows != [] {
      var front, last := rows[..|rows| - 1], rows[|rows| - 1];
      SortedIsStable(front, rank);
      SortedIsPermutation(front);
      forall r | r in Sorted(front) ensures rank(r.sampleId) < rank(last.sampleId) {
        assert r in multiset(front);
        var i :| 0 <= i < |front| && front[i] == r;
        assert rows[i] == r;
      }
      InsertIsStable(Sorted(front), last, rank);
    }
  }

  lemma FirstLineStays(front: seq<Row>, last: Row, sample: string)
    requires Mentions(front, sample)
    ensures Mentions(front + [last], sample) && FirstLine(front + [last], sample) == FirstLine(front, sample)
  {
    MentionsMore(front, last, sample);
    var i, j, rows := FirstLine(front, sample), FirstLine(front + [last], sample), front + [last];
    assert forall k :: 0 <= k < |front| ==> rows[k] == front[k];
    assert i <= j <= i;
  }

  lemma {:induction false} LatestIsRanked(rows: seq<Row>)
    ensures forall r <- Latest(rows) :: Mentions(rows, r.sampleId)
    ensures forall i, j :: 0 <= i < j < |Latest(rows)| ==>
              FirstLine(rows, Latest(rows)[i].sampleId) < FirstLine(rows, Latest(rows)[j].sampleId)
  {
    if rows != [] {
      var front, last := rows[..|rows| - 1], rows[|rows| - 1];
      var before := Latest(front);
      LatestIsRanked(front);
      assert front + [last] == rows;
      forall i | 0 <= i < |before|
        ensures Mentions(rows, before[i].sampleId)
        ensures FirstLine(rows, before[i].sampleId) == FirstLine(front, before[i].sampleId) < |front|
      {
        assert before[i] in before;
        FirstLineStays(front, last, before[i].sampleId);
      }
      MentionsMore(front, last, last.sampleId);
      LatestIsLast(front, last.sampleId);
      SameSamples(before, last);
    }
  }

  /** Putting a row keeps the samples where they are, and a new one comes last. */
  lemma SameSamples(seen: seq<Row>, row: Row)
    ensures |seen| <= |Put(seen, row)| <= |seen| + 1
    ensures forall i :: 0 <= i < |seen| ==> Put(seen, row)[i].sampleId == seen[i].sampleId
    ensures |Put(seen, row)| == |seen| + 1 ==> Put(seen, row)[|seen|] == row && !Mentions(seen, row.sampleId)
  {
  }

  /** Samples with one row index come in the order in which the file first names
      them: with the index that is the whole order of the summary. */
  lemma SummaryBreaksTiesByFirstLine(rows: seq<Row>)
    ensures forall row <- Summary(rows) :: Mentions(rows, row.sampleId)
    ensures forall i, j :: 0 <= i < j < |Summary(rows)| ==>
              var a, b := Summary(rows)[i], Summary(rows)[j];
              (if a.rowIndex.Some? then a.rowIndex.value else 0) == (if b.rowIndex.Some? then b.rowIndex.value else 0)
              ==> FirstLine(rows, a.sampleId) < FirstLine(rows, b.sampleId)
  {
    var rank := (sample: string) => if Mentions(rows, sample) then FirstLine(rows, sample) else -1;
    LatestIsRanked(rows);
    assert forall i :: 0 <= i < |Latest(rows)| ==> Latest(rows)[i] in Latest(rows);
    SortedIsStable(Latest(rows), rank);
    SummaryIsLastLinePerSample(rows);
    assert forall i :: 0 <= i < |Summary(rows)| ==> Summary(rows)[i] in Summary(rows);
  }

  // --- counters against summary ---

  /** The counters keep the first line of a sample and the summary the last, in
      the same order of first appearance. */
  ghost predicate Aligned(first: seq<Row>, latest: seq<Row>) {
    |first| == |latest| && forall i :: 0 <= i < |first| ==> first[i].sampleId == latest[i].sampleId
  }

  lemma {:induction false} FirstAndLatestAlign(rows: seq<Row>)
    ensures Aligned(FirstRows(rows), Latest(rows))
  {
    if rows != [] {
      var front, last := rows[..|rows| - 1], rows[|rows| - 1];
      FirstAndLatestAlign(front);
      LatestIsLast(front, last.sampleId);
    }
  }

  lemma {:induction false} PassCountAdds(a: seq<Row>, b: seq<Row>)
    ensures PassCount(a + b) == PassCount(a) + PassCount(b)
  {
    if b == [] {
      assert a + b == a;
    } else {
      assert (a + b)[..|a + b| - 1] == a + b[..|b| - 1];
      PassCountAdds(a, b[..|b| - 1]);
    }
  }

  lemma {:induction false} InsertKeepsPassCount(sorted: seq<Row>, row: Row)
    ensures PassCount(Insert(sorted, row)) == PassCount(sorted) + (if Passed(row) then 1 else 0)
    ensures |Insert(sorted, row)| == |sorted| + 1
  {
    if sorted == [] || Key(sorted[|sorted| - 1]) <= Key(row) {
      PassCountAdds(sorted, [row]);
      assert [row][..0] == [];
    } else {
      InsertKeepsPassCount(sorted[..|sorted| - 1], row);
      PassCountAdds(Insert(sorted[..|sorted| - 1], row), [sorted[|sorted| - 1]]);
      assert [sorted[|sorted| - 1]][..0] == [];
    }
  }

  lemma {:induction false} SortedKeepsPassCount(rows: seq<Row>)
    ensures PassCount(Sorted(rows)) == PassCount(rows) && |Sorted(rows)| == |rows|
  {
    if rows != [] {
      SortedKeepsPassCount(rows[..|rows| - 1]);
      InsertKeepsPassCount(Sorted(rows[..|rows| - 1]), rows[|rows| - 1]);
    }
  }

  /** How many samples fail in `a` and pass in `b`. */
  function Gained(a: seq<Row>, b: seq<Row>): nat
    requires |a| == |b|
  {
    if a == [] then 0
    else Gained(a[..|a| - 1], b[..|b| - 1]) +
         (if !Passed(a[|a| - 1]) && Passed(b[|b| - 1]) then 1 else 0)
  }

  lemma {:induction false} PassesBalance(a: seq<Row>, b: seq<Row>)
    requires |a| == |b|
    ensures PassCount(a) + Gained(a, b) == PassCount(b) + Gained(b, a)
  {
    if a != [] {
      PassesBalance(a[..|a| - 1], b[..|b| - 1]);
    }
  }

  /** On any file the run's counters and the manifest's summary count the same
      samples, and they count the same passes exactly when as many samples
      recovered between their first and last line as fell back. */
  lemma CountersAgreeWithSummaryIff(rows: seq<Row>)
    ensures LoadRows(EMPTY, rows).total == |Summary(rows)|
    ensures forall s :: s in LoadRows(EMPTY, rows).completed <==> Mentions(Summary(rows), s)
    ensures Aligned(FirstRows(rows), Latest(rows))
    ensures LoadRows(EMPTY, rows).passed == PassCount(Summary(rows)) <==>
            Gained(FirstRows(rows), Latest(rows)) == Gained(Latest(rows), FirstRows(rows))
  {
    LoadCountsFirstRows(rows);
    FirstAndLatestAlign(rows);
    SortedKeepsPassCount(Latest(rows));
    SummaryIsLastLinePerSample(rows);
    PassesBalance(FirstRows(rows), Latest(rows));
    forall s ensures s in LoadRows(EMPTY, rows).completed <==> Mentions(Summary(rows), s) {
      CompletedAreMentioned(rows, s);
      if s != "" && Mentions(rows, s) {
        assert LastLine(rows, s) in Summary(rows);
      }
    }
  }

  lemma {:induction false} LatestOfUnique(rows: seq<Row>)
    requires OneLineEach(rows)
    ensures Latest(rows) == rows
  {
    if rows != [] {
      var front, last := rows[..|rows| - 1], rows[|rows| - 1];
      LatestOfUnique(front);
      assert !Mentions(front, last.sampleId);
      assert front + [last] == rows;
    }
  }

  /** With one line per sample they agree on everything. */
  lemma UniqueLinesAgree(rows: seq<Row>)
    requires OneLineEach(rows)
    ensures var m := LoadRows(EMPTY, rows);
            m.total == |Summary(rows)| == |rows| && m.passed == PassCount(Summary(rows)) == PassCount(rows)
  {
    FirstRowsOfUnique(rows);
    LatestOfUnique(rows);
    LoadCountsFirstRows(rows);
    SortedKeepsPassCount(rows);
  }

  lemma OneRow(row: Row)
    ensures PassCount([row]) == (if Passed(row) then 1 else 0) && Sorted([row]) == [row]
    ensures row.sampleId != "" ==> Latest([row]) == [row] && FirstRows([row]) == [row]
  {
    assert [row][..0] == [];
    assert !Mentions([], row.sampleId);
  }

  /** A worker that appends without looking can make them differ: a retried
      sample failed for the counters and passed for the manifest. */
  lemma RetriedSampleSplitsTheTotals(row: Row)
    requires row.sampleId != "" && !Passed(row)
    ensures var rows := [row, row.(verdict := "pass")];
            LoadRows(EMPTY, rows).passed == 0 && PassCount(Summary(rows)) == 1
  {
    var again := row.(verdict := "pass");
    var rows := [row, again];
    assert rows[..1] == [row] && Mentions([row], row.sampleId);
    OneRow(row);
    OneRow(again);
    assert Latest(rows) == Put([row], again) == [again];
    assert FirstRows(rows) == [row];
    LoadCountsFirstRows(rows);
  }
}
