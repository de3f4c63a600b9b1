/** What a run did to one item: the outcomes recorded for it, in order, and the
    one it was acknowledged on; and which input rows a run gets to. */
module RunHistory {
  import opened Wrappers
  import opened TaskQueue
  import opened SampleLog
  import opened RunLoop

  // --- every item has its own sample ---

  /** The items are those of the first `at` rows, in row order. */
  ghost predicate RowsInv(s: State) {
    && WellNamed(s.rows) && s.at <= |s.rows| && |s.order| == s.at
    && (forall i :: 0 <= i < s.at ==> s.order[i] in s.sampleOf && s.sampleOf[s.order[i]] == s.rows[i])
    && (forall id <- s.sampleOf :: id in s.order)
    && (s.proc.Enqueuing? ==> s.proc.mem == EMPTY)
  }

  lemma EnqueueKeepsRows(s: State, id: Id, max: int)
    requires Lists(s.order, s.queue) && RowsInv(s) && Enabled(s, EnqueueRow(id))
    ensures RowsInv(Next(s, EnqueueRow(id), max)) && Next(s, EnqueueRow(id), max).rows == s.rows
  {
    assert forall i :: 0 <= i < s.at ==> s.order[i] in s.queue;
    assert Next(s, EnqueueRow(id), max).order == s.order + [id];
  }

  lemma OthersKeepRows(s: State, step: Step, max: int)
    requires RowsInv(s) && Enabled(s, step) && !step.EnqueueRow?
    ensures RowsInv(Next(s, step, max)) && Next(s, step, max).rows == s.rows
  {
    var s' := Next(s, step, max);
    assert s'.rows == s.rows && s'.at == s.at && s'.order == s.order && s'.sampleOf == s.sampleOf;
    assert !s'.proc.Enqueuing?;
  }

  lemma StepKeepsRows(s: State, step: Step, max: int)
    requires Inv(s, max) && RowsInv(s) && Enabled(s, step)
    ensures RowsInv(Next(s, step, max)) && Next(s, step, max).rows == s.rows
  {
    if step.EnqueueRow? {
      EnqueueKeepsRows(s, step.id, max);
    } else {
      OthersKeepRows(s, step, max);
    }
  }

  lemma {:induction false} RunKeepsRows(s: State, steps: seq<Step>, max: int)
    requires Inv(s, max) && RowsInv(s) && IsRun(s, steps, max)
    ensures RowsInv(After(s, steps, max)) && After(s, steps, max).rows == s.rows
    decreases |steps|
  {
    if steps != [] {
      StepKeepsInv(s, steps[0], max);
      StepKeepsRows(s, steps[0], max);
      RunKeepsRows(Next(s, steps[0], max), steps[1..], max);
    }
  }

  lemma SamplesAreOwn(s: State, id: Id, other: Id)
    requires RowsInv(s) && id in s.sampleOf && other in s.sampleOf && id != other
    ensures s.sampleOf[id] != s.sampleOf[other]
  {
    var i :| 0 <= i < s.at && s.order[i] == id;
    var j :| 0 <= j < s.at && s.order[j] == other;
    assert i != j;
  }

  // --- the history of one item ---

  /** An outcome recorded, and whether it was written to the file. */
  datatype Note = Note(out: Outcome, written: bool)

  ghost function NoteOf(s: State, step: Step, id: Id): seq<Note>
    requires Enabled(s, step)
  {
    if step.Record? && s.proc.pcs[step.w].id == id then
      var out := s.proc.pcs[step.w].out;
      [Note(out, out.row.sampleId !in s.proc.mem.completed)]
    else []
  }

  ghost function AckOf(s: State, step: Step, id: Id): seq<Outcome>
    requires Enabled(s, step)
  {
    if step.Settle? && s.proc.pcs[step.w].id == id && Acks(s.proc.pcs[step.w].out)
    then [s.proc.pcs[step.w].out] else []
  }

  /** The outcomes recorded for an item over a run. */
  ghost function Notes(s: State, steps: seq<Step>, id: Id, max: int): seq<Note>
    requires IsRun(s, steps, max)
    decreases |steps|
  {
    if steps == [] then []
    else NoteOf(s, steps[0], id) + Notes(Next(s, steps[0], max), steps[1..], id, max)
  }

  /** The outcomes an item was acknowledged on over a run. */
  ghost function Acknowledged(s: State, steps: seq<Step>, id: Id, max: int): seq<Outcome>
    requires IsRun(s, steps, max)
    decreases |steps|
  {
    if steps == [] then []
    else AckOf(s, steps[0], id) + Acknowledged(Next(s, steps[0], max), steps[1..], id, max)
  }

  /** The first outcome is the line, no later one is written. */
  ghost predicate LineTold(log: seq<Row>, sample: string, notes: seq<Note>) {
    && (notes == [] <==> !Mentions(log, sample))
    && (notes != [] ==> notes[0].written)
    && (notes != [] ==> forall row <- log :: row.sampleId == sample ==> row == notes[0].out.row)
    && (forall i :: 0 < i < |notes| ==> !notes[i].written)
  }

  /** A done item was acknowledged once, on the last outcome recorded. */
  ghost predicate AckTold(status: Status, notes: seq<Note>, acked: seq<Outcome>) {
    if status == Done
    then notes != [] && Acks(notes[|notes| - 1].out) && acked == [notes[|notes| - 1].out]
    else acked == []
  }

  /** A worker about to settle the item holds the last outcome recorded. */
  ghost predicate HandTold(pc: Pc, id: Id, notes: seq<Note>) {
    pc.Recorded? && pc.id == id ==> notes != [] && notes[|notes| - 1].out == pc.out
  }

  ghost predicate Told(s: State, id: Id, notes: seq<Note>, acked: seq<Outcome>) {
    if id !in s.queue then notes == [] && acked == []
    else
      && id in s.sampleOf
      && LineTold(s.log, s.sampleOf[id], notes) && AckTold(s.queue[id].status, notes, acked)
      && (s.proc.Working? ==> forall w :: 0 <= w < |s.proc.pcs| ==> HandTold(s.proc.pcs[w], id, notes))
  }

  lemma NewLine(log: seq<Row>, row: Row, sample: string, notes: seq<Note>)
    requires LineTold(log, sample, notes) && !Mentions(log, row.sampleId)
    ensures row.sampleId != sample ==> LineTold(log + [row], sample, notes)
    ensures row.sampleId == sample ==>
              forall out: Outcome :: out.row == row ==> LineTold(log + [row], sample, notes + [Note(out, true)])
  {
    MentionsMore(log, row, sample);
    assert forall r <- log + [row] :: r in log || r == row;
    if row.sampleId == sample {
      assert forall r <- log :: r.sampleId != sample;
    }
  }

  /** The log after an outcome of this item, or of another one. */
  lemma RecordTellsLine(s: State, w: nat, id: Id, notes: seq<Note>, max: int)
    requires Inv(s, max) && RowsInv(s) && Enabled(s, Step.Record(w)) && id in s.queue && id in s.sampleOf
    requires LineTold(s.log, s.sampleOf[id], notes)
    ensures LineTold(Next(s, Step.Record(w), max).log, s.sampleOf[id], notes + NoteOf(s, Step.Record(w), id))
  {
    var pc := s.proc.pcs[w];
    var row := pc.out.row;
    assert PcInv(s, pc);
    CompletedAreMentioned(s.log, row.sampleId);
    if id != pc.id {
      SamplesAreOwn(s, id, pc.id);
      assert notes + [] == notes;
    }
    if row.sampleId !in s.proc.mem.completed {
      NewLine(s.log, row, s.sampleOf[id], notes);
    }
  }

  lemma RecordTellsHands(s: State, w: nat, id: Id, notes: seq<Note>, max: int)
    requires Inv(s, max) && Enabled(s, Step.Record(w))
    requires forall v :: 0 <= v < |s.proc.pcs| ==> HandTold(s.proc.pcs[v], id, notes)
    ensures var s', notes' := Next(s, Step.Record(w), max), notes + NoteOf(s, Step.Record(w), id);
            forall v :: 0 <= v < |s'.proc.pcs| ==> HandTold(s'.proc.pcs[v], id, notes')
  {
    var pc := s.proc.pcs[w];
    assert ItemOf(pc) == Some(pc.id);
    if id == pc.id {
      assert forall v :: 0 <= v < |s.proc.pcs| && v != w ==> ItemOf(s.proc.pcs[v]) != Some(id);
    }
  }

  lemma RecordedIsClaimed(s: State, w: nat, max: int)
    requires Inv(s, max) && Enabled(s, Step.Record(w))
    ensures var id, s' := s.proc.pcs[w].id, Next(s, Step.Record(w), max);
            id in s.queue && s.queue[id].status == Claimed && s'.queue == s.queue && s'.sampleOf == s.sampleOf
  {
    assert PcInv(s, s.proc.pcs[w]);
  }

  lemma RecordTells(s: State, w: nat, id: Id, notes: seq<Note>, acked: seq<Outcome>, max: int)
    requires Inv(s, max) && RowsInv(s) && Enabled(s, Step.Record(w)) && Told(s, id, notes, acked)
    ensures var step := Step.Record(w);
            Told(Next(s, step, max), id, notes + NoteOf(s, step, id), acked + AckOf(s, step, id))
  {
    Reassociate(acked, [], []);
    Reassociate(notes, [], []);
    RecordedIsClaimed(s, w, max);
    if id in s.queue {
      RecordTellsLine(s, w, id, notes, max);
      RecordTellsHands(s, w, id, notes, max);
    }
  }

  lemma SettleTells(s: State, w: nat, id: Id, notes: seq<Note>, acked: seq<Outcome>, max: int)
    requires Inv(s, max) && Enabled(s, Settle(w)) && Told(s, id, notes, acked)
    ensures Told(Next(s, Settle(w), max), id, notes + NoteOf(s, Settle(w), id), acked + AckOf(s, Settle(w), id))
  {
    Reassociate(acked, [], []);
    Reassociate(notes, [], []);
    QueueStepApplies(s, Settle(w), max);
    assert id in s.queue ==> HandTold(s.proc.pcs[w], id, notes);
  }

  lemma EnqueueTells(s: State, step: Step, id: Id, notes: seq<Note>, acked: seq<Outcome>, max: int)
    requires Inv(s, max) && RowsInv(s) && Enabled(s, step) && step.EnqueueRow? && Told(s, id, notes, acked)
    ensures Told(Next(s, step, max), id, notes + NoteOf(s, step, id), acked + AckOf(s, step, id))
  {
    Reassociate(notes, [], []);
    Reassociate(acked, [], []);
    CompletedAreMentioned(s.log, s.rows[s.at]);
  }

  /** The other steps of a worker end no attempt. */
  lemma ClaimsTell(s: State, step: Step, id: Id, notes: seq<Note>, acked: seq<Outcome>, max: int)
    requires Inv(s, max) && Enabled(s, step) && Told(s, id, notes, acked)
    requires step.Stamp? || step.GiveBack?
    ensures Told(Next(s, step, max), id, notes + NoteOf(s, step, id), acked + AckOf(s, step, id))
  {
    Reassociate(notes, [], []);
    Reassociate(acked, [], []);
    QueueStepApplies(s, step, max);
  }

  lemma QuietStepsTell(s: State, step: Step, id: Id, notes: seq<Note>, acked: seq<Outcome>, max: int)
    requires Enabled(s, step) && Told(s, id, notes, acked)
    requires step.Take? || step.Finish? || step.Raise? || step.Return?
    ensures Told(Next(s, step, max), id, notes + NoteOf(s, step, id), acked + AckOf(s, step, id))
  {
    Reassociate(notes, [], []);
    Reassociate(acked, [], []);
  }

  lemma ProcessTells(s: State, step: Step, id: Id, notes: seq<Note>, acked: seq<Outcome>, max: int)
    requires Enabled(s, step) && Told(s, id, notes, acked)
    requires !IsWorkerStep(step) && !step.EnqueueRow?
    ensures Told(Next(s, step, max), id, notes + NoteOf(s, step, id), acked + AckOf(s, step, id))
  {
    Reassociate(notes, [], []);
    Reassociate(acked, [], []);
  }

  lemma StepTells(s: State, step: Step, id: Id, notes: seq<Note>, acked: seq<Outcome>, max: int)
    requires Inv(s, max) && RowsInv(s) && Enabled(s, step) && Told(s, id, notes, acked)
    ensures Told(Next(s, step, max), id, notes + NoteOf(s, step, id), acked + AckOf(s, step, id))
  {
    if step.Record? {
      RecordTells(s, step.w, id, notes, acked, max);
    } else if step.Settle? {
      SettleTells(s, step.w, id, notes, acked, max);
    } else if step.EnqueueRow? {
      EnqueueTells(s, step, id, notes, acked, max);
    } else if step.Stamp? || step.GiveBack? {
      ClaimsTell(s, step, id, notes, acked, max);
    } else if IsWorkerStep(step) {
      QuietStepsTell(s, step, id, notes, acked, max);
    } else {
      ProcessTells(s, step, id, notes, acked, max);
    }
  }

  lemma Reassociate<T>(a: seq<T>, b: seq<T>, c: seq<T>)
    ensures a + (b + c) == (a + b) + c && a + [] == a && [] + a == a
  {
  }

  lemma {:induction false} RunTells(s: State, steps: seq<Step>, id: Id, notes: seq<Note>, acked: seq<Outcome>,
                                    max: int)
    requires Inv(s, max) && RowsInv(s) && IsRun(s, steps, max) && Told(s, id, notes, acked)
    ensures Told(After(s, steps, max), id, notes + Notes(s, steps, id, max), acked + Acknowledged(s, steps, id, max))
    decreases |steps|
  {
    if steps == [] {
      Reassociate(notes, [], []);
      Reassociate(acked, [], []);
    } else {
      var s', note, ack := Next(s, steps[0], max), NoteOf(s, steps[0], id), AckOf(s, steps[0], id);
      StepKeepsInv(s, steps[0], max);
      StepKeepsRows(s, steps[0], max);
      StepTells(s, steps[0], id, notes, acked, max);
      RunTells(s', steps[1..], id, notes + note, acked + ack, max);
      Reassociate(notes, note, Notes(s', steps[1..], id, max));
      Reassociate(acked, ack, Acknowledged(s', steps[1..], id, max));
    }
  }

  lemma NothingToldYet(rows: seq<string>, id: Id)
    requires WellNamed(rows)
    ensures RowsInv(Start(rows)) && Told(Start(rows), id, [], [])
  {
  }

  lemma RunIsTold(rows: seq<string>, steps: seq<Step>, id: Id, max: int)
    requires WellNamed(rows) && IsRun(Start(rows), steps, max)
    ensures Told(After(Start(rows), steps, max), id,
                 Notes(Start(rows), steps, id, max), Acknowledged(Start(rows), steps, id, max))
  {
    NothingToldYet(rows, id);
    RunTells(Start(rows), steps, id, [], [], max);
    Reassociate(Notes(Start(rows), steps, id, max), [], []);
    Reassociate(Acknowledged(Start(rows), steps, id, max), [], []);
  }

  /** Over every run, crashes and resumes included: the line of a done item is
      the first outcome recorded for it, so it passes exactly when that one did;
      the item was acknowledged on the last; and the acknowledged outcome is the
      one in the file exactly when it was also the first. */
  lemma LineIsFirstRecorded(rows: seq<string>, steps: seq<Step>, id: Id, max: int)
    requires WellNamed(rows) && IsRun(Start(rows), steps, max)
    requires var s := After(Start(rows), steps, max); id in s.queue && s.queue[id].status == Done
    ensures var s, notes := After(Start(rows), steps, max), Notes(Start(rows), steps, id, max);
            && id in s.sampleOf && Mentions(s.log, s.sampleOf[id]) && notes != []
            && Acknowledged(Start(rows), steps, id, max) == [notes[|notes| - 1].out]
            && Acks(notes[|notes| - 1].out)
            && (forall row <- s.log :: row.sampleId == s.sampleOf[id] ==>
                  row == notes[0].out.row && (Passed(row) <==> Passed(notes[0].out.row)))
            && (notes[|notes| - 1].written <==> |notes| == 1)
  {
    RunIsTold(rows, steps, id, max);
  }

  /** The same for an item of any status: its line is the first outcome recorded
      for it, and it has none exactly when no outcome was recorded. */
  lemma LineIffRecorded(rows: seq<string>, steps: seq<Step>, id: Id, max: int)
    requires WellNamed(rows) && IsRun(Start(rows), steps, max) && id in After(Start(rows), steps, max).queue
    ensures var s, notes := After(Start(rows), steps, max), Notes(Start(rows), steps, id, max);
            && id in s.sampleOf
            && (Mentions(s.log, s.sampleOf[id]) <==> notes != [])
            && (forall row <- s.log :: row.sampleId == s.sampleOf[id] ==> notes != [] && row == notes[0].out.row)
  {
    RunIsTold(rows, steps, id, max);
    var s := After(Start(rows), steps, max);
    forall row | row in s.log && row.sampleId == s.sampleOf[id] ensures Mentions(s.log, s.sampleOf[id]) {
      var i :| 0 <= i < |s.log| && s.log[i] == row;
    }
  }

  // --- what the totals count ---

  /** Every line is an item's. */
  ghost predicate LinesOwned(s: State) {
    forall row <- s.log :: exists id <- s.sampleOf :: s.sampleOf[id] == row.sampleId
  }

  lemma NewLineOwned(s: State, s': State, row: Row, id: Id)
    requires LinesOwned(s) && s'.sampleOf == s.sampleOf && (s'.log == s.log || s'.log == s.log + [row])
    requires id in s.sampleOf && s.sampleOf[id] == row.sampleId
    ensures LinesOwned(s')
  {
    assert forall other <- s'.log :: other in s.log || other == row;
  }

  lemma OwnersStay(s: State, s': State)
    requires LinesOwned(s) && s'.log == s.log
    requires forall id <- s.sampleOf :: id in s'.sampleOf && s'.sampleOf[id] == s.sampleOf[id]
    ensures LinesOwned(s')
  {
  }

  lemma StepKeepsLinesOwned(s: State, step: Step, max: int)
    requires Inv(s, max) && RowsInv(s) && LinesOwned(s) && Enabled(s, step)
    ensures LinesOwned(Next(s, step, max))
  {
    var s' := Next(s, step, max);
    if step.Record? {
      var pc := s.proc.pcs[step.w];
      assert PcInv(s, pc);
      NewLineOwned(s, s', pc.out.row, pc.id);
    } else if step.EnqueueRow? {
      assert step.id !in s.sampleOf by {
        assert forall i :: 0 <= i < s.at ==> s.order[i] in s.queue;
      }
      OwnersStay(s, s');
    }
  }

  lemma {:induction false} RunKeepsLinesOwned(s: State, steps: seq<Step>, max: int)
    requires Inv(s, max) && RowsInv(s) && LinesOwned(s) && IsRun(s, steps, max)
    ensures LinesOwned(After(s, steps, max))
    decreases |steps|
  {
    if steps != [] {
      StepKeepsInv(s, steps[0], max);
      StepKeepsRows(s, steps[0], max);
      StepKeepsLinesOwned(s, steps[0], max);
      RunKeepsLinesOwned(Next(s, steps[0], max), steps[1..], max);
    }
  }

  function PassedSamples(log: seq<Row>): set<string> {
    set row | row in log && Passed(row) :: row.sampleId
  }

  lemma PassedSamplesMore(front: seq<Row>, last: Row)
    ensures PassedSamples(front + [last]) ==
            PassedSamples(front) + (if Passed(last) then {last.sampleId} else {})
  {
    assert forall row :: row in front + [last] <==> row in front || row == last;
  }

  lemma {:induction false} PassCountIsSamples(log: seq<Row>)
    requires OneLineEach(log)
    ensures PassCount(log) == |PassedSamples(log)|
  {
    if log != [] {
      var front, last := log[..|log| - 1], log[|log| - 1];
      PassCountIsSamples(front);
      assert front + [last] == log;
      PassedSamplesMore(front, last);
      assert last.sampleId !in PassedSamples(front);
    }
  }

  function Samples(sampleOf: map<Id, string>, ids: set<Id>): set<string> {
    set id | id in ids && id in sampleOf :: sampleOf[id]
  }

  lemma {:induction false} AsManySamples(sampleOf: map<Id, string>, ids: set<Id>)
    requires ids <= sampleOf.Keys
    requires forall id, other :: id in ids && other in ids && id != other ==> sampleOf[id] != sampleOf[other]
    ensures |Samples(sampleOf, ids)| == |ids|
  {
    if ids != {} {
      var id :| id in ids;
      AsManySamples(sampleOf, ids - {id});
      assert Samples(sampleOf, ids) == Samples(sampleOf, ids - {id}) + {sampleOf[id]};
    }
  }

  /** The items an outcome was recorded for, and those whose first one passed. */
  ghost function RecordedItems(s: State, steps: seq<Step>, max: int): set<Id>
    requires IsRun(s, steps, max)
  {
    set id | id in After(s, steps, max).queue && Notes(s, steps, id, max) != []
  }

  ghost function PassedItems(s: State, steps: seq<Step>, max: int): set<Id>
    requires IsRun(s, steps, max)
  {
    set id | id in RecordedItems(s, steps, max) && Passed(Notes(s, steps, id, max)[0].out.row)
  }

  /** These items have lines, and these of them passing ones. */
  ghost predicate LinesTold(s: State, recorded: set<Id>, passed: set<Id>) {
    && passed <= recorded <= s.sampleOf.Keys
    && (forall id <- s.sampleOf :: id in recorded <==> Mentions(s.log, s.sampleOf[id]))
    && (forall id, row | id in recorded && row in s.log && row.sampleId == s.sampleOf[id] ::
          id in passed <==> Passed(row))
  }

  lemma RecordedSamples(s: State, recorded: set<Id>, passed: set<Id>)
    requires LinesTold(s, recorded, passed) && LinesOwned(s) && OneLineEach(s.log)
    ensures Samples(s.sampleOf, recorded) == LoadRows(EMPTY, s.log).completed
  {
    forall sample ensures sample in Samples(s.sampleOf, recorded) <==> sample in LoadRows(EMPTY, s.log).completed {
      CompletedAreMentioned(s.log, sample);
      if Mentions(s.log, sample) {
        var row :| row in s.log && row.sampleId == sample;
        var id :| id in s.sampleOf && s.sampleOf[id] == row.sampleId;
        assert id in recorded;
      }
    }
  }

  lemma PassedSamplesAre(s: State, recorded: set<Id>, passed: set<Id>)
    requires LinesTold(s, recorded, passed) && LinesOwned(s)
    ensures Samples(s.sampleOf, passed) == PassedSamples(s.log)
  {
    forall sample | sample in PassedSamples(s.log) ensures sample in Samples(s.sampleOf, passed) {
      var row :| row in s.log && Passed(row) && row.sampleId == sample;
      var id :| id in s.sampleOf && s.sampleOf[id] == row.sampleId;
      assert Mentions(s.log, s.sampleOf[id]) && id in recorded;
    }
    forall sample | sample in Samples(s.sampleOf, passed) ensures sample in PassedSamples(s.log) {
      var id :| id in passed && id in s.sampleOf && s.sampleOf[id] == sample;
      assert Mentions(s.log, s.sampleOf[id]);
      var row :| row in s.log && row.sampleId == sample;
    }
  }

  lemma RunTellsLines(rows: seq<string>, steps: seq<Step>, max: int)
    requires WellNamed(rows) && IsRun(Start(rows), steps, max)
    ensures LinesTold(After(Start(rows), steps, max), RecordedItems(Start(rows), steps, max),
                      PassedItems(Start(rows), steps, max))
  {
    var s := After(Start(rows), steps, max);
    NothingToldYet(rows, "");
    RunKeepsInv(Start(rows), steps, max);
    RunKeepsRows(Start(rows), steps, max);
    forall id | id in s.sampleOf ensures id in s.queue {
      var i :| 0 <= i < s.at && s.order[i] == id;
    }
    forall id | id in s.queue {
      LineIffRecorded(rows, steps, id, max);
    }
  }

  /** The counters, and what the file would load, count the items an outcome was
      recorded for, each by its first outcome. */
  lemma TotalsCountRecordedItems(rows: seq<string>, steps: seq<Step>, max: int)
    requires WellNamed(rows) && IsRun(Start(rows), steps, max)
    ensures var s := After(Start(rows), steps, max);
            var m := LoadRows(EMPTY, s.log);
            && (!s.proc.Down? ==> s.proc.mem == m)
            && m.total == |RecordedItems(Start(rows), steps, max)|
            && m.passed == |PassedItems(Start(rows), steps, max)|
  {
    var s := After(Start(rows), steps, max);
    NothingToldYet(rows, "");
    RunKeepsInv(Start(rows), steps, max);
    RunKeepsRows(Start(rows), steps, max);
    RunKeepsLinesOwned(Start(rows), steps, max);
    var recorded, passed := RecordedItems(Start(rows), steps, max), PassedItems(Start(rows), steps, max);
    RunTellsLines(rows, steps, max);
    RecordedSamples(s, recorded, passed);
    PassedSamplesAre(s, recorded, passed);
    LoadCountsFirstRows(s.log);
    FirstRowsOfUnique(s.log);
    PassCountIsSamples(s.log);
    forall id, other | id in s.sampleOf && other in s.sampleOf && id != other
      ensures s.sampleOf[id] != s.sampleOf[other]
    {
      SamplesAreOwn(s, id, other);
    }
    AsManySamples(s.sampleOf, recorded);
    AsManySamples(s.sampleOf, passed);
  }

  // --- which rows run ---

  /** How many rows were enqueued before the first crash, or by the end. */
  ghost function RowsBeforeCrash(s: State, steps: seq<Step>, max: int): nat
    requires IsRun(s, steps, max)
    decreases |steps|
  {
    if steps == [] || steps[0].Crash? then s.at
    else RowsBeforeCrash(Next(s, steps[0], max), steps[1..], max)
  }

  lemma {:induction false} OnlyRowsBeforeCrash(s: State, steps: seq<Step>, max: int)
    requires IsRun(s, steps, max)
    ensures After(s, steps, max).at == RowsBeforeCrash(s, steps, max)
    decreases |steps|
  {
    if steps != [] {
      if steps[0].Crash? {
        NoRowsAfterEnqueuing(Next(s, steps[0], max), steps[1..], max);
      } else {
        OnlyRowsBeforeCrash(Next(s, steps[0], max), steps[1..], max);
      }
    }
  }

  /** The row has an item, and it came to an end. */
  ghost predicate RowFinished(s: State, sample: string) {
    exists id <- s.queue :: id in s.sampleOf && s.sampleOf[id] == sample && s.queue[id].status in {Done, Dead}
  }

  /** A resumed process enqueues nothing. So in a drained run every input row
      comes to an end exactly when all rows had been enqueued before the first
      crash, no crash lost an item and no claim is stranded. */
  lemma EveryRowFinishesIff(rows: seq<string>, steps: seq<Step>, max: int)
    requires WellNamed(rows) && IsRun(Start(rows), steps, max)
    requires var s := After(Start(rows), steps, max);
             s.proc.Working? && AllReturned(s.proc.pcs) && !s.proc.stop
    ensures var s := After(Start(rows), steps, max);
            (forall sample <- rows :: RowFinished(s, sample)) <==>
            RowsBeforeCrash(Start(rows), steps, max) == |rows| && s.lost == {} && s.stranded == {}
  {
    var s := After(Start(rows), steps, max);
    NothingToldYet(rows, "");
    RunKeepsInv(Start(rows), steps, max);
    RunKeepsRows(Start(rows), steps, max);
    OnlyRowsBeforeCrash(Start(rows), steps, max);
    DrainedRunFinishesEverythingIff(rows, steps, max);
    RowsFinishIff(s, max);
  }

  /** Without crashes in the gap and without skipped claims only the rows that
      were never enqueued are left out. */
  lemma CleanRunFinishesEveryRowIff(rows: seq<string>, steps: seq<Step>, max: int)
    requires WellNamed(rows) && IsRun(Start(rows), steps, max) && IsCleanRun(Start(rows), steps, max)
    requires var s := After(Start(rows), steps, max);
             s.proc.Working? && AllReturned(s.proc.pcs) && !s.proc.stop
    ensures (forall sample <- rows :: RowFinished(After(Start(rows), steps, max), sample)) <==>
            RowsBeforeCrash(Start(rows), steps, max) == |rows|
  {
    CleanRunsLoseNothing(Start(rows), steps, max);
    EveryRowFinishesIff(rows, steps, max);
  }

  lemma RowsFinishIff(s: State, max: int)
    requires Inv(s, max) && RowsInv(s)
    ensures (forall sample <- s.rows :: RowFinished(s, sample)) <==>
            s.at == |s.rows| && forall id <- s.queue :: s.queue[id].status in {Done, Dead}
  {
    if s.at < |s.rows| {
      MissingRow(s, max);
    } else if id :| id in s.queue && s.queue[id].status !in {Done, Dead} {
      UnfinishedRow(s, id, max);
    } else {
      AllRowsFinish(s, max);
    }
  }

  lemma AllRowsFinish(s: State, max: int)
    requires Inv(s, max) && RowsInv(s) && s.at == |s.rows|
    requires forall id <- s.queue :: s.queue[id].status in {Done, Dead}
    ensures forall sample <- s.rows :: RowFinished(s, sample)
  {
    forall i | 0 <= i < |s.rows| ensures RowFinished(s, s.rows[i]) {
      assert s.order[i] in s.queue;
    }
  }

  lemma MissingRow(s: State, max: int)
    requires Inv(s, max) && RowsInv(s) && s.at < |s.rows|
    ensures s.rows[s.at] in s.rows && !RowFinished(s, s.rows[s.at])
  {
    forall id | id in s.queue ensures s.sampleOf[id] != s.rows[s.at] {
      var i :| 0 <= i < s.at && s.order[i] == id;
      assert s.sampleOf[id] == s.rows[i];
    }
  }

  /** The row of an item that is neither done nor dead has no other item. */
  lemma UnfinishedRow(s: State, id: Id, max: int)
    requires Inv(s, max) && RowsInv(s) && id in s.queue && s.queue[id].status !in {Done, Dead}
    ensures id in s.sampleOf && s.sampleOf[id] in s.rows && !RowFinished(s, s.sampleOf[id])
  {
    var i :| 0 <= i < s.at && s.order[i] == id;
    forall other | other in s.queue && other in s.sampleOf && s.sampleOf[other] == s.sampleOf[id]
      ensures other == id
    {
      if other != id {
        SamplesAreOwn(s, id, other);
      }
    }
  }

  // --- witnesses ---

  function SetPc(s: State, pc: Pc): State
    requires s.proc.Working?
  {
    s.(proc := s.proc.(pcs := [pc]))
  }

  lemma OneWorker(s: State, pc: Pc)
    requires s.proc.Working? && |s.proc.pcs| == 1
    ensures WithPc(s, 0, pc) == SetPc(s, pc)
  {
    assert s.proc.pcs[0 := pc] == [pc];
  }

  /** What a lone worker does with one item: dequeue it, run it, record the
      result and settle; or dequeue it and give it back when it raised. */
  function Claiming(id: Id): seq<Step> { [Take(0, id), Stamp(0)] }

  function Settling(out: Outcome): seq<Step> { [Finish(0, out), Step.Record(0), Settle(0)] }

  function Raising(): seq<Step> { [Raise(0), GiveBack(0)] }

  lemma ClaimingRuns(s: State, id: Id, max: int)
    requires s.proc.Working? && s.proc.pcs == [Ready] && Visible(s, id)
    ensures IsRun(s, Claiming(id), max)
    ensures After(s, Claiming(id), max) ==
            SetPc(s, Running(id)).(queue := s.queue[id := Entry(Claimed, s.queue[id].attempts)])
  {
    var s1 := Next(s, Take(0, id), max);
    OneWorker(s, Popped(id));
    OneWorker(s1, Running(id));
    RunFirst(s1, Stamp(0), [], max);
    RunFirst(s, Take(0, id), [Stamp(0)], max);
    assert Claiming(id) == [Take(0, id)] + [Stamp(0)];
  }

  lemma RaisingRuns(s: State, id: Id, max: int)
    requires s.proc.Working? && s.proc.pcs == [Running(id)] && id in s.queue
    ensures IsRun(s, Raising(), max)
    ensures After(s, Raising(), max) == SetPc(s, Ready).(queue := s.queue[id := AfterNack(s.queue[id], max)])
  {
    var s1 := Next(s, Raise(0), max);
    OneWorker(s, Raised(id));
    OneWorker(s1, Ready);
    RunFirst(s1, GiveBack(0), [], max);
    RunFirst(s, Raise(0), [GiveBack(0)], max);
    assert Raising() == [Raise(0)] + [GiveBack(0)];
  }

  function Recording(s: State, out: Outcome): State
    requires s.proc.Working?
  {
    if out.row.sampleId in s.proc.mem.completed then s
    else s.(log := s.log + [out.row], proc := s.proc.(mem := Tally(s.proc.mem, out.row)))
  }

  lemma SettlingRuns(s: State, id: Id, out: Outcome, max: int)
    requires s.proc.Working? && s.proc.pcs == [Running(id)] && id in s.queue
    requires id in s.sampleOf && out.row.sampleId == s.sampleOf[id]
    ensures IsRun(s, Settling(out), max)
    ensures After(s, Settling(out), max) ==
            SetPc(Recording(s, out), Ready).(queue :=
              s.queue[id := if Acks(out) then s.queue[id].(status := Done) else AfterNack(s.queue[id], max)])
  {
    var s1 := Next(s, Finish(0, out), max);
    OneWorker(s, Ran(id, out));
    var s2 := Next(s1, Step.Record(0), max);
    OneWorker(s1, Recorded(id, out));
    assert s2 == SetPc(Recording(s, out), Recorded(id, out));
    OneWorker(s2, Ready);
    RunFirst(s2, Settle(0), [], max);
    RunFirst(s1, Step.Record(0), [Settle(0)], max);
    RunFirst(s, Finish(0, out), [Step.Record(0), Settle(0)], max);
    assert Settling(out) == [Finish(0, out)] + [Step.Record(0), Settle(0)];
  }

  /** One attempt of an item by a lone worker; `None` is an exception. */
  function Attempt(id: Id, result: Option<Outcome>): seq<Step> {
    Claiming(id) + (if result.Some? then Settling(result.value) else Raising())
  }

  lemma AttemptRuns(s: State, id: Id, result: Option<Outcome>, max: int) returns (t: State)
    requires s.proc.Working? && s.proc.pcs == [Ready] && Visible(s, id)
    requires result.Some? ==> id in s.sampleOf && result.value.row.sampleId == s.sampleOf[id]
    ensures IsRun(s, Attempt(id, result), max) && t == After(s, Attempt(id, result), max)
    ensures t == (if result.Some? then Recording(s, result.value) else s).(queue :=
              s.queue[id := if result.Some? && Acks(result.value) then Entry(Done, s.queue[id].attempts)
                            else AfterNack(s.queue[id], max)])
  {
    ClaimingRuns(s, id, max);
    var u := After(s, Claiming(id), max);
    if result.Some? {
      SettlingRuns(u, id, result.value, max);
      RunsCompose(s, Claiming(id), Settling(result.value), max);
    } else {
      RaisingRuns(u, id, max);
      RunsCompose(s, Claiming(id), Raising(), max);
    }
    t := After(s, Attempt(id, result), max);
    assert t.queue == s.queue[id := t.queue[id]];
  }

  const ITEM: Id := "item"

  function Opening(): seq<Step> { [EnqueueRow(ITEM), StartWorkers(1)] }

  lemma OneRowOpens() returns (s: State)
    ensures IsRun(Start(["sample"]), Opening(), 3) && s == After(Start(["sample"]), Opening(), 3)
    ensures s == State(["sample"], 1, map[ITEM := Entry(Pending, 0)], map[ITEM := "sample"], [ITEM], [],
                       Working(EMPTY, false, [Ready]), {}, {})
  {
    var s0 := Start(["sample"]);
    var s1 := Next(s0, EnqueueRow(ITEM), 3);
    s := Next(s1, StartWorkers(1), 3);
    assert Workers(1) == [Ready];
    RunFirst(s1, StartWorkers(1), [], 3);
    RunFirst(s0, EnqueueRow(ITEM), [StartWorkers(1)], 3);
    assert Opening() == [EnqueueRow(ITEM)] + [StartWorkers(1)];
  }

  /** A run of one row ends with this item done and this one line. */
  ghost predicate EndsDoneWithLine(steps: seq<Step>, row: Row) {
    && IsRun(Start(["sample"]), steps, 3)
    && var s := After(Start(["sample"]), steps, 3);
       && ITEM in s.queue && s.queue[ITEM].status == Done && s.log == [row]
       && s.proc.Working? && s.proc.mem == Tally(EMPTY, row)
  }

  lemma OneAttemptEndsDone(row: Row, done: bool) returns (steps: seq<Step>)
    requires row.sampleId == "sample" && Acks(Outcome(row, done))
    ensures EndsDoneWithLine(steps, row) && steps == Opening() + Attempt(ITEM, Some(Outcome(row, done)))
  {
    var s := OneRowOpens();
    var t := AttemptRuns(s, ITEM, Some(Outcome(row, done)), 3);
    steps := Opening() + Attempt(ITEM, Some(Outcome(row, done)));
    RunsCompose(Start(["sample"]), Opening(), Attempt(ITEM, Some(Outcome(row, done))), 3);
  }

  /** A sample the judge fails is done at its first attempt, with a failing line. */
  lemma JudgedFailIsDone() returns (steps: seq<Step>, row: Row)
    ensures EndsDoneWithLine(steps, row) && !Passed(row)
    ensures steps == Opening() + Attempt(ITEM, Some(Outcome(row, true)))
  {
    row := Row("sample", None, "fail", Extracted.Other);
    steps := OneAttemptEndsDone(row, true);
  }

  /** A sample that fails once and passes on the retry is done in the queue and
      failed in the file: the first line stands. */
  lemma DoneItemCanHaveAFailingLine() returns (steps: seq<Step>, row: Row)
    ensures EndsDoneWithLine(steps, row) && !Passed(row)
    ensures steps == Opening() + Attempt(ITEM, Some(Outcome(row, false)))
                     + Attempt(ITEM, Some(Outcome(row.(verdict := "pass"), true)))
  {
    row := Row("sample", None, "fail", Extracted.Other);
    var failing, passing := Some(Outcome(row, false)), Some(Outcome(row.(verdict := "pass"), true));
    var s := OneRowOpens();
    var t := AttemptRuns(s, ITEM, failing, 3);
    RunsCompose(Start(["sample"]), Opening(), Attempt(ITEM, failing), 3);
    var u := AttemptRuns(t, ITEM, passing, 3);
    RunsCompose(Start(["sample"]), Opening() + Attempt(ITEM, failing), Attempt(ITEM, passing), 3);
    steps := Opening() + Attempt(ITEM, failing) + Attempt(ITEM, passing);
  }

  lemma {:induction false} WorkersRunClean(s: State, steps: seq<Step>, max: int)
    requires IsRun(s, steps, max) && forall step <- steps :: !step.Crash? && !step.Resume?
    ensures IsCleanRun(s, steps, max)
    decreases |steps|
  {
    if steps != [] {
      WorkersRunClean(Next(s, steps[0], max), steps[1..], max);
    }
  }

  lemma CleanFirst(s: State, step: Step, rest: seq<Step>, max: int)
    requires Enabled(s, step) && IsRun(Next(s, step, max), rest, max)
    requires Clean(s, step) && IsCleanRun(Next(s, step, max), rest, max)
    ensures IsRun(s, [step] + rest, max) && IsCleanRun(s, [step] + rest, max)
    ensures After(s, [step] + rest, max) == After(Next(s, step, max), rest, max)
  {
    RunFirst(s, step, rest, max);
    assert ([step] + rest)[1..] == rest;
  }

  const ROWS := ["first", "second"]

  function Reopening(): seq<Step> { [EnqueueRow(ITEM), Crash, Resume(1, {})] }

  /** A process that dies between its two rows, and is resumed. */
  lemma OneRowReopens() returns (s: State)
    ensures WellNamed(ROWS) && IsRun(Start(ROWS), Reopening(), 3) && s == After(Start(ROWS), Reopening(), 3)
    ensures IsCleanRun(Start(ROWS), Reopening(), 3)
    ensures s == State(ROWS, 1, map[ITEM := Entry(Pending, 0)], map[ITEM := "first"], [ITEM], [],
                       Working(EMPTY, false, [Ready]), {}, {})
  {
    var s0 := Start(ROWS);
    var s1 := Next(s0, EnqueueRow(ITEM), 3);
    assert s1 == s0.(at := 1, queue := map[ITEM := Entry(Pending, 0)], sampleOf := map[ITEM := "first"],
                     order := [ITEM]);
    var s2 := Next(s1, Crash, 3);
    assert s2 == s1.(proc := Down);
    s := Next(s2, Resume(1, {}), 3);
    assert Workers(1) == [Ready];
    CleanFirst(s2, Resume(1, {}), [], 3);
    CleanFirst(s1, Crash, [Resume(1, {})], 3);
    CleanFirst(s0, EnqueueRow(ITEM), [Crash, Resume(1, {})], 3);
    assert [Crash] + [Resume(1, {})] == [Crash, Resume(1, {})];
    assert Reopening() == [EnqueueRow(ITEM)] + [Crash, Resume(1, {})];
  }

  lemma {:induction false} CleanRunsCompose(s: State, first: seq<Step>, second: seq<Step>, max: int)
    requires IsRun(s, first, max) && IsCleanRun(s, first, max)
    requires IsRun(After(s, first, max), second, max) && IsCleanRun(After(s, first, max), second, max)
    ensures IsRun(s, first + second, max) && IsCleanRun(s, first + second, max)
    decreases |first|
  {
    if first == [] {
      assert first + second == second;
    } else {
      assert (first + second)[1..] == first[1..] + second;
      CleanRunsCompose(Next(s, first[0], max), first[1..], second, max);
    }
  }

  /** The resumed process drains the queue and ends, and the second row never ran. */
  lemma RowsAreLeftOut() returns (steps: seq<Step>)
    ensures WellNamed(ROWS) && IsRun(Start(ROWS), steps, 3) && IsCleanRun(Start(ROWS), steps, 3)
    ensures var s := After(Start(ROWS), steps, 3);
            && s.proc.Working? && AllReturned(s.proc.pcs) && !s.proc.stop
            && RowFinished(s, ROWS[0]) && !RowFinished(s, ROWS[1])
  {
    var result := Some(Outcome(Row("first", None, "pass", Extracted.Other), true));
    var s := OneRowReopens();
    var t := AttemptRuns(s, ITEM, result, 3);
    RunExtends(s, Attempt(ITEM, result), Return(0), 3);
    OneWorker(t, Returned);
    var rest := Attempt(ITEM, result) + [Return(0)];
    WorkersRunClean(s, rest, 3);
    CleanRunsCompose(Start(ROWS), Reopening(), rest, 3);
    RunsCompose(Start(ROWS), Reopening(), rest, 3);
    steps := Reopening() + rest;
    var end := After(Start(ROWS), steps, 3);
    assert end == SetPc(t, Returned);
    OnlyFirstFinished(end);
  }

  lemma OnlyFirstFinished(s: State)
    requires s.queue.Keys == {ITEM} && s.queue[ITEM].status == Done && s.sampleOf == map[ITEM := "first"]
    ensures RowFinished(s, ROWS[0]) && !RowFinished(s, ROWS[1])
  {
    assert s.sampleOf[ITEM] == ROWS[0] && ROWS[0] != ROWS[1];
  }
}
