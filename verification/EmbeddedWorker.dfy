/** The code of the embedded run - enqueueing, the worker's loop over the SQLite
    queue and the run's file, N workers gathered on one event loop, stopping and
    resuming - as runs of the state machine. */
module EmbeddedWorker {
  import opened Wrappers
  import opened TaskQueue
  import opened SampleLog
  import opened RunLoop
  import RunHistory
  import Table = SqliteQueue

  /** What the objects hold while the workers run; `pcs` is where each coroutine
      is suspended. With SQLite nothing is lost: a dequeue is one step. */
  ghost predicate Mirrors(rows: Table.Table, mem: Memory, jsonl: seq<Line>, pcs: seq<Pc>, stop: bool, s: State) {
    && s.queue == Table.View(rows) && jsonl == FileOf(s.log) && s.lost == {}
    && s.proc == Working(mem, stop, pcs)
    && (forall w :: 0 <= w < |pcs| ==> !pcs[w].Popped?)
  }

  /** What running an item returns at some turn of the event loop; `None` is an
      exception. */
  type Results = (nat, Id) -> Option<Outcome>

  ghost predicate AnswersFor(results: Results, sampleOf: map<Id, string>) {
    forall id, n :: id in sampleOf && results(n, id).Some? ==>
                      results(n, id).value.row.sampleId == sampleOf[id]
  }

  // --- runs of the workers ---

  /** Steps of workers and signals lead from one state to the other. */
  ghost predicate Leads(s: State, steps: seq<Step>, t: State, max: int) {
    && s.proc.Working? && IsRun(s, steps, max) && t == After(s, steps, max)
    && t.proc.Working? && t.sampleOf == s.sampleOf && t.stranded == s.stranded
    && t.rows == s.rows && t.at == s.at
  }

  lemma OneStepLeads(s: State, step: Step, max: int)
    requires s.proc.Working? && Enabled(s, step) && (IsWorkerStep(step) || step.Signal?)
    ensures Leads(s, [step], Next(s, step, max), max)
  {
    RunFirst(s, step, [], max);
    assert [step] + [] == [step];
  }

  lemma LeadsOn(s: State, steps: seq<Step>, t: State, more: seq<Step>, u: State, max: int)
    requires Leads(s, steps, t, max) && Leads(t, more, u, max)
    ensures Leads(s, steps + more, u, max)
  {
    RunsCompose(s, steps, more, max);
  }

  /** Worker steps use up the work that is left. */
  lemma {:induction false} RunLowersWork(s: State, steps: seq<Step>, max: int)
    requires Inv(s, max) && s.proc.Working? && IsRun(s, steps, max)
    requires forall step <- steps :: IsWorkerStep(step)
    ensures var t := After(s, steps, max);
            Inv(t, max) && t.proc.Working? && WorkLeft(t, max) + |steps| <= WorkLeft(s, max)
    decreases |steps|
  {
    if steps != [] {
      StepKeepsInv(s, steps[0], max);
      WorkerStepLowersWork(s, steps[0], max);
      RunLowersWork(Next(s, steps[0], max), steps[1..], max);
    }
  }

  // --- what one turn of a worker leaves behind ---

  function RowsAfter(rows: Table.Table, pc: Pc, max: int, now: int): Table.Table {
    match pc
    case Recorded(id, out) =>
      if Acks(out) then Table.SetStatus(rows, id, Done, now) else Table.NackRow(rows, id, "no verdict", max, now)
    case Raised(id) => Table.NackRow(rows, id, "raised", max, now)
    case _ => rows
  }

  function MemAfter(mem: Memory, row: SampleLog.Row): Memory {
    if row.sampleId in mem.completed then mem else Tally(mem, row)
  }

  function FileAfter(mem: Memory, jsonl: seq<Line>, row: SampleLog.Row): seq<Line> {
    if row.sampleId in mem.completed then jsonl else jsonl + [Parsed(row)]
  }

  lemma ClaimMirrors(rows: Table.Table, pcs: seq<Pc>, s: State, w: nat, id: Id, token: string, max: int, now: int)
    returns (t: State)
    requires s.proc.Working? && Mirrors(rows, s.proc.mem, FileOf(s.log), pcs, s.proc.stop, s)
    requires w < |pcs| && pcs[w] == Ready && Table.Oldest(rows, id)
    ensures Leads(s, [Take(w, id), Stamp(w)], t, max)
    ensures Mirrors(Table.ClaimRow(rows, id, token, now), s.proc.mem, FileOf(s.log), pcs[w := Running(id)],
                    s.proc.stop, t)
  {
    assert Visible(s, id);
    var u := Next(s, Take(w, id), max);
    OneStepLeads(s, Take(w, id), max);
    OneStepLeads(u, Stamp(w), max);
    t := Next(u, Stamp(w), max);
    LeadsOn(s, [Take(w, id)], u, [Stamp(w)], t, max);
    assert [Take(w, id)] + [Stamp(w)] == [Take(w, id), Stamp(w)];
    assert pcs[w := Popped(id)][w := Running(id)] == pcs[w := Running(id)];
    assert t.queue == Table.View(Table.ClaimRow(rows, id, token, now));
  }

  lemma RunningMirrors(rows: Table.Table, pcs: seq<Pc>, s: State, w: nat, result: Option<Outcome>, max: int)
    returns (step: Step)
    requires s.proc.Working? && Mirrors(rows, s.proc.mem, FileOf(s.log), pcs, s.proc.stop, s)
    requires w < |pcs| && pcs[w].Running? && pcs[w].id in s.sampleOf
    requires result.Some? ==> result.value.row.sampleId == s.sampleOf[pcs[w].id]
    ensures IsWorkerStep(step) && !step.Take? && Enabled(s, step) && Leads(s, [step], Next(s, step, max), max)
    ensures Mirrors(rows, s.proc.mem, FileOf(s.log),
                    pcs[w := if result.Some? then Ran(pcs[w].id, result.value) else Raised(pcs[w].id)],
                    s.proc.stop, Next(s, step, max))
  {
    step := if result.Some? then Finish(w, result.value) else Raise(w);
    OneStepLeads(s, step, max);
  }

  lemma LineFiled(mem: Memory, log: seq<SampleLog.Row>, row: SampleLog.Row)
    ensures FileOf(if row.sampleId in mem.completed then log else log + [row]) == FileAfter(mem, FileOf(log), row)
  {
    assert (log + [row])[..|log|] == log;
  }

  lemma RecordMirrors(rows: Table.Table, pcs: seq<Pc>, s: State, w: nat, max: int)
    requires s.proc.Working? && Mirrors(rows, s.proc.mem, FileOf(s.log), pcs, s.proc.stop, s)
    requires w < |pcs| && pcs[w].Ran?
    ensures Enabled(s, Step.Record(w)) && Leads(s, [Step.Record(w)], Next(s, Step.Record(w), max), max)
    ensures var row := pcs[w].out.row;
            Mirrors(rows, MemAfter(s.proc.mem, row), FileAfter(s.proc.mem, FileOf(s.log), row),
                    pcs[w := Recorded(pcs[w].id, pcs[w].out)], s.proc.stop, Next(s, Step.Record(w), max))
  {
    OneStepLeads(s, Step.Record(w), max);
    LineFiled(s.proc.mem, s.log, pcs[w].out.row);
  }

  lemma SettleMirrors(rows: Table.Table, pcs: seq<Pc>, s: State, w: nat, max: int, now: int) returns (step: Step)
    requires s.proc.Working? && Mirrors(rows, s.proc.mem, FileOf(s.log), pcs, s.proc.stop, s)
    requires w < |pcs| && (pcs[w].Recorded? || pcs[w].Raised?)
    ensures IsWorkerStep(step) && !step.Take? && Enabled(s, step) && Leads(s, [step], Next(s, step, max), max)
    ensures Mirrors(RowsAfter(rows, pcs[w], max, now), s.proc.mem, FileOf(s.log), pcs[w := Ready], s.proc.stop,
                    Next(s, step, max))
  {
    step := if pcs[w].Recorded? then Settle(w) else GiveBack(w);
    OneStepLeads(s, step, max);
    var reason := if pcs[w].Raised? then "raised" else "no verdict";
    Table.EveryOperationRefines(rows, pcs[w].id, "", reason, "", 0, max, now);
  }

  lemma NothingVisible(rows: Table.Table, s: State)
    requires s.queue == Table.View(rows) && !Table.AnyPending(rows)
    ensures forall id :: !Visible(s, id)
  {
  }

  lemma ReturnMirrors(rows: Table.Table, pcs: seq<Pc>, s: State, w: nat, max: int)
    requires s.proc.Working? && Mirrors(rows, s.proc.mem, FileOf(s.log), pcs, s.proc.stop, s)
    requires w < |pcs| && pcs[w].Ready? && (s.proc.stop || !Table.AnyPending(rows))
    ensures Enabled(s, Return(w)) && Leads(s, [Return(w)], Next(s, Return(w), max), max)
    ensures Mirrors(rows, s.proc.mem, FileOf(s.log), pcs[w := Returned], s.proc.stop, Next(s, Return(w), max))
  {
    if !s.proc.stop {
      NothingVisible(rows, s);
    }
    OneStepLeads(s, Return(w), max);
  }

  /** Every claim carries this clock reading, or was there before with the stamp it has. */
  ghost predicate StampsKept(before: Table.Table, after: Table.Table, now: int) {
    forall id <- after :: after[id].status == Claimed ==>
      after[id].claimedAt == Some(now) ||
      (id in before && before[id].status == Claimed && before[id].claimedAt == after[id].claimedAt)
  }

  // --- the worker's loop, one await at a time ---

  /** At the head of the loop: stop, take the next item, or return. */
  method TakeNext(queue: Table.SqliteQueue, run: RunLog, w: nat, stop: bool, now: int, ghost pcs: seq<Pc>,
                  ghost s: State)
    returns (pc: Pc, ghost steps: seq<Step>, ghost t: State)
    requires Mirrors(queue.rows, run.Mem(), run.jsonl, pcs, stop, s) && w < |pcs| && pcs[w] == Ready
    modifies queue
    ensures Leads(s, steps, t, queue.maxAttempts) && steps != [] && forall step <- steps :: IsWorkerStep(step)
    ensures Mirrors(queue.rows, run.Mem(), run.jsonl, pcs[w := pc], stop, t)
    ensures pc.Running? || (pc.Returned? && (stop || !Table.AnyPending(queue.rows)))
    ensures stop ==> queue.rows == old(queue.rows) && steps == [Return(w)]
    ensures StampsKept(old(queue.rows), queue.rows, now)
    ensures pc.Running? ==> pc.id in queue.rows && queue.rows[pc.id].claimedAt == Some(now)
  {
    if stop {
      ReturnMirrors(queue.rows, pcs, s, w, queue.maxAttempts);
      return Returned, [Return(w)], Next(s, Return(w), queue.maxAttempts);
    }
    var job := queue.Dequeue("", now);
    if job.None? {
      ReturnMirrors(queue.rows, pcs, s, w, queue.maxAttempts);
      return Returned, [Return(w)], Next(s, Return(w), queue.maxAttempts);
    }
    var id := job.value.id;
    t := ClaimMirrors(old(queue.rows), pcs, s, w, id, "", queue.maxAttempts, now);
    return Running(id), [Take(w, id), Stamp(w)], t;
  }

  /** Ack or nack, after the result or in the exception handler: done on a pass
      or when the graph came to its end, whatever the verdict. */
  method AckOrNack(queue: Table.SqliteQueue, pc: Pc, now: int)
    requires pc.Recorded? || pc.Raised?
    modifies queue
    ensures queue.rows == RowsAfter(old(queue.rows), pc, queue.maxAttempts, now)
    ensures Table.OthersKept(old(queue.rows), queue.rows, pc.id)
    ensures pc.id in queue.rows ==> queue.rows[pc.id].status in {Done, Dead, Pending}
    ensures pc.id in queue.rows ==>
              (queue.rows[pc.id].status == Done <==>
                 pc.Recorded? && (pc.out.row.verdict == "pass" || pc.out.done))
  {
    if pc.Raised? {
      queue.Nack(pc.id, "raised", now);
    } else if pc.out.row.verdict == "pass" || pc.out.done {
      queue.Ack(pc.id, now);
    } else {
      queue.Nack(pc.id, "no verdict", now);
    }
  }

  /** From one await of a worker to the next. */
  method Advance(queue: Table.SqliteQueue, run: RunLog, w: nat, pcs: seq<Pc>, stop: bool, result: Option<Outcome>,
                 now: int, ghost s: State)
    returns (pc: Pc, ghost steps: seq<Step>, ghost t: State)
    requires Mirrors(queue.rows, run.Mem(), run.jsonl, pcs, stop, s)
    requires w < |pcs| && !pcs[w].Returned?
    requires pcs[w].Running? ==>
               pcs[w].id in s.sampleOf &&
               (result.Some? ==> result.value.row.sampleId == s.sampleOf[pcs[w].id])
    modifies queue, run
    ensures Leads(s, steps, t, queue.maxAttempts) && steps != [] && forall step <- steps :: IsWorkerStep(step)
    ensures Mirrors(queue.rows, run.Mem(), run.jsonl, pcs[w := pc], stop, t)
    ensures stop ==> forall step <- steps :: !step.Take?
    ensures StampsKept(old(queue.rows), queue.rows, now)
  {
    ghost var step: Step;
    if pcs[w].Ready? {
      pc, steps, t := TakeNext(queue, run, w, stop, now, pcs, s);
    } else if pcs[w].Running? {
      step := RunningMirrors(queue.rows, pcs, s, w, result, queue.maxAttempts);
      return if result.Some? then Ran(pcs[w].id, result.value) else Raised(pcs[w].id),
             [step], Next(s, step, queue.maxAttempts);
    } else if pcs[w].Ran? {
      RecordMirrors(queue.rows, pcs, s, w, queue.maxAttempts);
      run.RecordResult(pcs[w].out.row);
      return Recorded(pcs[w].id, pcs[w].out), [Step.Record(w)], Next(s, Step.Record(w), queue.maxAttempts);
    } else {
      step := SettleMirrors(queue.rows, pcs, s, w, queue.maxAttempts, now);
      AckOrNack(queue, pcs[w], now);
      return Ready, [step], Next(s, step, queue.maxAttempts);
    }
  }

  // --- gathering N workers ---

  lemma SignalMirrors(rows: Table.Table, pcs: seq<Pc>, s: State, max: int)
    requires s.proc.Working? && Mirrors(rows, s.proc.mem, FileOf(s.log), pcs, s.proc.stop, s) && Inv(s, max)
    ensures Leads(s, [Signal], Next(s, Signal, max), max) && Inv(Next(s, Signal, max), max)
    ensures Mirrors(rows, s.proc.mem, FileOf(s.log), pcs, true, Next(s, Signal, max))
    ensures WorkLeft(Next(s, Signal, max), max) == WorkLeft(s, max)
  {
    OneStepLeads(s, Signal, max);
    StepKeepsInv(s, Signal, max);
  }

  lemma InvGives(s: State, max: int)
    requires Inv(s, max) && s.proc.Working?
    ensures 0 <= WorkLeft(s, max) && forall w :: 0 <= w < |s.proc.pcs| && s.proc.pcs[w].Running? ==>
              s.proc.pcs[w].id in s.sampleOf
  {
    WorkLeftBound(s, max);
    forall w | 0 <= w < |s.proc.pcs| && s.proc.pcs[w].Running? ensures s.proc.pcs[w].id in s.sampleOf {
      assert PcInv(s, s.proc.pcs[w]);
    }
  }

  /** A signal may arrive between two turns of the event loop. */
  method Listen(rows: Table.Table, signalled: bool, stop: bool, ghost pcs: seq<Pc>, ghost mem: Memory,
                ghost jsonl: seq<Line>, ghost s: State, ghost max: int)
    returns (stop': bool, ghost steps: seq<Step>, ghost t: State)
    requires Mirrors(rows, mem, jsonl, pcs, stop, s) && Inv(s, max)
    ensures stop' == (stop || signalled)
    ensures Leads(s, steps, t, max) && Inv(t, max) && Mirrors(rows, mem, jsonl, pcs, stop', t)
    ensures WorkLeft(t, max) == WorkLeft(s, max)
    ensures steps == if !stop && signalled then [Signal] else []
  {
    if !stop && signalled {
      SignalMirrors(rows, pcs, s, max);
      return true, [Signal], Next(s, Signal, max);
    }
    return stop, [], s;
  }

  /** After the signal nothing more is dequeued. */
  ghost predicate NoTakeAfterSignal(steps: seq<Step>) {
    forall i, j :: 0 <= i < j < |steps| && steps[i].Signal? ==> !steps[j].Take?
  }

  /** Every claim that is not stranded carries the clock reading of one of the turns. */
  ghost predicate StampedBy(rows: Table.Table, stranded: set<Id>, clock: nat -> int, turns: nat) {
    forall id <- rows :: rows[id].status == Claimed ==>
      id in stranded || exists k: nat :: k < turns && rows[id].claimedAt == Some(clock(k))
  }

  lemma StampsStay(before: Table.Table, after: Table.Table, stranded: set<Id>, clock: nat -> int, turn: nat)
    requires StampedBy(before, stranded, clock, turn) && StampsKept(before, after, clock(turn))
    ensures StampedBy(after, stranded, clock, turn + 1)
  {
    forall id | id in after && after[id].status == Claimed && id !in stranded
      ensures exists k: nat :: k < turn + 1 && after[id].claimedAt == Some(clock(k))
    {
      if after[id].claimedAt != Some(clock(turn)) {
        var k: nat :| k < turn && before[id].claimedAt == Some(clock(k));
        assert after[id].claimedAt == Some(clock(k));
      }
    }
  }

  ghost predicate Heard(signals: nat -> bool, turns: nat) { exists k: nat :: k < turns && signals(k) }

  lemma HeardNext(signals: nat -> bool, turn: nat)
    ensures Heard(signals, turn + 1) <==> Heard(signals, turn) || signals(turn)
  {
  }

  lemma TakesStop(steps: seq<Step>, more: seq<Step>)
    requires NoTakeAfterSignal(steps) && NoTakeAfterSignal(more)
    requires Signal in steps ==> forall step <- more :: !step.Take?
    ensures NoTakeAfterSignal(steps + more)
  {
  }

  /** What the turns of the event loop keep of the signal. */
  ghost predicate Gathered(steps: seq<Step>, signals: nat -> bool, turns: nat) {
    NoTakeAfterSignal(steps) && (Signal in steps ==> Heard(signals, turns))
  }

  lemma TurnExtends(s: State, steps: seq<Step>, u: State, more: seq<Step>, t: State, before: Table.Table,
                    after: Table.Table, signals: nat -> bool, clock: nat -> int, turn: nat, max: int)
    requires Leads(s, steps, u, max) && Leads(u, more, t, max)
    requires Gathered(steps, signals, turn) && NoTakeAfterSignal(more)
    requires Heard(signals, turn) || signals(turn) ==> forall step <- more :: !step.Take?
    requires Signal in more ==> Heard(signals, turn) || signals(turn)
    requires StampedBy(before, u.stranded, clock, turn) && StampsKept(before, after, clock(turn))
    ensures Leads(s, steps + more, t, max) && Gathered(steps + more, signals, turn + 1)
    ensures StampedBy(after, t.stranded, clock, turn + 1)
    ensures Heard(signals, turn + 1) <==> Heard(signals, turn) || signals(turn)
  {
    LeadsOn(s, steps, u, more, t, max);
    StampsStay(before, after, t.stranded, clock, turn);
    TakesStop(steps, more);
    HeardNext(signals, turn);
  }

  lemma StartUnclaimed(rows: Table.Table, s: State, n: nat, clock: nat -> int, max: int)
    requires Inv(s, max) && s.proc.Working? && s.proc.pcs == Workers(n) && s.queue == Table.View(rows)
    ensures StampedBy(rows, s.stranded, clock, 0)
  {
    forall id | id in rows && rows[id].status == Claimed ensures id in s.stranded {
      assert s.queue[id].status == Claimed && !HeldBySome(s.proc.pcs, id);
    }
  }

  lemma SignalFirst(heard: seq<Step>, advanced: seq<Step>)
    requires forall step <- advanced :: IsWorkerStep(step)
    requires heard == [] || (heard == [Signal] && forall step <- advanced :: !step.Take?)
    ensures (forall step <- advanced :: !step.Take?) ==> forall step <- heard + advanced :: !step.Take?
    ensures NoTakeAfterSignal(heard + advanced) && (Signal in heard + advanced <==> heard != [])
  {
    forall i | 0 <= i < |advanced| ensures !advanced[i].Signal? {
      assert advanced[i] in advanced && IsWorkerStep(advanced[i]);
    }
    if heard == [] {
      assert heard + advanced == advanced;
    } else {
      var all := heard + advanced;
      assert all[0] == Signal && forall j :: 1 <= j < |all| ==> all[j] == advanced[j - 1];
      assert forall j :: 1 <= j < |all| ==> all[j] in advanced;
    }
  }

  lemma TurnLeads(s: State, heard: seq<Step>, u: State, advanced: seq<Step>, t: State, max: int)
    requires Leads(s, heard, u, max) && Leads(u, advanced, t, max) && Inv(s, max) && Inv(u, max)
    requires WorkLeft(u, max) == WorkLeft(s, max) && advanced != [] && forall step <- advanced :: IsWorkerStep(step)
    ensures Leads(s, heard + advanced, t, max) && Inv(t, max)
    ensures 0 <= WorkLeft(t, max) < WorkLeft(s, max)
  {
    RunLowersWork(u, advanced, max);
    WorkLeftBound(t, max);
    LeadsOn(s, heard, u, advanced, t, max);
  }

  /** One turn of the event loop: a signal may be heard, and some worker goes on. */
  method Turn(queue: Table.SqliteQueue, run: RunLog, pcs: seq<Pc>, stop: bool, results: Results, turn: nat,
              signalled: bool, now: int, ghost s: State)
    returns (stop': bool, pcs': seq<Pc>, ghost steps: seq<Step>, ghost t: State)
    requires Mirrors(queue.rows, run.Mem(), run.jsonl, pcs, stop, s) && Inv(s, queue.maxAttempts)
    requires AnswersFor(results, s.sampleOf) && !AllReturned(pcs)
    modifies queue, run
    ensures Leads(s, steps, t, queue.maxAttempts) && Inv(t, queue.maxAttempts)
    ensures WorkLeft(s, queue.maxAttempts) > WorkLeft(t, queue.maxAttempts) >= 0
    ensures Mirrors(queue.rows, run.Mem(), run.jsonl, pcs', stop', t)
    ensures stop' == (stop || signalled) && (stop' ==> forall step <- steps :: !step.Take?)
    ensures (Signal in steps ==> stop') && NoTakeAfterSignal(steps)
    ensures StampsKept(old(queue.rows), queue.rows, now)
  {
    InvGives(s, queue.maxAttempts);
    ghost var heard, advanced, u := [], [], s;
    stop', heard, u := Listen(queue.rows, signalled, stop, pcs, run.Mem(), run.jsonl, s, queue.maxAttempts);
    var w :| 0 <= w < |pcs| && !pcs[w].Returned?;
    var result := if pcs[w].Running? then results(turn, pcs[w].id) else None;
    var pc: Pc;
    pc, advanced, t := Advance(queue, run, w, pcs, stop', result, now, u);
    TurnLeads(s, heard, u, advanced, t, queue.maxAttempts);
    SignalFirst(heard, advanced);
    steps, pcs' := heard + advanced, pcs[w := pc];
  }

  /** Where the event loop is after so many turns: what it did is a run of the
      state machine, stopped exactly when a signal came, and every claim is stamped. */
  ghost predicate Going(rows: Table.Table, mem: Memory, jsonl: seq<Line>, pcs: seq<Pc>, stop: bool, turns: nat,
                        signals: nat -> bool, clock: nat -> int, max: int, s: State, steps: seq<Step>, t: State,
                        left: int) {
    && Leads(s, steps, t, max) && (forall id <- t.order :: id in t.queue) && left == WorkLeft(t, max) >= 0
    && Mirrors(rows, mem, jsonl, pcs, stop, t)
    && (stop <==> Heard(signals, turns)) && Gathered(steps, signals, turns)
    && StampedBy(rows, t.stranded, clock, turns)
  }

  lemma GoingStarts(rows: Table.Table, mem: Memory, jsonl: seq<Line>, n: nat, signals: nat -> bool,
                    clock: nat -> int, max: int, s: State)
    returns (left: int)
    requires Mirrors(rows, mem, jsonl, Workers(n), false, s) && Inv(s, max)
    ensures Going(rows, mem, jsonl, Workers(n), false, 0, signals, clock, max, s, [], s, left)
  {
    StartUnclaimed(rows, s, n, clock, max);
    InvGives(s, max);
    left := WorkLeft(s, max);
  }

  method NextTurn(queue: Table.SqliteQueue, run: RunLog, pcs: seq<Pc>, stop: bool, results: Results,
                  signals: nat -> bool, clock: nat -> int, turns: nat,
                  ghost s: State, ghost steps: seq<Step>, ghost t: State, ghost left: int)
    returns (stop': bool, pcs': seq<Pc>, ghost steps': seq<Step>, ghost t': State, ghost left': int)
    requires Going(queue.rows, run.Mem(), run.jsonl, pcs, stop, turns, signals, clock, queue.maxAttempts,
                   s, steps, t, left)
    requires Inv(s, queue.maxAttempts) && AnswersFor(results, s.sampleOf) && !AllReturned(pcs)
    modifies queue, run
    ensures Going(queue.rows, run.Mem(), run.jsonl, pcs', stop', turns + 1, signals, clock, queue.maxAttempts,
                  s, steps', t', left')
    ensures left' < left
  {
    RunKeepsInv(s, steps, queue.maxAttempts);
    ghost var more, before := [], queue.rows;
    stop', pcs', more, t' := Turn(queue, run, pcs, stop, results, turns, signals(turns), clock(turns), t);
    TurnExtends(s, steps, t, more, t', before, queue.rows, signals, clock, turns, queue.maxAttempts);
    steps', left' := steps + more, WorkLeft(t', queue.maxAttempts);
  }

  /** The turns, until every worker has returned or the process dies. */
  method EventLoop(queue: Table.SqliteQueue, run: RunLog, start: seq<Pc>, results: Results, signals: nat -> bool,
                   clock: nat -> int, crash: Option<nat>, ghost s: State, ghost most: int)
    returns (stop: bool, pcs: seq<Pc>, turns: nat, ghost steps: seq<Step>, ghost t: State, ghost left: int)
    requires Going(queue.rows, run.Mem(), run.jsonl, start, false, 0, signals, clock, queue.maxAttempts, s, [], s, most)
    requires Inv(s, queue.maxAttempts) && AnswersFor(results, s.sampleOf)
    modifies queue, run
    ensures Going(queue.rows, run.Mem(), run.jsonl, pcs, stop, turns, signals, clock, queue.maxAttempts,
                  s, steps, t, left)
    ensures (AllReturned(pcs) || crash == Some(turns)) && (crash.Some? ==> turns <= crash.value)
  {
    stop, pcs, turns, steps, t, left := false, start, 0, [], s, most;
    while !AllReturned(pcs) && crash != Some(turns)
      invariant Going(queue.rows, run.Mem(), run.jsonl, pcs, stop, turns, signals, clock, queue.maxAttempts,
                      s, steps, t, left)
      invariant crash.Some? ==> turns <= crash.value
      decreases left
    {
      stop, pcs, steps, t, left := NextTurn(queue, run, pcs, stop, results, signals, clock, turns, s, steps, t, left);
      turns := turns + 1;
    }
  }

  /** `asyncio.gather` over the workers: at every turn any worker that has not
      returned goes on to its next await, until all have returned or the process
      dies at the turn `crash`. Whatever the order, the outcomes and the signals,
      without a crash all return; unstopped, nothing is pending then. */
  method Gather(queue: Table.SqliteQueue, run: RunLog, n: nat, results: Results, signals: nat -> bool,
                clock: nat -> int, crash: Option<nat>, ghost s: State)
    returns (stop: bool, pcs: seq<Pc>, turns: nat, ghost steps: seq<Step>, ghost t: State)
    requires Mirrors(queue.rows, run.Mem(), run.jsonl, Workers(n), false, s) && Inv(s, queue.maxAttempts)
    requires AnswersFor(results, s.sampleOf)
    modifies queue, run
    ensures Leads(s, steps, t, queue.maxAttempts) && Inv(t, queue.maxAttempts)
    ensures Mirrors(queue.rows, run.Mem(), run.jsonl, pcs, stop, t)
    ensures (AllReturned(pcs) || crash == Some(turns)) && (crash.Some? ==> turns <= crash.value)
    ensures (stop <==> Heard(signals, turns)) && NoTakeAfterSignal(steps)
    ensures StampedBy(queue.rows, t.stranded, clock, turns)
  {
    ghost var left := GoingStarts(queue.rows, run.Mem(), run.jsonl, n, signals, clock, queue.maxAttempts, s);
    stop, pcs, turns, steps, t, left := EventLoop(queue, run, Workers(n), results, signals, clock, crash, s, left);
    RunKeepsInv(s, steps, queue.maxAttempts);
  }

  lemma ReturnedMeansDrained(rows: Table.Table, s: State, max: int)
    requires Inv(s, max) && s.proc.Working? && s.queue == Table.View(rows) && s.lost == {}
    requires AllReturned(s.proc.pcs) && !s.proc.stop
    ensures !Table.AnyPending(rows)
    ensures forall id <- rows :: rows[id].status in {Done, Dead} <==> id !in s.stranded
  {
    forall id | id in rows ensures rows[id].status in {Done, Dead} <==> id !in s.stranded {
      assert !Visible(s, id);
      assert !HeldBySome(s.proc.pcs, id);
      assert s.queue[id].status == rows[id].status;
    }
  }

  /** The drain loop of `execute`: it gathers again while something is pending,
      which it never finds. */
  method Drain(queue: Table.SqliteQueue, run: RunLog, n: nat, results: Results, signals: nat -> bool,
               clock: nat -> int, ghost s: State)
    returns (stop: bool, ghost steps: seq<Step>, ghost t: State)
    requires Mirrors(queue.rows, run.Mem(), run.jsonl, Workers(n), false, s) && Inv(s, queue.maxAttempts)
    requires AnswersFor(results, s.sampleOf)
    modifies queue, run
    ensures Leads(s, steps, t, queue.maxAttempts) && Inv(t, queue.maxAttempts)
    ensures t.proc.Working? && Mirrors(queue.rows, run.Mem(), run.jsonl, t.proc.pcs, stop, t)
    ensures AllReturned(t.proc.pcs)
    ensures !stop ==> forall id <- queue.rows :: queue.rows[id].status in {Done, Dead} <==> id !in t.stranded
  {
    steps, t, stop := [], s, false;
    var more := true;
    while more
      invariant more ==>
                  t == s && !stop && Mirrors(queue.rows, run.Mem(), run.jsonl, Workers(n), false, s)
      invariant !more ==>
                  && Leads(s, steps, t, queue.maxAttempts) && Inv(t, queue.maxAttempts)
                  && Mirrors(queue.rows, run.Mem(), run.jsonl, t.proc.pcs, stop, t) && AllReturned(t.proc.pcs)
                  && (!stop ==> forall id <- queue.rows ::
                        queue.rows[id].status in {Done, Dead} <==> id !in t.stranded)
      decreases more
    {
      var pcs: seq<Pc>;
      var turns: nat;
      stop, pcs, turns, steps, t := Gather(queue, run, n, results, signals, clock, None, s);
      if !stop {
        ReturnedMeansDrained(queue.rows, t, queue.maxAttempts);
      }
      more := !stop && Table.AnyPending(queue.rows);
    }
  }

  // --- a run from the start ---

  /** The items are among the first `n` ids, each with the row of its number. */
  ghost predicate Numbered(s: State, ids: seq<Id>, rows: seq<string>, n: nat)
    requires n <= |ids| && n <= |rows|
  {
    && s.queue.Keys == s.sampleOf.Keys
    && forall id <- s.sampleOf :: exists j :: 0 <= j < n && ids[j] == id && s.sampleOf[id] == rows[j]
  }

  lemma RowIsNumbered(s: State, ids: seq<Id>, rows: seq<string>, i: nat, max: int)
    requires i < |ids| == |rows| && Numbered(s, ids, rows, i) && s.rows == rows && s.at == i
    requires forall j, k :: 0 <= j < k < |ids| ==> ids[j] != ids[k]
    requires s.proc.Enqueuing? && rows[i] != ""
    ensures Enabled(s, EnqueueRow(ids[i])) && Numbered(Next(s, EnqueueRow(ids[i]), max), ids, rows, i + 1)
  {
    assert ids[i] !in s.sampleOf;
    var s' := Next(s, EnqueueRow(ids[i]), max);
    forall id | id in s'.sampleOf
      ensures exists j :: 0 <= j < i + 1 && ids[j] == id && s'.sampleOf[id] == rows[j]
    {
      if id in s.sampleOf {
        var j :| 0 <= j < i && ids[j] == id && s.sampleOf[id] == rows[j];
        assert s'.sampleOf[id] == rows[j];
      } else {
        assert ids[i] == id && s'.sampleOf[id] == rows[i];
      }
    }
  }

  /** The first `n` rows wait, each with its payload and its place in time. */
  ghost predicate RowsQueued(table: Table.Table, ids: seq<Id>, rows: seq<string>, clock: nat -> int, n: nat)
    requires n <= |ids| == |rows|
  {
    forall i :: 0 <= i < n ==>
      && ids[i] in table && table[ids[i]].status == Pending && table[ids[i]].attempts == 0
      && table[ids[i]].payload == rows[i] && table[ids[i]].createdAt == clock(i)
  }

  lemma NextRowQueued(before: Table.Table, after: Table.Table, ids: seq<Id>, rows: seq<string>, clock: nat -> int,
                      n: nat)
    requires n < |ids| == |rows| && RowsQueued(before, ids, rows, clock, n)
    requires forall i, j :: 0 <= i < j < |ids| ==> ids[i] != ids[j]
    requires forall id <- before :: id != ids[n] ==> id in after && after[id] == before[id]
    requires ids[n] in after && after[ids[n]].status == Pending && after[ids[n]].attempts == 0
    requires after[ids[n]].payload == rows[n] && after[ids[n]].createdAt == clock(n)
    ensures RowsQueued(after, ids, rows, clock, n + 1)
  {
    assert forall i :: 0 <= i < n ==> ids[i] != ids[n];
  }

  /** `_enqueue_all`: one item per row not completed, under fresh ids. */
  method EnqueueAll(queue: Table.SqliteQueue, run: RunLog, rows: seq<string>, ids: seq<Id>, clock: nat -> int)
    returns (ghost steps: seq<Step>, ghost t: State)
    requires queue.rows == map[] && run.Mem() == EMPTY && WellNamed(rows)
    requires |ids| == |rows| && forall i, j :: 0 <= i < j < |ids| ==> ids[i] != ids[j]
    modifies queue
    ensures IsRun(Start(rows), steps, queue.maxAttempts) && t == After(Start(rows), steps, queue.maxAttempts)
    ensures t.at == |rows| && t.rows == rows && t.proc == Enqueuing(EMPTY) && t.log == []
    ensures t.lost == {} && t.stranded == {} && t.queue == Table.View(queue.rows)
    ensures Numbered(t, ids, rows, |rows|)
    ensures RowsQueued(queue.rows, ids, rows, clock, |rows|)
  {
    steps, t := [], Start(rows);
    for i := 0 to |rows|
      invariant IsRun(Start(rows), steps, queue.maxAttempts) && t == After(Start(rows), steps, queue.maxAttempts)
      invariant t.at == i && t.rows == rows && t.proc == Enqueuing(run.Mem()) && t.log == []
      invariant t.lost == {} && t.stranded == {} && t.queue == Table.View(queue.rows)
      invariant Numbered(t, ids, rows, i)
      invariant RowsQueued(queue.rows, ids, rows, clock, i)
    {
      RowIsNumbered(t, ids, rows, i, queue.maxAttempts);
      RunExtends(Start(rows), steps, EnqueueRow(ids[i]), queue.maxAttempts);
      t := Next(t, EnqueueRow(ids[i]), queue.maxAttempts);
      steps := steps + [EnqueueRow(ids[i])];
      if rows[i] in run.completed {
        continue;
      }
      ghost var before := queue.rows;
      queue.Enqueue(ids[i], rows[i], clock(i));
      NextRowQueued(before, queue.rows, ids, rows, clock, i);
    }
  }

  lemma WorkersStart(rows: Table.Table, s: State, n: nat, max: int)
    requires Inv(s, max) && s.at == |s.rows| && s.proc == Enqueuing(EMPTY) && s.log == [] && s.lost == {} && n >= 1
    requires s.queue == Table.View(rows)
    ensures Enabled(s, StartWorkers(n)) && Inv(Next(s, StartWorkers(n), max), max)
    ensures Mirrors(rows, EMPTY, [], Workers(n), false, Next(s, StartWorkers(n), max))
  {
    StepKeepsInv(s, StartWorkers(n), max);
  }

  lemma NumberedAnswers(s: State, ids: seq<Id>, rows: seq<string>, results: Results)
    requires |ids| == |rows| && Numbered(s, ids, rows, |rows|)
    requires forall i, k :: 0 <= i < |ids| && results(k, ids[i]).Some? ==>
               results(k, ids[i]).value.row.sampleId == rows[i]
    ensures AnswersFor(results, s.sampleOf)
  {
    forall id, k | id in s.sampleOf && results(k, id).Some?
      ensures results(k, id).value.row.sampleId == s.sampleOf[id]
    {
      var j :| 0 <= j < |rows| && ids[j] == id && s.sampleOf[id] == rows[j];
    }
  }

  /** `execute` of a fresh run until its workers start. */
  method Launch(queue: Table.SqliteQueue, run: RunLog, rows: seq<string>, ids: seq<Id>, n: nat,
                ghost results: Results, clock: nat -> int)
    returns (ghost steps: seq<Step>, ghost s: State)
    requires queue.rows == map[] && run.Mem() == EMPTY && run.jsonl == [] && WellNamed(rows) && n >= 1
    requires |ids| == |rows| && forall i, j :: 0 <= i < j < |ids| ==> ids[i] != ids[j]
    requires forall i, k :: 0 <= i < |ids| && results(k, ids[i]).Some? ==>
               results(k, ids[i]).value.row.sampleId == rows[i]
    modifies queue
    ensures IsRun(Start(rows), steps, queue.maxAttempts) && s == After(Start(rows), steps, queue.maxAttempts)
    ensures Mirrors(queue.rows, run.Mem(), run.jsonl, Workers(n), false, s) && Inv(s, queue.maxAttempts)
    ensures AnswersFor(results, s.sampleOf) && s.at == |rows| && s.rows == rows && s.stranded == {}
    ensures RowsQueued(queue.rows, ids, rows, clock, |rows|)
  {
    ghost var u := Start(rows);
    steps, u := EnqueueAll(queue, run, rows, ids, clock);
    RunKeepsInv(Start(rows), steps, queue.maxAttempts);
    WorkersStart(queue.rows, u, n, queue.maxAttempts);
    RunExtends(Start(rows), steps, StartWorkers(n), queue.maxAttempts);
    NumberedAnswers(u, ids, rows, results);
    steps, s := steps + [StartWorkers(n)], Next(u, StartWorkers(n), queue.maxAttempts);
  }

  /** `execute` of a fresh run, up to `finalize`: a run of the state machine from
      its start, after which, unless stopped, every row has come to an end. */
  method Execute(queue: Table.SqliteQueue, run: RunLog, rows: seq<string>, ids: seq<Id>, n: nat, results: Results,
                 signals: nat -> bool, clock: nat -> int)
    returns (stop: bool, ghost steps: seq<Step>, ghost t: State)
    requires queue.rows == map[] && run.Mem() == EMPTY && run.jsonl == [] && WellNamed(rows) && n >= 1
    requires |ids| == |rows| && forall i, j :: 0 <= i < j < |ids| ==> ids[i] != ids[j]
    requires forall i, k :: 0 <= i < |ids| && results(k, ids[i]).Some? ==>
               results(k, ids[i]).value.row.sampleId == rows[i]
    modifies queue, run
    ensures IsRun(Start(rows), steps, queue.maxAttempts) && t == After(Start(rows), steps, queue.maxAttempts)
    ensures t.proc.Working? && Mirrors(queue.rows, run.Mem(), run.jsonl, t.proc.pcs, stop, t)
    ensures AllReturned(t.proc.pcs) && t.at == |rows|
    ensures !stop ==> forall id <- queue.rows :: queue.rows[id].status in {Done, Dead}
    ensures !stop ==> forall sample <- rows :: RunHistory.RowFinished(t, sample)
  {
    ghost var first, rest, u := [], [], Start(rows);
    first, u := Launch(queue, run, rows, ids, n, results, clock);
    stop, rest, t := Drain(queue, run, n, results, signals, clock, u);
    RunsCompose(Start(rows), first, rest, queue.maxAttempts);
    steps := first + rest;
    if !stop {
      DrainedFinishesRows(queue.rows, rows, steps, t, queue.maxAttempts);
    }
  }

  lemma DrainedFinishesRows(table: Table.Table, rows: seq<string>, steps: seq<Step>, t: State, max: int)
    requires WellNamed(rows) && IsRun(Start(rows), steps, max) && t == After(Start(rows), steps, max)
    requires t.at == |rows| && t.queue == Table.View(table)
    requires forall id <- table :: table[id].status in {Done, Dead}
    ensures forall sample <- rows :: RunHistory.RowFinished(t, sample)
  {
    RunKeepsInv(Start(rows), steps, max);
    RunHistory.NothingToldYet(rows, "");
    RunHistory.RunKeepsRows(Start(rows), steps, max);
    assert forall id <- t.queue :: t.queue[id].status == table[id].status;
    RunHistory.AllRowsFinish(t, max);
  }

  // --- resuming ---

  lemma FileLoads(log: seq<SampleLog.Row>)
    ensures Rows(Readable(FileOf(log))) == log && NotAnObject !in FileOf(log)
  {
    var jsonl := FileOf(log);
    FileReadsBack(log);
    ReadableStops(jsonl, |jsonl|);
    assert jsonl[..|jsonl|] == jsonl;
  }

  lemma ResumeMirrors(rows: Table.Table, rows': Table.Table, now: int, n: nat, s: State, max: int)
    requires s.proc.Down? && Inv(s, max) && s.lost == {} && s.queue == Table.View(rows) && n >= 1
    requires Table.View(rows') == Apply(Table.View(rows), Op.Reclaim(Table.StaleIds(rows, now)), max)
    ensures var step := Step.Resume(n, Table.StaleIds(rows, now));
            && Enabled(s, step) && Inv(Next(s, step, max), max)
            && Mirrors(rows', LoadRows(EMPTY, s.log), FileOf(s.log), Workers(n), false, Next(s, step, max))
  {
    StepKeepsInv(s, Step.Resume(n, Table.StaleIds(rows, now)), max);
  }

  /** The start of a resumed process: it reads the file back and reclaims every
      claim stamped before the clock reading. */
  method Resume(queue: Table.SqliteQueue, run: RunLog, now: int, ghost log: seq<SampleLog.Row>) returns (ok: bool)
    requires run.Mem() == EMPTY && run.jsonl == FileOf(log)
    modifies queue, run
    ensures ok && run.Mem() == LoadRows(EMPTY, log) && run.jsonl == FileOf(log)
    ensures Table.View(queue.rows) ==
            Apply(Table.View(old(queue.rows)), Op.Reclaim(Table.StaleIds(old(queue.rows), now)), queue.maxAttempts)
  {
    FileLoads(log);
    ok := run.LoadCompleted();
    var reclaimed := queue.ReclaimStale(0, now);
  }

  /** A claim the resume does not reclaim. */
  predicate Skipped(rows: Table.Table, id: Id, now: int) {
    id in rows && rows[id].status == Claimed && !Table.Stale(rows[id], now)
  }

  lemma OnlySkippedStayClaimed(before: Table.Table, after: Table.Table, now: int, s: State, t: State, max: int)
    requires s.queue == Table.View(before) && t.queue == Table.View(after) && Inv(t, max)
    requires t.stranded == (set id | id in s.queue && s.queue[id].status == Claimed) - Table.StaleIds(before, now)
    requires forall id <- after :: after[id].status in {Done, Dead} <==> id !in t.stranded
    ensures forall id <- after :: after[id].status in {Done, Dead, Claimed} &&
                                  (after[id].status == Claimed <==> Skipped(before, id, now))
  {
    forall id | id in after ensures id in t.stranded <==> Skipped(before, id, now) {
      assert id in before ==> s.queue[id].status == before[id].status;
    }
    assert forall id <- t.stranded :: t.queue[id].status == Claimed && after[id].status == Claimed;
  }

  /** `execute` of a resumed run, from any state a crash left: unless stopped,
      every item ends done, with its line in the file, or dead, but for exactly
      the claims not stamped before the clock reading, which stay claimed. */
  method ResumeAndDrain(queue: Table.SqliteQueue, run: RunLog, n: nat, results: Results, signals: nat -> bool,
                        now: int, clock: nat -> int, ghost s: State)
    returns (ok: bool, stop: bool, ghost steps: seq<Step>, ghost t: State)
    requires s.proc.Down? && Inv(s, queue.maxAttempts) && s.lost == {} && n >= 1
    requires s.queue == Table.View(queue.rows) && run.Mem() == EMPTY && run.jsonl == FileOf(s.log)
    requires AnswersFor(results, s.sampleOf)
    modifies queue, run
    ensures IsRun(s, steps, queue.maxAttempts) && t == After(s, steps, queue.maxAttempts)
    ensures ok && Inv(t, queue.maxAttempts) && t.proc.Working? && AllReturned(t.proc.pcs)
    ensures Mirrors(queue.rows, run.Mem(), run.jsonl, t.proc.pcs, stop, t) && t.sampleOf == s.sampleOf
    ensures !stop ==> forall id <- queue.rows ::
              && queue.rows[id].status in {Done, Dead, Claimed}
              && (queue.rows[id].status == Claimed <==> Skipped(old(queue.rows), id, now))
  {
    ghost var stale := Table.StaleIds(queue.rows, now);
    ok := Resume(queue, run, now, s.log);
    ResumeMirrors(old(queue.rows), queue.rows, now, n, s, queue.maxAttempts);
    ghost var u := Next(s, Step.Resume(n, stale), queue.maxAttempts);
    ghost var rest: seq<Step>;
    stop, rest, t := Drain(queue, run, n, results, signals, clock, u);
    steps := [Step.Resume(n, stale)] + rest;
    RunFirst(s, Step.Resume(n, stale), rest, queue.maxAttempts);
    if !stop {
      OnlySkippedStayClaimed(old(queue.rows), queue.rows, now, s, t, queue.maxAttempts);
    }
  }

  // --- a process that dies and is resumed ---

  lemma CrashMirrors(rows: Table.Table, pcs: seq<Pc>, stop: bool, s: State, max: int)
    requires s.proc.Working? && Mirrors(rows, s.proc.mem, FileOf(s.log), pcs, stop, s) && Inv(s, max)
    requires s.stranded == {}
    ensures Enabled(s, Crash)
    ensures var t := Next(s, Crash, max);
            && t.proc.Down? && Inv(t, max) && t.queue == Table.View(rows) && t.log == s.log
            && t.lost == {} && t.stranded == {} && t.at == s.at && t.rows == s.rows && t.sampleOf == s.sampleOf
  {
    StepKeepsInv(s, Crash, max);
    assert forall id :: !PoppedBySome(pcs, id);
  }

  /** A fresh run whose process dies at the turn `crash` of its workers: every
      claim it leaves in the table carries the clock reading of an earlier turn. */
  method ExecuteUntilCrash(queue: Table.SqliteQueue, run: RunLog, rows: seq<string>, ids: seq<Id>, n: nat,
                           results: Results, signals: nat -> bool, clock: nat -> int, crash: nat)
    returns (ghost steps: seq<Step>, ghost t: State)
    requires queue.rows == map[] && run.Mem() == EMPTY && run.jsonl == [] && WellNamed(rows) && n >= 1
    requires |ids| == |rows| && forall i, j :: 0 <= i < j < |ids| ==> ids[i] != ids[j]
    requires forall i, k :: 0 <= i < |ids| && results(k, ids[i]).Some? ==>
               results(k, ids[i]).value.row.sampleId == rows[i]
    modifies queue, run
    ensures IsRun(Start(rows), steps, queue.maxAttempts) && t == After(Start(rows), steps, queue.maxAttempts)
    ensures t.proc.Down? && t.queue == Table.View(queue.rows) && run.jsonl == FileOf(t.log)
    ensures t.lost == {} && t.stranded == {} && t.at == |rows| && AnswersFor(results, t.sampleOf)
    ensures forall id <- queue.rows :: queue.rows[id].status == Claimed ==>
              exists k: nat :: k < crash && queue.rows[id].claimedAt == Some(clock(k))
  {
    ghost var first, rest, u, v := [], [], Start(rows), Start(rows);
    first, u := Launch(queue, run, rows, ids, n, results, clock);
    var stop, pcs, turns;
    stop, pcs, turns, rest, v := Gather(queue, run, n, results, signals, clock, Some(crash), u);
    RunsCompose(Start(rows), first, rest, queue.maxAttempts);
    CrashMirrors(queue.rows, pcs, stop, v, queue.maxAttempts);
    RunExtends(Start(rows), first + rest, Crash, queue.maxAttempts);
    steps, t := first + rest + [Crash], Next(v, Crash, queue.maxAttempts);
  }

  /** The process dies at any turn and is resumed. If the resume's clock reading
      is later than every reading a claim can carry, then, unless stopped, every
      row of the input comes to an end. */
  method CrashAndResume(queue: Table.SqliteQueue, run: RunLog, rows: seq<string>, ids: seq<Id>, n: nat,
                        results: Results, signals: nat -> bool, clock: nat -> int, crash: nat,
                        now: int, laterSignals: nat -> bool, laterClock: nat -> int)
    returns (stop: bool, ghost steps: seq<Step>, ghost t: State)
    requires queue.rows == map[] && run.Mem() == EMPTY && run.jsonl == [] && WellNamed(rows) && n >= 1
    requires |ids| == |rows| && forall i, j :: 0 <= i < j < |ids| ==> ids[i] != ids[j]
    requires forall i, k :: 0 <= i < |ids| && results(k, ids[i]).Some? ==>
               results(k, ids[i]).value.row.sampleId == rows[i]
    requires forall k: nat :: k < crash ==> clock(k) < now
    modifies queue, run
    ensures IsRun(Start(rows), steps, queue.maxAttempts) && t == After(Start(rows), steps, queue.maxAttempts)
    ensures t.proc.Working? && AllReturned(t.proc.pcs) && t.queue == Table.View(queue.rows)
    ensures !stop ==> forall id <- queue.rows :: queue.rows[id].status in {Done, Dead}
    ensures !stop ==> forall sample <- rows :: RunHistory.RowFinished(t, sample)
  {
    ghost var first, rest, u := [], [], Start(rows);
    first, u := ExecuteUntilCrash(queue, run, rows, ids, n, results, signals, clock, crash);
    var again := new RunLog(run.jsonl);
    var ok;
    RunKeepsInv(Start(rows), first, queue.maxAttempts);
    ghost var before := queue.rows;
    ok, stop, rest, t := ResumeAndDrain(queue, again, n, results, laterSignals, now, laterClock, u);
    RunsCompose(Start(rows), first, rest, queue.maxAttempts);
    NoRowsAfterEnqueuing(u, rest, queue.maxAttempts);
    steps := first + rest;
    if !stop {
      assert forall id :: !Skipped(before, id, now);
      DrainedFinishesRows(queue.rows, rows, steps, t, queue.maxAttempts);
    }
  }
}
