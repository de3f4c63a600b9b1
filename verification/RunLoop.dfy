/** The embedded run: one process enqueues the rows, N workers interleave
    dequeue, run, record and settle, the process may be stopped or crash
    between any two steps, and a resumed process reads the file back and
    reclaims the claims it finds. */
module RunLoop {
  import opened Wrappers
  import opened TaskQueue
  import opened SampleLog

  /** What `_run_one` returned: the line to record, and whether `status` is done. */
  datatype Outcome = Outcome(row: Row, done: bool)

  predicate Acks(out: Outcome) { Passed(out.row) || out.done }

  /** Where a worker stands in its loop. With SQLite, `Popped` and `Running`
      are one step; with Redis a crash can fall between them. */
  datatype Pc =
    | Ready
    | Popped(id: Id)
    | Running(id: Id)
    | Ran(id: Id, out: Outcome)
    | Recorded(id: Id, out: Outcome)
    | Raised(id: Id)
    | Returned

  datatype Proc =
    | Down
    | Enqueuing(mem: Memory)
    | Working(mem: Memory, stop: bool, pcs: seq<Pc>)

  /** `rows` are the sample ids of the input and `at` how many of them have been
      looked at. The queue and the file survive a crash, the process does not.
      `lost` are the items a dead process had popped but not stamped; `stranded`
      are the claims the last resume did not reclaim. */
  datatype State = State(
    rows: seq<string>, at: nat,
    queue: Queue, sampleOf: map<Id, string>, order: seq<Id>, log: seq<Row>, proc: Proc,
    lost: set<Id>, stranded: set<Id>)

  datatype Step =
    | EnqueueRow(id: Id)
    | StartWorkers(n: nat)
    | Take(w: nat, id: Id)
    | Stamp(w: nat)
    | Finish(w: nat, out: Outcome)
    | Raise(w: nat)
    | Record(w: nat)
    | Settle(w: nat)
    | GiveBack(w: nat)
    | Return(w: nat)
    | Signal
    | Crash
    | Resume(n: nat, stale: set<Id>)

  /** Sample ids are made of the run id and the row number. */
  ghost predicate WellNamed(rows: seq<string>) {
    && (forall i :: 0 <= i < |rows| ==> rows[i] != "")
    && (forall i, j :: 0 <= i < j < |rows| ==> rows[i] != rows[j])
  }

  function Start(rows: seq<string>): State {
    State(rows, 0, map[], map[], [], [], Enqueuing(EMPTY), {}, {})
  }

  predicate IsPopped(pc: Pc, id: Id) { pc.Popped? && pc.id == id }

  /** The worker is running or settling the item. */
  predicate Holds(pc: Pc, id: Id) {
    (pc.Running? || pc.Ran? || pc.Recorded? || pc.Raised?) && pc.id == id
  }

  function ItemOf(pc: Pc): Option<Id> {
    match pc
    case Popped(id) => Some(id)
    case Running(id) => Some(id)
    case Ran(id, _) => Some(id)
    case Recorded(id, _) => Some(id)
    case Raised(id) => Some(id)
    case _ => None
  }

  predicate PoppedBySome(pcs: seq<Pc>, id: Id) {
    exists w :: 0 <= w < |pcs| && IsPopped(pcs[w], id)
  }

  predicate HeldBySome(pcs: seq<Pc>, id: Id) {
    exists w :: 0 <= w < |pcs| && Holds(pcs[w], id)
  }

  predicate AllReturned(pcs: seq<Pc>) { forall w :: 0 <= w < |pcs| ==> pcs[w].Returned? }

  /** What a dequeue can return, and what `counts()["pending"]` counts. */
  predicate Visible(s: State, id: Id) {
    && id in s.queue && s.queue[id].status == Pending && id !in s.lost
    && (s.proc.Working? ==> !PoppedBySome(s.proc.pcs, id))
  }

  predicate IsWorkerStep(step: Step) {
    step.Take? || step.Stamp? || step.Finish? || step.Raise? || step.Record? ||
    step.Settle? || step.GiveBack? || step.Return?
  }

  ghost predicate Enabled(s: State, step: Step) {
    if IsWorkerStep(step) then
      s.proc.Working? && step.w < |s.proc.pcs| &&
      var pc := s.proc.pcs[step.w];
      match step
      case Take(_, id) => pc.Ready? && Visible(s, id)
      case Stamp(_) => pc.Popped?
      case Finish(_, out) => pc.Running? && pc.id in s.sampleOf && out.row.sampleId == s.sampleOf[pc.id]
      case Raise(_) => pc.Running?
      case Record(_) => pc.Ran?
      case Settle(_) => pc.Recorded?
      case GiveBack(_) => pc.Raised?
      case _ => pc.Ready? && (s.proc.stop || forall id :: !Visible(s, id))
    else
      match step
      case EnqueueRow(id) => s.proc.Enqueuing? && s.at < |s.rows| && s.rows[s.at] != "" && id !in s.queue
      case StartWorkers(n) => s.proc.Enqueuing? && s.at == |s.rows| && n >= 1
      case Signal => s.proc.Working?
      case Crash => !s.proc.Down?
      case Resume(n, stale) =>
        && s.proc.Down? && n >= 1
        && forall id <- stale :: id in s.queue && s.queue[id].status == Claimed
      case _ => false
  }

  function Workers(n: nat): seq<Pc> { seq(n, _ => Ready) }

  function WithPc(s: State, w: nat, pc: Pc): State
    requires s.proc.Working? && w < |s.proc.pcs|
  {
    s.(proc := s.proc.(pcs := s.proc.pcs[w := pc]))
  }

  /** `_record_result`: the first result of a sample is counted and written. */
  function RecordStep(s: State, w: nat, id: Id, out: Outcome): State
    requires s.proc.Working? && w < |s.proc.pcs|
  {
    var s' := WithPc(s, w, Recorded(id, out));
    if out.row.sampleId in s.proc.mem.completed then s'
    else s'.(log := s.log + [out.row], proc := s'.proc.(mem := Tally(s.proc.mem, out.row)))
  }

  ghost function Next(s: State, step: Step, max: int): State
    requires Enabled(s, step)
  {
    match step
    case EnqueueRow(id) =>
      var sample := s.rows[s.at];
      if sample in s.proc.mem.completed then s.(at := s.at + 1)
      else s.(at := s.at + 1, queue := Apply(s.queue, Op.Enqueue(id), max),
              sampleOf := s.sampleOf[id := sample], order := s.order + [id])
    case StartWorkers(n) => s.(proc := Working(s.proc.mem, false, Workers(n)))
    case Take(w, id) => WithPc(s, w, Popped(id))
    case Stamp(w) =>
      WithPc(s, w, Running(s.proc.pcs[w].id)).(queue := Apply(s.queue, Op.Claim(s.proc.pcs[w].id), max))
    case Finish(w, out) => WithPc(s, w, Ran(s.proc.pcs[w].id, out))
    case Raise(w) => WithPc(s, w, Raised(s.proc.pcs[w].id))
    case Record(w) => RecordStep(s, w, s.proc.pcs[w].id, s.proc.pcs[w].out)
    case Settle(w) =>
      var pc := s.proc.pcs[w];
      WithPc(s, w, Ready).(queue :=
        Apply(s.queue, if Acks(pc.out) then Op.Ack(pc.id) else Op.Nack(pc.id), max))
    case GiveBack(w) => WithPc(s, w, Ready).(queue := Apply(s.queue, Op.Nack(s.proc.pcs[w].id), max))
    case Return(w) => WithPc(s, w, Returned)
    case Signal => s.(proc := s.proc.(stop := true))
    case Crash =>
      s.(proc := Down, stranded := {},
         lost := s.lost + (set id | id in s.queue && s.proc.Working? && PoppedBySome(s.proc.pcs, id)))
    case Resume(n, stale) =>
      s.(queue := Apply(s.queue, Op.Reclaim(stale), max),
         proc := Working(LoadRows(EMPTY, s.log), false, Workers(n)),
         stranded := (set id | id in s.queue && s.queue[id].status == Claimed) - stale)
  }

  ghost predicate IsRun(s: State, steps: seq<Step>, max: int)
    decreases |steps|
  {
    steps == [] || (Enabled(s, steps[0]) && IsRun(Next(s, steps[0], max), steps[1..], max))
  }

  ghost function After(s: State, steps: seq<Step>, max: int): State
    requires IsRun(s, steps, max)
    decreases |steps|
  {
    if steps == [] then s else After(Next(s, steps[0], max), steps[1..], max)
  }

  // --- the invariant ---

  ghost predicate QueueInv(s: State, max: int) {
    && Lists(s.order, s.queue) && Bounded(s.queue, max)
    && (forall id <- s.queue :: id in s.sampleOf && s.sampleOf[id] != "")
    && (forall id <- s.lost :: id in s.queue && s.queue[id].status == Pending)
    && (forall id <- s.stranded :: id in s.queue && s.queue[id].status == Claimed)
  }

  /** At most one line per sample, and a line for every item marked done. */
  ghost predicate LogInv(s: State) {
    && OneLineEach(s.log)
    && forall id <- s.queue :: s.queue[id].status == Done ==>
         id in s.sampleOf && Mentions(s.log, s.sampleOf[id])
  }

  ghost predicate PcInv(s: State, pc: Pc)
    requires s.proc.Working?
  {
    match pc
    case Popped(id) => id in s.queue && s.queue[id].status == Pending && id !in s.lost
    case Running(id) => id in s.queue && s.queue[id].status == Claimed && id !in s.stranded
    case Ran(id, out) =>
      && id in s.queue && s.queue[id].status == Claimed && id !in s.stranded
      && id in s.sampleOf && out.row.sampleId == s.sampleOf[id]
    case Recorded(id, out) =>
      && id in s.queue && s.queue[id].status == Claimed && id !in s.stranded
      && id in s.sampleOf && s.sampleOf[id] in s.proc.mem.completed
    case Raised(id) => id in s.queue && s.queue[id].status == Claimed && id !in s.stranded
    case _ => true
  }

  /** No item is in the hands of two workers. */
  ghost predicate Exclusive(pcs: seq<Pc>) {
    forall w, v :: 0 <= w < v < |pcs| && ItemOf(pcs[w]).Some? ==> ItemOf(pcs[w]) != ItemOf(pcs[v])
  }

  ghost predicate WorkInv(s: State)
    requires s.proc.Working?
  {
    var pcs := s.proc.pcs;
    && |pcs| >= 1 && Exclusive(pcs)
    && (forall w :: 0 <= w < |pcs| ==> PcInv(s, pcs[w]))
    && (forall id <- s.queue :: s.queue[id].status == Claimed ==>
          id in s.stranded || HeldBySome(pcs, id))
    && (AllReturned(pcs) && !s.proc.stop ==> forall id :: !Visible(s, id))
  }

  ghost predicate Inv(s: State, max: int) {
    && QueueInv(s, max) && LogInv(s)
    && (!s.proc.Down? ==> s.proc.mem == LoadRows(EMPTY, s.log))
    && (s.proc.Enqueuing? ==> forall id <- s.queue :: s.queue[id].status == Pending)
    && (s.proc.Working? ==> WorkInv(s))
  }

  // --- every step keeps it ---

  /** A step of worker `w` touches at most the item it has in hand. */
  ghost predicate Local(s: State, s': State, w: nat)
    requires s.proc.Working? && w < |s.proc.pcs|
  {
    var pcs := s.proc.pcs;
    && s'.proc.Working? && |s'.proc.pcs| == |pcs| && s'.proc.stop == s.proc.stop
    && s'.proc.pcs == pcs[w := s'.proc.pcs[w]]
    && s'.lost == s.lost && s'.stranded == s.stranded && s'.sampleOf == s.sampleOf
    && s'.order == s.order && s'.queue.Keys == s.queue.Keys
    && s.proc.mem.completed <= s'.proc.mem.completed
    && (ItemOf(pcs[w]).Some? ==>
          ItemOf(s'.proc.pcs[w]) == ItemOf(pcs[w]) || ItemOf(s'.proc.pcs[w]).None?)
    && (forall id <- s.queue :: Some(id) != ItemOf(pcs[w]) ==> s'.queue[id] == s.queue[id])
  }

  lemma LocalKeepsOthers(s: State, s': State, w: nat, v: nat)
    requires s.proc.Working? && WorkInv(s) && w < |s.proc.pcs| && Local(s, s', w)
    requires v < |s.proc.pcs| && v != w
    ensures PcInv(s', s'.proc.pcs[v])
  {
    assert s'.proc.pcs[v] == s.proc.pcs[v];
    assert PcInv(s, s.proc.pcs[v]);
    if ItemOf(s.proc.pcs[v]).Some? {
      assert ItemOf(s.proc.pcs[v]) != ItemOf(s.proc.pcs[w]);
    }
  }

  lemma LocalKeepsWorkInv(s: State, s': State, w: nat)
    requires s.proc.Working? && WorkInv(s) && w < |s.proc.pcs| && Local(s, s', w)
    requires PcInv(s', s'.proc.pcs[w])
    requires ItemOf(s.proc.pcs[w]).None? && ItemOf(s'.proc.pcs[w]).Some? ==>
               forall v :: 0 <= v < |s.proc.pcs| ==> ItemOf(s.proc.pcs[v]) != ItemOf(s'.proc.pcs[w])
    requires forall id <- s'.queue :: Some(id) == ItemOf(s.proc.pcs[w]) && s'.queue[id].status == Claimed ==>
               id in s.stranded || Holds(s'.proc.pcs[w], id)
    requires s'.proc.pcs[w].Returned? && !s.proc.stop ==> forall id :: !Visible(s', id)
    ensures WorkInv(s')
  {
    var pcs, pcs' := s.proc.pcs, s'.proc.pcs;
    forall v | 0 <= v < |pcs'| ensures PcInv(s', pcs'[v]) {
      if v != w {
        LocalKeepsOthers(s, s', w, v);
      }
    }
    forall id | id in s'.queue && s'.queue[id].status == Claimed
      ensures id in s'.stranded || HeldBySome(pcs', id)
    {
      if Some(id) == ItemOf(pcs[w]) {
        assert id in s.stranded || Holds(pcs'[w], id);
      } else if id !in s.stranded {
        var v :| 0 <= v < |pcs| && Holds(pcs[v], id);
        assert Holds(pcs'[v], id);
      }
    }
  }

  lemma VisibleIsInNoHand(s: State, id: Id)
    requires s.proc.Working? && WorkInv(s) && Visible(s, id)
    ensures forall v :: 0 <= v < |s.proc.pcs| ==> ItemOf(s.proc.pcs[v]) != Some(id)
  {
    forall v | 0 <= v < |s.proc.pcs| ensures ItemOf(s.proc.pcs[v]) != Some(id) {
      assert PcInv(s, s.proc.pcs[v]);
      assert !IsPopped(s.proc.pcs[v], id);
    }
  }

  lemma {:induction false} LinesStayMentioned(log: seq<Row>, row: Row, sample: string)
    ensures Mentions(log, sample) ==> Mentions(log + [row], sample)
  {
    MentionsMore(log, row, sample);
  }

  /** Steps that leave queue and file alone. */
  lemma QuietStepKeepsInv(s: State, step: Step, max: int)
    requires Inv(s, max) && Enabled(s, step)
    requires step.Take? || step.Finish? || step.Raise? || step.Return?
    ensures Inv(Next(s, step, max), max)
  {
    var s', w := Next(s, step, max), step.w;
    assert PcInv(s, s.proc.pcs[w]);
    if step.Take? {
      VisibleIsInNoHand(s, step.id);
    }
    if step.Return? {
      forall id ensures Visible(s', id) ==> Visible(s, id) {
        if s.proc.Working? && PoppedBySome(s.proc.pcs, id) {
          var v :| 0 <= v < |s.proc.pcs| && IsPopped(s.proc.pcs[v], id);
          assert IsPopped(s'.proc.pcs[v], id);
        }
      }
    }
    LocalKeepsWorkInv(s, s', w);
  }

  lemma NewLineKeepsLogInv(s: State, s': State, row: Row)
    requires LogInv(s) && row.sampleId != "" && !Mentions(s.log, row.sampleId)
    requires s'.queue == s.queue && s'.sampleOf == s.sampleOf && s'.log == s.log + [row]
    ensures LogInv(s')
  {
    forall id | id in s.queue && s.queue[id].status == Done
      ensures id in s.sampleOf && Mentions(s'.log, s.sampleOf[id])
    {
      LinesStayMentioned(s.log, row, s.sampleOf[id]);
    }
  }

  lemma RecordKeepsLog(s: State, w: nat, max: int)
    requires Inv(s, max) && Enabled(s, Step.Record(w))
    ensures var s' := Next(s, Step.Record(w), max);
            && LogInv(s') && s'.proc.Working? && s'.proc.mem == LoadRows(EMPTY, s'.log)
            && s.proc.pcs[w].out.row.sampleId in s'.proc.mem.completed
  {
    var s', row := Next(s, Step.Record(w), max), s.proc.pcs[w].out.row;
    assert PcInv(s, s.proc.pcs[w]);
    CompletedAreMentioned(s.log, row.sampleId);
    if row.sampleId !in s.proc.mem.completed {
      NewLineKeepsLogInv(s, s', row);
      assert s'.log[..|s.log|] == s.log;
    }
  }

  lemma RecordKeepsHands(s: State, w: nat, max: int)
    requires Inv(s, max) && Enabled(s, Step.Record(w))
    ensures Next(s, Step.Record(w), max).proc.Working? && WorkInv(Next(s, Step.Record(w), max))
  {
    var s', pc := Next(s, Step.Record(w), max), s.proc.pcs[w];
    assert PcInv(s, pc);
    assert s'.proc.pcs[w] == Recorded(pc.id, pc.out);
    RecordKeepsLog(s, w, max);
    LocalKeepsWorkInv(s, s', w);
  }

  lemma RecordKeepsInv(s: State, w: nat, max: int)
    requires Inv(s, max) && Enabled(s, Step.Record(w))
    ensures Inv(Next(s, Step.Record(w), max), max)
  {
    RecordKeepsLog(s, w, max);
    RecordKeepsHands(s, w, max);
  }

  lemma OneItemKeepsQueueInv(s: State, s': State, id: Id, e: Entry, max: int)
    requires QueueInv(s, max) && LogInv(s)
    requires id in s.queue && id !in s.lost && id !in s.stranded
    requires s'.queue == s.queue[id := e] && Bounded(s'.queue, max)
    requires s'.order == s.order && s'.sampleOf == s.sampleOf && s'.log == s.log
    requires s'.lost == s.lost && s'.stranded == s.stranded
    requires e.status == Done ==> Mentions(s.log, s.sampleOf[id])
    ensures QueueInv(s', max) && LogInv(s')
  {
    assert s'.queue.Keys == s.queue.Keys;
  }

  predicate IsQueueStep(step: Step) { step.Stamp? || step.Settle? || step.GiveBack? }

  ghost function QueueOp(s: State, step: Step): Op
    requires Enabled(s, step) && IsQueueStep(step)
  {
    var pc := s.proc.pcs[step.w];
    if step.Stamp? then Op.Claim(pc.id)
    else if step.Settle? && Acks(pc.out) then Op.Ack(pc.id) else Op.Nack(pc.id)
  }

  /** Steps that claim or settle the item in hand are one legal queue operation. */
  lemma QueueStepApplies(s: State, step: Step, max: int)
    requires Inv(s, max) && Enabled(s, step) && IsQueueStep(step)
    ensures var s', w, op := Next(s, step, max), step.w, QueueOp(s, step);
            && Legal(s.queue, op) && IsWork(op) && Some(op.id) == ItemOf(s.proc.pcs[w])
            && op.id !in s.lost && op.id !in s.stranded
            && s' == s.(queue := Apply(s.queue, op, max), proc := s'.proc)
            && s'.proc == s.proc.(pcs := s.proc.pcs[w := if step.Stamp? then Running(op.id) else Ready])
  {
    assert PcInv(s, s.proc.pcs[step.w]);
  }

  lemma QueueStepKeepsData(s: State, step: Step, max: int)
    requires Inv(s, max) && Enabled(s, step) && IsQueueStep(step)
    ensures QueueInv(Next(s, step, max), max) && LogInv(Next(s, step, max))
  {
    var s', op := Next(s, step, max), QueueOp(s, step);
    QueueStepApplies(s, step, max);
    assert PcInv(s, s.proc.pcs[step.w]);
    ApplyKeepsBounded(s.queue, op, max);
    if op.Ack? {
      CompletedAreMentioned(s.log, s.sampleOf[op.id]);
    }
    OneItemKeepsQueueInv(s, s', op.id, s'.queue[op.id], max);
  }

  lemma QueueStepKeepsHands(s: State, step: Step, max: int)
    requires Inv(s, max) && Enabled(s, step) && IsQueueStep(step)
    ensures Next(s, step, max).proc.Working? && WorkInv(Next(s, step, max))
  {
    QueueStepApplies(s, step, max);
    LocalKeepsWorkInv(s, Next(s, step, max), step.w);
  }

  lemma QueueStepKeepsInv(s: State, step: Step, max: int)
    requires Inv(s, max) && Enabled(s, step) && IsQueueStep(step)
    ensures Inv(Next(s, step, max), max)
  {
    QueueStepKeepsData(s, step, max);
    QueueStepKeepsHands(s, step, max);
    QueueStepApplies(s, step, max);
  }

  lemma NewItemKeepsQueueInv(s: State, s': State, id: Id, sample: string, max: int)
    requires QueueInv(s, max) && id !in s.queue && sample != ""
    requires s'.queue == Apply(s.queue, Op.Enqueue(id), max) && s'.sampleOf == s.sampleOf[id := sample]
    requires s'.order == s.order + [id] && s'.lost == s.lost && s'.stranded == s.stranded
    ensures QueueInv(s', max)
  {
    ApplyKeepsBounded(s.queue, Op.Enqueue(id), max);
    assert s'.queue.Keys == s.queue.Keys + {id};
  }

  lemma EnqueueKeepsInv(s: State, step: Step, max: int)
    requires Inv(s, max) && Enabled(s, step) && step.EnqueueRow?
    ensures Inv(Next(s, step, max), max)
  {
    if s.rows[s.at] !in s.proc.mem.completed {
      NewItemKeepsQueueInv(s, Next(s, step, max), step.id, s.rows[s.at], max);
    }
  }

  lemma StartKeepsInv(s: State, step: Step, max: int)
    requires Inv(s, max) && Enabled(s, step) && step.StartWorkers?
    ensures Inv(Next(s, step, max), max)
  {
    assert Next(s, step, max).proc.pcs[0] == Ready;
  }

  lemma CrashKeepsInv(s: State, max: int)
    requires Inv(s, max) && Enabled(s, Crash)
    ensures Inv(Next(s, Crash, max), max)
  {
    forall id | id in Next(s, Crash, max).lost ensures id in s.queue && s.queue[id].status == Pending {
      if id !in s.lost {
        var v :| 0 <= v < |s.proc.pcs| && IsPopped(s.proc.pcs[v], id);
        assert PcInv(s, s.proc.pcs[v]);
      }
    }
  }

  lemma ResumeKeepsInv(s: State, step: Step, max: int)
    requires Inv(s, max) && Enabled(s, step) && step.Resume?
    ensures Inv(Next(s, step, max), max)
  {
    ApplyKeepsBounded(s.queue, Op.Reclaim(step.stale), max);
    assert Next(s, step, max).proc.pcs[0] == Ready;
  }

  lemma SignalKeepsInv(s: State, max: int)
    requires Inv(s, max) && Enabled(s, Signal)
    ensures Inv(Next(s, Signal, max), max)
  {
    var s' := Next(s, Signal, max);
    forall v | 0 <= v < |s.proc.pcs| ensures PcInv(s', s'.proc.pcs[v]) {
      assert PcInv(s, s.proc.pcs[v]);
    }
  }

  lemma StepKeepsInv(s: State, step: Step, max: int)
    requires Inv(s, max) && Enabled(s, step)
    ensures Inv(Next(s, step, max), max)
  {
    match step
    case EnqueueRow(_) => EnqueueKeepsInv(s, step, max);
    case StartWorkers(_) => StartKeepsInv(s, step, max);
    case Record(w) => RecordKeepsInv(s, w, max);
    case Stamp(_) => QueueStepKeepsInv(s, step, max);
    case Settle(_) => QueueStepKeepsInv(s, step, max);
    case GiveBack(_) => QueueStepKeepsInv(s, step, max);
    case Signal => SignalKeepsInv(s, max);
    case Crash => CrashKeepsInv(s, max);
    case Resume(_, _) => ResumeKeepsInv(s, step, max);
    case _ => QuietStepKeepsInv(s, step, max);
  }

  lemma {:induction false} RunKeepsInv(s: State, steps: seq<Step>, max: int)
    requires Inv(s, max) && IsRun(s, steps, max)
    ensures Inv(After(s, steps, max), max)
    decreases |steps|
  {
    if steps != [] {
      StepKeepsInv(s, steps[0], max);
      RunKeepsInv(Next(s, steps[0], max), steps[1..], max);
    }
  }

  // --- safety over every run ---

  /** For every interleaving, and every pattern of crashes and resumes: the
      file has at most one line per sample, an item marked done has its line,
      the counters in memory are those a resume would read back, no item is in
      two workers' hands, and every claim is held unless a resume skipped it. */
  lemma EveryRunIsSafe(rows: seq<string>, steps: seq<Step>, max: int)
    requires IsRun(Start(rows), steps, max)
    ensures Inv(After(Start(rows), steps, max), max)
    ensures var s := After(Start(rows), steps, max);
            && OneLineEach(s.log)
            && (forall id <- s.queue :: s.queue[id].status == Done ==> Mentions(s.log, s.sampleOf[id]))
            && (!s.proc.Down? ==> s.proc.mem == LoadRows(EMPTY, s.log))
            && (s.proc.Working? ==>
                  && Exclusive(s.proc.pcs)
                  && forall id <- s.queue :: s.queue[id].status == Claimed ==>
                       id in s.stranded || HeldBySome(s.proc.pcs, id))
  {
    RunKeepsInv(Start(rows), steps, max);
  }

  /** A crash loses no count: the resumed process knows what the dead one knew. */
  lemma MemorySurvivesCrash(s: State, n: nat, stale: set<Id>, max: int)
    requires Inv(s, max) && !s.proc.Down?
    requires Enabled(Next(s, Crash, max), Resume(n, stale))
    ensures Next(Next(s, Crash, max), Resume(n, stale), max).proc.mem == s.proc.mem
  {
  }

  /** The file only grows, so the first line of a sample stands whatever later
      attempts return. */
  lemma {:induction false} FirstLineStands(s: State, steps: seq<Step>, max: int)
    requires IsRun(s, steps, max)
    ensures s.log <= After(s, steps, max).log
    decreases |steps|
  {
    if steps != [] {
      FirstLineStands(Next(s, steps[0], max), steps[1..], max);
    }
  }

  /** A resumed process enqueues nothing, so rows not enqueued before the first
      crash, or before the workers started, never run. */
  lemma {:induction false} NoRowsAfterEnqueuing(s: State, steps: seq<Step>, max: int)
    requires IsRun(s, steps, max) && !s.proc.Enqueuing?
    ensures After(s, steps, max).at == s.at && After(s, steps, max).rows == s.rows
    ensures After(s, steps, max).order == s.order && After(s, steps, max).sampleOf == s.sampleOf
    decreases |steps|
  {
    if steps != [] {
      NoRowsAfterEnqueuing(Next(s, steps[0], max), steps[1..], max);
    }
  }

  // --- draining ---

  /** Once all workers have returned with no stop signal nothing is left that a
      dequeue could return, and an enqueued item is done or dead exactly when no
      crash lost it and the last resume did not skip it. An item without a line
      is not done. */
  lemma DrainedMeansFinished(rows: seq<string>, steps: seq<Step>, max: int)
    requires IsRun(Start(rows), steps, max)
    requires var s := After(Start(rows), steps, max);
             s.proc.Working? && AllReturned(s.proc.pcs) && !s.proc.stop
    ensures var s := After(Start(rows), steps, max);
            && (forall id :: !Visible(s, id))
            && (forall id <- s.queue ::
                  s.queue[id].status in {Done, Dead} <==> id !in s.lost && id !in s.stranded)
            && (forall id <- s.queue :: id in s.sampleOf)
            && (forall id <- s.queue :: !Mentions(s.log, s.sampleOf[id]) ==>
                  s.queue[id].status == Dead || id in s.lost || id in s.stranded)
  {
    RunKeepsInv(Start(rows), steps, max);
    var s := After(Start(rows), steps, max);
    forall id | id in s.queue
      ensures s.queue[id].status in {Done, Dead} <==> id !in s.lost && id !in s.stranded
    {
      assert !HeldBySome(s.proc.pcs, id) && !PoppedBySome(s.proc.pcs, id);
      assert !Visible(s, id);
    }
  }

  /** So a drained run has finished every item exactly when nothing was lost and
      nothing is stranded. A claim one resume skipped and a later one reclaimed
      is not stranded any more. */
  lemma DrainedRunFinishesEverythingIff(rows: seq<string>, steps: seq<Step>, max: int)
    requires IsRun(Start(rows), steps, max)
    requires var s := After(Start(rows), steps, max);
             s.proc.Working? && AllReturned(s.proc.pcs) && !s.proc.stop
    ensures var s := After(Start(rows), steps, max);
            (forall id <- s.queue :: s.queue[id].status in {Done, Dead}) <==> s.lost == {} && s.stranded == {}
  {
    var s := After(Start(rows), steps, max);
    DrainedMeansFinished(rows, steps, max);
    RunKeepsInv(Start(rows), steps, max);
    if s.lost + s.stranded != {} {
      var id :| id in s.lost + s.stranded;
      assert id in s.queue;
    }
  }

  /** Crashes that fall outside the gap between `RPOP` and the claim pipeline,
      and resumes that reclaim every claim they find. */
  ghost predicate Clean(s: State, step: Step) {
    match step
    case Crash => s.proc.Working? ==> forall w :: 0 <= w < |s.proc.pcs| ==> !s.proc.pcs[w].Popped?
    case Resume(_, stale) => forall id <- s.queue :: s.queue[id].status == Claimed ==> id in stale
    case _ => true
  }

  ghost predicate IsCleanRun(s: State, steps: seq<Step>, max: int)
    requires IsRun(s, steps, max)
    decreases |steps|
  {
    steps == [] || (Clean(s, steps[0]) && IsCleanRun(Next(s, steps[0], max), steps[1..], max))
  }

  lemma {:induction false} CleanRunsLoseNothing(s: State, steps: seq<Step>, max: int)
    requires IsRun(s, steps, max) && IsCleanRun(s, steps, max)
    requires s.lost == {} && s.stranded == {}
    ensures After(s, steps, max).lost == {} && After(s, steps, max).stranded == {}
    decreases |steps|
  {
    if steps != [] {
      var s' := Next(s, steps[0], max);
      if steps[0].Crash? && s.proc.Working? {
        assert forall id :: !PoppedBySome(s.proc.pcs, id);
      }
      assert s'.lost == {} && s'.stranded == {};
      CleanRunsLoseNothing(s', steps[1..], max);
    }
  }

  lemma CleanDrainedRunsFinishEverything(rows: seq<string>, steps: seq<Step>, max: int)
    requires IsRun(Start(rows), steps, max) && IsCleanRun(Start(rows), steps, max)
    requires var s := After(Start(rows), steps, max);
             s.proc.Working? && AllReturned(s.proc.pcs) && !s.proc.stop
    ensures forall id <- After(Start(rows), steps, max).queue ::
              After(Start(rows), steps, max).queue[id].status in {Done, Dead}
  {
    CleanRunsLoseNothing(Start(rows), steps, max);
    DrainedRunFinishesEverythingIff(rows, steps, max);
  }

  // --- termination ---

  function PcRank(pc: Pc): nat {
    match pc
    case Running(_) => 2
    case Ready => 1
    case Ran(_, _) => 1
    case Raised(_) => 1
    case _ => 0
  }

  function PcTotal(pcs: seq<Pc>): nat {
    if pcs == [] then 0 else PcTotal(pcs[..|pcs| - 1]) + PcRank(pcs[|pcs| - 1])
  }

  lemma {:induction false} PcTotalUpdate(pcs: seq<Pc>, w: nat, pc: Pc)
    requires w < |pcs|
    ensures PcTotal(pcs[w := pc]) == PcTotal(pcs) - PcRank(pcs[w]) + PcRank(pc)
  {
    var front := pcs[..|pcs| - 1];
    if w == |pcs| - 1 {
      assert pcs[w := pc][..|pcs| - 1] == front;
    } else {
      assert pcs[w := pc][..|pcs| - 1] == front[w := pc];
      PcTotalUpdate(front, w, pc);
    }
  }

  lemma {:induction false} PcTotalBound(pcs: seq<Pc>)
    ensures PcTotal(pcs) <= 2 * |pcs|
  {
    if pcs != [] {
      PcTotalBound(pcs[..|pcs| - 1]);
    }
  }

  function WorkLeft(s: State, max: int): int
    requires s.proc.Working? && forall id <- s.order :: id in s.queue
  {
    3 * TotalRank(s.queue, s.order, max) + PcTotal(s.proc.pcs)
  }

  lemma QueueStepLowersWork(s: State, step: Step, max: int)
    requires Inv(s, max) && Enabled(s, step) && IsQueueStep(step)
    ensures Lists(s.order, Next(s, step, max).queue)
    ensures WorkLeft(Next(s, step, max), max) < WorkLeft(s, max)
  {
    var s' := Next(s, step, max);
    QueueStepApplies(s, step, max);
    PcTotalUpdate(s.proc.pcs, step.w, s'.proc.pcs[step.w]);
    WorkLowersTotalRank(s.queue, s.order, QueueOp(s, step), max);
  }

  /** Every other worker step leaves the queue alone and moves the worker on. */
  lemma QuietStepMovesOn(s: State, step: Step, max: int)
    requires Enabled(s, step) && IsWorkerStep(step) && !IsQueueStep(step)
    ensures var s', w := Next(s, step, max), step.w;
            && s'.queue == s.queue && s'.order == s.order
            && s'.proc.Working? && |s'.proc.pcs| == |s.proc.pcs|
            && s'.proc.pcs == s.proc.pcs[w := s'.proc.pcs[w]]
            && PcRank(s'.proc.pcs[w]) < PcRank(s.proc.pcs[w])
  {
  }

  lemma QuietStepLowersWork(s: State, step: Step, max: int)
    requires Inv(s, max) && Enabled(s, step) && IsWorkerStep(step) && !IsQueueStep(step)
    ensures Lists(s.order, Next(s, step, max).queue)
    ensures WorkLeft(Next(s, step, max), max) < WorkLeft(s, max)
  {
    QuietStepMovesOn(s, step, max);
    PcTotalUpdate(s.proc.pcs, step.w, Next(s, step, max).proc.pcs[step.w]);
  }

  lemma WorkerStepLowersWork(s: State, step: Step, max: int)
    requires Inv(s, max) && Enabled(s, step) && IsWorkerStep(step)
    ensures Next(s, step, max).proc.Working? && Next(s, step, max).order == s.order
    ensures Lists(s.order, Next(s, step, max).queue)
    ensures WorkLeft(Next(s, step, max), max) < WorkLeft(s, max)
  {
    if IsQueueStep(step) {
      QueueStepLowersWork(s, step, max);
    } else {
      QuietStepLowersWork(s, step, max);
    }
  }

  lemma ThreeTimes(t: int, c: int, n: int)
    requires t <= 2 * c * n
    ensures 3 * t <= 6 * c * n
  {
    assert 3 * (2 * c * n) == 6 * c * n;
  }

  lemma WorkLeftBound(s: State, max: int)
    requires Inv(s, max) && s.proc.Working?
    ensures 0 <= WorkLeft(s, max) <= 6 * Cap(max) * |s.order| + 2 * |s.proc.pcs|
  {
    TotalRankNonNegative(s.queue, s.order, max);
    PcTotalBound(s.proc.pcs);
    ThreeTimes(TotalRank(s.queue, s.order, max), Cap(max), |s.order|);
  }

  function WorkerSteps(steps: seq<Step>): nat
    decreases |steps|
  {
    if steps == [] then 0 else (if IsWorkerStep(steps[0]) then 1 else 0) + WorkerSteps(steps[1..])
  }

  lemma SignalKeepsWork(s: State, max: int)
    requires Inv(s, max) && Enabled(s, Signal)
    ensures var s' := Next(s, Signal, max);
            s'.proc.Working? && s'.proc.pcs == s.proc.pcs && s'.order == s.order && s'.queue == s.queue
  {
  }

  /** However the workers are scheduled, whatever their samples return and
      whenever they are told to stop, they take at most 6 * max_attempts steps
      per item and two more each. */
  lemma {:induction false} WorkersTerminate(s: State, steps: seq<Step>, max: int)
    requires Inv(s, max) && s.proc.Working? && IsRun(s, steps, max)
    requires forall step <- steps :: IsWorkerStep(step) || step.Signal?
    ensures WorkerSteps(steps) <= WorkLeft(s, max) <= 6 * Cap(max) * |s.order| + 2 * |s.proc.pcs|
    decreases |steps|
  {
    WorkLeftBound(s, max);
    if steps != [] {
      var s' := Next(s, steps[0], max);
      StepKeepsInv(s, steps[0], max);
      if IsWorkerStep(steps[0]) {
        WorkerStepLowersWork(s, steps[0], max);
      } else {
        SignalKeepsWork(s, max);
      }
      assert WorkerSteps(steps[1..]) <= WorkLeft(s', max) by {
        WorkersTerminate(s', steps[1..], max);
      }
    }
  }

  /** No deadlock: a worker that has not returned can always step. */
  lemma SomeWorkerCanStep(s: State, max: int) returns (step: Step)
    requires Inv(s, max) && s.proc.Working? && !AllReturned(s.proc.pcs)
    ensures IsWorkerStep(step) && Enabled(s, step)
  {
    var w :| 0 <= w < |s.proc.pcs| && !s.proc.pcs[w].Returned?;
    var pc := s.proc.pcs[w];
    assert PcInv(s, pc);
    if pc.Ready? {
      if id :| Visible(s, id) {
        step := Take(w, id);
      } else {
        step := Return(w);
      }
    } else if pc.Popped? {
      step := Stamp(w);
    } else if pc.Running? {
      step := Raise(w);
    } else if pc.Ran? {
      step := Record(w);
    } else if pc.Recorded? {
      step := Settle(w);
    } else {
      step := GiveBack(w);
    }
  }

  lemma StepKeepsStop(s: State, step: Step, max: int)
    requires s.proc.Working? && Enabled(s, step) && (IsWorkerStep(step) || step.Signal?)
    ensures Next(s, step, max).proc.Working?
    ensures Next(s, step, max).proc.stop <==> s.proc.stop || step.Signal?
  {
  }

  /** So a schedule that runs the workers as long as any of them can step ends,
      with every worker returned and, unless one of its steps was the stop
      signal, nothing left to dequeue: the drain loop of `execute` never goes
      round twice. */
  lemma {:induction false} GatherDrains(s: State, steps: seq<Step>, max: int)
    requires Inv(s, max) && s.proc.Working? && IsRun(s, steps, max)
    requires forall step <- steps :: IsWorkerStep(step) || step.Signal?
    requires var t := After(s, steps, max);
             forall step :: IsWorkerStep(step) ==> !Enabled(t, step)
    ensures var t := After(s, steps, max);
            && t.proc.Working? && AllReturned(t.proc.pcs)
            && (t.proc.stop <==> s.proc.stop || Signal in steps)
            && (!t.proc.stop ==> forall id :: !Visible(t, id))
    decreases |steps|
  {
    if steps == [] {
      if !AllReturned(s.proc.pcs) {
        var step := SomeWorkerCanStep(s, max);
        assert false;
      }
    } else {
      StepKeepsInv(s, steps[0], max);
      StepKeepsStop(s, steps[0], max);
      GatherDrains(Next(s, steps[0], max), steps[1..], max);
    }
  }

  // --- composing runs ---

  lemma {:induction false} RunExtends(s: State, steps: seq<Step>, step: Step, max: int)
    requires IsRun(s, steps, max) && Enabled(After(s, steps, max), step)
    ensures IsRun(s, steps + [step], max)
    ensures After(s, steps + [step], max) == Next(After(s, steps, max), step, max)
    decreases |steps|
  {
    if steps == [] {
      assert [step][1..] == [];
    } else {
      assert (steps + [step])[1..] == steps[1..] + [step];
      RunExtends(Next(s, steps[0], max), steps[1..], step, max);
    }
  }

  /** An attempt writes its line exactly when its sample has none yet. */
  lemma RecordedRowIsWrittenIff(s: State, w: nat, max: int)
    requires Inv(s, max) && Enabled(s, Step.Record(w))
    ensures var row, s' := s.proc.pcs[w].out.row, Next(s, Step.Record(w), max);
            && (s'.log == s.log + [row] <==> !Mentions(s.log, row.sampleId))
            && (Mentions(s.log, row.sampleId) ==> s'.log == s.log)
  {
    var row := s.proc.pcs[w].out.row;
    assert PcInv(s, s.proc.pcs[w]);
    CompletedAreMentioned(s.log, row.sampleId);
    assert |s.log + [row]| == |s.log| + 1;
  }

  lemma RunFirst(s: State, step: Step, rest: seq<Step>, max: int)
    requires Enabled(s, step) && IsRun(Next(s, step, max), rest, max)
    ensures IsRun(s, [step] + rest, max)
    ensures After(s, [step] + rest, max) == After(Next(s, step, max), rest, max)
  {
    assert ([step] + rest)[1..] == rest;
  }

  lemma {:induction false} RunsCompose(s: State, first: seq<Step>, second: seq<Step>, max: int)
    requires IsRun(s, first, max) && IsRun(After(s, first, max), second, max)
    ensures IsRun(s, first + second, max)
    ensures After(s, first + second, max) == After(After(s, first, max), second, max)
    decreases |first|
  {
    if first == [] {
      assert first + second == second;
    } else {
      assert (first + second)[1..] == first[1..] + second;
      RunsCompose(Next(s, first[0], max), first[1..], second, max);
    }
  }
}
