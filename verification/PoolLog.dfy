/** Worker containers on one Redis queue and one file: each appends a line for
    every attempt it finishes, without looking at the file, and then settles.
    Any number of workers interleave and die, and claims are rescued, whether
    their worker is dead or not. */
module PoolLog {
  import opened Wrappers
  import opened TaskQueue
  import opened SampleLog
  import opened SampleReport
  import Redis = RedisQueue
  import RunLoop

  type Outcome = RunLoop.Outcome

  type Worker = nat

  /** The item a live worker has popped, runs, or has appended a line for. */
  datatype Hand = Popped(id: Id) | Running(id: Id) | Ran(id: Id, out: Outcome)

  datatype State = State(
    queue: Redis.System, sampleOf: map<Id, string>, log: seq<Outcome>, hands: map<Worker, Hand>)

  /** `Rescue` is one turn of a reclaim loop. The loop goes through a list made
      earlier, so the item need not be claimed any more. */
  datatype Step =
    | EnqueueRow(id: Id, payload: string, sample: string)
    | Pop(w: Worker)
    | Stamp(w: Worker, token: string, now: int)
    | AppendLine(w: Worker, out: Outcome)
    | Settle(w: Worker, reason: string)
    | GiveBack(w: Worker, reason: string)
    | Reject(w: Worker)
    | Die(ws: set<Worker>)
    | Rescue(id: Id)

  const START := State(Redis.EMPTY, map[], [], map[])

  /** `Reject` is the dead letter of a job without a run id. Each row is enqueued
      once. */
  ghost predicate Enabled(s: State, step: Step) {
    match step
    case EnqueueRow(id, _, sample) => id !in s.queue.redis.items && sample != "" && sample !in s.sampleOf.Values
    case Pop(w) => w !in s.hands && Redis.PopResult(s.queue.redis).Some?
    case Stamp(w, _, _) => w in s.hands && s.hands[w].Popped?
    case AppendLine(w, out) =>
      && w in s.hands && s.hands[w].Running?
      && s.hands[w].id in s.sampleOf && out.row.sampleId == s.sampleOf[s.hands[w].id]
    case Settle(w, _) => w in s.hands && s.hands[w].Ran?
    case GiveBack(w, _) => w in s.hands && s.hands[w].Running?
    case Reject(w) => w in s.hands && s.hands[w].Running?
    case Die(_) => true
    case Rescue(id) => id in s.queue.redis.items
  }

  function PoppedBy(hands: map<Worker, Hand>, ws: set<Worker>): set<Id> {
    set w | w in ws && w in hands && hands[w].Popped? :: hands[w].id
  }

  /** What the step does to the queue, if anything. */
  ghost function EventOf(s: State, step: Step): Option<Redis.Event>
    requires Enabled(s, step)
  {
    match step
    case EnqueueRow(id, payload, _) => Some(Redis.Enqueued(id, payload))
    case Pop(_) => Some(Redis.Event.Popped)
    case Stamp(w, token, now) => Some(Redis.Stamped(s.hands[w].id, token, now))
    case AppendLine(_, _) => None
    case Settle(w, reason) =>
      if RunLoop.Acks(s.hands[w].out) then Some(Redis.Acked(s.hands[w].id))
      else Some(Redis.Nacked(s.hands[w].id, reason))
    case GiveBack(w, reason) => Some(Redis.Nacked(s.hands[w].id, reason))
    case Reject(w) => Some(Redis.DeadLettered(s.hands[w].id))
    case Die(ws) => Some(Redis.Died(PoppedBy(s.hands, ws)))
    case Rescue(id) => Some(Redis.Released(id))
  }

  ghost function QueueAfter(s: State, step: Step, max: int): Redis.System
    requires Enabled(s, step)
  {
    if EventOf(s, step).Some? then Redis.Next(s.queue, EventOf(s, step).value, max) else s.queue
  }

  function HandsAfter(s: State, step: Step): map<Worker, Hand> {
    match step
    case Pop(w) =>
      if Redis.PopResult(s.queue.redis).Some?
      then s.hands[w := Popped(Redis.PopResult(s.queue.redis).value)] else s.hands
    case Stamp(w, _, _) => if w in s.hands then s.hands[w := Running(s.hands[w].id)] else s.hands
    case AppendLine(w, out) => if w in s.hands then s.hands[w := Ran(s.hands[w].id, out)] else s.hands
    case Settle(w, _) => s.hands - {w}
    case GiveBack(w, _) => s.hands - {w}
    case Reject(w) => s.hands - {w}
    case Die(ws) => s.hands - ws
    case _ => s.hands
  }

  ghost function Next(s: State, step: Step, max: int): State
    requires Enabled(s, step)
  {
    State(QueueAfter(s, step, max),
          if step.EnqueueRow? then s.sampleOf[step.id := step.sample] else s.sampleOf,
          if step.AppendLine? then s.log + [step.out] else s.log,
          HandsAfter(s, step))
  }

  ghost predicate IsRun(s: State, steps: seq<Step>, max: int)
    decreases |steps|
  {
    steps == [] || (Enabled(s, steps[0]) && IsRun(Next(s, steps[0], max), steps[1..], max))
  }

  ghost function After(s: State, steps: seq<Step>, max: int): State
    requires IsRun(s, steps, max)
    decreases |steps|
  {
    if steps == [] then s else After(Next(s, steps[0], max), steps[1..], max)
  }

  // --- runs that rescue no live claim ---

  predicate Held(s: State, id: Id) { exists w <- s.hands :: s.hands[w].id == id }

  /** A rescue takes a claim, or an item acknowledged since the list was made,
      that no live worker has in hand. */
  predicate Careful(s: State, step: Step) {
    step.Rescue? ==>
      step.id in s.queue.redis.items && s.queue.redis.items[step.id].status in {Claimed, Done} && !Held(s, step.id)
  }

  ghost predicate IsCarefulRun(s: State, steps: seq<Step>, max: int)
    requires IsRun(s, steps, max)
    decreases |steps|
  {
    steps == [] || (Careful(s, steps[0]) && IsCarefulRun(Next(s, steps[0], max), steps[1..], max))
  }

  /** The last outcome appended for a sample. */
  function LastOutcome(log: seq<Outcome>, sample: string): Option<Outcome> {
    if log == [] then None
    else if log[|log| - 1].row.sampleId == sample then Some(log[|log| - 1])
    else LastOutcome(log[..|log| - 1], sample)
  }

  ghost predicate Acked(log: seq<Outcome>, sample: string) {
    LastOutcome(log, sample).Some? && RunLoop.Acks(LastOutcome(log, sample).value)
  }

  /** Every item has a sample of its own. */
  ghost predicate NamesOk(s: State) {
    && s.queue.redis.items.Keys == s.sampleOf.Keys
    && (forall id <- s.sampleOf :: s.sampleOf[id] != "")
    && (forall id, other | id in s.sampleOf && other in s.sampleOf && id != other ::
          s.sampleOf[id] != s.sampleOf[other])
  }

  /** What runs is claimed, and an outcome in hand is the last line. */
  ghost predicate HandOk(s: State, hand: Hand) {
    match hand
    case Popped(id) => id in s.queue.inFlight
    case Running(id) => id in s.queue.redis.claimed
    case Ran(id, out) =>
      id in s.queue.redis.claimed && id in s.sampleOf && LastOutcome(s.log, s.sampleOf[id]) == Some(out)
  }

  /** Every hand holds its own item, and what is in flight is in a hand. */
  ghost predicate HandsOk(s: State) {
    && (forall w <- s.hands :: HandOk(s, s.hands[w]))
    && (forall w, v | w in s.hands && v in s.hands && w != v :: s.hands[w].id != s.hands[v].id)
    && (forall id <- s.queue.inFlight :: exists w <- s.hands :: s.hands[w] == Popped(id))
  }

  ghost predicate DoneOk(s: State) {
    forall id <- s.queue.redis.items :: s.queue.redis.items[id].status == Done ==>
      id in s.sampleOf && Acked(s.log, s.sampleOf[id])
  }

  ghost predicate Inv(s: State) { Redis.Consistent(s.queue) && NamesOk(s) && HandsOk(s) && DoneOk(s) }

  /** A queue event touches the item it is about, and a pop its claim only. */
  lemma EventTouchesOne(q: Redis.System, ev: Redis.Event, id: Id, max: int)
    requires match ev
             case Enqueued(other, _) => id != other
             case Popped => Redis.PopResult(q.redis) != Some(id)
             case Stamped(other, _, _) => id != other
             case Acked(other) => id != other
             case Nacked(other, _) => id != other
             case DeadLettered(other) => id != other
             case Released(other) => id != other
             case Died(ids) => id !in ids
    ensures var q' := Redis.Next(q, ev, max);
            && (id in q'.redis.items <==> id in q.redis.items)
            && (id in q.redis.items ==> q'.redis.items[id] == q.redis.items[id])
            && (id in q'.redis.claimed <==> id in q.redis.claimed)
            && (id in q'.inFlight <==> id in q.inFlight)
  {
  }

  // --- the queue stays consistent ---

  lemma ReleaseKeepsPlaceIff(r: Redis.Redis, id: Id)
    requires Redis.RepOk(r) && id in r.items
    ensures Redis.RepOk(Redis.ReleaseStep(r, id)) && Redis.Orphans(Redis.ReleaseStep(r, id)) == Redis.Orphans(r) <==>
            r.items[id].status in {Claimed, Done}
  {
    var r' := Redis.ReleaseStep(r, id);
    Redis.ReleaseKeepsRepIff(r, id);
    if r.items[id].status in {Claimed, Done} {
      assert forall other :: other in r'.pending <==> other in r.pending || other == id;
    } else if r.items[id].status == Pending && id !in r.pending {
      assert id in Redis.Orphans(r) && id !in Redis.Orphans(r');
    }
  }

  lemma RescueKeepsQueueIff(s: State, id: Id, max: int)
    requires Redis.Consistent(s.queue) && Enabled(s, Rescue(id))
    ensures Redis.Consistent(Redis.Next(s.queue, Redis.Released(id), max)) <==>
            s.queue.redis.items[id].status in {Claimed, Done}
  {
    ReleaseKeepsPlaceIff(s.queue.redis, id);
  }

  lemma StepKeepsQueue(s: State, step: Step, max: int)
    requires Inv(s) && Enabled(s, step) && Careful(s, step)
    ensures Redis.Consistent(QueueAfter(s, step, max))
  {
    if step.Rescue? {
      RescueKeepsQueueIff(s, step.id, max);
    } else if EventOf(s, step).Some? {
      assert step.Stamp? || step.Settle? || step.GiveBack? || step.Reject? ==> HandOk(s, s.hands[step.w]);
      Redis.NextKeepsConsistent(s.queue, EventOf(s, step).value, max);
    }
  }

  // --- the hands and the file ---

  lemma EnqueueKeepsHands(s: State, step: Step, max: int)
    requires Inv(s) && Enabled(s, step) && step.EnqueueRow?
    ensures HandsOk(Next(s, step, max)) && DoneOk(Next(s, step, max)) && NamesOk(Next(s, step, max))
  {
    var s' := Next(s, step, max);
    assert forall other <- s.sampleOf :: s.sampleOf[other] in s.sampleOf.Values;
    forall w | w in s.hands ensures HandOk(s', s'.hands[w]) {
      assert HandOk(s, s.hands[w]);
      assert s.hands[w].id in s.queue.redis.items by {
        assert s.queue.inFlight <= Redis.Orphans(s.queue.redis);
      }
    }
  }

  lemma PopKeepsHands(s: State, w: Worker, max: int)
    requires Inv(s) && Enabled(s, Pop(w))
    ensures HandsOk(Next(s, Pop(w), max)) && DoneOk(Next(s, Pop(w), max)) && NamesOk(Next(s, Pop(w), max))
  {
    var s' := Next(s, Pop(w), max);
    var id := Redis.PopResult(s.queue.redis).value;
    assert id in s.queue.redis.pending && id !in Redis.Orphans(s.queue.redis);
    assert s'.queue.inFlight == s.queue.inFlight + {id};
    forall v | v in s.hands ensures HandOk(s', s.hands[v]) && s.hands[v].id != id {
      assert HandOk(s, s.hands[v]);
      assert s.queue.inFlight <= Redis.Orphans(s.queue.redis);
    }
    forall other | other in s'.queue.inFlight ensures exists v <- s'.hands :: s'.hands[v] == Popped(other) {
      if other == id {
        assert s'.hands[w] == Popped(other);
      } else {
        var v :| v in s.hands && s.hands[v] == Popped(other);
        assert s'.hands[v] == Popped(other);
      }
    }
  }

  /** The steps of a worker with an item in hand. */
  predicate HasItem(step: Step) {
    step.Stamp? || step.AppendLine? || step.Settle? || step.GiveBack? || step.Reject?
  }

  lemma OtherItemsStay(s: State, step: Step, id: Id, max: int)
    requires Enabled(s, step) && HasItem(step) && s.hands[step.w].id != id
    ensures var s' := Next(s, step, max);
            && (id in s'.queue.redis.items <==> id in s.queue.redis.items)
            && (id in s.queue.redis.items ==> s'.queue.redis.items[id] == s.queue.redis.items[id])
            && (id in s'.queue.redis.claimed <==> id in s.queue.redis.claimed)
            && (id in s'.queue.inFlight <==> id in s.queue.inFlight)
  {
    if EventOf(s, step).Some? {
      EventTouchesOne(s.queue, EventOf(s, step).value, id, max);
    }
  }

  lemma AppendKeepsOthers(log: seq<Outcome>, out: Outcome, sample: string)
    ensures LastOutcome(log + [out], sample) ==
            if out.row.sampleId == sample then Some(out) else LastOutcome(log, sample)
  {
    assert (log + [out])[..|log|] == log;
  }

  lemma OtherLinesStay(s: State, step: Step, id: Id, max: int)
    requires NamesOk(s) && Enabled(s, step) && HasItem(step) && s.hands[step.w].id != id && id in s.sampleOf
    ensures LastOutcome(Next(s, step, max).log, s.sampleOf[id]) == LastOutcome(s.log, s.sampleOf[id])
  {
    if step.AppendLine? {
      AppendKeepsOthers(s.log, step.out, s.sampleOf[id]);
    }
  }

  lemma HeldIsKnown(s: State, w: Worker)
    requires Redis.Consistent(s.queue) && HandsOk(s) && w in s.hands
    ensures var id := s.hands[w].id;
            && id in s.queue.redis.items
            && (if s.hands[w].Popped? then id in s.queue.inFlight
                else id in s.queue.redis.claimed && id !in s.queue.inFlight)
  {
    assert HandOk(s, s.hands[w]);
    assert s.queue.inFlight <= Redis.Orphans(s.queue.redis);
  }

  /** What the event of a worker does to its item: known as before, in flight no
      more, claimed by a stamp and done by an ack. */
  lemma OwnEvent(q: Redis.System, ev: Redis.Event, max: int)
    requires ev.Stamped? || ev.Acked? || ev.Nacked? || ev.DeadLettered?
    requires ev.id in q.redis.items && (ev.Stamped? || ev.id !in q.inFlight)
    ensures var q' := Redis.Next(q, ev, max);
            && q'.redis.items.Keys == q.redis.items.Keys && ev.id !in q'.inFlight
            && (ev.Stamped? ==> ev.id in q'.redis.claimed)
            && (q'.redis.items[ev.id].status == Done <==> ev.Acked?)
  {
  }

  /** After its step the worker's item is in flight no more, and what it still
      has in hand is as it should be. */
  lemma OwnHandStays(s: State, step: Step, max: int)
    requires Inv(s) && Enabled(s, step) && HasItem(step)
    ensures var s', id := Next(s, step, max), s.hands[step.w].id;
            && (step.w in s'.hands ==> HandOk(s', s'.hands[step.w]) && s'.hands[step.w].id == id)
            && id !in s'.queue.inFlight && s'.queue.redis.items.Keys == s.queue.redis.items.Keys
  {
    HeldIsKnown(s, step.w);
    if step.AppendLine? {
      AppendKeepsOthers(s.log, step.out, s.sampleOf[s.hands[step.w].id]);
    } else {
      OwnEvent(s.queue, EventOf(s, step).value, max);
    }
  }

  /** An item is done by acknowledging the outcome in hand, the last line. */
  lemma OwnItemDone(s: State, step: Step, max: int)
    requires Inv(s) && Enabled(s, step) && HasItem(step)
    ensures var s', id := Next(s, step, max), s.hands[step.w].id;
            id in s'.queue.redis.items && s'.queue.redis.items[id].status == Done ==>
              id in s'.sampleOf && Acked(s'.log, s'.sampleOf[id])
  {
    HeldIsKnown(s, step.w);
    assert HandOk(s, s.hands[step.w]);
    if !step.AppendLine? {
      OwnEvent(s.queue, EventOf(s, step).value, max);
    }
  }

  lemma OtherHandStays(s: State, step: Step, v: Worker, max: int)
    requires Inv(s) && Enabled(s, step) && HasItem(step) && v in s.hands && v != step.w
    ensures var s' := Next(s, step, max);
            v in s'.hands && s'.hands[v] == s.hands[v] && HandOk(s', s'.hands[v])
  {
    var id := s.hands[v].id;
    assert HandOk(s, s.hands[v]);
    HeldIsKnown(s, v);
    OtherItemsStay(s, step, id, max);
    OtherLinesStay(s, step, id, max);
  }

  lemma ItemStepKeepsHands(s: State, step: Step, max: int)
    requires Inv(s) && Enabled(s, step) && HasItem(step)
    ensures HandsOk(Next(s, step, max))
  {
    var s' := Next(s, step, max);
    OwnHandStays(s, step, max);
    forall v | v in s'.hands ensures HandOk(s', s'.hands[v]) && v in s.hands && s'.hands[v].id == s.hands[v].id {
      if v != step.w {
        OtherHandStays(s, step, v, max);
      }
    }
    forall id | id in s'.queue.inFlight ensures exists v <- s'.hands :: s'.hands[v] == Popped(id) {
      OtherItemsStay(s, step, id, max);
      var v :| v in s.hands && s.hands[v] == Popped(id);
      OtherHandStays(s, step, v, max);
    }
  }

  lemma ItemStepKeepsDone(s: State, step: Step, max: int)
    requires Inv(s) && Enabled(s, step) && HasItem(step)
    ensures DoneOk(Next(s, step, max)) && NamesOk(Next(s, step, max))
  {
    var s' := Next(s, step, max);
    OwnHandStays(s, step, max);
    forall id | id in s'.queue.redis.items && s'.queue.redis.items[id].status == Done
      ensures id in s'.sampleOf && Acked(s'.log, s'.sampleOf[id])
    {
      if id == s.hands[step.w].id {
        OwnItemDone(s, step, max);
      } else {
        OtherItemsStay(s, step, id, max);
        OtherLinesStay(s, step, id, max);
      }
    }
  }

  lemma DieKeepsHands(s: State, ws: set<Worker>, max: int)
    requires Inv(s) && Enabled(s, Die(ws))
    ensures HandsOk(Next(s, Die(ws), max)) && DoneOk(Next(s, Die(ws), max)) && NamesOk(Next(s, Die(ws), max))
  {
    var s' := Next(s, Die(ws), max);
    forall v | v in s'.hands ensures HandOk(s', s'.hands[v]) {
      assert HandOk(s, s.hands[v]);
      assert s.hands[v].id !in PoppedBy(s.hands, ws);
    }
    forall id | id in s'.queue.inFlight ensures exists v <- s'.hands :: s'.hands[v] == Popped(id) {
      var v :| v in s.hands && s.hands[v] == Popped(id);
      assert v in ws ==> id in PoppedBy(s.hands, ws);
      assert s'.hands[v] == Popped(id);
    }
  }

  lemma RescueKeepsHands(s: State, id: Id, max: int)
    requires Inv(s) && Enabled(s, Rescue(id)) && Careful(s, Rescue(id))
    ensures HandsOk(Next(s, Rescue(id), max))
  {
    var s' := Next(s, Rescue(id), max);
    assert s'.queue.inFlight == s.queue.inFlight && s'.hands == s.hands;
    forall w | w in s.hands ensures HandOk(s', s.hands[w]) {
      assert HandOk(s, s.hands[w]);
      EventTouchesOne(s.queue, Redis.Released(id), s.hands[w].id, max);
    }
  }

  lemma RescueKeepsDone(s: State, id: Id, max: int)
    requires Inv(s) && Enabled(s, Rescue(id))
    ensures DoneOk(Next(s, Rescue(id), max)) && NamesOk(Next(s, Rescue(id), max))
  {
    var items := s.queue.redis.items;
    assert Next(s, Rescue(id), max).queue.redis.items == items[id := Redis.ReleaseStep(s.queue.redis, id).items[id]];
  }

  lemma RescueBreaksHands(s: State, id: Id, max: int)
    requires Inv(s) && Enabled(s, Rescue(id)) && s.queue.redis.items[id].status in {Claimed, Done} && Held(s, id)
    ensures !HandsOk(Next(s, Rescue(id), max))
  {
    var w :| w in s.hands && s.hands[w].id == id;
    HeldIsKnown(s, w);
    assert id !in Redis.Orphans(s.queue.redis);
    assert !HandOk(Next(s, Rescue(id), max), s.hands[w]);
  }

  // --- every careful run ---

  lemma StepKeepsInv(s: State, step: Step, max: int)
    requires Inv(s) && Enabled(s, step) && Careful(s, step)
    ensures Inv(Next(s, step, max))
  {
    StepKeepsQueue(s, step, max);
    match step
    case EnqueueRow(_, _, _) => EnqueueKeepsHands(s, step, max);
    case Pop(w) => PopKeepsHands(s, w, max);
    case Die(ws) => DieKeepsHands(s, ws, max);
    case Rescue(id) =>
      RescueKeepsHands(s, id, max);
      RescueKeepsDone(s, id, max);
    case _ =>
      ItemStepKeepsHands(s, step, max);
      ItemStepKeepsDone(s, step, max);
  }

  /** Exactly the careful rescues keep queue, hands and file in agreement. */
  lemma RescueKeepsInvIff(s: State, id: Id, max: int)
    requires Inv(s) && Enabled(s, Rescue(id))
    ensures Inv(Next(s, Rescue(id), max)) <==> Careful(s, Rescue(id))
  {
    RescueKeepsQueueIff(s, id, max);
    if Careful(s, Rescue(id)) {
      StepKeepsInv(s, Rescue(id), max);
    } else if s.queue.redis.items[id].status in {Claimed, Done} {
      RescueBreaksHands(s, id, max);
    }
  }

  lemma {:induction false} RunKeepsInv(s: State, steps: seq<Step>, max: int)
    requires Inv(s) && IsRun(s, steps, max) && IsCarefulRun(s, steps, max)
    ensures Inv(After(s, steps, max))
    decreases |steps|
  {
    if steps != [] {
      StepKeepsInv(s, steps[0], max);
      RunKeepsInv(Next(s, steps[0], max), steps[1..], max);
    }
  }

  function RowsOf(log: seq<Outcome>): seq<Row> {
    if log == [] then [] else RowsOf(log[..|log| - 1]) + [log[|log| - 1].row]
  }

  lemma {:induction false} LastOutcomeIsLastLine(log: seq<Outcome>, sample: string)
    ensures LastOutcome(log, sample).Some? <==> Mentions(RowsOf(log), sample)
    ensures Mentions(RowsOf(log), sample) ==>
              LastLine(RowsOf(log), sample) == LastOutcome(log, sample).value.row
  {
    if log != [] {
      var front, last := log[..|log| - 1], log[|log| - 1];
      LastOutcomeIsLastLine(front, sample);
      MentionsMore(RowsOf(front), last.row, sample);
      assert RowsOf(log)[..|RowsOf(front)|] == RowsOf(front);
    }
  }

  /** The manifest's summary reports one line of the sample, the last. */
  lemma SummaryReportsTheLastLine(log: seq<Outcome>, sample: string)
    requires sample != "" && LastOutcome(log, sample).Some?
    ensures LastOutcome(log, sample).value.row in Summary(RowsOf(log))
    ensures forall row <- Summary(RowsOf(log)) :: row.sampleId == sample ==>
              row == LastOutcome(log, sample).value.row
  {
    LastOutcomeIsLastLine(log, sample);
    SummaryIsLastLinePerSample(RowsOf(log));
  }

  /** However the containers interleave and die, as long as no claim of a living
      one is rescued, the manifest's summary reports a completed item by the very
      line it was acknowledged on. */
  lemma SummaryReportsTheAckedLine(steps: seq<Step>, max: int, id: Id)
    requires IsRun(START, steps, max) && IsCarefulRun(START, steps, max)
    requires var s := After(START, steps, max);
             id in s.queue.redis.items && s.queue.redis.items[id].status == Done
    ensures var s := After(START, steps, max);
            && id in s.sampleOf && Acked(s.log, s.sampleOf[id])
            && LastOutcome(s.log, s.sampleOf[id]).value.row in Summary(RowsOf(s.log))
            && forall row <- Summary(RowsOf(s.log)) :: row.sampleId == s.sampleOf[id] ==>
                 row == LastOutcome(s.log, s.sampleOf[id]).value.row
  {
    RunKeepsInv(START, steps, max);
    var s := After(START, steps, max);
    SummaryReportsTheLastLine(s.log, s.sampleOf[id]);
  }

  // --- a live claim rescued ---

  lemma {:induction false} RunExtends(s: State, steps: seq<Step>, step: Step, max: int)
    requires IsRun(s, steps, max) && Enabled(After(s, steps, max), step)
    ensures IsRun(s, steps + [step], max)
    ensures After(s, steps + [step], max) == Next(After(s, steps, max), step, max)
    decreases |steps|
  {
    if steps == [] {
      assert [step][1..] == [];
    } else {
      assert (steps + [step])[1..] == steps[1..] + [step];
      RunExtends(Next(s, steps[0], max), steps[1..], step, max);
    }
  }

  lemma Then(steps: seq<Step>, s: State, step: Step) returns (more: seq<Step>, t: State)
    requires IsRun(START, steps, 3) && s == After(START, steps, 3) && Enabled(s, step)
    ensures more == steps + [step] && t == Next(s, step, 3)
    ensures IsRun(START, more, 3) && t == After(START, more, 3)
  {
    RunExtends(START, steps, step, 3);
    more, t := steps + [step], Next(s, step, 3);
  }

  const ITEM: Id := "item"

  /** The only item waiting is taken. */
  lemma TakesItem(steps: seq<Step>, s: State, w: Worker) returns (more: seq<Step>, t: State)
    requires IsRun(START, steps, 3) && s == After(START, steps, 3)
    requires w !in s.hands && s.queue.redis.pending == [ITEM]
    ensures more == steps + [Pop(w), Stamp(w, "", 0)]
    ensures IsRun(START, more, 3) && t == After(START, more, 3)
    ensures t.hands == s.hands[w := Running(ITEM)] && t.sampleOf == s.sampleOf && t.log == s.log
    ensures ITEM in t.queue.redis.items && t.queue.redis.pending == []
  {
    more, t := Then(steps, s, Pop(w));
    more, t := Then(more, t, Stamp(w, "", 0));
  }

  lemma OneItem() returns (steps: seq<Step>, s: State)
    ensures steps == [EnqueueRow(ITEM, "", "sample")] && IsRun(START, steps, 3) && s == After(START, steps, 3)
    ensures s.hands == map[] && s.log == [] && s.sampleOf == map[ITEM := "sample"]
    ensures s.queue.redis.pending == [ITEM]
  {
    steps, s := Then([], START, EnqueueRow(ITEM, "", "sample"));
  }

  /** One item in two hands: its claim is rescued while its worker runs it, and
      another worker takes it. */
  lemma TwoHands() returns (steps: seq<Step>, s: State)
    ensures IsRun(START, steps, 3) && s == After(START, steps, 3)
    ensures steps == [EnqueueRow(ITEM, "", "sample"), Pop(0), Stamp(0, "", 0), Rescue(ITEM), Pop(1), Stamp(1, "", 0)]
    ensures s.hands == map[0 := Running(ITEM), 1 := Running(ITEM)] && s.log == []
    ensures s.sampleOf == map[ITEM := "sample"] && ITEM in s.queue.redis.items
  {
    steps, s := OneItem();
    steps, s := TakesItem(steps, s, 0);
    steps, s := Then(steps, s, Rescue(ITEM));
    steps, s := TakesItem(steps, s, 1);
  }

  /** The first worker ends the item it shares, then the second writes and dies. */
  lemma LateLine(steps: seq<Step>, s: State, first: Outcome, second: Outcome) returns (more: seq<Step>, t: State)
    requires IsRun(START, steps, 3) && s == After(START, steps, 3)
    requires s.hands == map[0 := Running(ITEM), 1 := Running(ITEM)] && s.sampleOf == map[ITEM := "sample"]
    requires first.row.sampleId == second.row.sampleId == "sample" && RunLoop.Acks(first)
    ensures more == steps + [AppendLine(0, first), Settle(0, ""), AppendLine(1, second), Die({1})]
    ensures IsRun(START, more, 3) && t == After(START, more, 3)
    ensures t.hands == map[] && t.log == s.log + [first] + [second]
    ensures ITEM in t.queue.redis.items && t.queue.redis.items[ITEM].status == Done
  {
    more, t := Then(steps, s, AppendLine(0, first));
    more, t := Then(more, t, Settle(0, ""));
    more, t := Then(more, t, AppendLine(1, second));
    more, t := Then(more, t, Die({1}));
  }

  /** The first worker passes and acknowledges, the second one's line comes later,
      and it dies before it settles: the item is done, and the summary reports a
      line it was not acknowledged on. */
  lemma RescuedLiveClaimMisreports() returns (steps: seq<Step>, acked: Outcome, reported: Outcome)
    ensures IsRun(START, steps, 3) && RunLoop.Acks(acked) && !RunLoop.Acks(reported)
    ensures steps == [EnqueueRow(ITEM, "", "sample"), Pop(0), Stamp(0, "", 0), Rescue(ITEM), Pop(1), Stamp(1, "", 0),
                      AppendLine(0, acked), Settle(0, ""), AppendLine(1, reported), Die({1})]
    ensures var s := After(START, steps, 3);
            && ITEM in s.queue.redis.items && s.queue.redis.items[ITEM].status == Done && s.hands == map[]
            && reported.row in Summary(RowsOf(s.log)) && acked.row !in Summary(RowsOf(s.log))
  {
    acked := RunLoop.Outcome(Row("sample", None, "pass", Extracted.Other), true);
    reported := RunLoop.Outcome(Row("sample", None, "fail", Extracted.Other), false);
    var s: State;
    steps, s := TwoHands();
    steps, s := LateLine(steps, s, acked, reported);
    SummaryReportsTheLastLine(s.log, "sample");
  }
}
