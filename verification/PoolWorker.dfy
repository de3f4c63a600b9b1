/** The code of one worker container - the loop of `WorkerNode.run` over the
    Redis queue and the run's file - as a run of `PoolLog`. */
module PoolWorker {
  import opened Wrappers
  import opened TaskQueue
  import SampleLog
  import opened PoolLog
  import Redis = RedisQueue
  import RunLoop

  /** `samples.jsonl`, appended to under the write lock. */
  class SamplesFile {
    var lines: seq<SampleLog.Line>

    method Append(row: SampleLog.Row)
      modifies this
      ensures lines == old(lines) + [SampleLog.Parsed(row)]
    {
      lines := lines + [SampleLog.Parsed(row)];
    }
  }

  /** What processing an item at some round returns; `None` is an exception. */
  type Results = (nat, Id) -> Option<Outcome>

  ghost predicate AnswersFor(results: Results, sampleOf: map<Id, string>) {
    forall id, n :: id in sampleOf && results(n, id).Some? ==>
                      results(n, id).value.row.sampleId == sampleOf[id]
  }

  /** The only worker alive. */
  const ME: Worker := 0

  /** What queue and file hold between two jobs of it. */
  ghost predicate Mirrors(redis: Redis.Redis, lines: seq<SampleLog.Line>, s: State) {
    && Redis.RepOk(redis) && s.queue.redis == redis
    && lines == SampleLog.FileOf(RowsOf(s.log)) && s.hands == map[]
    && redis.items.Keys == s.sampleOf.Keys
  }

  ghost predicate Leads(s: State, steps: seq<Step>, t: State, max: int) {
    && IsRun(s, steps, max) && t == After(s, steps, max) && t.sampleOf == s.sampleOf
    && forall step <- steps :: !step.EnqueueRow? && !step.Rescue?
  }

  lemma RunFirst(s: State, step: Step, rest: seq<Step>, max: int)
    requires Enabled(s, step) && IsRun(Next(s, step, max), rest, max)
    ensures IsRun(s, [step] + rest, max)
    ensures After(s, [step] + rest, max) == After(Next(s, step, max), rest, max)
  {
    assert ([step] + rest)[1..] == rest;
  }

  lemma {:induction false} LeadsOn(s: State, steps: seq<Step>, t: State, more: seq<Step>, u: State, max: int)
    requires Leads(s, steps, t, max) && Leads(t, more, u, max)
    ensures Leads(s, steps + more, u, max)
    decreases |steps|
  {
    if steps == [] {
      assert steps + more == more;
    } else {
      var s', rest := Next(s, steps[0], max), steps[1..];
      assert steps + more == [steps[0]] + (rest + more);
      LeadsOn(s', rest, t, more, u, max);
      RunFirst(s, steps[0], rest + more, max);
    }
  }

  /** A lone worker rescues nothing, so it keeps what every careful run keeps. */
  lemma {:induction false} LeadsKeepsInv(s: State, steps: seq<Step>, t: State, max: int)
    requires Leads(s, steps, t, max)
    ensures Inv(s) ==> IsCarefulRun(s, steps, max) && Inv(t)
    decreases |steps|
  {
    if steps != [] && Inv(s) {
      StepKeepsInv(s, steps[0], max);
      var s' := Next(s, steps[0], max);
      LeadsKeepsInv(s', steps[1..], t, max);
    }
  }

  /** The steps of one job after it is claimed. */
  function EndSteps(result: Option<Outcome>): seq<Step> {
    match result
    case Some(out) => [AppendLine(ME, out), Settle(ME, "no verdict")]
    case None => [GiveBack(ME, "raised")]
  }

  function JobSteps(now: int, result: Option<Outcome>): seq<Step> {
    [Pop(ME), Stamp(ME, "", now)] + EndSteps(result)
  }

  /** How the job ends in the queue. */
  function Ending(id: Id, result: Option<Outcome>): Op {
    if result.Some? && RunLoop.Acks(result.value) then Op.Ack(id) else Op.Nack(id)
  }

  function EndingStep(r: Redis.Redis, id: Id, result: Option<Outcome>, max: int): Redis.Redis {
    if result.Some? && RunLoop.Acks(result.value) then Redis.AckStep(r, id)
    else Redis.NackStep(r, id, if result.Some? then "no verdict" else "raised", max)
  }

  function JobStep(r: Redis.Redis, id: Id, now: int, result: Option<Outcome>, max: int): Redis.Redis {
    EndingStep(Redis.StampStep(Redis.PopStep(r), id, "", now), id, result, max)
  }

  function LogAfter(log: seq<Outcome>, result: Option<Outcome>): seq<Outcome> {
    if result.Some? then log + [result.value] else log
  }

  lemma EndRuns(s: State, id: Id, result: Option<Outcome>, max: int) returns (t: State)
    requires s.hands == map[ME := Running(id)]
    requires result.Some? ==> id in s.sampleOf && result.value.row.sampleId == s.sampleOf[id]
    ensures Leads(s, EndSteps(result), t, max)
    ensures t.queue.redis == EndingStep(s.queue.redis, id, result, max)
    ensures t.hands == map[] && t.log == LogAfter(s.log, result)
  {
    if result.Some? {
      var u := Next(s, AppendLine(ME, result.value), max);
      t := Next(u, Settle(ME, "no verdict"), max);
      RunFirst(u, Settle(ME, "no verdict"), [], max);
      RunFirst(s, AppendLine(ME, result.value), [Settle(ME, "no verdict")], max);
      assert EndSteps(result) == [AppendLine(ME, result.value)] + [Settle(ME, "no verdict")];
    } else {
      t := Next(s, GiveBack(ME, "raised"), max);
      RunFirst(s, GiveBack(ME, "raised"), [], max);
    }
  }

  lemma ClaimRuns(s: State, id: Id, now: int, max: int) returns (t: State)
    requires s.hands == map[] && Redis.PopResult(s.queue.redis) == Some(id)
    ensures Leads(s, [Pop(ME), Stamp(ME, "", now)], t, max)
    ensures t.queue.redis == Redis.StampStep(Redis.PopStep(s.queue.redis), id, "", now)
    ensures t.hands == map[ME := Running(id)] && t.log == s.log
  {
    var u := Next(s, Pop(ME), max);
    t := Next(u, Stamp(ME, "", now), max);
    RunFirst(u, Stamp(ME, "", now), [], max);
    RunFirst(s, Pop(ME), [Stamp(ME, "", now)], max);
    assert [Pop(ME)] + [Stamp(ME, "", now)] == [Pop(ME), Stamp(ME, "", now)];
  }

  lemma JobRuns(s: State, id: Id, now: int, result: Option<Outcome>, max: int) returns (t: State)
    requires s.hands == map[] && Redis.PopResult(s.queue.redis) == Some(id)
    requires result.Some? ==> id in s.sampleOf && result.value.row.sampleId == s.sampleOf[id]
    ensures Leads(s, JobSteps(now, result), t, max)
    ensures t.queue.redis == JobStep(s.queue.redis, id, now, result, max)
    ensures t.hands == map[] && t.log == LogAfter(s.log, result)
  {
    var u := ClaimRuns(s, id, now, max);
    t := EndRuns(u, id, result, max);
    LeadsOn(s, [Pop(ME), Stamp(ME, "", now)], u, EndSteps(result), t, max);
  }

  function LinesOf(result: Option<Outcome>): seq<SampleLog.Line> {
    if result.Some? then [SampleLog.Parsed(result.value.row)] else []
  }

  lemma FileGrows(log: seq<Outcome>, result: Option<Outcome>)
    ensures SampleLog.FileOf(RowsOf(LogAfter(log, result))) == SampleLog.FileOf(RowsOf(log)) + LinesOf(result)
  {
    if result.Some? {
      var rows := RowsOf(log);
      assert (log + [result.value])[..|log|] == log;
      assert (rows + [result.value.row])[..|rows|] == rows;
    } else {
      assert SampleLog.FileOf(RowsOf(log)) + [] == SampleLog.FileOf(RowsOf(log));
    }
  }

  /** One job: run it, append its line, and settle. */
  method Process(queue: Redis.RedisQueue, file: SamplesFile, id: Id, result: Option<Outcome>)
    requires Redis.RepOk(queue.State()) && id in queue.claimed && id in queue.items
    modifies queue, file
    ensures Redis.RepOk(queue.State())
    ensures Redis.View(queue.State()) ==
            Apply(Redis.View(old(queue.State())), Ending(id, result), queue.maxAttempts)
    ensures queue.State() == EndingStep(old(queue.State()), id, result, queue.maxAttempts)
    ensures file.lines == old(file.lines) + LinesOf(result)
    ensures queue.items[id].status in {Done, Dead, Pending}
    ensures queue.items[id].status == Done <==>
            result.Some? && (result.value.row.verdict == "pass" || result.value.done)
  {
    if result.None? {
      queue.Nack(id, "raised");
      return;
    }
    var out := result.value;
    file.Append(out.row);
    if out.row.verdict == "pass" || out.done {
      queue.Ack(id);
    } else {
      queue.Nack(id, "no verdict");
    }
  }

  /** A job lowers the rank of the queue. */
  lemma JobLowersRank(q: Queue, order: seq<Id>, id: Id, result: Option<Outcome>, max: int)
    requires Lists(order, q) && Bounded(q, max) && id in q && q[id].status == Pending
    ensures var q' := Apply(Apply(q, Op.Claim(id), max), Ending(id, result), max);
            && Lists(order, q') && Bounded(q', max)
            && 0 <= TotalRank(q', order, max) < TotalRank(q, order, max)
  {
    var q1 := Apply(q, Op.Claim(id), max);
    ApplyKeepsBounded(q, Op.Claim(id), max);
    WorkLowersTotalRank(q, order, Op.Claim(id), max);
    ApplyKeepsBounded(q1, Ending(id, result), max);
    WorkLowersTotalRank(q1, order, Ending(id, result), max);
    TotalRankNonNegative(Apply(q1, Ending(id, result), max), order, max);
  }

  lemma EndingMeans(r: Redis.Redis, id: Id, result: Option<Outcome>, max: int)
    requires Redis.RepOk(r) && id in r.claimed
    ensures var r' := EndingStep(r, id, result, max);
            && Redis.RepOk(r') && r'.items.Keys == r.items.Keys
            && Redis.View(r') == Apply(Redis.View(r), Ending(id, result), max)
  {
    if result.Some? && RunLoop.Acks(result.value) {
      Redis.AckMeans(r, id, max);
    } else {
      Redis.NackMeans(r, id, if result.Some? then "no verdict" else "raised", max);
    }
  }

  /** What one job leaves in the queue, as an abstract claim and its end. */
  lemma JobMeans(r: Redis.Redis, id: Id, now: int, result: Option<Outcome>, max: int)
    requires Redis.RepOk(r) && Redis.PopResult(r) == Some(id)
    ensures var r' := JobStep(r, id, now, result, max);
            && Redis.RepOk(r') && r'.items.Keys == r.items.Keys
            && id in r.items && r.items[id].status == Pending
            && Redis.View(r') == Apply(Apply(Redis.View(r), Op.Claim(id), max), Ending(id, result), max)
  {
    Redis.DequeueMeans(r, id, "", now, max);
    EndingMeans(Redis.StampStep(Redis.PopStep(r), id, "", now), id, result, max);
  }

  /** The items in some order, none past its attempts. */
  ghost predicate Counted(r: Redis.Redis, order: seq<Id>, max: int) {
    Lists(order, Redis.View(r)) && Bounded(Redis.View(r), max)
  }

  /** What the queue can still see of claims and releases. */
  ghost function Left(r: Redis.Redis, order: seq<Id>, max: int): int
    requires Counted(r, order, max)
  {
    TotalRank(Redis.View(r), order, max)
  }

  lemma JobLowersLeft(r: Redis.Redis, id: Id, now: int, result: Option<Outcome>, order: seq<Id>, max: int)
    requires Redis.RepOk(r) && Redis.PopResult(r) == Some(id) && Counted(r, order, max)
    ensures var r' := JobStep(r, id, now, result, max);
            Counted(r', order, max) && 0 <= Left(r', order, max) < Left(r, order, max)
  {
    JobMeans(r, id, now, result, max);
    JobLowersRank(Redis.View(r), order, id, result, max);
  }

  lemma JobMirrors(lines: seq<SampleLog.Line>, s: State, id: Id, now: int, result: Option<Outcome>, order: seq<Id>,
                   max: int)
    returns (t: State)
    requires Mirrors(s.queue.redis, lines, s) && Redis.PopResult(s.queue.redis) == Some(id)
    requires Counted(s.queue.redis, order, max)
    requires result.Some? ==> id in s.sampleOf && result.value.row.sampleId == s.sampleOf[id]
    ensures Leads(s, JobSteps(now, result), t, max)
    ensures Mirrors(JobStep(s.queue.redis, id, now, result, max), lines + LinesOf(result), t)
    ensures Counted(t.queue.redis, order, max)
    ensures 0 <= Left(t.queue.redis, order, max) < Left(s.queue.redis, order, max)
  {
    t := JobRuns(s, id, now, result, max);
    JobMeans(s.queue.redis, id, now, result, max);
    JobLowersLeft(s.queue.redis, id, now, result, order, max);
    FileGrows(s.log, result);
  }

  /** The next job, if there is one. */
  method DoJob(queue: Redis.RedisQueue, file: SamplesFile, results: Results, round: nat, now: int,
               ghost order: seq<Id>, ghost s: State)
    returns (found: bool, ghost steps: seq<Step>, ghost t: State)
    requires Mirrors(queue.State(), file.lines, s) && AnswersFor(results, s.sampleOf)
    requires Counted(s.queue.redis, order, queue.maxAttempts)
    modifies queue, file
    ensures Mirrors(queue.State(), file.lines, t) && Leads(s, steps, t, queue.maxAttempts)
    ensures Counted(t.queue.redis, order, queue.maxAttempts)
    ensures found <==> old(queue.pending) != []
    ensures if found
            then 0 <= Left(t.queue.redis, order, queue.maxAttempts) < Left(s.queue.redis, order, queue.maxAttempts)
            else t == s && steps == [] && queue.pending == []
  {
    var job := queue.Dequeue("", now);
    if job.None? {
      return false, [], s;
    }
    var id := job.value.id;
    var result := results(round, id);
    Redis.DequeueMeans(old(queue.State()), id, "", now, queue.maxAttempts);
    t := JobMirrors(file.lines, s, id, now, result, order, queue.maxAttempts);
    Process(queue, file, id, result);
    return true, JobSteps(now, result), t;
  }

  /** Where the loop of a container is: what it did is a run of `PoolLog`, and the
      queue can still see so many claims and releases. */
  ghost predicate Along(redis: Redis.Redis, lines: seq<SampleLog.Line>, order: seq<Id>, max: int,
                        s: State, steps: seq<Step>, t: State, left: int) {
    && Mirrors(redis, lines, t) && Leads(s, steps, t, max)
    && Counted(redis, order, max) && left == Left(redis, order, max) >= 0
  }

  lemma AlongStarts(redis: Redis.Redis, lines: seq<SampleLog.Line>, order: seq<Id>, max: int, s: State)
    returns (left: int)
    requires Mirrors(redis, lines, s) && Counted(redis, order, max)
    ensures Along(redis, lines, order, max, s, [], s, left)
  {
    TotalRankNonNegative(Redis.View(redis), order, max);
    left := Left(redis, order, max);
  }

  /** One round: the next job, if there is one. */
  method Round(queue: Redis.RedisQueue, file: SamplesFile, results: Results, round: nat, now: int,
               ghost order: seq<Id>, ghost s: State, ghost steps: seq<Step>, ghost t: State, ghost left: int)
    returns (found: bool, ghost steps': seq<Step>, ghost t': State, ghost left': int)
    requires Along(queue.State(), file.lines, order, queue.maxAttempts, s, steps, t, left)
    requires AnswersFor(results, s.sampleOf)
    modifies queue, file
    ensures Along(queue.State(), file.lines, order, queue.maxAttempts, s, steps', t', left')
    ensures found <==> old(queue.pending) != []
    ensures if found then left' < left else left' == left && queue.pending == []
  {
    ghost var job: seq<Step>;
    found, job, t' := DoJob(queue, file, results, round, now, order, t);
    LeadsOn(s, steps, t, job, t', queue.maxAttempts);
    steps' := steps + job;
    left' := Left(t'.queue.redis, order, queue.maxAttempts);
  }

  ghost predicate Quiet(signals: nat -> bool, rounds: nat) { forall k: nat :: k < rounds ==> !signals(k) }

  lemma StillQuiet(signals: nat -> bool, round: nat)
    requires Quiet(signals, round) && !signals(round)
    ensures Quiet(signals, round + 1)
  {
  }

  /** `WorkerNode.run`: jobs until a signal or three empty rounds. Alone on the
      queue it comes to an end whatever the jobs return, and unless signalled
      with nothing waiting; what it did is a run of `PoolLog`. */
  method RunNode(queue: Redis.RedisQueue, file: SamplesFile, results: Results, signals: nat -> bool,
                 clock: nat -> int, ghost order: seq<Id>, ghost s: State)
    returns (processed: nat, stopped: bool, rounds: nat, ghost steps: seq<Step>, ghost t: State)
    requires Mirrors(queue.State(), file.lines, s) && AnswersFor(results, s.sampleOf)
    requires Counted(s.queue.redis, order, queue.maxAttempts)
    modifies queue, file
    ensures Mirrors(queue.State(), file.lines, t) && Leads(s, steps, t, queue.maxAttempts)
    ensures !stopped ==> queue.pending == []
    ensures Quiet(signals, rounds) && processed <= rounds
    ensures if stopped then signals(rounds) else rounds == processed + 3
    ensures Inv(s) ==> Inv(t)
  {
    steps, t, processed, stopped, rounds := [], s, 0, false, 0;
    var emptyRounds := 0;
    ghost var left := AlongStarts(queue.State(), file.lines, order, queue.maxAttempts, s);
    while emptyRounds < 3
      invariant Along(queue.State(), file.lines, order, queue.maxAttempts, s, steps, t, left)
      invariant emptyRounds <= 3 && (emptyRounds > 0 ==> queue.pending == [])
      invariant Quiet(signals, rounds) && rounds == processed + emptyRounds
      decreases left, 3 - emptyRounds
    {
      if signals(rounds) {
        stopped := true;
        break;
      }
      StillQuiet(signals, rounds);
      var found: bool;
      found, steps, t, left := Round(queue, file, results, rounds, clock(rounds), order, s, steps, t, left);
      if found {
        emptyRounds, processed := 0, processed + 1;
      } else {
        emptyRounds := emptyRounds + 1;
      }
      rounds := rounds + 1;
    }
    LeadsKeepsInv(s, steps, t, queue.maxAttempts);
  }
}
