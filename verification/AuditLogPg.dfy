/** The shared Postgres log: one table, one hash chain per run, and appends
    that hold a lock chosen by the run from reading the tail to committing. */
module AuditLogPg {
  import opened Wrappers
  import opened AuditLog

  type RunId = Option<string>

  /** The rows of one run, in table order. */
  function Project(table: seq<Row>, run: RunId): seq<Row> {
    if table == [] then []
    else
      var front := Project(table[..|table| - 1], run);
      if table[|table| - 1].runId == run then front + [table[|table| - 1]] else front
  }

  /** The rows `root_hash` and `verify_chain` select; no run id selects them all. */
  function Selected(table: seq<Row>, run: RunId): seq<Row> {
    if run.None? then table else Project(table, run)
  }

  /** A transaction of `append`: not started, holding the lock of its run, or
      holding it with the tail it read. */
  datatype Writer = Idle | Locked(run: RunId) | HasTail(run: RunId, prev: string)

  datatype State = State(table: seq<Row>, writers: seq<Writer>)

  datatype Step =
    | Lock(w: nat, run: RunId)
    | ReadTail(w: nat)
    | Commit(w: nat, event: Event)
    | Abort(w: nat)

  function RunOf(w: Writer): Option<RunId> {
    match w
    case Idle => None
    case Locked(run) => Some(run)
    case HasTail(run, _) => Some(run)
  }

  /** `key` is `_advisory_key`: a number per run, possibly shared by two runs. */
  ghost predicate Enabled(s: State, step: Step, key: RunId -> int) {
    step.w < |s.writers| &&
    match step
    case Lock(w, run) =>
      && s.writers[w].Idle?
      && forall v :: 0 <= v < |s.writers| && RunOf(s.writers[v]).Some? ==>
           key(RunOf(s.writers[v]).value) != key(run)
    case ReadTail(w) => s.writers[w].Locked?
    case Commit(w, event) =>
      && s.writers[w].HasTail? && event.runId == s.writers[w].run
      && forall row <- s.table :: row.eventId != event.eventId
    case Abort(w) => !s.writers[w].Idle?
  }

  function Next(c: Codec, s: State, step: Step): State
    requires step.w < |s.writers|
    requires step.ReadTail? ==> s.writers[step.w].Locked?
    requires step.Commit? ==> s.writers[step.w].HasTail?
  {
    match step
    case Lock(w, run) => s.(writers := s.writers[w := Locked(run)])
    case ReadTail(w) =>
      var run := s.writers[w].run;
      s.(writers := s.writers[w := HasTail(run, Tail(Project(s.table, run)))])
    case Commit(w, event) =>
      State(s.table + [NewRow(c, s.writers[w].prev, event)], s.writers[w := Idle])
    case Abort(w) => s.(writers := s.writers[w := Idle])
  }

  ghost predicate IsRun(c: Codec, s: State, steps: seq<Step>, key: RunId -> int)
    decreases |steps|
  {
    steps == [] || (Enabled(s, steps[0], key) && IsRun(c, Next(c, s, steps[0]), steps[1..], key))
  }

  function After(c: Codec, s: State, steps: seq<Step>, key: RunId -> int): State
    requires IsRun(c, s, steps, key)
    decreases |steps|
  {
    if steps == [] then s else After(c, Next(c, s, steps[0]), steps[1..], key)
  }

  class AuditLogPg {
    var table: seq<Row>
    const codec: Codec

    constructor (codec: Codec)
      ensures table == [] && this.codec == codec
    {
      table := [];
      this.codec := codec;
    }

    /** `WHERE run_id = ... ORDER BY ordinal DESC LIMIT 1`; NULL is a run of its own. */
    method ReadTail(run: RunId) returns (root: string)
      ensures root == Tail(Project(table, run))
    {
      var i := |table|;
      assert table[..|table|] == table;
      while i > 0
        invariant 0 <= i <= |table|
        invariant Project(table, run) == Project(table[..i], run)
      {
        assert table[..i][..i - 1] == table[..i - 1];
        if table[i - 1].runId == run {
          return table[i - 1].thisHash;
        }
        i := i - 1;
      }
      return GENESIS;
    }

    /** Without a run id the whole table is read. */
    method RootHash(run: RunId) returns (root: string)
      ensures root == Tail(Selected(table, run))
    {
      if run.None? {
        return if |table| > 0 then table[|table| - 1].thisHash else GENESIS;
      }
      root := ReadTail(run);
    }

    /** One whole transaction, under the lock of its run. */
    method Append(e: Event) returns (r: Result<string, string>)
      modifies this
      ensures r.Ok? <==> forall row <- old(table) :: row.eventId != e.eventId
      ensures r.Ok? ==>
                && table == old(table) + [NewRow(codec, Tail(Project(old(table), e.runId)), e)]
                && r.value == Tail(Project(table, e.runId))
                && Says(codec, table[|table| - 1], e)
                && table[|table| - 1].prevHash == Tail(Project(old(table), e.runId))
      ensures r.Err? ==> table == old(table)
    {
      if exists row <- table :: row.eventId == e.eventId {
        return Err("duplicate key value violates unique constraint");
      }
      var prev := ReadTail(e.runId);
      var row := NewRow(codec, prev, e);
      AppendProjects(table, row, e.runId);
      table := table + [row];
      return Ok(row.thisHash);
    }

    method VerifyChain(run: RunId) returns (check: Check)
      ensures check == Verify(codec, GENESIS, Selected(table, run))
      ensures check == Intact <==> ChainOk(codec, Selected(table, run))
    {
      check := Walk(codec, Selected(table, run));
      VerifyAcceptsChains(codec, Selected(table, run));
    }
  }

  // --- what every interleaving keeps ---

  /** At most one writer is inside the lock of a run. */
  ghost predicate OneWriterPerRun(s: State, key: RunId -> int) {
    forall v, w :: 0 <= v < w < |s.writers| && RunOf(s.writers[v]).Some? && RunOf(s.writers[w]).Some? ==>
      key(RunOf(s.writers[v]).value) != key(RunOf(s.writers[w]).value)
  }

  /** A tail read under the lock is still the tail. */
  ghost predicate TailsAreCurrent(s: State) {
    forall w :: 0 <= w < |s.writers| && s.writers[w].HasTail? ==>
      s.writers[w].prev == Tail(Project(s.table, s.writers[w].run))
  }

  ghost predicate ChainsOk(c: Codec, table: seq<Row>) {
    forall run :: ChainOk(c, Project(table, run))
  }

  ghost predicate Inv(c: Codec, s: State, key: RunId -> int) {
    OneWriterPerRun(s, key) && TailsAreCurrent(s) && ChainsOk(c, s.table)
  }

  lemma AppendProjects(table: seq<Row>, row: Row, run: RunId)
    ensures Project(table + [row], run) ==
            if row.runId == run then Project(table, run) + [row] else Project(table, run)
  {
    assert (table + [row])[..|table|] == table;
  }

  /** An append extends its own run's chain from its last row and leaves the
      rows of every other run as they were. */
  lemma CommitExtendsOneRun(c: Codec, table: seq<Row>, event: Event, run: RunId)
    requires RoundTrips(c) && ChainOk(c, Project(table, run))
    ensures var table' := table + [NewRow(c, Tail(Project(table, event.runId)), event)];
            && ChainOk(c, Project(table', run))
            && (run != event.runId ==> Project(table', run) == Project(table, run))
            && (run == event.runId ==>
                  Tail(Project(table', run)) == NewRow(c, Tail(Project(table, run)), event).thisHash)
  {
    var row := NewRow(c, Tail(Project(table, event.runId)), event);
    AppendProjects(table, row, run);
    var before := Project(table, run);
    assert (before + [row])[..|before|] == before;
  }

  /** The other writers inside a lock work for other runs. */
  lemma CommitKeepsTails(c: Codec, s: State, step: Step, key: RunId -> int)
    requires Inv(c, s, key) && Enabled(s, step, key) && step.Commit?
    ensures TailsAreCurrent(Next(c, s, step))
  {
    var s' := Next(c, s, step);
    var row := NewRow(c, s.writers[step.w].prev, step.event);
    forall w | 0 <= w < |s'.writers| && s'.writers[w].HasTail?
      ensures s'.writers[w].prev == Tail(Project(s'.table, s'.writers[w].run))
    {
      var run := s.writers[w].run;
      assert w != step.w && s'.writers[w] == s.writers[w];
      assert key(RunOf(s.writers[w]).value) != key(RunOf(s.writers[step.w]).value);
      AppendProjects(s.table, row, run);
    }
  }

  lemma CommitKeepsInv(c: Codec, s: State, step: Step, key: RunId -> int)
    requires RoundTrips(c) && Inv(c, s, key) && Enabled(s, step, key) && step.Commit?
    ensures Inv(c, Next(c, s, step), key)
  {
    CommitKeepsTails(c, s, step, key);
    forall r ensures ChainOk(c, Project(Next(c, s, step).table, r)) {
      CommitExtendsOneRun(c, s.table, step.event, r);
    }
  }

  lemma StepKeepsInv(c: Codec, s: State, step: Step, key: RunId -> int)
    requires RoundTrips(c) && Inv(c, s, key) && Enabled(s, step, key)
    ensures Inv(c, Next(c, s, step), key)
  {
    if step.Commit? {
      CommitKeepsInv(c, s, step, key);
    }
  }

  /** However the transactions of any number of writers interleave, every run's
      rows form their own chain from genesis. */
  lemma {:induction false} EveryRunVerifies(c: Codec, s: State, steps: seq<Step>, key: RunId -> int)
    requires RoundTrips(c) && Inv(c, s, key) && IsRun(c, s, steps, key)
    ensures Inv(c, After(c, s, steps, key), key)
    decreases |steps|
  {
    if steps != [] {
      StepKeepsInv(c, s, steps[0], key);
      EveryRunVerifies(c, Next(c, s, steps[0]), steps[1..], key);
    }
  }

  /** What the last append of a run returned. */
  ghost function LastAppend(c: Codec, s: State, steps: seq<Step>, key: RunId -> int, run: RunId): Option<string>
    requires IsRun(c, s, steps, key)
    decreases |steps|
  {
    if steps == [] then None
    else
      var later := LastAppend(c, Next(c, s, steps[0]), steps[1..], key, run);
      if later.Some? then later
      else if steps[0].Commit? && steps[0].event.runId == run
      then Some(NewRow(c, s.writers[steps[0].w].prev, steps[0].event).thisHash) else None
  }

  lemma {:induction false} RootIsLastAppend(c: Codec, s: State, steps: seq<Step>, key: RunId -> int, run: RunId)
    requires IsRun(c, s, steps, key)
    ensures Tail(Project(After(c, s, steps, key).table, run)) ==
            var last := LastAppend(c, s, steps, key, run);
            if last.Some? then last.value else Tail(Project(s.table, run))
    decreases |steps|
  {
    if steps != [] {
      var s' := Next(c, s, steps[0]);
      RootIsLastAppend(c, s', steps[1..], key, run);
      if steps[0].Commit? {
        AppendProjects(s.table, NewRow(c, s.writers[steps[0].w].prev, steps[0].event), run);
      }
    }
  }

  function CommittedBy(step: Step, run: RunId): seq<Event> {
    if step.Commit? && step.event.runId == run then [step.event] else []
  }

  /** The events committed for a run, in order. */
  ghost function Committed(c: Codec, s: State, steps: seq<Step>, key: RunId -> int, run: RunId): seq<Event>
    requires IsRun(c, s, steps, key)
    decreases |steps|
  {
    if steps == [] then []
    else
      CommittedBy(steps[0], run) + Committed(c, Next(c, s, steps[0]), steps[1..], key, run)
  }

  ghost predicate AllSay(c: Codec, rows: seq<Row>, events: seq<Event>) {
    |rows| == |events| && forall i :: 0 <= i < |rows| ==> Says(c, rows[i], events[i])
  }

  /** The rows of a run say what was committed for it, in order, and nothing else. */
  lemma {:induction false} RowsSayCommitted(c: Codec, s: State, steps: seq<Step>, key: RunId -> int, run: RunId,
                                            before: seq<Event>)
    requires IsRun(c, s, steps, key) && AllSay(c, Project(s.table, run), before)
    ensures AllSay(c, Project(After(c, s, steps, key).table, run), before + Committed(c, s, steps, key, run))
    decreases |steps|
  {
    if steps == [] {
      assert before + [] == before;
    } else {
      var more, later := CommittedBy(steps[0], run), Committed(c, Next(c, s, steps[0]), steps[1..], key, run);
      StepSaysCommitted(c, s, steps[0], key, run, before);
      RowsSayCommitted(c, Next(c, s, steps[0]), steps[1..], key, run, before + more);
      assert before + (more + later) == (before + more) + later;
    }
  }

  lemma StepSaysCommitted(c: Codec, s: State, step: Step, key: RunId -> int, run: RunId, before: seq<Event>)
    requires Enabled(s, step, key) && AllSay(c, Project(s.table, run), before)
    ensures AllSay(c, Project(Next(c, s, step).table, run), before + CommittedBy(step, run))
  {
    assert before + [] == before;
    if step.Commit? {
      AppendProjects(s.table, NewRow(c, s.writers[step.w].prev, step.event), run);
    }
  }

  function EmptyLog(writers: nat): State { State([], seq(writers, _ => Idle)) }

  /** From the empty log, whatever any number of writers do: every run's rows
      verify as their own chain, and its root is what its last append returned. */
  lemma EveryRunOfTheLogVerifies(c: Codec, writers: nat, steps: seq<Step>, key: RunId -> int, run: RunId)
    requires RoundTrips(c) && IsRun(c, EmptyLog(writers), steps, key)
    ensures var rows := Project(After(c, EmptyLog(writers), steps, key).table, run);
            && ChainOk(c, rows) && Verify(c, GENESIS, rows) == Intact
            && AllSay(c, rows, Committed(c, EmptyLog(writers), steps, key, run))
            && Tail(rows) == var last := LastAppend(c, EmptyLog(writers), steps, key, run);
                             if last.Some? then last.value else GENESIS
  {
    assert Inv(c, EmptyLog(writers), key);
    EveryRunVerifies(c, EmptyLog(writers), steps, key);
    RootIsLastAppend(c, EmptyLog(writers), steps, key, run);
    RowsSayCommitted(c, EmptyLog(writers), steps, key, run, []);
    assert [] + Committed(c, EmptyLog(writers), steps, key, run) == Committed(c, EmptyLog(writers), steps, key, run);
    VerifyAcceptsChains(c, Project(After(c, EmptyLog(writers), steps, key).table, run));
  }

  // --- one run per check ---

  ghost predicate SingleRun(table: seq<Row>) {
    forall i :: 0 <= i < |table| ==> table[i].runId == table[0].runId
  }

  lemma {:induction false} ProjectionOfSingleRun(table: seq<Row>, run: RunId)
    requires forall row <- table :: row.runId == run
    ensures Project(table, run) == table
  {
    if table != [] {
      ProjectionOfSingleRun(table[..|table| - 1], run);
      assert table[..|table| - 1] + [table[|table| - 1]] == table;
    }
  }

  lemma {:induction false} ProjectionOfOthers(table: seq<Row>, run: RunId)
    requires forall row <- table :: row.runId != run
    ensures Project(table, run) == []
  {
    if table != [] {
      ProjectionOfOthers(table[..|table| - 1], run);
    }
  }

  lemma {:induction false} PrefixProjection(c: Codec, table: seq<Row>, run: RunId, n: nat)
    requires n <= |table| && ChainOk(c, Project(table, run))
    ensures ChainOk(c, Project(table[..n], run))
  {
    if n < |table| {
      var front := Project(table[..|table| - 1], run);
      assert (front + [table[|table| - 1]])[..|front|] == front;
      PrefixProjection(c, table[..|table| - 1], run, n);
      assert table[..|table| - 1][..n] == table[..n];
    } else {
      assert table[..n] == table;
    }
  }

  lemma FirstOfRunStartsAtGenesis(c: Codec, table: seq<Row>, i: nat)
    requires i < |table| && ChainOk(c, Project(table, table[i].runId))
    requires forall k :: 0 <= k < i ==> table[k].runId != table[i].runId
    ensures table[i].prevHash == GENESIS
  {
    var run := table[i].runId;
    PrefixProjection(c, table, run, i + 1);
    assert table[..i + 1][..i] == table[..i];
    ProjectionOfOthers(table[..i], run);
    assert Project(table[..i + 1], run) == [table[i]];
    ChainLinks(c, [table[i]], 0);
  }

  lemma LateGenesisIsHit(c: Codec, table: seq<Row>, i: nat)
    requires 0 < i < |table| && ChainOk(c, table) && table[i].prevHash == GENESIS
    ensures HitsGenesis(c, table)
  {
    ChainLinks(c, table, i);
    ChainLinks(c, table, i - 1);
    assert table[i - 1] in table;
  }

  /** The first row of a second run starts from genesis again, so the whole
      table is not one chain. */
  lemma SecondRunBreaksTheChain(c: Codec, table: seq<Row>, i: nat)
    requires 0 < i < |table| && ChainsOk(c, table) && ChainOk(c, table)
    requires table[i].runId != table[0].runId
    requires forall k :: 0 <= k < i ==> table[k].runId == table[0].runId
    ensures HitsGenesis(c, table)
  {
    assert ChainOk(c, Project(table, table[i].runId));
    FirstOfRunStartsAtGenesis(c, table, i);
    LateGenesisIsHit(c, table, i);
  }

  lemma {:induction false} FirstOfAnotherRun(table: seq<Row>, n: nat) returns (i: nat)
    requires 0 < n < |table| && table[n].runId != table[0].runId
    ensures 0 < i < |table| && table[i].runId != table[0].runId
    ensures forall k :: 0 <= k < i ==> table[k].runId == table[0].runId
    decreases n
  {
    if k :| 0 < k < n && table[k].runId != table[0].runId {
      i := FirstOfAnotherRun(table, k);
    } else {
      i := n;
    }
  }

  /** `verify_chain(None)` walks the whole table. On a table the appends built it
      succeeds exactly when all rows are of one run, unless a row hashes to the
      genesis value. */
  lemma VerifyAllIffSingleRun(c: Codec, table: seq<Row>)
    requires ChainsOk(c, table) && !HitsGenesis(c, table)
    ensures ChainOk(c, table) <==> SingleRun(table)
  {
    if SingleRun(table) {
      if table != [] {
        ProjectionOfSingleRun(table, table[0].runId);
        assert ChainOk(c, Project(table, table[0].runId));
      }
    } else if ChainOk(c, table) {
      var n :| 0 <= n < |table| && table[n].runId != table[0].runId;
      var i := FirstOfAnotherRun(table, n);
      SecondRunBreaksTheChain(c, table, i);
    }
  }

  function Appending(e: Event): seq<Step> { [Lock(0, e.runId), ReadTail(0), Commit(0, e)] }

  lemma RunFirst(c: Codec, s: State, step: Step, rest: seq<Step>, key: RunId -> int)
    requires Enabled(s, step, key) && IsRun(c, Next(c, s, step), rest, key)
    ensures IsRun(c, s, [step] + rest, key)
    ensures After(c, s, [step] + rest, key) == After(c, Next(c, s, step), rest, key)
  {
    assert ([step] + rest)[1..] == rest;
  }

  lemma AppendingRuns(c: Codec, table: seq<Row>, e: Event, rest: seq<Step>, key: RunId -> int)
    requires forall row <- table :: row.eventId != e.eventId
    requires IsRun(c, State(table + [NewRow(c, Tail(Project(table, e.runId)), e)], [Idle]), rest, key)
    ensures IsRun(c, State(table, [Idle]), Appending(e) + rest, key)
    ensures After(c, State(table, [Idle]), Appending(e) + rest, key) ==
            After(c, State(table + [NewRow(c, Tail(Project(table, e.runId)), e)], [Idle]), rest, key)
  {
    var tail := Tail(Project(table, e.runId));
    var s1, s2 := State(table, [Locked(e.runId)]), State(table, [HasTail(e.runId, tail)]);
    assert Next(c, State(table, [Idle]), Lock(0, e.runId)) == s1 && Next(c, s1, ReadTail(0)) == s2;
    assert Next(c, s2, Commit(0, e)) == State(table + [NewRow(c, tail, e)], [Idle]);
    RunFirst(c, s2, Commit(0, e), rest, key);
    RunFirst(c, s1, ReadTail(0), [Commit(0, e)] + rest, key);
    RunFirst(c, State(table, [Idle]), Lock(0, e.runId), [ReadTail(0)] + ([Commit(0, e)] + rest), key);
    assert Appending(e) + rest == [Lock(0, e.runId)] + ([ReadTail(0)] + ([Commit(0, e)] + rest));
  }

  lemma OneRowVerifies(c: Codec, e: Event)
    requires RoundTrips(c)
    ensures Verify(c, GENESIS, [NewRow(c, GENESIS, e)]) == Intact
  {
    OneRowLog(c, e);
    VerifyAcceptsChains(c, [NewRow(c, GENESIS, e)]);
  }

  lemma SecondGenesisBreaks(c: Codec, x: Row, y: Row)
    requires Verify(c, GENESIS, [x]) == Intact && x.thisHash != GENESIS && y.prevHash == GENESIS
    ensures Verify(c, GENESIS, [x, y]) == Broken
  {
    assert [x, y][1..] == [y];
  }

  lemma TwoRunsProject(x: Row, y: Row)
    requires x.runId != y.runId
    ensures Project([x], y.runId) == [] && Project([x, y], x.runId) == [x] && Project([x, y], y.runId) == [y]
  {
    assert [] + [x] == [x] && [x] + [y] == [x, y] && [] + [y] == [y];
    AppendProjects([], x, x.runId);
    AppendProjects([], x, y.runId);
    AppendProjects([x], y, x.runId);
    AppendProjects([x], y, y.runId);
  }

  /** One append for each of two runs: both verify, and the whole table does not. */
  lemma TwoRunsAreNotOneChain(c: Codec, d: Event, e: Event, key: RunId -> int)
    requires RoundTrips(c) && d.eventId != e.eventId && d.runId != e.runId
    requires NewRow(c, GENESIS, d).thisHash != GENESIS
    ensures var steps := Appending(d) + (Appending(e) + []);
            && IsRun(c, State([], [Idle]), steps, key)
            && var table := After(c, State([], [Idle]), steps, key).table;
               && Verify(c, GENESIS, Project(table, d.runId)) == Intact
               && Verify(c, GENESIS, Project(table, e.runId)) == Intact
               && Verify(c, GENESIS, Selected(table, None)) == Broken
  {
    var x, y := NewRow(c, GENESIS, d), NewRow(c, GENESIS, e);
    TwoRunsProject(x, y);
    OneRowVerifies(c, d);
    OneRowVerifies(c, e);
    SecondGenesisBreaks(c, x, y);
    assert [x] + [y] == [x, y] && [] + [x] == [x];
    AppendingRuns(c, [x], e, [], key);
    AppendingRuns(c, [], d, Appending(e) + [], key);
  }
}
