/** The abstract claim-lease queue: a status and an attempt count per item.
    Both backends refine it, and the run loop is proved over it. */
module TaskQueue {
  type Id = string

  datatype Status = Pending | Claimed | Done | Dead

  datatype Entry = Entry(status: Status, attempts: nat)

  type Queue = map<Id, Entry>

  datatype Op =
    | Enqueue(id: Id)
    | Claim(id: Id)
    | Ack(id: Id)
    | Nack(id: Id)
    | DeadLetter(id: Id)
    | Reclaim(ids: set<Id>)

  /** How many attempts an item can fail before it is dead: a limit below one
      still lets the first attempt run. */
  function Cap(max: int): (cap: nat)
    ensures cap >= 1 && cap >= max
  {
    if max < 1 then 1 else max
  }

  function AfterNack(e: Entry, max: int): Entry {
    Entry(if e.attempts + 1 >= max then Dead else Pending, e.attempts + 1)
  }

  /** One queue operation. An unknown id changes nothing, and enqueueing a
      known id starts it again from nothing. */
  function Apply(q: Queue, op: Op, max: int): Queue {
    match op
    case Enqueue(id) => q[id := Entry(Pending, 0)]
    case Claim(id) => if id in q then q[id := q[id].(status := Claimed)] else q
    case Ack(id) => if id in q then q[id := q[id].(status := Done)] else q
    case Nack(id) => if id in q then q[id := AfterNack(q[id], max)] else q
    case DeadLetter(id) => if id in q then q[id := q[id].(status := Dead)] else q
    case Reclaim(ids) =>
      map id | id in q :: if id in ids then q[id].(status := Pending) else q[id]
  }

  /** What the callers of the queue keep to: a new item has a new id, only a
      pending item is claimed, and only its holder finishes an item. */
  ghost predicate Legal(q: Queue, op: Op) {
    match op
    case Enqueue(id) => id !in q
    case Claim(id) => id in q && q[id].status == Pending
    case Ack(id) => id in q && q[id].status == Claimed
    case Nack(id) => id in q && q[id].status == Claimed
    case DeadLetter(id) => id in q && q[id].status == Claimed
    case Reclaim(ids) => forall id <- ids :: id in q && q[id].status == Claimed
  }

  function Exec(q: Queue, ops: seq<Op>, max: int): Queue {
    if ops == [] then q
    else Apply(Exec(q, ops[..|ops| - 1], max), ops[|ops| - 1], max)
  }

  ghost predicate LegalRun(q: Queue, ops: seq<Op>, max: int) {
    ops == [] ||
    (LegalRun(q, ops[..|ops| - 1], max) &&
     Legal(Exec(q, ops[..|ops| - 1], max), ops[|ops| - 1]))
  }

  predicate Concerns(op: Op, id: Id) {
    if op.Reclaim? then id in op.ids else op.id == id
  }

  /** How many operations of one kind a run applied to one item. */
  function Count(ops: seq<Op>, id: Id, kind: Op -> bool): nat {
    if ops == [] then 0
    else Count(ops[..|ops| - 1], id, kind) +
         (if kind(ops[|ops| - 1]) && Concerns(ops[|ops| - 1], id) then 1 else 0)
  }

  function Claims(ops: seq<Op>, id: Id): nat { Count(ops, id, (op: Op) => op.Claim?) }

  function Reclaims(ops: seq<Op>, id: Id): nat { Count(ops, id, (op: Op) => op.Reclaim?) }

  function DeadLetters(ops: seq<Op>, id: Id): nat { Count(ops, id, (op: Op) => op.DeadLetter?) }

  // --- what every run keeps ---

  ghost predicate Bounded(q: Queue, max: int) {
    forall id <- q ::
      if q[id].status == Dead then q[id].attempts <= Cap(max) else q[id].attempts < Cap(max)
  }

  lemma ApplyKeepsBounded(q: Queue, op: Op, max: int)
    requires Bounded(q, max) && Legal(q, op)
    ensures Bounded(Apply(q, op, max), max)
  {
  }

  /** Every claim of an item is accounted for: it ended in a counted failed
      attempt, in a reclaim, in a dead letter, or it is the claim that is
      still held or was acknowledged. */
  lemma {:induction false} ClaimsAccountedFor(ops: seq<Op>, id: Id, max: int)
    requires LegalRun(map[], ops, max)
    ensures Bounded(Exec(map[], ops, max), max)
    ensures id !in Exec(map[], ops, max) ==>
              Claims(ops, id) == Reclaims(ops, id) == DeadLetters(ops, id) == 0
    ensures var q := Exec(map[], ops, max);
            id in q ==>
              && Claims(ops, id) == q[id].attempts + Reclaims(ops, id) + DeadLetters(ops, id)
                                    + (if q[id].status in {Claimed, Done} then 1 else 0)
              && q[id].attempts + DeadLetters(ops, id) <= Cap(max)
              && (q[id].status != Dead ==> DeadLetters(ops, id) == 0)
  {
    if ops != [] {
      ClaimsAccountedFor(ops[..|ops| - 1], id, max);
      ApplyKeepsBounded(Exec(map[], ops[..|ops| - 1], max), ops[|ops| - 1], max);
    }
  }

  /** An item is handed out at most `max_attempts` times between reclaims. */
  lemma ClaimsAreBounded(ops: seq<Op>, id: Id, max: int)
    requires LegalRun(map[], ops, max)
    ensures Claims(ops, id) <= Cap(max) + Reclaims(ops, id)
  {
    ClaimsAccountedFor(ops, id, max);
  }

  function Nacks(ops: seq<Op>, id: Id): nat { Count(ops, id, (op: Op) => op.Nack?) }

  /** The attempts of an item are the nacks it got, and it is dead exactly when it
      was dead-lettered or got as many as there may be attempts, not one fewer. */
  lemma {:induction false} DeadIffExhausted(ops: seq<Op>, id: Id, max: int)
    requires LegalRun(map[], ops, max)
    ensures var q := Exec(map[], ops, max);
            if id in q then
              && q[id].attempts == Nacks(ops, id)
              && (q[id].status == Dead <==>
                    DeadLetters(ops, id) > 0 || Nacks(ops, id) == if max < 1 then 1 else max)
            else Nacks(ops, id) == DeadLetters(ops, id) == 0
  {
    ClaimsAccountedFor(ops, id, max);
    if ops != [] {
      var front, op := ops[..|ops| - 1], ops[|ops| - 1];
      DeadIffExhausted(front, id, max);
      ClaimsAccountedFor(front, id, max);
      assert Bounded(Exec(map[], front, max), max);
    }
  }

  // --- draining terminates ---

  /** The number of claims and releases an item can still see. */
  function Rank(e: Entry, max: int): int {
    match e.status
    case Pending => 2 * (Cap(max) - e.attempts)
    case Claimed => 2 * (Cap(max) - e.attempts) - 1
    case _ => 0
  }

  function TotalRank(q: Queue, ids: seq<Id>, max: int): int
    requires forall id <- ids :: id in q
  {
    if ids == [] then 0
    else TotalRank(q, ids[..|ids| - 1], max) + Rank(q[ids[|ids| - 1]], max)
  }

  ghost predicate Lists(ids: seq<Id>, q: Queue) {
    && (forall id <- q :: id in ids)
    && (forall id <- ids :: id in q)
    && (forall i, j :: 0 <= i < j < |ids| ==> ids[i] != ids[j])
  }

  lemma {:induction false} TotalRankUnchanged(q: Queue, q': Queue, ids: seq<Id>, max: int)
    requires forall id <- ids :: id in q && id in q' && Rank(q[id], max) == Rank(q'[id], max)
    ensures TotalRank(q, ids, max) == TotalRank(q', ids, max)
  {
    if ids != [] {
      TotalRankUnchanged(q, q', ids[..|ids| - 1], max);
    }
  }

  lemma {:induction false} TotalRankUpdate(q: Queue, ids: seq<Id>, id: Id, e: Entry, max: int)
    requires forall x <- ids :: x in q
    requires id in ids
    requires forall i, j :: 0 <= i < j < |ids| ==> ids[i] != ids[j]
    ensures TotalRank(q[id := e], ids, max) ==
            TotalRank(q, ids, max) - Rank(q[id], max) + Rank(e, max)
  {
    var front := ids[..|ids| - 1];
    if ids[|ids| - 1] == id {
      TotalRankUnchanged(q, q[id := e], front, max);
    } else {
      TotalRankUpdate(q, front, id, e, max);
    }
  }

  lemma OneMore(c: int, n: int)
    ensures c * (n + 1) == c * n + c
  {
  }

  lemma {:induction false} TotalRankNonNegative(q: Queue, ids: seq<Id>, max: int)
    requires forall id <- ids :: id in q
    requires Bounded(q, max)
    ensures 0 <= TotalRank(q, ids, max) <= 2 * Cap(max) * |ids|
  {
    if ids != [] {
      TotalRankNonNegative(q, ids[..|ids| - 1], max);
      assert ids[|ids| - 1] in ids;
      assert 0 <= Rank(q[ids[|ids| - 1]], max) <= 2 * Cap(max);
      OneMore(2 * Cap(max), |ids| - 1);
    }
  }

  predicate IsWork(op: Op) { op.Claim? || op.Ack? || op.Nack? || op.DeadLetter? }

  lemma WorkLowersTotalRank(q: Queue, ids: seq<Id>, op: Op, max: int)
    requires Lists(ids, q) && Bounded(q, max) && Legal(q, op) && IsWork(op)
    ensures Lists(ids, Apply(q, op, max))
    ensures TotalRank(Apply(q, op, max), ids, max) < TotalRank(q, ids, max)
  {
    var q' := Apply(q, op, max);
    TotalRankUpdate(q, ids, op.id, q'[op.id], max);
    assert q' == q[op.id := q'[op.id]];
  }

  /** With nothing enqueued or reclaimed, the workers make at most
      2 * max_attempts queue operations per item before nothing is left. */
  lemma {:induction false} WorkTerminates(q: Queue, ids: seq<Id>, ops: seq<Op>, max: int)
    requires Lists(ids, q) && Bounded(q, max) && LegalRun(q, ops, max)
    requires forall op <- ops :: IsWork(op)
    ensures Lists(ids, Exec(q, ops, max)) && Bounded(Exec(q, ops, max), max)
    ensures |ops| + TotalRank(Exec(q, ops, max), ids, max) <= TotalRank(q, ids, max)
    ensures |ops| <= 2 * Cap(max) * |ids|
  {
    if ops != [] {
      var front, op := ops[..|ops| - 1], ops[|ops| - 1];
      WorkTerminates(q, ids, front, max);
      var q1 := Exec(q, front, max);
      ApplyKeepsBounded(q1, op, max);
      WorkLowersTotalRank(q1, ids, op, max);
      TotalRankNonNegative(Exec(q, ops, max), ids, max);
    }
    TotalRankNonNegative(q, ids, max);
  }
}
