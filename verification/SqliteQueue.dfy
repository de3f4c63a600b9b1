/** The queue kept in one SQLite table. Every method runs under the instance
    lock, so it is one atomic step on the rows. */
module SqliteQueue {
  import opened Wrappers
  import opened TaskQueue

  datatype Row = Row(
    payload: string, status: Status, claimedAt: Option<int>, claimToken: Option<string>,
    attempts: nat, lastError: Option<string>, createdAt: int, updatedAt: int)

  type Table = map<Id, Row>

  datatype Job = Job(id: Id, payload: string, claimToken: string, attempts: nat)

  function Insert(t: Table, id: Id, payload: string, now: int): Table {
    t[id := Row(payload, Pending, None, None, 0, None, now, now)]
  }

  /** The rows `ORDER BY created_at LIMIT 1` may return. */
  predicate Oldest(t: Table, id: Id) {
    && id in t && t[id].status == Pending
    && forall other <- t :: t[other].status == Pending ==> t[id].createdAt <= t[other].createdAt
  }

  predicate AnyPending(t: Table) { exists id <- t :: t[id].status == Pending }

  function ClaimRow(t: Table, id: Id, token: string, now: int): Table
    requires id in t
  {
    t[id := t[id].(status := Claimed, claimToken := Some(token), claimedAt := Some(now), updatedAt := now)]
  }

  function SetStatus(t: Table, id: Id, status: Status, now: int): Table {
    if id in t then t[id := t[id].(status := status, updatedAt := now)] else t
  }

  function NackRow(t: Table, id: Id, reason: string, max: int, now: int): Table {
    if id !in t then t
    else
      var attempts := t[id].attempts + 1;
      if attempts >= max then
        t[id := t[id].(status := Dead, attempts := attempts, lastError := Some(reason), updatedAt := now)]
      else
        t[id := t[id].(status := Pending, attempts := attempts, lastError := Some(reason),
                       claimToken := None, claimedAt := None, updatedAt := now)]
  }

  /** `status='claimed' AND claimed_at < cutoff`; a NULL stamp never matches. */
  predicate Stale(row: Row, cutoff: int) {
    row.status == Claimed && row.claimedAt.Some? && row.claimedAt.value < cutoff
  }

  function ReclaimRows(t: Table, cutoff: int, now: int): Table {
    map id | id in t ::
      if Stale(t[id], cutoff)
      then t[id].(status := Pending, claimToken := None, claimedAt := None, updatedAt := now)
      else t[id]
  }

  function StaleIds(t: Table, cutoff: int): set<Id> { set id | id in t && Stale(t[id], cutoff) }

  /** The abstract queue a table stands for. */
  function View(t: Table): Queue {
    map id | id in t :: Entry(t[id].status, t[id].attempts)
  }

  ghost predicate OthersKept(before: Table, after: Table, id: Id) {
    before.Keys == after.Keys && forall other <- before :: other != id ==> after[other] == before[other]
  }

  lemma {:induction false} OldestExists(t: Table, ids: set<Id>) returns (oldest: Id)
    requires ids != {} && ids <= t.Keys
    ensures oldest in ids && forall other <- ids :: t[oldest].createdAt <= t[other].createdAt
    decreases ids
  {
    var id :| id in ids;
    oldest := id;
    if ids != {id} {
      assert ids == ids - {id} + {id};
      var rest := OldestExists(t, ids - {id});
      oldest := if t[rest].createdAt < t[id].createdAt then rest else id;
    }
  }

  class SqliteQueue {
    var rows: Table
    const maxAttempts: int

    constructor (maxAttempts: int)
      ensures rows == map[] && this.maxAttempts == maxAttempts
    {
      rows := map[];
      this.maxAttempts := maxAttempts;
    }

    /** The row waits with no attempts behind every row that is no younger. */
    method Enqueue(id: Id, payload: string, now: int)
      modifies this
      ensures View(rows) == Apply(View(old(rows)), Op.Enqueue(id), maxAttempts)
      ensures id in rows && rows[id].payload == payload && rows[id].createdAt == now
      ensures rows[id].status == Pending && rows[id].attempts == 0
      ensures forall other <- old(rows) :: other != id ==> other in rows && rows[other] == old(rows)[other]
      ensures forall other :: other != id && Oldest(old(rows), other) && old(rows)[other].createdAt <= now ==>
                Oldest(rows, other)
    {
      rows := rows[id := Row(payload, Pending, None, None, 0, None, now, now)];
    }

    /** The claim is stamped with the clock reading, so that a reclaim frees it
        for exactly the cutoffs after it. */
    method Dequeue(token: string, now: int) returns (job: Option<Job>)
      modifies this
      ensures job.None? <==> !AnyPending(old(rows))
      ensures job.None? ==> rows == old(rows)
      ensures job.Some? ==>
                && Oldest(old(rows), job.value.id)
                && rows == ClaimRow(old(rows), job.value.id, token, now)
                && job.value.payload == old(rows)[job.value.id].payload
                && job.value.attempts == old(rows)[job.value.id].attempts
                && job.value.claimToken == token
      ensures job.Some? ==>
                && rows[job.value.id].status == Claimed && rows[job.value.id].claimToken == Some(token)
                && (forall cutoff :: Stale(rows[job.value.id], cutoff) <==> now < cutoff)
                && rows[job.value.id].createdAt == old(rows)[job.value.id].createdAt
                && rows[job.value.id].attempts == old(rows)[job.value.id].attempts
                && rows[job.value.id].payload == old(rows)[job.value.id].payload
                && OthersKept(old(rows), rows, job.value.id)
    {
      if !AnyPending(rows) {
        return None;
      }
      ghost var pending := set id | id in rows && rows[id].status == Pending;
      ghost var waiting :| waiting in rows && rows[waiting].status == Pending;
      assert waiting in pending;
      ghost var witnessId := OldestExists(rows, pending);
      assert Oldest(rows, witnessId);
      var id :| id in rows && Oldest(rows, id);
      var row := rows[id];
      rows := ClaimRow(rows, id, token, now);
      return Some(Job(id, row.payload, token, row.attempts));
    }

    method Ack(id: Id, now: int)
      modifies this
      ensures View(rows) == Apply(View(old(rows)), Op.Ack(id), maxAttempts)
      ensures rows == SetStatus(old(rows), id, Done, now)
      ensures OthersKept(old(rows), rows, id)
      ensures id in old(rows) ==> rows[id] == old(rows)[id].(status := Done, updatedAt := now)
    {
      if id in rows {
        rows := rows[id := rows[id].(status := Done, updatedAt := now)];
      }
    }

    method Nack(id: Id, reason: string, now: int)
      modifies this
      ensures View(rows) == Apply(View(old(rows)), Op.Nack(id), maxAttempts)
      ensures rows == NackRow(old(rows), id, reason, maxAttempts, now)
      ensures OthersKept(old(rows), rows, id)
      ensures id in old(rows) ==>
                && rows[id].payload == old(rows)[id].payload && rows[id].createdAt == old(rows)[id].createdAt
                && rows[id].attempts == old(rows)[id].attempts + 1 && rows[id].lastError == Some(reason)
                && (rows[id].status == Dead <==> old(rows)[id].attempts + 1 >= maxAttempts)
    {
      if id !in rows {
        return;
      }
      var attempts := rows[id].attempts + 1;
      if attempts >= maxAttempts {
        rows := rows[id := rows[id].(status := Dead, attempts := attempts,
                                     lastError := Some(reason), updatedAt := now)];
      } else {
        rows := rows[id := rows[id].(status := Pending, attempts := attempts,
                                     lastError := Some(reason), claimToken := None,
                                     claimedAt := None, updatedAt := now)];
      }
    }

    /** The item is handed out no more, with its payload, attempts and place in
        time as they were; an unknown id changes nothing. */
    method DeadLetter(id: Id, now: int)
      modifies this
      ensures View(rows) == Apply(View(old(rows)), Op.DeadLetter(id), maxAttempts)
      ensures !Oldest(rows, id) && rows.Keys == old(rows).Keys
      ensures id in old(rows) ==> rows[id] == old(rows)[id].(status := Dead, updatedAt := now)
      ensures forall other <- old(rows) :: other != id ==> rows[other] == old(rows)[other]
    {
      if id in rows {
        rows := rows[id := rows[id].(status := Dead, updatedAt := now)];
      }
    }

    /** Every claim stamped before the cutoff waits again, in its old place and
        with its attempts; nothing else changes. */
    method ReclaimStale(olderThan: int, now: int) returns (count: nat)
      modifies this
      ensures View(rows) == Apply(View(old(rows)), Op.Reclaim(StaleIds(old(rows), now - olderThan)), maxAttempts)
      ensures rows.Keys == old(rows).Keys
      ensures forall id <- rows ::
                if Stale(old(rows)[id], now - olderThan)
                then rows[id] == old(rows)[id].(status := Pending, claimToken := None, claimedAt := None,
                                                updatedAt := now)
                else rows[id] == old(rows)[id]
      ensures count == |set id | id in rows && rows[id].status != old(rows)[id].status|
    {
      var cutoff := now - olderThan;
      var stale := set id | id in rows && Stale(rows[id], cutoff);
      rows := map id | id in rows ::
        if id in stale
        then rows[id].(status := Pending, claimToken := None, claimedAt := None, updatedAt := now)
        else rows[id];
      count := |stale|;
      assert stale == set id | id in rows && rows[id].status != old(rows)[id].status;
    }
  }

  // --- the table refines the abstract queue, whatever ids the callers name ---

  lemma EveryOperationRefines(t: Table, id: Id, payload: string, reason: string, token: string,
                              cutoff: int, max: int, now: int)
    ensures View(Insert(t, id, payload, now)) == Apply(View(t), Op.Enqueue(id), max)
    ensures View(SetStatus(t, id, Done, now)) == Apply(View(t), Op.Ack(id), max)
    ensures View(SetStatus(t, id, Dead, now)) == Apply(View(t), Op.DeadLetter(id), max)
    ensures View(NackRow(t, id, reason, max, now)) == Apply(View(t), Op.Nack(id), max)
    ensures View(ReclaimRows(t, cutoff, now)) == Apply(View(t), Op.Reclaim(StaleIds(t, cutoff)), max)
    ensures Legal(View(t), Op.Reclaim(StaleIds(t, cutoff)))
    ensures Oldest(t, id) ==>
              && View(ClaimRow(t, id, token, now)) == Apply(View(t), Op.Claim(id), max)
              && Legal(View(t), Op.Claim(id))
  {
  }

  /** Resuming reclaims with no age limit: it frees every claim exactly when
      every claim was stamped strictly before the clock reading. */
  lemma ReclaimFreesEveryClaimIff(t: Table, now: int)
    ensures (forall id <- t :: ReclaimRows(t, now, now)[id].status != Claimed) <==>
            (forall id <- t :: t[id].status == Claimed ==>
               t[id].claimedAt.Some? && t[id].claimedAt.value < now)
  {
    var t' := ReclaimRows(t, now, now);
    assert forall id <- t :: t'[id].status == Claimed <==> t[id].status == Claimed && !Stale(t[id], now);
  }

  /** A claim is freed by exactly the reclaims whose cutoff is after its dequeue,
      and then the row waits as before it, with its payload and its attempts. */
  lemma ClaimIsFreedIff(t: Table, id: Id, token: string, claimed: int, cutoff: int, now: int)
    requires Oldest(t, id)
    ensures var t' := ReclaimRows(ClaimRow(t, id, token, claimed), cutoff, now);
            && id in t' && t'[id].status == (if claimed < cutoff then Pending else Claimed)
            && (claimed < cutoff ==> t'[id] == t[id].(claimToken := None, claimedAt := None, updatedAt := now))
  {
    assert ClaimRow(t, id, token, claimed)[id].claimedAt == Some(claimed);
  }

  /** A claim stamped at the clock reading of the resume stays claimed. */
  lemma FreshClaimIsNotFreed(id: Id, row: Row, now: int)
    requires row.status == Claimed && row.claimedAt == Some(now)
    ensures ReclaimRows(map[id := row], now, now)[id].status == Claimed
    ensures AnyPending(ReclaimRows(map[id := row], now, now)) == false
  {
    assert forall other <- map[id := row] :: other == id;
  }

  /** A retried row keeps its timestamp, so it goes ahead of every younger row. */
  lemma RetryGoesFirst(t: Table, id: Id, reason: string, max: int, now: int, next: Id)
    requires id in t && t[id].attempts + 1 < max
    requires forall other <- t :: other != id && t[other].status == Pending ==>
               t[id].createdAt < t[other].createdAt
    ensures Oldest(NackRow(t, id, reason, max, now), next) <==> next == id
  {
    var t' := NackRow(t, id, reason, max, now);
    assert t'[id].status == Pending;
  }

  // --- first in, first out ---

  datatype Event = Enqueued(id: Id, at: int) | Dequeued(id: Id) | Acked(id: Id) | DeadLettered(id: Id)

  function Step(t: Table, ev: Event): Table {
    match ev
    case Enqueued(id, at) => Insert(t, id, "", at)
    case Dequeued(id) => if id in t then ClaimRow(t, id, "", 0) else t
    case Acked(id) => SetStatus(t, id, Done, 0)
    case DeadLettered(id) => SetStatus(t, id, Dead, 0)
  }

  ghost predicate Straight(t: Table, ev: Event) {
    match ev
    case Enqueued(id, at) => id !in t && forall other <- t :: t[other].createdAt < at
    case Dequeued(id) => Oldest(t, id)
    case Acked(id) => id in t && t[id].status == Claimed
    case DeadLettered(id) => id in t && t[id].status == Claimed
  }

  function After(evs: seq<Event>): Table {
    if evs == [] then map[] else Step(After(evs[..|evs| - 1]), evs[|evs| - 1])
  }

  /** Runs without nack or reclaim whose enqueues have growing timestamps. */
  ghost predicate StraightRun(evs: seq<Event>) {
    evs == [] ||
    (StraightRun(evs[..|evs| - 1]) && Straight(After(evs[..|evs| - 1]), evs[|evs| - 1]))
  }

  function EnqueuedIds(evs: seq<Event>): seq<Id> {
    if evs == [] then []
    else EnqueuedIds(evs[..|evs| - 1]) + (if evs[|evs| - 1].Enqueued? then [evs[|evs| - 1].id] else [])
  }

  function DequeuedIds(evs: seq<Event>): seq<Id> {
    if evs == [] then []
    else DequeuedIds(evs[..|evs| - 1]) + (if evs[|evs| - 1].Dequeued? then [evs[|evs| - 1].id] else [])
  }

  /** The waiting rows are those enqueued and not yet handed out, in order of
      their timestamps. */
  ghost predicate InOrder(t: Table, enqueued: seq<Id>, handedOut: nat) {
    && handedOut <= |enqueued|
    && (forall id :: id in t <==> id in enqueued)
    && (forall i :: 0 <= i < |enqueued| ==>
          (t[enqueued[i]].status == Pending <==> handedOut <= i))
    && (forall i, j :: 0 <= i < j < |enqueued| ==>
          t[enqueued[i]].createdAt < t[enqueued[j]].createdAt)
  }

  lemma EnqueueKeepsOrder(t: Table, enqueued: seq<Id>, k: nat, id: Id, at: int)
    requires InOrder(t, enqueued, k)
    requires id !in t && forall other <- t :: t[other].createdAt < at
    ensures InOrder(Insert(t, id, "", at), enqueued + [id], k)
  {
    var t', e' := Insert(t, id, "", at), enqueued + [id];
    forall x ensures x in t' <==> x in e' {}
    forall i | 0 <= i < |enqueued| ensures e'[i] in t && e'[i] != id && t'[e'[i]] == t[enqueued[i]] {
      assert enqueued[i] in enqueued;
    }
  }

  lemma DequeueTakesTheNext(t: Table, enqueued: seq<Id>, k: nat, id: Id)
    requires InOrder(t, enqueued, k) && Oldest(t, id)
    ensures k < |enqueued| && id == enqueued[k]
    ensures InOrder(ClaimRow(t, id, "", 0), enqueued, k + 1)
  {
    var i :| 0 <= i < |enqueued| && enqueued[i] == id;
    assert t[enqueued[k]].status == Pending;
    assert i == k;
    var t' := ClaimRow(t, id, "", 0);
    forall j | 0 <= j < |enqueued|
      ensures enqueued[j] in t && t'[enqueued[j]].createdAt == t[enqueued[j]].createdAt
      ensures t'[enqueued[j]].status == Pending <==> k + 1 <= j
    {
      assert enqueued[j] in enqueued;
    }
  }

  lemma FinishKeepsOrder(t: Table, enqueued: seq<Id>, k: nat, id: Id, status: Status)
    requires InOrder(t, enqueued, k) && id in t && t[id].status == Claimed && status != Pending
    ensures InOrder(SetStatus(t, id, status, 0), enqueued, k)
  {
    var t' := SetStatus(t, id, status, 0);
    forall j | 0 <= j < |enqueued|
      ensures enqueued[j] in t && t'[enqueued[j]].createdAt == t[enqueued[j]].createdAt
      ensures t'[enqueued[j]].status == Pending <==> t[enqueued[j]].status == Pending
    {
      assert enqueued[j] in enqueued;
    }
  }

  lemma StepKeepsOrder(t: Table, enqueued: seq<Id>, k: nat, ev: Event)
    requires InOrder(t, enqueued, k) && Straight(t, ev)
    ensures InOrder(Step(t, ev), enqueued + (if ev.Enqueued? then [ev.id] else []),
                    k + if ev.Dequeued? then 1 else 0)
    ensures ev.Dequeued? ==> k < |enqueued| && ev.id == enqueued[k]
  {
    assert enqueued + [] == enqueued;
    match ev
    case Enqueued(id, at) => EnqueueKeepsOrder(t, enqueued, k, id, at);
    case Dequeued(id) => DequeueTakesTheNext(t, enqueued, k, id);
    case Acked(id) => FinishKeepsOrder(t, enqueued, k, id, Done);
    case DeadLettered(id) => FinishKeepsOrder(t, enqueued, k, id, Dead);
  }

  lemma OneMore(evs: seq<Event>, ev: Event)
    ensures After(evs + [ev]) == Step(After(evs), ev)
    ensures EnqueuedIds(evs + [ev]) == EnqueuedIds(evs) + if ev.Enqueued? then [ev.id] else []
    ensures DequeuedIds(evs + [ev]) == DequeuedIds(evs) + if ev.Dequeued? then [ev.id] else []
  {
    assert (evs + [ev])[..|evs|] == evs;
  }

  lemma PrefixGrows(front: seq<Id>, all: seq<Id>, ev: Event)
    requires front <= all && (ev.Dequeued? ==> |front| < |all| && ev.id == all[|front|])
    ensures front + (if ev.Dequeued? then [ev.id] else []) <= all + (if ev.Enqueued? then [ev.id] else [])
  {
  }

  lemma StepKeepsPrefix(evs: seq<Event>, ev: Event)
    requires DequeuedIds(evs) <= EnqueuedIds(evs) && Straight(After(evs), ev)
    requires InOrder(After(evs), EnqueuedIds(evs), |DequeuedIds(evs)|)
    ensures DequeuedIds(evs + [ev]) <= EnqueuedIds(evs + [ev])
    ensures InOrder(After(evs + [ev]), EnqueuedIds(evs + [ev]), |DequeuedIds(evs + [ev])|)
  {
    OneMore(evs, ev);
    StepKeepsOrder(After(evs), EnqueuedIds(evs), |DequeuedIds(evs)|, ev);
    PrefixGrows(DequeuedIds(evs), EnqueuedIds(evs), ev);
  }

  /** Items leave in the order they were enqueued, none twice and none skipped. */
  lemma {:induction false} FirstInFirstOut(evs: seq<Event>)
    requires StraightRun(evs)
    ensures DequeuedIds(evs) <= EnqueuedIds(evs)
    ensures InOrder(After(evs), EnqueuedIds(evs), |DequeuedIds(evs)|)
  {
    if evs != [] {
      var front, ev := evs[..|evs| - 1], evs[|evs| - 1];
      FirstInFirstOut(front);
      StepKeepsPrefix(front, ev);
      assert evs == front + [ev];
    }
  }
}
