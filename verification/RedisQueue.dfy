/** The queue kept in four Redis structures: a list of waiting ids, a hash per
    item, a scored set of claims and a set of dead ids. A pipeline is one
    atomic step; `RPOP` and the pipeline that stamps the claim are two. */
module RedisQueue {
  import opened Wrappers
  import opened TaskQueue

  datatype Hash = Hash(
    status: Status, payload: Option<string>, attempts: nat, claimToken: string, lastError: string)

  /** `pending[0]` is the end `LPUSH` adds to; `RPOP` takes the last element. */
  datatype Redis = Redis(pending: seq<Id>, items: map<Id, Hash>, claimed: map<Id, int>, dead: set<Id>)

  datatype Job = Job(id: Id, payload: Option<string>, claimToken: string, attempts: nat)

  /** `HSET` creates the hash it cannot find, and a field nobody wrote reads
      as missing. */
  function Fields(r: Redis, id: Id): Hash {
    if id in r.items then r.items[id] else Hash(Pending, None, 0, "", "")
  }

  function EnqueueStep(r: Redis, id: Id, payload: string): Redis {
    r.(items := r.items[id := Fields(r, id).(status := Pending, payload := Some(payload), attempts := 0)],
       pending := [id] + r.pending)
  }

  function PopResult(r: Redis): Option<Id> {
    if r.pending == [] then None else Some(r.pending[|r.pending| - 1])
  }

  function PopStep(r: Redis): Redis {
    if r.pending == [] then r else r.(pending := r.pending[..|r.pending| - 1])
  }

  function StampStep(r: Redis, id: Id, token: string, now: int): Redis {
    r.(items := r.items[id := Fields(r, id).(status := Claimed, claimToken := token)],
       claimed := r.claimed[id := now])
  }

  function AckStep(r: Redis, id: Id): Redis {
    r.(items := r.items[id := Fields(r, id).(status := Done)], claimed := r.claimed - {id})
  }

  function DeadStep(r: Redis, id: Id): Redis {
    r.(items := r.items[id := Fields(r, id).(status := Dead)],
       claimed := r.claimed - {id}, dead := r.dead + {id})
  }

  predicate Exhausts(r: Redis, id: Id, max: int) { Fields(r, id).attempts + 1 >= max }

  function NackStep(r: Redis, id: Id, reason: string, max: int): Redis {
    var h := Fields(r, id).(attempts := Fields(r, id).attempts + 1, lastError := reason);
    if Exhausts(r, id, max) then
      r.(items := r.items[id := h.(status := Dead)], claimed := r.claimed - {id}, dead := r.dead + {id})
    else
      r.(items := r.items[id := h.(status := Pending, claimToken := "")],
         claimed := r.claimed - {id}, pending := [id] + r.pending)
  }

  /** One turn of the `reclaim_stale` loop. */
  function ReleaseStep(r: Redis, id: Id): Redis {
    r.(items := r.items[id := Fields(r, id).(status := Pending, claimToken := "")],
       claimed := r.claimed - {id}, pending := [id] + r.pending)
  }

  function ReleaseAll(r: Redis, ids: seq<Id>): Redis {
    if ids == [] then r else ReleaseStep(ReleaseAll(r, ids[..|ids| - 1]), ids[|ids| - 1])
  }

  /** The abstract queue the hashes stand for. */
  function View(r: Redis): Queue {
    map id | id in r.items :: Entry(r.items[id].status, r.items[id].attempts)
  }

  // --- the representation invariant, and exactly which calls keep it ---

  ghost predicate RepOk(r: Redis) {
    && (forall i, j :: 0 <= i < j < |r.pending| ==> r.pending[i] != r.pending[j])
    && (forall id <- r.pending :: id in r.items && r.items[id].status == Pending)
    && (forall id :: id in r.claimed <==> id in r.items && r.items[id].status == Claimed)
    && (forall id :: id in r.dead <==> id in r.items && r.items[id].status == Dead)
  }

  /** Items whose hash says pending although no list entry can hand them out. */
  function Orphans(r: Redis): set<Id> {
    set id | id in r.items && r.items[id].status == Pending && id !in r.pending
  }

  function DoneIds(r: Redis): set<Id> { set id | id in r.items && r.items[id].status == Done }

  function PendingIds(r: Redis): set<Id> { set id | id in r.pending }

  lemma EveryItemIsInOnePlace(r: Redis)
    requires RepOk(r)
    ensures r.items.Keys == PendingIds(r) + r.claimed.Keys + r.dead + DoneIds(r) + Orphans(r)
    ensures PendingIds(r) !! r.claimed.Keys !! r.dead !! DoneIds(r) !! Orphans(r)
  {
  }

  lemma EnqueueKeepsRepIff(r: Redis, id: Id, payload: string)
    requires RepOk(r)
    ensures RepOk(EnqueueStep(r, id, payload)) <==>
            id !in r.pending && id !in r.claimed && id !in r.dead
  {
    PushKeepsOrder(r.pending, id);
  }

  lemma StampKeepsRepIff(r: Redis, id: Id, token: string, now: int)
    requires RepOk(r)
    ensures RepOk(StampStep(r, id, token, now)) <==> id !in r.pending && id !in r.dead
  {
    var r' := StampStep(r, id, token, now);
    assert r'.items[id].status == Claimed;
  }

  lemma AckKeepsRepIff(r: Redis, id: Id)
    requires RepOk(r)
    ensures RepOk(AckStep(r, id)) <==> id !in r.pending && id !in r.dead
  {
    var r' := AckStep(r, id);
    assert r'.items[id].status == Done;
  }

  lemma DeadLetterKeepsRepIff(r: Redis, id: Id)
    requires RepOk(r)
    ensures RepOk(DeadStep(r, id)) <==> id !in r.pending
  {
    var r' := DeadStep(r, id);
    assert r'.items[id].status == Dead;
  }

  lemma ReleaseKeepsRepIff(r: Redis, id: Id)
    requires RepOk(r)
    ensures RepOk(ReleaseStep(r, id)) <==> id !in r.pending && id !in r.dead
  {
    PushKeepsOrder(r.pending, id);
    var r' := ReleaseStep(r, id);
    assert r'.items[id].status == Pending;
  }

  lemma NackKeepsRepIff(r: Redis, id: Id, reason: string, max: int)
    requires RepOk(r)
    ensures RepOk(NackStep(r, id, reason, max)) <==>
            id !in r.pending && (Exhausts(r, id, max) || id !in r.dead)
  {
    PushKeepsOrder(r.pending, id);
    var r' := NackStep(r, id, reason, max);
    assert r'.items[id].status == if Exhausts(r, id, max) then Dead else Pending;
  }

  lemma PushKeepsOrder(s: seq<Id>, id: Id)
    requires forall i, j :: 0 <= i < j < |s| ==> s[i] != s[j]
    ensures (forall i, j :: 0 <= i < j < |[id] + s| ==> ([id] + s)[i] != ([id] + s)[j]) <==> id !in s
  {
    var t := [id] + s;
    if id in s {
      var i :| 0 <= i < |s| && s[i] == id;
      assert t[0] == t[i + 1];
    }
  }

  lemma HashWriteViews(r: Redis, r': Redis, id: Id, h: Hash)
    requires r'.items == r.items[id := h]
    ensures View(r') == View(r)[id := Entry(h.status, h.attempts)]
  {
  }

  lemma EnqueueSimulates(r: Redis, id: Id, payload: string, max: int)
    ensures View(EnqueueStep(r, id, payload)) == Apply(View(r), Op.Enqueue(id), max)
  {
    HashWriteViews(r, EnqueueStep(r, id, payload), id, EnqueueStep(r, id, payload).items[id]);
  }

  lemma StampSimulatesIffKnown(r: Redis, id: Id, token: string, now: int, max: int)
    ensures View(StampStep(r, id, token, now)) == Apply(View(r), Op.Claim(id), max) <==> id in r.items
  {
    HashWriteViews(r, StampStep(r, id, token, now), id, StampStep(r, id, token, now).items[id]);
    assert id in View(StampStep(r, id, token, now));
  }

  lemma AckSimulatesIffKnown(r: Redis, id: Id, max: int)
    ensures View(AckStep(r, id)) == Apply(View(r), Op.Ack(id), max) <==> id in r.items
  {
    HashWriteViews(r, AckStep(r, id), id, AckStep(r, id).items[id]);
    assert id in View(AckStep(r, id));
  }

  lemma NackSimulatesIffKnown(r: Redis, id: Id, reason: string, max: int)
    ensures View(NackStep(r, id, reason, max)) == Apply(View(r), Op.Nack(id), max) <==> id in r.items
  {
    HashWriteViews(r, NackStep(r, id, reason, max), id, NackStep(r, id, reason, max).items[id]);
    assert id in View(NackStep(r, id, reason, max));
  }

  lemma DeadLetterSimulatesIffKnown(r: Redis, id: Id, max: int)
    ensures View(DeadStep(r, id)) == Apply(View(r), Op.DeadLetter(id), max) <==> id in r.items
  {
    HashWriteViews(r, DeadStep(r, id), id, DeadStep(r, id).items[id]);
    assert id in View(DeadStep(r, id));
  }

  /** Finishing an item acts on the hashes as the abstract queue does exactly
      when the id is known: an unknown one is a no-op there, but here the
      write leaves a hash behind. */
  lemma FinishSimulatesIffKnown(r: Redis, id: Id, reason: string, max: int)
    ensures View(AckStep(r, id)) == Apply(View(r), Op.Ack(id), max) <==> id in r.items
    ensures View(NackStep(r, id, reason, max)) == Apply(View(r), Op.Nack(id), max) <==> id in r.items
    ensures View(DeadStep(r, id)) == Apply(View(r), Op.DeadLetter(id), max) <==> id in r.items
  {
    AckSimulatesIffKnown(r, id, max);
    NackSimulatesIffKnown(r, id, reason, max);
    DeadLetterSimulatesIffKnown(r, id, max);
  }

  lemma ReleaseSimulatesIffKnown(r: Redis, id: Id, max: int)
    ensures View(ReleaseStep(r, id)) == Apply(View(r), Op.Reclaim({id}), max) <==> id in r.items
  {
    HashWriteViews(r, ReleaseStep(r, id), id, ReleaseStep(r, id).items[id]);
    assert id in View(ReleaseStep(r, id));
    if id in r.items {
      var released, reclaimed := View(ReleaseStep(r, id)), Apply(View(r), Op.Reclaim({id}), max);
      assert forall x <- r.items :: x in released && released[x] == reclaimed[x];
    }
  }

  lemma ReleaseKeepsOrphans(r: Redis, id: Id)
    requires RepOk(r) && id in r.claimed
    ensures RepOk(ReleaseStep(r, id)) && Orphans(ReleaseStep(r, id)) == Orphans(r)
  {
    ReleaseKeepsRepIff(r, id);
  }

  lemma {:induction false} ReclaimLoopKeepsRep(r: Redis, ids: seq<Id>)
    requires RepOk(r)
    requires forall id <- ids :: id in r.claimed
    requires forall i, j :: 0 <= i < j < |ids| ==> ids[i] != ids[j]
    ensures RepOk(ReleaseAll(r, ids)) && Orphans(ReleaseAll(r, ids)) == Orphans(r)
    ensures forall id :: id in ReleaseAll(r, ids).claimed <==> id in r.claimed && id !in ids
  {
    if ids != [] {
      var front, last := ids[..|ids| - 1], ids[|ids| - 1];
      ReclaimLoopKeepsRep(r, front);
      assert last in r.claimed && last !in front;
      ReleaseKeepsOrphans(ReleaseAll(r, front), last);
      assert forall id :: id in ids <==> id in front || id == last;
    }
  }

  lemma ReclaimOneMore(q: Queue, ids: set<Id>, id: Id, max: int)
    ensures Apply(Apply(q, Op.Reclaim(ids), max), Op.Reclaim({id}), max) ==
            Apply(q, Op.Reclaim(ids + {id}), max)
  {
  }

  lemma {:induction false} ReclaimLoopViews(r: Redis, ids: seq<Id>, max: int)
    requires forall id <- ids :: id in r.items
    ensures View(ReleaseAll(r, ids)) == Apply(View(r), Op.Reclaim(set id | id in ids), max)
  {
    if ids != [] {
      var front, last := ids[..|ids| - 1], ids[|ids| - 1];
      ReclaimLoopViews(r, front, max);
      assert last in Apply(View(r), Op.Reclaim(set id | id in front), max);
      assert last in View(ReleaseAll(r, front));
      ReleaseSimulatesIffKnown(ReleaseAll(r, front), last, max);
      assert (set id | id in ids) == (set id | id in front) + {last};
      ReclaimOneMore(View(r), (set id | id in front), last, max);
    }
  }

  /** The whole reclaim loop keeps the four structures consistent and is one
      abstract reclaim of the stale claims; orphans stay where they are. */
  lemma ReclaimLoopRefines(r: Redis, ids: seq<Id>, max: int)
    requires RepOk(r)
    requires forall id <- ids :: id in r.claimed
    requires forall i, j :: 0 <= i < j < |ids| ==> ids[i] != ids[j]
    ensures RepOk(ReleaseAll(r, ids)) && Orphans(ReleaseAll(r, ids)) == Orphans(r)
    ensures ReleaseAll(r, ids).claimed.Keys == r.claimed.Keys - (set id | id in ids)
    ensures View(ReleaseAll(r, ids)) == Apply(View(r), Op.Reclaim(set id | id in ids), max)
  {
    ReclaimLoopKeepsRep(r, ids);
    ReclaimLoopViews(r, ids, max);
  }

  /** A retried item goes behind everything that waits. */
  lemma RetryGoesLast(r: Redis, id: Id, reason: string, max: int)
    requires RepOk(r) && id in r.claimed && !Exhausts(r, id, max) && r.pending != []
    ensures NackStep(r, id, reason, max).pending[0] == id
    ensures PopResult(NackStep(r, id, reason, max)) == PopResult(r) != Some(id)
  {
    assert r.pending[|r.pending| - 1] in r.pending;
  }

  ghost predicate OthersKept(before: map<Id, Hash>, after: map<Id, Hash>, id: Id) {
    after.Keys == before.Keys + {id} && forall other <- before :: other != id ==> after[other] == before[other]
  }

  lemma EnqueueKeepsOrphans(r: Redis, id: Id, payload: string)
    requires RepOk(r) && id !in r.items
    ensures RepOk(EnqueueStep(r, id, payload)) && Orphans(EnqueueStep(r, id, payload)) == Orphans(r)
  {
    EnqueueKeepsRepIff(r, id, payload);
  }

  lemma AckMeans(r: Redis, id: Id, max: int)
    ensures var r' := AckStep(r, id);
            && (id in r.items ==> View(r') == Apply(View(r), Op.Ack(id), max))
            && (RepOk(r) && id in r.claimed ==> RepOk(r') && Orphans(r') == Orphans(r))
            && OthersKept(r.items, r'.items, id)
  {
    AckSimulatesIffKnown(r, id, max);
    if RepOk(r) && id in r.claimed {
      AckKeepsRepIff(r, id);
    }
  }

  lemma NackKeepsOrphans(r: Redis, id: Id, reason: string, max: int)
    requires RepOk(r) && id in r.claimed
    ensures RepOk(NackStep(r, id, reason, max)) && Orphans(NackStep(r, id, reason, max)) == Orphans(r)
  {
    NackKeepsRepIff(r, id, reason, max);
  }

  lemma NackMeans(r: Redis, id: Id, reason: string, max: int)
    ensures var r' := NackStep(r, id, reason, max);
            && (id in r.items ==> View(r') == Apply(View(r), Op.Nack(id), max))
            && (RepOk(r) && id in r.claimed ==> RepOk(r') && Orphans(r') == Orphans(r))
            && OthersKept(r.items, r'.items, id)
            && (r.pending != [] ==> PopResult(r') == PopResult(r))
  {
    NackSimulatesIffKnown(r, id, reason, max);
    if RepOk(r) && id in r.claimed {
      NackKeepsOrphans(r, id, reason, max);
    }
  }

  lemma DeadLetterMeans(r: Redis, id: Id, max: int)
    ensures var r' := DeadStep(r, id);
            && (id in r.items ==> View(r') == Apply(View(r), Op.DeadLetter(id), max))
            && (RepOk(r) && id in r.claimed ==> RepOk(r') && Orphans(r') == Orphans(r))
            && OthersKept(r.items, r'.items, id)
  {
    DeadLetterSimulatesIffKnown(r, id, max);
    if RepOk(r) && id in r.claimed {
      DeadLetterKeepsRepIff(r, id);
    }
  }

  /** Pop and stamp together, when no crash falls between them. */
  lemma DequeueMeans(r: Redis, id: Id, token: string, now: int, max: int)
    requires RepOk(r) && PopResult(r) == Some(id)
    ensures var r' := StampStep(PopStep(r), id, token, now);
            && RepOk(r') && Orphans(r') == Orphans(r) && id in r'.claimed
            && id in r.items && r.items[id].status == Pending
            && View(r') == Apply(View(r), Op.Claim(id), max)
  {
    var p := PopStep(r);
    assert id in r.pending && id !in p.pending;
    assert forall x :: x in r.pending <==> x in p.pending || x == id;
    assert RepOk(p);
    StampKeepsRepIff(p, id, token, now);
    StampSimulatesIffKnown(p, id, token, now, max);
  }

  // --- the class ---

  class RedisQueue {
    var pending: seq<Id>
    var items: map<Id, Hash>
    var claimed: map<Id, int>
    var dead: set<Id>
    const maxAttempts: int

    function State(): Redis
      reads this
    {
      Redis(pending, items, claimed, dead)
    }

    constructor (maxAttempts: int)
      ensures State() == Redis([], map[], map[], {}) && this.maxAttempts == maxAttempts
    {
      pending, items, claimed, dead := [], map[], map[], {};
      this.maxAttempts := maxAttempts;
    }

    /** The item waits behind everything else; a new one keeps the structures
        consistent. */
    method Enqueue(id: Id, payload: string)
      modifies this
      ensures View(State()) == Apply(View(old(State())), Op.Enqueue(id), maxAttempts)
      ensures RepOk(old(State())) && id !in old(items) ==>
                RepOk(State()) && Orphans(State()) == Orphans(old(State()))
      ensures OthersKept(old(items), items, id) && items[id].payload == Some(payload)
      ensures PopResult(State()) == if old(pending) == [] then Some(id) else PopResult(old(State()))
      ensures pending == [id] + old(pending) && claimed == old(claimed) && dead == old(dead)
    {
      EnqueueSimulates(State(), id, payload, maxAttempts);
      if RepOk(State()) && id !in items {
        EnqueueKeepsOrphans(State(), id, payload);
      }
      items := items[id := Fields(State(), id).(status := Pending, payload := Some(payload), attempts := 0)];
      pending := [id] + pending;
      assert State() == EnqueueStep(old(State()), id, payload);
    }

    method Dequeue(token: string, now: int) returns (job: Option<Job>)
      modifies this
      ensures job.None? <==> PopResult(old(State())).None?
      ensures job.None? ==> State() == old(State())
      ensures job.Some? ==>
                && PopResult(old(State())) == Some(job.value.id)
                && State() == StampStep(PopStep(old(State())), job.value.id, token, now)
                && job.value.payload == Fields(old(State()), job.value.id).payload
                && job.value.attempts == Fields(old(State()), job.value.id).attempts
                && job.value.claimToken == token
      ensures job.Some? ==>
                && claimed == old(claimed)[job.value.id := now] && dead == old(dead)
                && items[job.value.id].status == Claimed && items[job.value.id].claimToken == token
                && items[job.value.id].payload == job.value.payload
                && OthersKept(old(items), items, job.value.id)
      ensures job.Some? && RepOk(old(State())) ==>
                && RepOk(State()) && Orphans(State()) == Orphans(old(State())) && job.value.id in claimed
                && Legal(View(old(State())), Op.Claim(job.value.id))
                && View(State()) == Apply(View(old(State())), Op.Claim(job.value.id), maxAttempts)
    {
      if |pending| == 0 {
        return None;
      }
      var id := pending[|pending| - 1];
      pending := pending[..|pending| - 1];
      items := items[id := Fields(State(), id).(status := Claimed, claimToken := token)];
      claimed := claimed[id := now];
      job := Some(Job(id, items[id].payload, token, items[id].attempts));
      assert State() == StampStep(PopStep(old(State())), id, token, now);
      if RepOk(old(State())) {
        DequeueMeans(old(State()), id, token, now, maxAttempts);
      }
    }

    /** A held item is done and its claim gone; what waits stays as it is. */
    method Ack(id: Id)
      modifies this
      ensures id in old(items) ==> View(State()) == Apply(View(old(State())), Op.Ack(id), maxAttempts)
      ensures RepOk(old(State())) && id in old(claimed) ==>
                RepOk(State()) && Orphans(State()) == Orphans(old(State()))
      ensures OthersKept(old(items), items, id) && items[id] == Fields(old(State()), id).(status := Done)
      ensures pending == old(pending) && claimed == old(claimed) - {id} && dead == old(dead)
      ensures State() == AckStep(old(State()), id)
    {
      items := items[id := Fields(State(), id).(status := Done)];
      claimed := claimed - {id};
      assert State() == AckStep(old(State()), id);
      AckMeans(old(State()), id, maxAttempts);
    }

    /** A held item has one more failed attempt. It waits again, behind all
        others, or it is dead. */
    method Nack(id: Id, reason: string)
      modifies this
      ensures id in old(items) ==> View(State()) == Apply(View(old(State())), Op.Nack(id), maxAttempts)
      ensures RepOk(old(State())) && id in old(claimed) ==>
                RepOk(State()) && Orphans(State()) == Orphans(old(State()))
      ensures OthersKept(old(items), items, id) && items[id].lastError == reason
      ensures items[id].payload == Fields(old(State()), id).payload
      ensures old(pending) != [] ==> PopResult(State()) == PopResult(old(State()))
      ensures claimed == old(claimed) - {id}
      ensures if items[id].status == Dead
              then pending == old(pending) && dead == old(dead) + {id}
              else pending == [id] + old(pending) && dead == old(dead) && items[id].claimToken == ""
      ensures State() == NackStep(old(State()), id, reason, maxAttempts)
    {
      var before := Fields(State(), id);
      var attempts := before.attempts + 1;
      claimed := claimed - {id};
      if attempts >= maxAttempts {
        items := items[id := before.(status := Dead, attempts := attempts, lastError := reason)];
        dead := dead + {id};
      } else {
        items := items[id := before.(status := Pending, attempts := attempts,
                                     lastError := reason, claimToken := "")];
        pending := [id] + pending;
      }
      assert State() == NackStep(old(State()), id, reason, maxAttempts);
      NackMeans(old(State()), id, reason, maxAttempts);
    }

    /** A held item is dead, with its attempts and payload as they were. */
    method DeadLetter(id: Id)
      modifies this
      ensures id in old(items) ==> View(State()) == Apply(View(old(State())), Op.DeadLetter(id), maxAttempts)
      ensures RepOk(old(State())) && id in old(claimed) ==>
                RepOk(State()) && Orphans(State()) == Orphans(old(State()))
      ensures OthersKept(old(items), items, id) && items[id] == Fields(old(State()), id).(status := Dead)
      ensures pending == old(pending) && claimed == old(claimed) - {id} && dead == old(dead) + {id}
    {
      items := items[id := Fields(State(), id).(status := Dead)];
      claimed := claimed - {id};
      dead := dead + {id};
      assert State() == DeadStep(old(State()), id);
      DeadLetterMeans(old(State()), id, maxAttempts);
    }

    /** `ZRANGEBYSCORE claimed 0 cutoff`; the order among the ids is left open. */
    method StaleIds(cutoff: int) returns (ids: seq<Id>)
      ensures forall id :: id in ids <==> id in claimed && 0 <= claimed[id] <= cutoff
      ensures forall i, j :: 0 <= i < j < |ids| ==> ids[i] != ids[j]
    {
      var todo := set id | id in claimed && 0 <= claimed[id] <= cutoff;
      ids := [];
      while todo != {}
        invariant forall id :: id in ids || id in todo <==> id in claimed && 0 <= claimed[id] <= cutoff
        invariant forall id <- ids :: id !in todo
        invariant forall i, j :: 0 <= i < j < |ids| ==> ids[i] != ids[j]
        decreases todo
      {
        var id :| id in todo;
        ids, todo := ids + [id], todo - {id};
      }
    }

    method ReclaimStale(olderThan: int, now: int) returns (reclaimed: nat, ghost released: seq<Id>)
      modifies this
      ensures State() == ReleaseAll(old(State()), released)
      ensures reclaimed == |released|
      ensures forall id :: id in released <==>
                id in old(claimed) && 0 <= old(claimed)[id] <= now - olderThan
      ensures forall i, j :: 0 <= i < j < |released| ==> released[i] != released[j]
    {
      var stale := StaleIds(now - olderThan);
      released := stale;
      reclaimed := 0;
      for i := 0 to |stale|
        invariant reclaimed == i
        invariant State() == ReleaseAll(old(State()), stale[..i])
      {
        var id := stale[i];
        items := items[id := Fields(State(), id).(status := Pending, claimToken := "")];
        claimed := claimed - {id};
        pending := [id] + pending;
        reclaimed := reclaimed + 1;
        assert stale[..i + 1][..i] == stale[..i];
      }
      assert stale[..|stale|] == stale;
    }
  }

  // --- whole runs, with workers that die ---

  /** The four structures, the ids popped but not yet stamped by a living
      worker, and the popped ids whose worker died first. One container can die
      while the others go on, so `Died` names the items of the workers lost. */
  datatype System = System(redis: Redis, inFlight: set<Id>, lost: set<Id>)

  datatype Event =
    | Enqueued(id: Id, payload: string)
    | Popped
    | Stamped(id: Id, token: string, now: int)
    | Acked(id: Id)
    | Nacked(id: Id, reason: string)
    | DeadLettered(id: Id)
    | Released(id: Id)
    | Died(ids: set<Id>)

  const EMPTY := System(Redis([], map[], map[], {}), {}, {})

  function Next(s: System, ev: Event, max: int): System {
    match ev
    case Enqueued(id, payload) => s.(redis := EnqueueStep(s.redis, id, payload))
    case Popped =>
      s.(redis := PopStep(s.redis),
         inFlight := s.inFlight + (if PopResult(s.redis).Some? then {PopResult(s.redis).value} else {}))
    case Stamped(id, token, now) =>
      s.(redis := StampStep(s.redis, id, token, now), inFlight := s.inFlight - {id})
    case Acked(id) => s.(redis := AckStep(s.redis, id))
    case Nacked(id, reason) => s.(redis := NackStep(s.redis, id, reason, max))
    case DeadLettered(id) => s.(redis := DeadStep(s.redis, id))
    case Released(id) => s.(redis := ReleaseStep(s.redis, id))
    case Died(ids) => s.(inFlight := s.inFlight - ids, lost := s.lost + s.inFlight * ids)
  }

  /** A new item has a new id, a worker stamps what it popped, and only a held
      claim is finished or reclaimed. */
  ghost predicate Allowed(s: System, ev: Event) {
    match ev
    case Enqueued(id, _) => id !in s.redis.items
    case Stamped(id, _, _) => id in s.inFlight
    case Acked(id) => id in s.redis.claimed
    case Nacked(id, _) => id in s.redis.claimed
    case DeadLettered(id) => id in s.redis.claimed
    case Released(id) => id in s.redis.claimed
    case _ => true
  }

  function Run(s: System, evs: seq<Event>, max: int): System {
    if evs == [] then s else Next(Run(s, evs[..|evs| - 1], max), evs[|evs| - 1], max)
  }

  ghost predicate AllowedRun(s: System, evs: seq<Event>, max: int) {
    evs == [] ||
    (AllowedRun(s, evs[..|evs| - 1], max) && Allowed(Run(s, evs[..|evs| - 1], max), evs[|evs| - 1]))
  }

  ghost predicate Consistent(s: System) {
    && RepOk(s.redis)
    && Orphans(s.redis) == s.inFlight + s.lost
    && s.inFlight !! s.lost
  }

  lemma PopKeepsConsistent(s: System, max: int)
    requires Consistent(s)
    ensures Consistent(Next(s, Popped, max))
  {
    var s', p := Next(s, Popped, max), s.redis.pending;
    if p != [] {
      var id := p[|p| - 1];
      assert id in p && id !in p[..|p| - 1];
      assert forall x :: x in p <==> x in p[..|p| - 1] || x == id;
      assert Orphans(s'.redis) == Orphans(s.redis) + {id};
    }
  }

  lemma NextKeepsConsistent(s: System, ev: Event, max: int)
    requires Consistent(s) && Allowed(s, ev)
    ensures Consistent(Next(s, ev, max))
  {
    var s' := Next(s, ev, max);
    match ev
    case Enqueued(id, payload) =>
      EnqueueKeepsRepIff(s.redis, id, payload);
      assert Orphans(s'.redis) == Orphans(s.redis);
    case Popped => PopKeepsConsistent(s, max);
    case Stamped(id, token, now) =>
      assert id in Orphans(s.redis);
      StampKeepsRepIff(s.redis, id, token, now);
      assert Orphans(s'.redis) == Orphans(s.redis) - {id};
    case Acked(id) =>
      AckKeepsRepIff(s.redis, id);
      assert Orphans(s'.redis) == Orphans(s.redis);
    case Nacked(id, reason) =>
      NackKeepsRepIff(s.redis, id, reason, max);
      assert Orphans(s'.redis) == Orphans(s.redis);
    case DeadLettered(id) =>
      DeadLetterKeepsRepIff(s.redis, id);
      assert Orphans(s'.redis) == Orphans(s.redis);
    case Released(id) =>
      ReleaseKeepsRepIff(s.redis, id);
      assert Orphans(s'.redis) == Orphans(s.redis);
    case Died(ids) =>
  }

  /** The abstract operation a Redis event carries out, if any. */
  function Abstracted(ev: Event): seq<Op> {
    match ev
    case Enqueued(id, _) => [Op.Enqueue(id)]
    case Stamped(id, _, _) => [Op.Claim(id)]
    case Acked(id) => [Op.Ack(id)]
    case Nacked(id, _) => [Op.Nack(id)]
    case DeadLettered(id) => [Op.DeadLetter(id)]
    case Released(id) => [Op.Reclaim({id})]
    case _ => []
  }

  function AbstractRun(evs: seq<Event>): seq<Op> {
    if evs == [] then [] else AbstractRun(evs[..|evs| - 1]) + Abstracted(evs[|evs| - 1])
  }

  lemma NextSimulates(s: System, ev: Event, max: int)
    requires Consistent(s) && Allowed(s, ev)
    ensures Abstracted(ev) == [] ==> View(Next(s, ev, max).redis) == View(s.redis)
    ensures Abstracted(ev) != [] ==>
              && Legal(View(s.redis), Abstracted(ev)[0])
              && View(Next(s, ev, max).redis) == Apply(View(s.redis), Abstracted(ev)[0], max)
  {
    match ev
    case Enqueued(id, payload) => EnqueueSimulates(s.redis, id, payload, max);
    case Stamped(id, token, now) =>
      assert id in Orphans(s.redis);
      StampSimulatesIffKnown(s.redis, id, token, now, max);
    case Acked(id) => AckSimulatesIffKnown(s.redis, id, max);
    case Nacked(id, reason) => NackSimulatesIffKnown(s.redis, id, reason, max);
    case DeadLettered(id) => DeadLetterSimulatesIffKnown(s.redis, id, max);
    case Released(id) => ReleaseSimulatesIffKnown(s.redis, id, max);
    case _ =>
  }

  /** Trace refinement: whatever the workers do and wherever any of them die, the
      four structures stay consistent and the hashes have just gone through a
      legal run of the abstract queue. */
  lemma {:induction false} EveryRunRefines(evs: seq<Event>, max: int)
    requires AllowedRun(EMPTY, evs, max)
    ensures Consistent(Run(EMPTY, evs, max))
    ensures LegalRun(map[], AbstractRun(evs), max)
    ensures View(Run(EMPTY, evs, max).redis) == Exec(map[], AbstractRun(evs), max)
  {
    if evs != [] {
      var front, ev := evs[..|evs| - 1], evs[|evs| - 1];
      EveryRunRefines(front, max);
      var s := Run(EMPTY, front, max);
      NextKeepsConsistent(s, ev, max);
      NextSimulates(s, ev, max);
      var ops := AbstractRun(front);
      if Abstracted(ev) != [] {
        assert (ops + Abstracted(ev))[..|ops|] == ops;
      } else {
        assert ops + Abstracted(ev) == ops;
      }
    }
  }

  // --- what a run writes into the hashes ---

  /** The payload an item was enqueued with. */
  function PayloadOf(evs: seq<Event>, id: Id): Option<string> {
    if evs == [] then None
    else
      var ev := evs[|evs| - 1];
      if ev.Enqueued? && ev.id == id then Some(ev.payload) else PayloadOf(evs[..|evs| - 1], id)
  }

  /** The last stamp of an item. */
  function LastStamp(evs: seq<Event>, id: Id): (stamp: Option<Event>)
    ensures stamp.Some? ==> stamp.value.Stamped? && stamp.value.id == id
  {
    if evs == [] then None
    else
      var ev := evs[|evs| - 1];
      if ev.Stamped? && ev.id == id then Some(ev) else LastStamp(evs[..|evs| - 1], id)
  }

  lemma NextKeepsHash(s: System, ev: Event, id: Id, max: int)
    requires Consistent(s) && Allowed(s, ev) && !(ev.Enqueued? && ev.id == id)
    ensures var r, r' := s.redis, Next(s, ev, max).redis;
            && (id in r'.items <==> id in r.items)
            && (id in r.items ==> r'.items[id].payload == r.items[id].payload)
            && (id in r'.claimed && !(ev.Stamped? && ev.id == id) ==>
                  id in r.claimed && r'.claimed[id] == r.claimed[id] && id in r.items
                  && r'.items[id].claimToken == r.items[id].claimToken)
  {
    assert id in s.redis.claimed ==> id in s.redis.items;
    assert ev.Stamped? ==> ev.id in Orphans(s.redis);
  }

  /** Over every run: an item keeps the payload it was enqueued with, through
      retries and reclaims, and a claim carries the token and the clock reading
      of its last stamp, which is what `reclaim_stale` compares. */
  lemma {:induction false} RunTellsHash(evs: seq<Event>, id: Id, max: int)
    requires AllowedRun(EMPTY, evs, max)
    ensures var r := Run(EMPTY, evs, max).redis;
            && (id in r.items <==> PayloadOf(evs, id).Some?)
            && (id in r.items ==> r.items[id].payload == PayloadOf(evs, id))
            && (id in r.claimed ==>
                  && id in r.items && LastStamp(evs, id).Some?
                  && r.claimed[id] == LastStamp(evs, id).value.now
                  && r.items[id].claimToken == LastStamp(evs, id).value.token)
  {
    if evs != [] {
      var front, ev := evs[..|evs| - 1], evs[|evs| - 1];
      RunTellsHash(front, id, max);
      EveryRunRefines(front, max);
      var s := Run(EMPTY, front, max);
      if !(ev.Enqueued? && ev.id == id) {
        NextKeepsHash(s, ev, id, max);
      } else {
        assert id !in s.redis.claimed;
      }
    }
  }

  // --- what a death between RPOP and the pipeline costs ---

  /** An orphan is never recovered: no later run, with any number of reclaims,
      hands it out, claims it or finishes it. */
  lemma {:induction false} LostIsLostForEver(s: System, evs: seq<Event>, id: Id, max: int)
    requires Consistent(s) && AllowedRun(s, evs, max) && id in s.lost
    ensures Consistent(Run(s, evs, max)) && id in Run(s, evs, max).lost
    ensures id in Run(s, evs, max).redis.items
    ensures Run(s, evs, max).redis.items[id].status == Pending
    ensures PopResult(Run(s, evs, max).redis) != Some(id)
  {
    if evs != [] {
      LostIsLostForEver(s, evs[..|evs| - 1], id, max);
      NextKeepsConsistent(Run(s, evs[..|evs| - 1], max), evs[|evs| - 1], max);
    }
    assert id in Orphans(Run(s, evs, max).redis);
  }

  // --- order ---

  function PoppedIds(s: System, evs: seq<Event>, max: int): seq<Id> {
    if evs == [] then []
    else
      var r := Run(s, evs[..|evs| - 1], max).redis;
      PoppedIds(s, evs[..|evs| - 1], max) +
      (if evs[|evs| - 1].Popped? && PopResult(r).Some? then [PopResult(r).value] else [])
  }

  predicate Pushes(r: Redis, ev: Event, max: int) {
    ev.Enqueued? || ev.Released? || (ev.Nacked? && !Exhausts(r, ev.id, max))
  }

  function PushedIds(s: System, evs: seq<Event>, max: int): seq<Id> {
    if evs == [] then []
    else
      var r, ev := Run(s, evs[..|evs| - 1], max).redis, evs[|evs| - 1];
      PushedIds(s, evs[..|evs| - 1], max) +
      (if Pushes(r, ev, max) then [ev.id] else [])
  }

  function EnqueuedIds(evs: seq<Event>): seq<Id> {
    if evs == [] then []
    else EnqueuedIds(evs[..|evs| - 1]) + (if evs[|evs| - 1].Enqueued? then [evs[|evs| - 1].id] else [])
  }

  function Reversed(s: seq<Id>): seq<Id> {
    seq(|s|, i requires 0 <= i < |s| => s[|s| - 1 - i])
  }

  lemma PushReverses(p: seq<Id>, id: Id)
    ensures Reversed([id] + p) == Reversed(p) + [id]
  {
  }

  lemma PopReverses(p: seq<Id>)
    requires p != []
    ensures Reversed(p) == [p[|p| - 1]] + Reversed(p[..|p| - 1])
  {
  }

  lemma StepKeepsPushOrder(r: Redis, r': Redis, popped: seq<Id>, pushed: seq<Id>, ev: Event, max: int)
    requires popped + Reversed(r.pending) == pushed
    requires r' == Next(System(r, {}, {}), ev, max).redis
    ensures popped + (if ev.Popped? && PopResult(r).Some? then [PopResult(r).value] else []) + Reversed(r'.pending) ==
            pushed + (if Pushes(r, ev, max) then [ev.id] else [])
  {
    if ev.Popped? && r.pending != [] {
      PopReverses(r.pending);
    } else if Pushes(r, ev, max) {
      PushReverses(r.pending, ev.id);
    }
  }

  /** Nothing overtakes and nothing is dropped: what has been handed out,
      followed by what waits, is what was pushed, in push order. */
  lemma {:induction false} HandedOutInPushOrder(evs: seq<Event>, max: int)
    ensures PoppedIds(EMPTY, evs, max) + Reversed(Run(EMPTY, evs, max).redis.pending) ==
            PushedIds(EMPTY, evs, max)
  {
    if evs != [] {
      var front, ev := evs[..|evs| - 1], evs[|evs| - 1];
      HandedOutInPushOrder(front, max);
      StepKeepsPushOrder(Run(EMPTY, front, max).redis, Run(EMPTY, evs, max).redis,
                         PoppedIds(EMPTY, front, max), PushedIds(EMPTY, front, max), ev, max);
    }
  }

  lemma {:induction false} PushedAreEnqueued(evs: seq<Event>, max: int)
    requires forall ev <- evs :: !ev.Nacked? && !ev.Released?
    ensures PushedIds(EMPTY, evs, max) == EnqueuedIds(evs)
  {
    if evs != [] {
      PushedAreEnqueued(evs[..|evs| - 1], max);
    }
  }

  /** Without nacks and reclaims the list is first in, first out. */
  lemma FirstInFirstOut(evs: seq<Event>, max: int)
    requires forall ev <- evs :: !ev.Nacked? && !ev.Released?
    ensures PoppedIds(EMPTY, evs, max) <= EnqueuedIds(evs)
  {
    HandedOutInPushOrder(evs, max);
    PushedAreEnqueued(evs, max);
  }

  function Pops(evs: seq<Event>): nat {
    if evs == [] then 0 else Pops(evs[..|evs| - 1]) + (if evs[|evs| - 1].Popped? then 1 else 0)
  }

  /** A pop takes the last entry of the list; every other event adds at most
      one in front. */
  lemma NextPending(s: System, ev: Event, max: int)
    ensures var p, p' := s.redis.pending, Next(s, ev, max).redis.pending;
            if ev.Popped? then p' == (if p == [] then p else p[..|p| - 1])
            else p' == p || (|p'| == |p| + 1 && p'[1..] == p)
  {
  }

  /** An item with `depth` others ahead of it moves one place per pop, whatever
      retries are pushed meanwhile, and the pop after those hands it out. */
  lemma {:induction false} NothingStarves(s: System, evs: seq<Event>, depth: nat, max: int)
    requires depth < |s.redis.pending| && Pops(evs) <= depth
    ensures var p := Run(s, evs, max).redis.pending;
            && depth - Pops(evs) < |p|
            && p[|p| - 1 - (depth - Pops(evs))] == s.redis.pending[|s.redis.pending| - 1 - depth]
    ensures Pops(evs) == depth ==>
              PopResult(Run(s, evs, max).redis) == Some(s.redis.pending[|s.redis.pending| - 1 - depth])
  {
    if evs != [] {
      var front := evs[..|evs| - 1];
      NothingStarves(s, front, depth, max);
      NextPending(Run(s, front, max), evs[|evs| - 1], max);
    }
  }

  // --- what a death loses ---

  ghost predicate HandsOut(s: System, evs: seq<Event>, id: Id, max: int) {
    AllowedRun(s, evs, max) && PopResult(Run(s, evs, max).redis) == Some(id)
  }

  /** Some later run of workers and reclaims hands the item out. */
  ghost predicate Recoverable(s: System, id: Id, max: int) {
    exists evs :: HandsOut(s, evs, id, max)
  }

  function Popping(n: nat): seq<Event> {
    if n == 0 then [] else Popping(n - 1) + [Popped]
  }

  lemma OneMore(s: System, evs: seq<Event>, ev: Event, max: int)
    ensures Run(s, evs + [ev], max) == Next(Run(s, evs, max), ev, max)
    ensures AllowedRun(s, evs + [ev], max) <==> AllowedRun(s, evs, max) && Allowed(Run(s, evs, max), ev)
    ensures Pops(evs + [ev]) == Pops(evs) + if ev.Popped? then 1 else 0
  {
    assert (evs + [ev])[..|evs|] == evs;
  }

  lemma {:induction false} RunOn(s: System, first: seq<Event>, second: seq<Event>, max: int)
    ensures Run(s, first + second, max) == Run(Run(s, first, max), second, max)
  {
    if second == [] {
      assert first + second == first;
    } else {
      var front, last := second[..|second| - 1], second[|second| - 1];
      RunOn(s, first, front, max);
      assert first + second == (first + front) + [last];
      OneMore(s, first + front, last, max);
    }
  }

  lemma {:induction false} PoppingAllowed(s: System, evs: seq<Event>, n: nat, max: int)
    requires AllowedRun(s, evs, max)
    ensures AllowedRun(s, evs + Popping(n), max)
  {
    if n == 0 {
      assert evs + Popping(n) == evs;
    } else {
      PoppingAllowed(s, evs, n - 1, max);
      assert evs + Popping(n) == (evs + Popping(n - 1)) + [Popped];
      OneMore(s, evs + Popping(n - 1), Popped, max);
    }
  }

  lemma {:induction false} PoppingPops(n: nat)
    ensures Pops(Popping(n)) == n
  {
    if n > 0 {
      PoppingPops(n - 1);
      assert Popping(n)[..|Popping(n)| - 1] == Popping(n - 1);
    }
  }

  lemma HandedOutLater(s: System, evs: seq<Event>, t: System, more: seq<Event>, id: Id, max: int)
    requires t == Run(s, evs, max) && AllowedRun(s, evs + more, max) && PopResult(Run(t, more, max).redis) == Some(id)
    ensures Recoverable(s, id, max)
  {
    RunOn(s, evs, more, max);
    assert HandsOut(s, evs + more, id, max);
  }

  lemma PoppingHandsOut(s: System, depth: nat, id: Id, max: int)
    requires depth < |s.redis.pending| && id == s.redis.pending[|s.redis.pending| - 1 - depth]
    ensures PopResult(Run(s, Popping(depth), max).redis) == Some(id)
  {
    PoppingPops(depth);
    NothingStarves(s, Popping(depth), depth, max);
  }

  /** What waits after some run is handed out by that run and as many pops as it takes. */
  lemma WaitingIsRecoverable(s: System, evs: seq<Event>, depth: nat, max: int)
    requires AllowedRun(s, evs, max) && depth < |Run(s, evs, max).redis.pending|
    ensures var p := Run(s, evs, max).redis.pending; Recoverable(s, p[|p| - 1 - depth], max)
  {
    var t := Run(s, evs, max);
    var id := t.redis.pending[|t.redis.pending| - 1 - depth];
    PoppingAllowed(s, evs, depth, max);
    PoppingHandsOut(t, depth, id, max);
    HandedOutLater(s, evs, t, Popping(depth), id, max);
  }

  /** Reclaimed, an item is handed out after all that waited before it. */
  lemma ClaimIsRecoverable(s: System, id: Id, max: int)
    requires id in s.redis.claimed
    ensures Recoverable(s, id, max)
  {
    OneMore(s, [], Released(id), max);
    WaitingIsRecoverable(s, [] + [Released(id)], |s.redis.pending|, max);
  }

  /** Popped by a living worker, an item can still be stamped, and then reclaimed. */
  lemma UnstampedIsRecoverable(s: System, id: Id, max: int)
    requires id in s.inFlight
    ensures Recoverable(s, id, max)
  {
    OneMore(s, [], Stamped(id, "", 0), max);
    OneMore(s, [] + [Stamped(id, "", 0)], Released(id), max);
    WaitingIsRecoverable(s, [] + [Stamped(id, "", 0)] + [Released(id)], |s.redis.pending|, max);
  }

  /** An item that is neither done nor dead can be handed out again exactly when
      it is not one whose worker died between the pop and the stamp. */
  lemma RecoverableIffNotLost(s: System, id: Id, max: int)
    requires Consistent(s) && id in s.redis.items && s.redis.items[id].status in {Pending, Claimed}
    ensures Recoverable(s, id, max) <==> id !in s.lost
  {
    if id in s.lost {
      forall evs | AllowedRun(s, evs, max) ensures !HandsOut(s, evs, id, max) {
        LostIsLostForEver(s, evs, id, max);
      }
    } else if id in s.redis.pending {
      var i :| 0 <= i < |s.redis.pending| && s.redis.pending[i] == id;
      WaitingIsRecoverable(s, [], |s.redis.pending| - 1 - i, max);
    } else if id in s.redis.claimed {
      ClaimIsRecoverable(s, id, max);
    } else {
      assert id in Orphans(s.redis);
      UnstampedIsRecoverable(s, id, max);
    }
  }

  /** When workers die, whichever of them, their items that are stamped can be
      handed out again and those that are not are lost; the items of the workers
      that go on are not touched by it. */
  lemma DeathLosesExactlyTheUnstamped(s: System, ids: set<Id>, id: Id, max: int)
    requires Consistent(s) && (id in s.inFlight || id in s.redis.claimed)
    ensures var t := Next(s, Died(ids), max);
            && (Recoverable(t, id, max) <==> id in s.redis.claimed || id !in ids)
            && (id in t.lost <==> id !in s.redis.claimed && id in ids)
  {
    assert id in s.redis.claimed ==> id !in Orphans(s.redis);
    assert id in s.inFlight ==> id in Orphans(s.redis);
    NextKeepsConsistent(s, Died(ids), max);
    RecoverableIffNotLost(Next(s, Died(ids), max), id, max);
  }

  /** A worker that dies right after `RPOP`, alone: its item never comes back. */
  lemma DequeueCanLoseAnItem() returns (evs: seq<Event>, id: Id)
    ensures AllowedRun(EMPTY, evs, 3) && id in Run(EMPTY, evs, 3).lost
    ensures !Recoverable(Run(EMPTY, evs, 3), id, 3)
  {
    id := "item";
    OneMore(EMPTY, [], Enqueued(id, "{}"), 3);
    OneMore(EMPTY, [] + [Enqueued(id, "{}")], Popped, 3);
    evs := [] + [Enqueued(id, "{}")] + [Popped];
    var s := Run(EMPTY, evs, 3);
    assert s.redis.pending == [] && id in s.inFlight && s.redis.claimed == map[];
    EveryRunRefines(evs, 3);
    DeathLosesExactlyTheUnstamped(s, {id}, id, 3);
    OneMore(EMPTY, evs, Died({id}), 3);
    evs := evs + [Died({id})];
  }

  // --- when the queue looks drained ---

  /** What the API polls before it finalizes a run: nothing waits and nothing is claimed. */
  predicate LooksDrained(r: Redis) { r.pending == [] && r.claimed == map[] }

  /** An item popped and not yet stamped is in neither count. So a queue that
      looks drained has finished every item exactly when none is in that gap and
      none was lost in it. */
  lemma LooksDrainedMeansFinishedIff(s: System)
    requires Consistent(s) && LooksDrained(s.redis)
    ensures (forall id <- s.redis.items :: s.redis.items[id].status in {Done, Dead}) <==>
            s.inFlight == {} && s.lost == {}
  {
    assert Orphans(s.redis) <= s.redis.items.Keys;
    forall id | id in s.redis.items ensures s.redis.items[id].status in {Done, Dead} <==> id !in Orphans(s.redis) {
      assert id in s.redis.claimed ==> id !in Orphans(s.redis);
    }
    assert s.inFlight <= Orphans(s.redis) && s.lost <= Orphans(s.redis);
    if s.inFlight + s.lost != {} {
      var id :| id in s.inFlight + s.lost;
      assert id in Orphans(s.redis);
    }
  }
}
