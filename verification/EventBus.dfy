/** The in-process event bus: one bounded queue per subscriber. A publisher
    never blocks; a full queue loses its oldest event. */
module EventBus {
  import opened Wrappers

  datatype Event = Event(runId: Option<string>, body: string)

  /** Subscribed to one run, or with `None` to all. */
  type Key = Option<string>

  predicate Matches(key: Key, e: Event) { key.None? || key == e.runId }

  predicate Full(items: seq<Event>, maxsize: int) { 0 < maxsize <= |items| }

  /** `put_nowait`, after dropping the oldest event of a full queue. */
  function Offer(items: seq<Event>, maxsize: int, e: Event): seq<Event> {
    (if Full(items, maxsize) then items[1..] else items) + [e]
  }

  function Matching(events: seq<Event>, key: Key): seq<Event> {
    if events == [] then []
    else
      var front, last := Matching(events[..|events| - 1], key), events[|events| - 1];
      if Matches(key, last) then front + [last] else front
  }

  ghost predicate IsSuffix(items: seq<Event>, all: seq<Event>) {
    |items| <= |all| && items == all[|all| - |items|..]
  }

  class Subscription {
    const maxsize: int
    ghost const key: Key
    ghost const joined: nat
    var items: seq<Event>

    constructor (maxsize: int, ghost key: Key, ghost joined: nat)
      ensures this.maxsize == maxsize && this.key == key && this.joined == joined && items == []
    {
      this.maxsize, this.key, this.joined, items := maxsize, key, joined, [];
    }

    /** `put_nowait`; false is `QueueFull`. */
    method PutNowait(e: Event) returns (ok: bool)
      modifies this
      ensures ok <==> !Full(old(items), maxsize)
      ensures items == old(items) + if ok then [e] else []
    {
      ok := !Full(items, maxsize);
      if ok {
        items := items + [e];
      }
    }

    method GetNowait() returns (r: Option<Event>)
      modifies this
      ensures r.Some? <==> old(items) != []
      ensures r.Some? ==> r.value == old(items)[0] && items == old(items)[1..]
      ensures r.None? ==> items == old(items)
    {
      if items == [] {
        return None;
      }
      r := Some(items[0]);
      items := items[1..];
    }
  }

  lemma MatchingNext(events: seq<Event>, joined: nat, key: Key, e: Event)
    requires joined <= |events|
    ensures Matching((events + [e])[joined..], key) ==
            Matching(events[joined..], key) + (if Matches(key, e) then [e] else [])
  {
    assert (events + [e])[joined..] == events[joined..] + [e];
    assert (events[joined..] + [e])[..|events[joined..]|] == events[joined..];
  }

  lemma OfferKeepsSuffix(items: seq<Event>, all: seq<Event>, maxsize: int, e: Event)
    requires IsSuffix(items, all)
    ensures IsSuffix(Offer(items, maxsize, e), all + [e])
  {
    var cut := |all| + 1 - |Offer(items, maxsize, e)|;
    assert (all + [e])[cut..] == all[cut..] + [e];
  }

  /** A queue that joined after `joined` events holds the newest matching
      events published since, in order, and no more than it may. */
  ghost predicate HoldsNewest(items: seq<Event>, maxsize: int, key: Key, joined: nat, events: seq<Event>) {
    && joined <= |events|
    && IsSuffix(items, Matching(events[joined..], key))
    && (maxsize > 0 ==> |items| <= maxsize)
  }

  lemma PublishKeepsNewest(items: seq<Event>, maxsize: int, key: Key, joined: nat, events: seq<Event>, e: Event)
    requires HoldsNewest(items, maxsize, key, joined, events)
    ensures HoldsNewest(if Matches(key, e) then Offer(items, maxsize, e) else items,
                        maxsize, key, joined, events + [e])
  {
    MatchingNext(events, joined, key, e);
    if Matches(key, e) {
      OfferKeepsSuffix(items, Matching(events[joined..], key), maxsize, e);
    }
  }

  lemma TakingKeepsNewest(items: seq<Event>, maxsize: int, key: Key, joined: nat, events: seq<Event>)
    requires HoldsNewest(items, maxsize, key, joined, events)
    ensures items != [] ==> HoldsNewest(items[1..], maxsize, key, joined, events)
  {
  }

  class EventBus {
    var subs: map<Key, set<Subscription>>
    ghost var events: seq<Event>
    ghost var members: set<Subscription>

    ghost predicate Holds(q: Subscription)
      reads this, q
    {
      HoldsNewest(q.items, q.maxsize, q.key, q.joined, events)
    }

    /** `members` are the queues registered, each under its own key. */
    ghost predicate Registered()
      reads this
    {
      && (forall key <- subs, q <- subs[key] :: q in members && q.key == key)
      && (forall q <- members :: q.key in subs && q in subs[q.key])
    }

    ghost predicate Valid()
      reads this, members
    {
      Registered() && forall q <- members :: Holds(q)
    }

    constructor ()
      ensures Valid() && subs == map[] && events == [] && members == {}
    {
      subs, events, members := map[], [], {};
    }

    function Under(key: Key): set<Subscription>
      reads this
    {
      if key in subs then subs[key] else {}
    }

    method Subscribe(key: Key, maxsize: int) returns (q: Subscription)
      requires Valid()
      modifies this`subs, this`members
      ensures Valid() && fresh(q) && members == old(members) + {q}
      ensures q.key == key && q.maxsize == maxsize && q.items == [] && q.joined == |events|
    {
      q := new Subscription(maxsize, key, |events|);
      subs := subs[key := Under(key) + {q}];
      members := members + {q};
    }

    /** A queue is found under its own key only. */
    method Unsubscribe(q: Subscription, key: Key)
      requires Valid()
      modifies this`subs, this`members
      ensures Valid()
      ensures members == old(members) - if key == q.key then {q} else {}
    {
      if key in subs {
        subs := subs[key := subs[key] - {q}];
      }
      members := members - if key == q.key then {q} else {};
    }

    /** Every target gets the event, last; a full one loses its oldest. */
    method Deliver(targets: set<Subscription>, e: Event)
      requires forall q <- targets :: q.maxsize > 0 ==> |q.items| <= q.maxsize
      modifies targets
      ensures forall q <- targets :: q.items == Offer(old(q.items), q.maxsize, e)
    {
      var todo := targets;
      while todo != {}
        invariant todo <= targets
        invariant forall q <- todo :: q.items == old(q.items)
        invariant forall q <- targets - todo :: q.items == Offer(old(q.items), q.maxsize, e)
      {
        var q :| q in todo;
        todo := todo - {q};
        var ok := q.PutNowait(e);
        if !ok {
          var dropped := q.GetNowait();
          ok := q.PutNowait(e);
        }
      }
    }

    lemma TargetsMatch(e: Event)
      requires Registered()
      ensures (if e.runId.Some? then Under(e.runId) else {}) + Under(None) == set q <- members | Matches(q.key, e)
    {
    }

    /** The newest event is in every matching queue, last, and every other
        queue is as it was. */
    method Publish(e: Event)
      requires Valid()
      modifies this`events, members
      ensures Valid() && events == old(events) + [e]
      ensures forall q <- members ::
                q.items == if q.key == None || q.key == e.runId then Offer(old(q.items), q.maxsize, e) else old(q.items)
    {
      var targets := (if e.runId.Some? then Under(e.runId) else {}) + Under(None);
      TargetsMatch(e);
      Deliver(targets, e);
      events := events + [e];
      forall q | q in members ensures Holds(q) {
        assert old(Holds(q));
        PublishKeepsNewest(old(q.items), q.maxsize, q.key, q.joined, old(events), e);
      }
    }

    /** A consumer takes the oldest event it has not missed. */
    method Receive(q: Subscription) returns (r: Option<Event>)
      requires Valid() && q in members
      modifies q
      ensures Valid()
      ensures r.Some? <==> old(q.items) != []
      ensures r.Some? ==> r.value == old(q.items)[0] && q.items == old(q.items)[1..]
      ensures r.None? ==> q.items == old(q.items)
    {
      r := q.GetNowait();
      forall p | p in members ensures Holds(p) {
        assert old(Holds(p));
        TakingKeepsNewest(old(p.items), p.maxsize, p.key, p.joined, events);
      }
    }
  }

  /** A queue gives up its oldest event exactly when it holds as many as it may. */
  lemma OfferDropsOldestIff(items: seq<Event>, maxsize: int, e: Event)
    requires items != []
    ensures Offer(items, maxsize, e) == items[1..] + [e] <==> 0 < maxsize <= |items|
    ensures !(0 < maxsize <= |items|) ==> Offer(items, maxsize, e) == items + [e]
  {
    assert |items[1..] + [e]| < |items + [e]|;
  }

  // --- what a subscriber sees ---

  datatype Action = Offered(e: Event) | Received

  /** What a queue holds, and what its consumer was given. */
  datatype View = View(items: seq<Event>, given: seq<Event>)

  function After(actions: seq<Action>, maxsize: int): View {
    if actions == [] then View([], [])
    else
      var v := After(actions[..|actions| - 1], maxsize);
      match actions[|actions| - 1]
      case Offered(e) => View(Offer(v.items, maxsize, e), v.given)
      case Received => if v.items == [] then v else View(v.items[1..], v.given + [v.items[0]])
  }

  function Offers(actions: seq<Action>): seq<Event> {
    if actions == [] then []
    else Offers(actions[..|actions| - 1]) +
         (if actions[|actions| - 1].Offered? then [actions[|actions| - 1].e] else [])
  }

  /** How often an offer found the queue full. */
  function Drops(actions: seq<Action>, maxsize: int): nat {
    if actions == [] then 0
    else
      var front := actions[..|actions| - 1];
      Drops(front, maxsize) +
      (if actions[|actions| - 1].Offered? && Full(After(front, maxsize).items, maxsize) then 1 else 0)
  }

  /** Nothing is given twice or invented: offered is given, held or dropped, and
      what is held is the newest part. */
  lemma {:induction false} EventsAreConserved(actions: seq<Action>, maxsize: int)
    ensures var v := After(actions, maxsize);
            && |Offers(actions)| == |v.given| + |v.items| + Drops(actions, maxsize)
            && IsSuffix(v.items, Offers(actions))
            && (maxsize > 0 ==> |v.items| <= maxsize)
  {
    if actions != [] {
      EventsAreConserved(actions[..|actions| - 1], maxsize);
    }
  }

  /** What the consumer was given are offered events, in the order of offering. */
  ghost predicate Embeds(given: seq<Event>, all: seq<Event>, at: seq<nat>) {
    && |at| == |given|
    && (forall i :: 0 <= i < |at| ==> at[i] < |all| && given[i] == all[at[i]])
    && (forall i, j :: 0 <= i < j < |at| ==> at[i] < at[j])
  }

  /** The oldest held event is given; the held ones are the newest offered. */
  lemma GivenEmbeds(given: seq<Event>, items: seq<Event>, all: seq<Event>, at: seq<nat>)
    requires Embeds(given, all, at) && IsSuffix(items, all) && items != []
    requires forall i :: 0 <= i < |at| ==> at[i] < |all| - |items|
    ensures Embeds(given + [items[0]], all, at + [|all| - |items|])
  {
  }

  lemma EmbedsInMore(given: seq<Event>, all: seq<Event>, more: seq<Event>, at: seq<nat>)
    requires Embeds(given, all, at)
    ensures Embeds(given, all + more, at)
  {
  }

  lemma {:induction false} GivenInOrder(actions: seq<Action>, maxsize: int) returns (at: seq<nat>)
    ensures var v := After(actions, maxsize);
            && Embeds(v.given, Offers(actions), at)
            && |v.items| <= |Offers(actions)|
            && forall i :: 0 <= i < |at| ==> at[i] < |Offers(actions)| - |v.items|
  {
    at := [];
    if actions != [] {
      var front := actions[..|actions| - 1];
      at := GivenInOrder(front, maxsize);
      EventsAreConserved(front, maxsize);
      var v := After(front, maxsize);
      match actions[|actions| - 1]
      case Offered(e) => EmbedsInMore(v.given, Offers(front), [e], at);
      case Received =>
        if v.items != [] {
          GivenEmbeds(v.given, v.items, Offers(front), at);
          at := at + [|Offers(front)| - |v.items|];
        }
    }
  }

  lemma {:induction false} UndroppedIsComplete(actions: seq<Action>, maxsize: int)
    requires Drops(actions, maxsize) == 0
    ensures After(actions, maxsize).given + After(actions, maxsize).items == Offers(actions)
  {
    if actions != [] {
      UndroppedIsComplete(actions[..|actions| - 1], maxsize);
      var v := After(actions[..|actions| - 1], maxsize);
      if v.items != [] {
        assert v.items == [v.items[0]] + v.items[1..];
      }
    }
  }

  /** Some event came while the queue held as many as it may. */
  ghost predicate MetFull(actions: seq<Action>, maxsize: int) {
    exists k :: 0 <= k < |actions| && actions[k].Offered? && 0 < maxsize == |After(actions[..k], maxsize).items|
  }

  lemma {:induction false} DropsIffFull(actions: seq<Action>, maxsize: int)
    ensures Drops(actions, maxsize) > 0 <==> MetFull(actions, maxsize)
  {
    if actions != [] {
      var front := actions[..|actions| - 1];
      DropsIffFull(front, maxsize);
      EventsAreConserved(front, maxsize);
      assert forall k :: 0 <= k <= |front| ==> actions[..k] == front[..k];
      assert actions[..|front|] == front && front[..|front|] == front;
    }
  }

  /** A subscriber misses nothing exactly when no event came while its queue held
      as many as it may. */
  lemma MissesNothingIff(actions: seq<Action>, maxsize: int)
    ensures After(actions, maxsize).given + After(actions, maxsize).items == Offers(actions)
            <==> !MetFull(actions, maxsize)
  {
    EventsAreConserved(actions, maxsize);
    DropsIffFull(actions, maxsize);
    if Drops(actions, maxsize) == 0 {
      UndroppedIsComplete(actions, maxsize);
    }
  }
}
