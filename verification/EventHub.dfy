/**
 The in-memory event hub: a ring of recent events, live subscribers with
 bounded queues, and one capacity-1 control channel per subscriber.

 `Hub` is the hub's state as a value and its functions are the locked sections
 of the hub's methods; class `LiveHub.EventHub` is the mutable object, each of whose
 methods is proved to perform exactly one of those functions.
 */
module EventHub {
  // A materialized event: its position in the durable stream and its contents.
  datatype Event = Event(sn: int, body: string)

  datatype Notice = SlowClient | PrunedHorizon | Shutdown

  // A subscriber's two channels and the last sequence it needs no more.
  datatype Subscriber = Subscriber(events: seq<Event>, control: seq<Notice>, afterSeq: int)

  type Id = nat

  datatype Outcome = NotCovered | ShutDown | Covered(id: Id, replay: seq<Event>)

  datatype Hub = Hub(
    capacity: nat,
    buffer: nat,
    ring: seq<Event>,
    ringStart: nat,
    base: int,
    through: int,
    known: int,
    closed: bool,
    registered: set<Id>,
    subscribers: map<Id, Subscriber>,
    nextId: Id)
  {
    // What every locked section needs and keeps.
    predicate Ok() {
      && 0 < capacity && |ring| <= capacity
      && ringStart < capacity && (|ring| < capacity ==> ringStart == 0)
      && (|ring| < capacity || ringStart < |ring|)
      && registered <= subscribers.Keys
      && (forall id | id in subscribers :: id < nextId)
      && (forall id | id in registered :: subscribers[id].control == [])
    }
  }

  function Max(a: int, b: int): int {
    if a < b then b else a
  }

  // The events of a log above a sequence number, in order.
  function Above(log: seq<Event>, from: int): seq<Event> {
    if log == [] then []
    else Above(log[..|log| - 1], from) + (if log[|log| - 1].sn > from then [log[|log| - 1]] else [])
  }

  // The ring read in order from its start.
  function Unrolled(ring: seq<Event>, ringStart: nat): seq<Event>
    requires ringStart <= |ring|
  {
    ring[ringStart..] + ring[..ringStart]
  }

  // ------------------------------------------------------- locked sections

  function NewHub(capacity: nat, buffer: nat, safeSeq: int): Hub {
    Hub(capacity, buffer, [], 0, safeSeq, safeSeq, safeSeq, false, {}, map[], 0)
  }

  predicate Accepts(h: Hub, e: Event) {
    !h.closed && e.sn > h.through
  }

  // A subscriber whose queue is full when an event above its position arrives.
  predicate Overflows(s: Subscriber, e: Event, buffer: nat) {
    e.sn > s.afterSeq && |s.events| >= buffer
  }

  function Offer(s: Subscriber, e: Event, buffer: nat): Subscriber {
    if e.sn <= s.afterSeq then s
    else if |s.events| < buffer then s.(events := s.events + [e], afterSeq := e.sn)
    else s.(control := s.control + [SlowClient])
  }

  function Publish(h: Hub, e: Event): Hub
    requires h.Ok()
  {
    if !Accepts(h, e) then h else
    var full := |h.ring| == h.capacity;
    h.(base := if full then h.ring[h.ringStart].sn else h.base,
       ring := if full then h.ring[h.ringStart := e] else h.ring + [e],
       ringStart := if full then (h.ringStart + 1) % h.capacity else h.ringStart,
       through := e.sn,
       known := Max(h.known, e.sn),
       registered := (set id | id in h.registered && !Overflows(h.subscribers[id], e, h.buffer)),
       subscribers := map id | id in h.subscribers ::
         if id in h.registered then Offer(h.subscribers[id], e, h.buffer) else h.subscribers[id])
  }

  predicate Covers(h: Hub, from: int) {
    !h.closed && from <= h.known && !(h.through > from && from < h.base)
  }

  function Subscribe(h: Hub, from: int): (r: (Hub, Outcome))
    requires h.Ok()
  {
    if h.closed then (h, ShutDown)
    else if !Covers(h, from) then (h, NotCovered)
    else
      var current := Subscriber([], [], Max(from, h.through));
      (h.(registered := h.registered + {h.nextId},
          subscribers := h.subscribers[h.nextId := current],
          nextId := h.nextId + 1),
       Covered(h.nextId, Above(Unrolled(h.ring, h.ringStart), from)))
  }

  function SubscribeAfterSnapshot(h: Hub, safeSeq: int): (Hub, Outcome)
    requires h.Ok()
  {
    Subscribe(h.(known := Max(h.known, safeSeq)), safeSeq)
  }

  function Unsubscribe(h: Hub, id: Id): Hub {
    h.(registered := h.registered - {id})
  }

  // Every registered subscriber is told and dropped.
  function DropAll(h: Hub, notice: Notice): Hub
    requires h.Ok()
  {
    h.(registered := {},
       subscribers := map id | id in h.subscribers ::
         if id in h.registered then h.subscribers[id].(control := h.subscribers[id].control + [notice])
         else h.subscribers[id])
  }

  function ResetForResync(h: Hub, safeSeq: int): Hub
    requires h.Ok()
  {
    DropAll(h, PrunedHorizon).(ring := [], ringStart := 0, base := safeSeq, through := safeSeq, known := safeSeq)
  }

  function Close(h: Hub): Hub
    requires h.Ok()
  {
    if h.closed then h else DropAll(h, Shutdown).(closed := true)
  }

  // The consumer takes the head of its event queue, or its control message.
  function Receive(h: Hub, id: Id): Hub
    requires id in h.subscribers && h.subscribers[id].events != []
  {
    h.(subscribers := h.subscribers[id := h.subscribers[id].(events := h.subscribers[id].events[1..])])
  }

  function TakeNotice(h: Hub, id: Id): Hub
    requires id in h.subscribers && h.subscribers[id].control != []
  {
    h.(subscribers := h.subscribers[id := h.subscribers[id].(control := h.subscribers[id].control[1..])])
  }

  // Every locked section keeps the hub well formed.
  lemma PublishKeepsOk(h: Hub, e: Event)
    requires h.Ok()
    ensures Publish(h, e).Ok()
  {
  }

  lemma SubscribeKeepsOk(h: Hub, from: int)
    requires h.Ok()
    ensures Subscribe(h, from).0.Ok()
  {
  }

  lemma DropAllKeepsOk(h: Hub, notice: Notice)
    requires h.Ok()
    ensures DropAll(h, notice).Ok()
  {
  }

  // ------------------------------------------------------------- log facts

  predicate Ascending(log: seq<Event>, start: int) {
    && (forall i | 0 <= i < |log| :: log[i].sn > start)
    && forall i, j | 0 <= i < j < |log| :: log[i].sn < log[j].sn
  }

  lemma {:induction false} AboveAppend(a: seq<Event>, b: seq<Event>, from: int)
    ensures Above(a + b, from) == Above(a, from) + Above(b, from)
  {
    if b == [] {
      assert a + b == a;
    } else {
      var init := b[..|b| - 1];
      assert (a + b)[..|a + b| - 1] == a + init;
      AboveAppend(a, init, from);
    }
  }

  lemma AboveOneMore(log: seq<Event>, e: Event, from: int)
    ensures Above(log + [e], from) == Above(log, from) + (if e.sn > from then [e] else [])
  {
  }

  lemma {:induction false} AboveNone(log: seq<Event>, from: int)
    requires forall i | 0 <= i < |log| :: log[i].sn <= from
    ensures Above(log, from) == []
  {
    if log == [] {
    } else {
      AboveNone(log[..|log| - 1], from);
    }
  }

  lemma {:induction false} AboveAll(log: seq<Event>, from: int)
    requires forall i | 0 <= i < |log| :: log[i].sn > from
    ensures Above(log, from) == log
  {
    if log == [] {
    } else {
      AboveAll(log[..|log| - 1], from);
    }
  }

  // A window that drops only events at or below from loses nothing above it.
  lemma AboveSuffix(log: seq<Event>, k: nat, from: int)
    requires k <= |log| && forall i | 0 <= i < k :: log[i].sn <= from
    ensures Above(log[k..], from) == Above(log, from)
  {
    assert log == log[..k] + log[k..];
    AboveAppend(log[..k], log[k..], from);
    AboveNone(log[..k], from);
  }

  lemma {:induction false} AboveMember(log: seq<Event>, from: int, e: Event)
    ensures e in Above(log, from) <==> e in log && e.sn > from
  {
    if log == [] {
    } else {
      AboveMember(log[..|log| - 1], from, e);
      assert log == log[..|log| - 1] + [log[|log| - 1]];
    }
  }

  lemma {:induction false} AboveAscending(log: seq<Event>, start: int, from: int)
    requires Ascending(log, start)
    ensures Ascending(Above(log, from), from)
  {
    if log == [] {
    } else {
      var init := log[..|log| - 1];
      AboveAscending(init, start, from);
      forall i | 0 <= i < |Above(init, from)|
        ensures Above(init, from)[i].sn < log[|log| - 1].sn
      {
        AboveMember(init, from, Above(init, from)[i]);
      }
    }
  }

  lemma AscendingAppend(log: seq<Event>, start: int, e: Event)
    requires Ascending(log, start) && e.sn > start && (log != [] ==> e.sn > log[|log| - 1].sn)
    ensures Ascending(log + [e], start)
  {
  }

  lemma RingAppend(ring: seq<Event>, e: Event)
    ensures Unrolled(ring + [e], 0) == Unrolled(ring, 0) + [e]
  {
  }

  // Overwriting the oldest slot of a full ring drops it and appends the new event.
  lemma RingOverwrite(ring: seq<Event>, ringStart: nat, e: Event)
    requires ringStart < |ring|
    ensures (ringStart + 1) % |ring| <= |ring|
    ensures Unrolled(ring[ringStart := e], (ringStart + 1) % |ring|) == Unrolled(ring, ringStart)[1..] + [e]
    ensures Unrolled(ring, ringStart)[0] == ring[ringStart]
  {
    WrapOnce(ringStart + 1, |ring|);
  }

  // Reading slot (start + offset) mod length visits the ring in order.
  lemma RingIndex(ring: seq<Event>, ringStart: nat, offset: nat)
    requires ringStart <= |ring| && offset < |ring|
    ensures ring[(ringStart + offset) % |ring|] == Unrolled(ring, ringStart)[offset]
  {
    WrapOnce(ringStart + offset, |ring|);
  }

  lemma WrapOnce(x: nat, n: nat)
    requires x < 2 * n
    ensures x % n == if x < n then x else x - n
  {
  }
}
