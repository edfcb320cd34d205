/**
 Whole runs of the event hub, compared with the append-only log it abbreviates.

 A `World` pairs the hub with what an observer writes down: the log of accepted
 events since the last reset, the logs of earlier epochs, and for every
 subscriber what it asked for, what it was replayed and what it has received.
 */
module HubHistory {
  import opened EventHub

  datatype Watch = Watch(
    from: int,               // sequence the subscriber already has
    epoch: nat,              // which log it follows
    replay: seq<Event>,      // returned by the subscription
    received: seq<Event>,    // taken from its queue so far
    notices: nat,            // control messages taken so far
    evicted: bool)           // the hub, not the subscriber, ended it

  datatype World = World(
    hub: Hub,
    start: int,
    log: seq<Event>,
    past: seq<seq<Event>>,
    watches: map<Id, Watch>)

  datatype Op =
    | Publishing(event: Event)
    | Resuming(from: int)
    | Joining(safeSeq: int)
    | Leaving(id: Id)
    | Resetting(safeSeq: int)
    | Closing
    | Receiving(id: Id)
    | Noticing(id: Id)

  function Begin(capacity: nat, buffer: nat, safeSeq: int): World {
    World(NewHub(capacity, buffer, safeSeq), safeSeq, [], [], map[])
  }

  // Marks the subscribers that the hub has just dropped.
  function Evict(watches: map<Id, Watch>, before: set<Id>, after: set<Id>): map<Id, Watch> {
    map id | id in watches ::
      if id in before && id !in after then watches[id].(evicted := true) else watches[id]
  }

  function Subscribed(w: World, from: int, result: (Hub, Outcome)): World {
    match result.1
    case Covered(id, replay) =>
      w.(hub := result.0, watches := w.watches[id := Watch(from, |w.past|, replay, [], 0, false)])
    case _ => w.(hub := result.0)
  }

  function Step(w: World, op: Op): World
    requires w.hub.Ok()
  {
    match op
    case Publishing(e) =>
      var hub := Publish(w.hub, e);
      w.(hub := hub,
         log := if Accepts(w.hub, e) then w.log + [e] else w.log,
         watches := Evict(w.watches, w.hub.registered, hub.registered))
    case Resuming(from) => Subscribed(w, from, Subscribe(w.hub, from))
    case Joining(safeSeq) => Subscribed(w, safeSeq, SubscribeAfterSnapshot(w.hub, safeSeq))
    case Leaving(id) => w.(hub := Unsubscribe(w.hub, id))
    case Resetting(safeSeq) =>
      World(ResetForResync(w.hub, safeSeq), safeSeq, [], w.past + [w.log],
            Evict(w.watches, w.hub.registered, {}))
    case Closing =>
      var hub := Close(w.hub);
      w.(hub := hub, watches := Evict(w.watches, w.hub.registered, hub.registered))
    case Receiving(id) =>
      if id in w.hub.subscribers && id in w.watches && w.hub.subscribers[id].events != [] then
        var e := w.hub.subscribers[id].events[0];
        w.(hub := Receive(w.hub, id),
           watches := w.watches[id := w.watches[id].(received := w.watches[id].received + [e])])
      else w
    case Noticing(id) =>
      if id in w.hub.subscribers && id in w.watches && w.hub.subscribers[id].control != [] then
        w.(hub := TakeNotice(w.hub, id),
           watches := w.watches[id := w.watches[id].(notices := w.watches[id].notices + 1)])
      else w
  }

  // ------------------------------------------------------------- invariants

  // The tail is what follows base in an ascending log that ends at through.
  predicate Window(tail: seq<Event>, base: int, through: int, start: int, log: seq<Event>) {
    var dropped := |log| - |tail|;
    && Ascending(log, start)
    && 0 <= dropped && tail == log[dropped..]
    && base == (if dropped == 0 then start else log[dropped - 1].sn)
    && through == (if log == [] then start else log[|log| - 1].sn)
  }

  // The ring, read from its start, is such a tail, and drops events only when full.
  predicate RingHoldsTail(hub: Hub, start: int, log: seq<Event>)
    requires hub.Ok()
  {
    && Window(Unrolled(hub.ring, hub.ringStart), hub.base, hub.through, start, log)
    && (|hub.ring| < hub.capacity ==> |hub.ring| == |log|)
    && hub.through <= hub.known
  }

  function LogOf(w: World, epoch: nat): seq<Event> {
    if epoch < |w.past| then w.past[epoch] else w.log
  }

  // Everything the subscriber was replayed, has taken, and will find queued.
  function Delivered(w: World, id: Id): seq<Event>
    requires id in w.watches && id in w.hub.subscribers
  {
    w.watches[id].replay + w.watches[id].received + w.hub.subscribers[id].events
  }

  predicate LiveOk(w: World, id: Id)
    requires id in w.watches && id in w.hub.subscribers
  {
    var watch := w.watches[id];
    && watch.epoch == |w.past| && !watch.evicted && watch.notices == 0
    && w.hub.subscribers[id].afterSeq == Max(watch.from, w.hub.through)
    && |w.hub.subscribers[id].events| <= w.hub.buffer
    && Delivered(w, id) == Above(w.log, watch.from)
  }

  predicate GoneOk(w: World, id: Id)
    requires id in w.watches && id in w.hub.subscribers
  {
    var watch := w.watches[id];
    && watch.epoch <= |w.past|
    && Delivered(w, id) <= Above(LogOf(w, watch.epoch), watch.from)
    && watch.notices + |w.hub.subscribers[id].control| == (if watch.evicted then 1 else 0)
  }

  predicate SubscriberOk(w: World, id: Id)
    requires id in w.watches && id in w.hub.subscribers
  {
    if id in w.hub.registered then LiveOk(w, id) else GoneOk(w, id)
  }

  predicate Inv(w: World) {
    && w.hub.Ok()
    && RingHoldsTail(w.hub, w.start, w.log)
    && w.watches.Keys == w.hub.subscribers.Keys
    && (forall id | id in w.watches :: SubscriberOk(w, id))
  }

  lemma BeginInv(capacity: nat, buffer: nat, safeSeq: int)
    requires capacity > 0
    ensures Inv(Begin(capacity, buffer, safeSeq))
  {
  }

  // --------------------------------------------------------- windows of a log

  lemma WindowGrows(tail: seq<Event>, base: int, through: int, start: int, log: seq<Event>, e: Event)
    requires Window(tail, base, through, start, log) && e.sn > through
    ensures Window(tail + [e], base, e.sn, start, log + [e])
  {
    AscendingAppend(log, start, e);
    hide Ascending;
    assert (log + [e])[|log| - |tail|..] == tail + [e];
  }

  lemma WindowSlides(tail: seq<Event>, base: int, through: int, start: int, log: seq<Event>, e: Event)
    requires Window(tail, base, through, start, log) && e.sn > through && tail != []
    ensures Window(tail[1..] + [e], tail[0].sn, e.sn, start, log + [e])
  {
    AscendingAppend(log, start, e);
    hide Ascending;
    var dropped := |log| - |tail|;
    assert tail[0] == log[dropped] == (log + [e])[dropped];
    assert (log + [e])[dropped + 1..] == tail[1..] + [e];
  }

  lemma WindowBelow(tail: seq<Event>, base: int, through: int, start: int, log: seq<Event>, i: nat)
    requires Window(tail, base, through, start, log) && i < |log|
    ensures log[i].sn <= through
    ensures i < |log| - |tail| ==> log[i].sn <= base
    ensures i >= |log| - |tail| ==> log[i].sn > base
  {
  }

  lemma WindowCovers(tail: seq<Event>, base: int, through: int, start: int, log: seq<Event>, from: int)
    requires Window(tail, base, through, start, log) && (through <= from || base <= from)
    ensures Above(tail, from) == Above(log, from)
  {
    hide Above;
    forall i | 0 <= i < |log| - |tail| ensures log[i].sn <= from {
      WindowBelow(tail, base, through, start, log, i);
    }
    AboveSuffix(log, |log| - |tail|, from);
  }

  lemma WindowIsAboveBase(tail: seq<Event>, base: int, through: int, start: int, log: seq<Event>)
    requires Window(tail, base, through, start, log)
    ensures tail == Above(log, base)
  {
    hide Above;
    forall i | 0 <= i < |tail| ensures tail[i].sn > base {
      WindowBelow(tail, base, through, start, log, |log| - |tail| + i);
    }
    AboveAll(tail, base);
    WindowCovers(tail, base, through, start, log, base);
  }

  // ------------------------------------------------------ each step keeps it

  lemma PublishKeepsRing(hub: Hub, start: int, log: seq<Event>, e: Event)
    requires hub.Ok() && RingHoldsTail(hub, start, log) && Accepts(hub, e)
    ensures Publish(hub, e).Ok() && RingHoldsTail(Publish(hub, e), start, log + [e])
  {
    var tail := Unrolled(hub.ring, hub.ringStart);
    assert |tail| == |hub.ring|;
    hide Window, Offer, Overflows, Unrolled;
    PublishKeepsOk(hub, e);
    if |hub.ring| == hub.capacity {
      RingOverwrite(hub.ring, hub.ringStart, e);
      WindowSlides(tail, hub.base, hub.through, start, log, e);
    } else {
      RingAppend(hub.ring, e);
      WindowGrows(tail, hub.base, hub.through, start, log, e);
    }
  }

  // What an accepted event does to one subscriber's account.
  lemma PublishEffect(w: World, e: Event, id: Id)
    requires Inv(w) && Accepts(w.hub, e) && id in w.watches
    ensures var w' := Step(w, Publishing(e));
            && id in w'.watches && id in w'.hub.subscribers && id in w.hub.subscribers
            && w'.log == w.log + [e] && w'.past == w.past && w'.hub.through == e.sn && w'.hub.buffer == w.hub.buffer
            && (id in w'.hub.registered <==>
                id in w.hub.registered && !Overflows(w.hub.subscribers[id], e, w.hub.buffer))
            && w'.hub.subscribers[id] ==
               (if id in w.hub.registered then Offer(w.hub.subscribers[id], e, w.hub.buffer) else w.hub.subscribers[id])
            && w'.watches[id] ==
               w.watches[id].(evicted := w.watches[id].evicted || (id in w.hub.registered && id !in w'.hub.registered))
            && (id in w.hub.registered ==> w.hub.subscribers[id].control == [])
            && SubscriberOk(w, id) && e.sn > w.hub.through
  {
  }

  lemma PublishKeepsSubscriber(w: World, e: Event, id: Id)
    requires w.hub.Ok() && Inv(w) && Accepts(w.hub, e) && id in w.watches
    ensures var w' := Step(w, Publishing(e));
            id in w'.watches && id in w'.hub.subscribers && SubscriberOk(w', id)
  {
    hide Inv, Step, Above;
    var w' := Step(w, Publishing(e));
    PublishEffect(w, e, id);
    var from := w.watches[id].from;
    AboveOneMore(w.log, e, from);
    if id in w.hub.registered && id in w'.hub.registered && e.sn > from {
      assert Delivered(w', id) == Delivered(w, id) + [e];
    } else {
      assert Delivered(w', id) == Delivered(w, id);
    }
  }

  lemma PublishKeepsInv(w: World, e: Event)
    requires Inv(w)
    ensures Inv(Step(w, Publishing(e)))
  {
    hide RingHoldsTail, SubscriberOk, Offer, Overflows;
    var w' := Step(w, Publishing(e));
    if Accepts(w.hub, e) {
      PublishKeepsRing(w.hub, w.start, w.log, e);
      forall id | id in w'.watches ensures SubscriberOk(w', id) {
        PublishKeepsSubscriber(w, e, id);
      }
    } else {
      assert w'.watches == w.watches;
    }
  }

  // Untouched subscribers stay as they were.
  lemma OthersKeep(w: World, w': World, id: Id)
    requires id in w.watches && id in w.hub.subscribers && SubscriberOk(w, id)
    requires id in w'.watches && id in w'.hub.subscribers
    requires w'.watches[id] == w.watches[id] && w'.hub.subscribers[id] == w.hub.subscribers[id]
    requires id in w'.hub.registered <==> id in w.hub.registered
    requires w'.log == w.log && w'.past == w.past && w'.hub.through == w.hub.through && w'.hub.buffer == w.hub.buffer
    ensures SubscriberOk(w', id)
  {
    hide Above;
  }

  lemma SubscribeKeepsInv(w: World, from: int)
    requires Inv(w)
    ensures Inv(Subscribed(w, from, Subscribe(w.hub, from)))
  {
    hide Window;
    var w' := Subscribed(w, from, Subscribe(w.hub, from));
    SubscribeKeepsOk(w.hub, from);
    if Covers(w.hub, from) {
      var tail := Unrolled(w.hub.ring, w.hub.ringStart);
      WindowCovers(tail, w.hub.base, w.hub.through, w.start, w.log, from);
      forall id | id in w'.watches ensures SubscriberOk(w', id) {
        if id == w.hub.nextId {
          assert Delivered(w', id) == Above(w.log, from);
        } else {
          OthersKeep(w, w', id);
        }
      }
    }
  }

  lemma KnownKeepsInv(w: World, safeSeq: int)
    requires Inv(w)
    ensures Inv(w.(hub := w.hub.(known := Max(w.hub.known, safeSeq))))
  {
    hide Window, SubscriberOk;
    var w' := w.(hub := w.hub.(known := Max(w.hub.known, safeSeq)));
    forall id | id in w'.watches ensures SubscriberOk(w', id) {
      OthersKeep(w, w', id);
    }
  }

  lemma DropAllKeepsInv(w: World, notice: Notice, start: int, past: seq<seq<Event>>, log: seq<Event>, hub: Hub)
    requires Inv(w)
    requires hub.Ok() && hub.registered == {} && hub.subscribers == DropAll(w.hub, notice).subscribers
    requires RingHoldsTail(hub, start, log)
    requires (past == w.past && log == w.log) || (past == w.past + [w.log])
    ensures Inv(World(hub, start, log, past, Evict(w.watches, w.hub.registered, {})))
  {
    hide RingHoldsTail, Above;
    var w' := World(hub, start, log, past, Evict(w.watches, w.hub.registered, {}));
    forall id | id in w'.watches ensures SubscriberOk(w', id) {
      assert SubscriberOk(w, id);
      assert Delivered(w', id) == Delivered(w, id);
      assert LogOf(w', w.watches[id].epoch) == LogOf(w, w.watches[id].epoch);
    }
  }

  // A consumer's step moves at most one event from its queue to its hands.
  lemma ConsumerKeepsInv(w: World, op: Op)
    requires Inv(w) && (op.Receiving? || op.Noticing? || op.Leaving?)
    ensures Inv(Step(w, op))
  {
    hide RingHoldsTail, SubscriberOk;
    var w' := Step(w, op);
    assert RingHoldsTail(w'.hub, w'.start, w'.log) by {
      RingUnmoved(w.hub, w'.hub, w.start, w.log);
    }
    forall id | id in w'.watches ensures SubscriberOk(w', id) {
      if op.id == id {
        ConsumerKeepsItself(w, op);
      } else {
        OthersKeep(w, w', id);
      }
    }
  }

  lemma RingUnmoved(hub: Hub, hub': Hub, start: int, log: seq<Event>)
    requires hub.Ok() && hub'.Ok() && RingHoldsTail(hub, start, log)
    requires hub'.ring == hub.ring && hub'.ringStart == hub.ringStart && hub'.capacity == hub.capacity
    requires hub'.base == hub.base && hub'.through == hub.through && hub'.known == hub.known
    ensures RingHoldsTail(hub', start, log)
  {
    hide Window;
  }

  lemma ConsumerKeepsItself(w: World, op: Op)
    requires Inv(w) && (op.Receiving? || op.Noticing? || op.Leaving?) && op.id in w.watches
    ensures var w' := Step(w, op); op.id in w'.watches && op.id in w'.hub.subscribers && SubscriberOk(w', op.id)
  {
    hide RingHoldsTail, Above;
    var w' := Step(w, op);
    var events := w.hub.subscribers[op.id].events;
    assert SubscriberOk(w, op.id);
    assert events != [] ==> events == [events[0]] + events[1..];
    assert Delivered(w', op.id) == Delivered(w, op.id);
  }

  lemma StepKeepsInv(w: World, op: Op)
    requires Inv(w)
    ensures Step(w, op).hub.Ok() && Inv(Step(w, op))
  {
    hide SubscriberOk, Window;
    match op
    case Publishing(e) => PublishKeepsInv(w, e);
    case Resuming(from) => SubscribeKeepsInv(w, from);
    case Joining(safeSeq) =>
      KnownKeepsInv(w, safeSeq);
      SubscribeKeepsInv(w.(hub := w.hub.(known := Max(w.hub.known, safeSeq))), safeSeq);
    case Resetting(safeSeq) => ResetKeepsInv(w, safeSeq);
    case Closing => CloseKeepsInv(w);
    case _ => ConsumerKeepsInv(w, op);
  }

  lemma ResetKeepsInv(w: World, safeSeq: int)
    requires Inv(w)
    ensures Inv(Step(w, Resetting(safeSeq)))
  {
    hide SubscriberOk;
    var hub := ResetForResync(w.hub, safeSeq);
    DropAllKeepsOk(w.hub, PrunedHorizon);
    assert Window([], safeSeq, safeSeq, safeSeq, []);
    DropAllKeepsInv(w, PrunedHorizon, safeSeq, w.past + [w.log], [], hub);
  }

  lemma CloseKeepsInv(w: World)
    requires Inv(w)
    ensures Inv(Step(w, Closing))
  {
    hide SubscriberOk, Window;
    if w.hub.closed {
      assert Step(w, Closing).watches == w.watches;
    } else {
      DropAllKeepsOk(w.hub, Shutdown);
      DropAllKeepsInv(w, Shutdown, w.start, w.past, w.log, Close(w.hub));
    }
  }

  // ---------------------------------------------------------- over every run

  // The world after a run from a fresh hub; every prefix of a run is a run.
  function Run(capacity: nat, buffer: nat, safeSeq: int, ops: seq<Op>): (w: World)
    requires capacity > 0
    ensures w.hub.Ok() && Inv(w)
  {
    BeginInv(capacity, buffer, safeSeq);
    if ops == [] then Begin(capacity, buffer, safeSeq) else
    var before := Run(capacity, buffer, safeSeq, ops[..|ops| - 1]);
    StepKeepsInv(before, ops[|ops| - 1]);
    Step(before, ops[|ops| - 1])
  }

  /** A registered subscriber has got exactly the log above what it asked from: no gap, no duplicate, in order. */
  lemma NoGapNoDuplicate(capacity: nat, buffer: nat, safeSeq: int, ops: seq<Op>, id: Id)
    requires capacity > 0
    requires id in Run(capacity, buffer, safeSeq, ops).hub.registered
    ensures var w := Run(capacity, buffer, safeSeq, ops);
            && id in w.watches && id in w.hub.subscribers
            && Delivered(w, id) == Above(w.log, w.watches[id].from)
            && Ascending(Delivered(w, id), w.watches[id].from)
            && w.watches[id].notices == 0 && w.hub.subscribers[id].control == []
  {
    hide Run, Above;
    var w := Run(capacity, buffer, safeSeq, ops);
    assert SubscriberOk(w, id);
    AboveAscending(w.log, w.start, w.watches[id].from);
  }

  /** A dropped subscriber got a prefix of the log it followed and exactly one control message, ever. */
  lemma DroppedGotPrefixAndOneNotice(capacity: nat, buffer: nat, safeSeq: int, ops: seq<Op>, id: Id)
    requires capacity > 0
    requires id in Run(capacity, buffer, safeSeq, ops).watches
    requires id !in Run(capacity, buffer, safeSeq, ops).hub.registered
    ensures var w := Run(capacity, buffer, safeSeq, ops);
            && id in w.hub.subscribers
            && Delivered(w, id) <= Above(LogOf(w, w.watches[id].epoch), w.watches[id].from)
            && w.watches[id].notices + |w.hub.subscribers[id].control| == (if w.watches[id].evicted then 1 else 0)
  {
    hide Run, Above, RingHoldsTail;
    assert SubscriberOk(Run(capacity, buffer, safeSeq, ops), id);
  }

  /** In every reachable state the ring holds exactly the logged events in (base, through]. */
  lemma RingIsWindow(capacity: nat, buffer: nat, safeSeq: int, ops: seq<Op>)
    requires capacity > 0
    ensures var w := Run(capacity, buffer, safeSeq, ops);
            && w.hub.ringStart <= |w.hub.ring|
            && Unrolled(w.hub.ring, w.hub.ringStart) == Above(w.log, w.hub.base)
            && (forall i | 0 <= i < |w.log| :: w.log[i].sn <= w.hub.through)
            && (w.hub.ringStart != 0 ==> |w.hub.ring| == capacity)
            && (|w.log| <= capacity ==> |w.hub.ring| == |w.log|)
  {
    hide Run, Above, Window, SubscriberOk;
    var w := Run(capacity, buffer, safeSeq, ops);
    var tail := Unrolled(w.hub.ring, w.hub.ringStart);
    SettingsAreFixed(capacity, buffer, safeSeq, ops);
    WindowIsAboveBase(tail, w.hub.base, w.hub.through, w.start, w.log);
    forall i | 0 <= i < |w.log| ensures w.log[i].sn <= w.hub.through {
      WindowBelow(tail, w.hub.base, w.hub.through, w.start, w.log, i);
    }
    WindowIsShorter(tail, w.hub.base, w.hub.through, w.start, w.log);
  }

  lemma WindowIsShorter(tail: seq<Event>, base: int, through: int, start: int, log: seq<Event>)
    requires Window(tail, base, through, start, log)
    ensures |tail| <= |log|
  {
  }

  lemma {:induction false} SettingsAreFixed(capacity: nat, buffer: nat, safeSeq: int, ops: seq<Op>)
    requires capacity > 0
    ensures Run(capacity, buffer, safeSeq, ops).hub.capacity == capacity
    ensures Run(capacity, buffer, safeSeq, ops).hub.buffer == buffer
  {
    hide Inv, Step;
    if ops == [] {
    } else {
      SettingsAreFixed(capacity, buffer, safeSeq, ops[..|ops| - 1]);
      StepKeepsSettings(Run(capacity, buffer, safeSeq, ops[..|ops| - 1]), ops[|ops| - 1]);
    }
  }

  lemma StepKeepsSettings(w: World, op: Op)
    requires w.hub.Ok()
    ensures Step(w, op).hub.capacity == w.hub.capacity && Step(w, op).hub.buffer == w.hub.buffer
  {
    hide Above, Offer, Overflows, Evict;
  }
}
