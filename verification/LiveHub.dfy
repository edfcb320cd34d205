/**
 The hub as the mutable object the server holds: every method performs exactly
 one locked section of the hub's specification.
 */
module LiveHub {
  import opened Spec = EventHub

  class EventHub {
    const capacity: nat
    const buffer: nat
    var ring: seq<Event>
    var ringStart: nat
    var base: int
    var through: int
    var known: int
    var closed: bool
    var registered: set<Id>
    var subscribers: map<Id, Subscriber>
    var nextId: Id

    ghost function View(): Hub
      reads this
    {
      Hub(capacity, buffer, ring, ringStart, base, through, known, closed, registered, subscribers, nextId)
    }

    constructor (ringCapacity: nat, subscriberBuffer: nat, safeSeq: int)
      requires ringCapacity > 0
      ensures View() == NewHub(ringCapacity, subscriberBuffer, safeSeq) && View().Ok()
    {
      capacity, buffer := ringCapacity, subscriberBuffer;
      ring, ringStart := [], 0;
      base, through, known := safeSeq, safeSeq, safeSeq;
      closed, registered, subscribers, nextId := false, {}, map[], 0;
    }

    // The publish loop over the registered subscribers; the map's order is arbitrary.
    method OfferAll(e: Event)
      requires registered <= subscribers.Keys
      requires forall id | id in registered :: subscribers[id].control == []
      modifies `registered, `subscribers
      ensures registered == set id | id in old(registered) && !Overflows(old(subscribers)[id], e, buffer)
      ensures subscribers == map id | id in old(subscribers) ::
                if id in old(registered) then Offer(old(subscribers)[id], e, buffer) else old(subscribers)[id]
    {
      var pending := registered;
      while pending != {}
        invariant pending <= registered <= old(registered)
        invariant subscribers.Keys == old(subscribers).Keys
        invariant forall id | id in pending :: subscribers[id] == old(subscribers)[id]
        invariant forall id | id in subscribers && id !in pending ::
                    subscribers[id] == if id in old(registered) then Offer(old(subscribers)[id], e, buffer)
                                       else old(subscribers)[id]
        invariant forall id | id in old(registered) && id !in pending ::
                    id in registered <==> !Overflows(old(subscribers)[id], e, buffer)
        decreases pending
      {
        var id :| id in pending;
        pending := pending - {id};
        var current := subscribers[id];
        if e.sn <= current.afterSeq {
          continue;
        }
        if |current.events| < buffer {
          subscribers := subscribers[id := current.(events := current.events + [e], afterSeq := e.sn)];
        } else {
          registered := registered - {id};
          assert |current.control| < 1;  // the capacity-1 send cannot block
          subscribers := subscribers[id := current.(control := current.control + [SlowClient])];
        }
      }
    }

    method Publish(e: Event)
      requires View().Ok()
      modifies this
      ensures View() == Spec.Publish(old(View()), e) && View().Ok()
    {
      hide Offer, Overflows;
      PublishKeepsOk(View(), e);
      if closed || e.sn <= through {
        return;
      }
      if |ring| == capacity {
        base := ring[ringStart].sn;
        ring := ring[ringStart := e];
        ringStart := (ringStart + 1) % capacity;
      } else {
        ring := ring + [e];
      }
      through := e.sn;
      if e.sn > known {
        known := e.sn;
      }
      OfferAll(e);
    }

    method Replay(from: int) returns (replay: seq<Event>)
      requires View().Ok()
      ensures replay == Above(Unrolled(ring, ringStart), from)
    {
      replay := [];
      for offset := 0 to |ring|
        invariant replay == Above(Unrolled(ring, ringStart)[..offset], from)
      {
        var event := ring[(ringStart + offset) % |ring|];
        assert event == Unrolled(ring, ringStart)[offset] by {
          RingIndex(ring, ringStart, offset);
        }
        assert Unrolled(ring, ringStart)[..offset + 1][..offset] == Unrolled(ring, ringStart)[..offset];
        if event.sn > from {
          replay := replay + [event];
        }
      }
      assert Unrolled(ring, ringStart)[..|ring|] == Unrolled(ring, ringStart);
    }

    method SubscribeFromRing(from: int) returns (r: Outcome)
      requires View().Ok()
      modifies this
      ensures (View(), r) == Subscribe(old(View()), from) && View().Ok()
    {
      SubscribeKeepsOk(View(), from);
      if closed {
        return ShutDown;
      }
      if from > known {
        return NotCovered;
      }
      if through > from && from < base {
        return NotCovered;
      }
      var replay := Replay(from);
      r := Covered(nextId, replay);
      registered := registered + {nextId};
      subscribers := subscribers[nextId := Subscriber([], [], Max(from, through))];
      nextId := nextId + 1;
    }

    method SubscribeAfterSnapshot(safeSeq: int) returns (r: Outcome)
      requires View().Ok()
      modifies this
      ensures (View(), r) == Spec.SubscribeAfterSnapshot(old(View()), safeSeq) && View().Ok()
    {
      if safeSeq > known {
        known := safeSeq;
      }
      r := SubscribeFromRing(safeSeq);
    }

    method Unsubscribe(id: Id)
      requires View().Ok()
      modifies `registered
      ensures View() == Spec.Unsubscribe(old(View()), id) && View().Ok()
    {
      registered := registered - {id};
    }

    // Sends the notice to every registered subscriber and forgets them all.
    method TellEveryone(notice: Notice)
      requires View().Ok()
      modifies `registered, `subscribers
      ensures View() == DropAll(old(View()), notice) && View().Ok()
    {
      DropAllKeepsOk(View(), notice);
      while registered != {}
        invariant registered <= old(registered)
        invariant subscribers.Keys == old(subscribers).Keys
        invariant forall id | id in subscribers ::
                    subscribers[id] ==
                    if id in old(registered) && id !in registered
                    then old(subscribers)[id].(control := old(subscribers)[id].control + [notice])
                    else old(subscribers)[id]
        decreases registered
      {
        var id :| id in registered;
        registered := registered - {id};
        assert |subscribers[id].control| < 1;  // the capacity-1 send cannot block
        subscribers := subscribers[id := subscribers[id].(control := subscribers[id].control + [notice])];
      }
    }

    method ResetForResync(safeSeq: int)
      requires View().Ok()
      modifies this
      ensures View() == Spec.ResetForResync(old(View()), safeSeq) && View().Ok()
    {
      TellEveryone(PrunedHorizon);
      ring, ringStart := [], 0;
      base, through, known := safeSeq, safeSeq, safeSeq;
    }

    method Close()
      requires View().Ok()
      modifies this
      ensures View() == Spec.Close(old(View())) && View().Ok()
    {
      if closed {
        return;
      }
      closed := true;
      TellEveryone(Shutdown);
    }
  }
}
