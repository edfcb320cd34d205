/** What the hub answers, decided by the log and the steps taken: who is covered, who is dropped, and why. */
module HubAnswers {
  import opened EventHub
  import opened HubHistory

  // The last sequence number that the log of the last `capacity` events no longer holds.
  function Forgotten(w: World, capacity: nat): int
  {
    if |w.log| <= capacity then w.start else w.log[|w.log| - capacity - 1].sn
  }

  // The highest watermark that subscribers have brought along since the last reset.
  function Brought(safeSeq: int, ops: seq<Op>): int {
    if ops == [] then safeSeq
    else
      match ops[|ops| - 1]
      case Resetting(at) => at
      case Joining(at) => Max(Brought(safeSeq, ops[..|ops| - 1]), at)
      case _ => Brought(safeSeq, ops[..|ops| - 1])
  }

  // The sequence number of the newest event of the log.
  function Newest(w: World): int {
    if w.log == [] then w.start else w.log[|w.log| - 1].sn
  }

  function IsClosed(ops: seq<Op>): bool {
    Closing in ops
  }

  // ------------------------------------------------------- fields, by history

  lemma BaseIsForgotten(w: World)
    requires Inv(w)
    ensures w.hub.base == Forgotten(w, w.hub.capacity) && w.hub.through == Newest(w) && w.hub.base <= w.hub.through
  {
    hide SubscriberOk;
  }

  lemma StepOfKnown(w: World, op: Op, brought: int)
    requires Inv(w) && w.hub.known == Max(brought, w.hub.through)
    ensures var next := Step(w, op);
            next.hub.known == match op {
                 case Resetting(at) => Max(at, next.hub.through)
                 case Joining(at) => Max(Max(brought, at), next.hub.through)
                 case _ => Max(brought, next.hub.through)
               }
  {
    hide SubscriberOk, RingHoldsTail, Above, Evict, Offer, Overflows, Unrolled;
  }

  lemma {:induction false} ClosedIsHistory(capacity: nat, buffer: nat, safeSeq: int, ops: seq<Op>)
    requires capacity > 0
    ensures Run(capacity, buffer, safeSeq, ops).hub.closed == IsClosed(ops)
  {
    hide Inv, Step;
    if ops == [] {
    } else {
      var init, last := ops[..|ops| - 1], ops[|ops| - 1];
      ClosedIsHistory(capacity, buffer, safeSeq, init);
      RunStep(capacity, buffer, safeSeq, ops);
      hide Run;
      StepCloses(Run(capacity, buffer, safeSeq, init), last);
      assert ops == init + [last];
    }
  }

  lemma StepCloses(w: World, op: Op)
    requires w.hub.Ok()
    ensures Step(w, op).hub.closed == (w.hub.closed || op == Closing)
  {
    hide Above, Evict, Offer, Overflows, Unrolled, Covers;
  }

  lemma BeginKnown(capacity: nat, buffer: nat, safeSeq: int)
    requires capacity > 0
    ensures var w := Run(capacity, buffer, safeSeq, []);
            w.hub.known == safeSeq == Newest(w)
  {
    hide Inv, Step;
  }

  /** The hub knows what it published and what subscribers brought along, and is closed once told so. */
  lemma {:induction false} KnownIsHistory(capacity: nat, buffer: nat, safeSeq: int, ops: seq<Op>)
    requires capacity > 0
    ensures var w := Run(capacity, buffer, safeSeq, ops);
            w.hub.known == Max(Brought(safeSeq, ops), Newest(w)) && w.hub.closed == IsClosed(ops)
  {
    hide Run, Inv, Step, Newest, IsClosed;
    ClosedIsHistory(capacity, buffer, safeSeq, ops);
    if ops == [] {
      BeginKnown(capacity, buffer, safeSeq);
    } else {
      var init, last := ops[..|ops| - 1], ops[|ops| - 1];
      KnownIsHistory(capacity, buffer, safeSeq, init);
      RunStep(capacity, buffer, safeSeq, ops);
      KnownGrows(Run(capacity, buffer, safeSeq, init), Run(capacity, buffer, safeSeq, ops), last, Brought(safeSeq, init));
    }
  }

  lemma KnownGrows(before: World, w: World, op: Op, brought: int)
    requires before.hub.Ok() && Inv(before) && Inv(w) && w == Step(before, op)
    requires before.hub.known == Max(brought, Newest(before))
    ensures w.hub.known == match op {
              case Resetting(at) => Max(at, Newest(w))
              case Joining(at) => Max(Max(brought, at), Newest(w))
              case _ => Max(brought, Newest(w))
            }
  {
    hide Inv, Step, Newest;
    BaseIsForgotten(before);
    BaseIsForgotten(w);
    StepOfKnown(before, op, brought);
  }

  lemma RunStep(capacity: nat, buffer: nat, safeSeq: int, ops: seq<Op>)
    requires capacity > 0 && ops != []
    ensures Run(capacity, buffer, safeSeq, ops) == Step(Run(capacity, buffer, safeSeq, ops[..|ops| - 1]), ops[|ops| - 1])
  {
    hide Inv, Step;
  }

  // -------------------------------------------------------------- who is covered

  // The subscription was made at `from` and replayed the log above it; nothing else happened.
  predicate Registers(w: World, next: World, from: int) {
    var id := w.hub.nextId;
    && id !in w.watches
    && next.watches == w.watches[id := Watch(from, |w.past|, Above(w.log, from), [], 0, false)]
    && next.hub.registered == w.hub.registered + {id}
    && next.log == w.log && next.past == w.past && next.start == w.start
    && next.hub.ring == w.hub.ring && next.hub.ringStart == w.hub.ringStart
    && (forall other <- w.hub.subscribers :: other in next.hub.subscribers && next.hub.subscribers[other] == w.hub.subscribers[other])
    && id in next.hub.subscribers && next.hub.subscribers[id].events == [] && next.hub.subscribers[id].control == []
  }

  lemma ReplayIsAbove(w: World, from: int)
    requires w.hub.Ok() && RingHoldsTail(w.hub, w.start, w.log) && w.hub.base <= from
    ensures Above(Unrolled(w.hub.ring, w.hub.ringStart), from) == Above(w.log, from)
  {
    hide Window, Above, Unrolled;
    WindowCovers(Unrolled(w.hub.ring, w.hub.ringStart), w.hub.base, w.hub.through, w.start, w.log, from);
  }

  // The answer of a state, in terms of its log.
  lemma AnswerOfState(w: World, from: int)
    requires w.hub.Ok() && Inv(w)
    ensures Subscribe(w.hub, from).1 ==
            if w.hub.closed then ShutDown
            else if Forgotten(w, w.hub.capacity) <= from <= w.hub.known then Covered(w.hub.nextId, Above(w.log, from))
            else NotCovered
  {
    hide RingHoldsTail, SubscriberOk, Above, Unrolled, Forgotten;
    BaseIsForgotten(w);
    if w.hub.base <= from { ReplayIsAbove(w, from); }
    hide Inv;
  }

  lemma RegistersIfCovered(w: World, from: int)
    requires Inv(w)
    ensures var (hub, outcome) := Subscribe(w.hub, from);
            var next := Subscribed(w, from, (hub, outcome));
            && (outcome == Covered(w.hub.nextId, Above(w.log, from)) ==> Registers(w, next, from))
            && (!outcome.Covered? ==> next == w)
  {
    assert w.hub.nextId !in w.watches;
    hide RingHoldsTail, SubscriberOk, Above, Covers;
  }

  lemma CoverageOfState(w: World, from: int)
    requires w.hub.Ok() && Inv(w) && !w.hub.closed
    ensures var next := Subscribed(w, from, Subscribe(w.hub, from));
            if Forgotten(w, w.hub.capacity) <= from <= w.hub.known then Registers(w, next, from)
            else next == w && Subscribe(w.hub, from).1 == NotCovered
  {
    hide Inv, Subscribe, Registers, Subscribed, Forgotten;
    AnswerOfState(w, from);
    RegistersIfCovered(w, from);
  }

  /** On an open hub a resume is covered, and replays the log above its position, if and only if every event
      above that position is among the last `capacity` ones and the position is not beyond anything known;
      otherwise it is refused without a trace. A closed hub refuses it as shut down. */
  lemma ResumeCoveredExactly(capacity: nat, buffer: nat, safeSeq: int, ops: seq<Op>, from: int)
    requires capacity > 0
    ensures var w := Run(capacity, buffer, safeSeq, ops);
            var next := Step(w, Resuming(from));
            if Closing in ops then next == w && Subscribe(w.hub, from).1 == ShutDown
            else if Forgotten(w, capacity) <= from <= Max(Brought(safeSeq, ops), Newest(w)) then Registers(w, next, from)
            else next == w && Subscribe(w.hub, from).1 == NotCovered
  {
    KnownIsHistory(capacity, buffer, safeSeq, ops);
    SettingsAreFixed(capacity, buffer, safeSeq, ops);
    var w := Run(capacity, buffer, safeSeq, ops);
    if !w.hub.closed { CoverageOfState(w, from); }
    hide Run, Inv, Registers, Newest, Forgotten, Brought;
  }

  /** A subscriber that brings its own snapshot's watermark is covered if and only if every event above it is
      among the last `capacity` ones. */
  lemma JoinCoveredExactly(capacity: nat, buffer: nat, safeSeq: int, ops: seq<Op>, at: int)
    requires capacity > 0 && Closing !in ops
    ensures var w := Run(capacity, buffer, safeSeq, ops);
            var next := Step(w, Joining(at));
            if Forgotten(w, capacity) <= at then Registers(w, next, at)
            else next.watches == w.watches && next.hub.registered == w.hub.registered && next.log == w.log
                 && SubscribeAfterSnapshot(w.hub, at).1 == NotCovered
  {
    hide Run, Inv, Newest, Forgotten, Brought, Registers, Step, SubscribeAfterSnapshot;
    KnownIsHistory(capacity, buffer, safeSeq, ops);
    SettingsAreFixed(capacity, buffer, safeSeq, ops);
    JoinOfState(Run(capacity, buffer, safeSeq, ops), at);
  }

  lemma JoinOfState(w: World, at: int)
    requires w.hub.Ok() && Inv(w) && !w.hub.closed
    ensures var next := Step(w, Joining(at));
            if Forgotten(w, w.hub.capacity) <= at then Registers(w, next, at)
            else next.watches == w.watches && next.hub.registered == w.hub.registered && next.log == w.log
                 && SubscribeAfterSnapshot(w.hub, at).1 == NotCovered
  {
    hide Inv, Above, Subscribe;
    KnownKeepsInv(w, at);
    CoverageOfState(w.(hub := w.hub.(known := Max(w.hub.known, at))), at);
  }

  // ---------------------------------------------------------------- who is dropped

  /** An event is logged if and only if the hub is open and the event is newer than all logged ones. It is
      queued to every registered subscriber it is news to and that has room; one without room is dropped with
      the slow-client notice and keeps its queue; nobody else is touched. */
  lemma PublishReachesExactly(capacity: nat, buffer: nat, safeSeq: int, ops: seq<Op>, e: Event, id: Id)
    requires capacity > 0 && id in Run(capacity, buffer, safeSeq, ops).watches
    ensures var w := Run(capacity, buffer, safeSeq, ops);
            var next := Step(w, Publishing(e));
            && id in w.hub.subscribers && id in next.hub.subscribers
            && (if Closing !in ops && e.sn > Newest(w) then next.log == w.log + [e] else next == w)
            && (next.log != w.log ==>
                  var was, now := w.hub.subscribers[id], next.hub.subscribers[id];
                  var news := id in w.hub.registered && e.sn > w.watches[id].from;
                  && (news && |was.events| < buffer ==>
                        id in next.hub.registered && now.events == was.events + [e] && now.control == was.control)
                  && (news && |was.events| >= buffer ==>
                        id !in next.hub.registered && now.events == was.events && now.control == [SlowClient])
                  && (!news ==> (id in next.hub.registered <==> id in w.hub.registered)
                                && now.events == was.events && now.control == was.control))
  {
    KnownIsHistory(capacity, buffer, safeSeq, ops);
    SettingsAreFixed(capacity, buffer, safeSeq, ops);
    var w := Run(capacity, buffer, safeSeq, ops);
    BaseIsForgotten(w);
    if Accepts(w.hub, e) {
      PublishEffect(w, e, id);
    } else {
      assert Evict(w.watches, w.hub.registered, w.hub.registered) == w.watches;
    }
    hide Run, RingHoldsTail, Newest, Above, Forgotten;
  }

  /** A reset and a close tell every registered subscriber, and nobody else, why. */
  lemma EndingsSayWhy(capacity: nat, buffer: nat, safeSeq: int, ops: seq<Op>, id: Id, at: int)
    requires capacity > 0 && id in Run(capacity, buffer, safeSeq, ops).watches
    ensures var w := Run(capacity, buffer, safeSeq, ops);
            var reset, closed := Step(w, Resetting(at)), Step(w, Closing);
            && id in w.hub.subscribers && id in reset.hub.subscribers && id in closed.hub.subscribers
            && reset.hub.registered == {} && (Closing !in ops ==> closed.hub.registered == {})
            && reset.hub.subscribers[id].control ==
               (if id in w.hub.registered then [PrunedHorizon] else w.hub.subscribers[id].control)
            && (Closing !in ops ==>
                  closed.hub.subscribers[id].control ==
                  (if id in w.hub.registered then [Shutdown] else w.hub.subscribers[id].control))
  {
    hide Run, Inv, Step, Brought, Newest;
    KnownIsHistory(capacity, buffer, safeSeq, ops);
    EndingsOfState(Run(capacity, buffer, safeSeq, ops), id, at);
  }

  lemma EndingsOfState(w: World, id: Id, at: int)
    requires w.hub.Ok() && Inv(w) && id in w.watches
    ensures var reset, closed := Step(w, Resetting(at)), Step(w, Closing);
            && id in w.hub.subscribers && id in reset.hub.subscribers && id in closed.hub.subscribers
            && reset.hub.registered == {} && (!w.hub.closed ==> closed.hub.registered == {})
            && reset.hub.subscribers[id].control ==
               (if id in w.hub.registered then [PrunedHorizon] else w.hub.subscribers[id].control)
            && (!w.hub.closed ==>
                  closed.hub.subscribers[id].control ==
                  (if id in w.hub.registered then [Shutdown] else w.hub.subscribers[id].control))
  {
    hide RingHoldsTail, SubscriberOk, Evict;
    assert id in w.hub.registered ==> w.hub.subscribers[id].control == [];
  }

  /** A subscriber that leaves is forgotten quietly, and the others are not. */
  lemma LeavingIsQuiet(w: World, id: Id)
    requires w.hub.Ok()
    ensures var next := Step(w, Leaving(id));
            && next.hub.registered == w.hub.registered - {id} && next.hub.subscribers == w.hub.subscribers
            && next.watches == w.watches && next.log == w.log
  {
  }
}
