/**
 Resuming a watch from the database: a bounded replay read in one snapshot,
 stitched to the hub's ring replay and live delivery.

 `System` adds to the hub the durable stream behind it: the rows, the safe
 watermark, the pruned horizon and the tailer that feeds the hub.
 */
module Resume {
  import opened EventHub
  import opened HubHistory
  import LiveHub

  // A row of the change stream; unsupported kinds are never materialized.
  datatype Row = Row(sn: int, supported: bool, body: string)

  function EventOf(row: Row): Event {
    Event(row.sn, row.body)
  }

  // The supported events of the rows in (lo, hi], in order.
  function Select(rows: seq<Row>, lo: int, hi: int): seq<Event> {
    if rows == [] then [] else
    var last := rows[|rows| - 1];
    Select(rows[..|rows| - 1], lo, hi) + (if last.supported && lo < last.sn <= hi then [EventOf(last)] else [])
  }

  predicate Increasing(rows: seq<Row>) {
    forall i, j | 0 <= i < j < |rows| :: rows[i].sn < rows[j].sn
  }

  // ------------------------------------------------------- database replay

  // What one repeatable-read transaction sees.
  datatype Database = Database(rows: seq<Row>, safe: int, pruned: int) {
    // Rows at or below the watermark are final and in order.
    predicate Ok() {
      && Increasing(rows) && pruned <= safe
      && (forall i | 0 <= i < |rows| :: rows[i].sn <= safe)
    }
  }

  datatype Reason = Pruned | FutureSequence | ReplayLimitExceeded | CatchupWindowExceeded

  datatype Resumed = Advise(reason: Reason) | Cancelled | Attached(id: Id, events: seq<Event>)

  // The rows the replay query returns, before its limit: those still stored.
  function Stored(rows: seq<Row>, pruned: int, from: int, through: int): seq<Row> {
    if rows == [] then [] else
    var last := rows[|rows| - 1];
    Stored(rows[..|rows| - 1], pruned, from, through) +
    (if pruned < last.sn && from < last.sn <= through then [last] else [])
  }

  function Materialize(rows: seq<Row>): seq<Event> {
    if rows == [] then [] else
    var last := rows[|rows| - 1];
    Materialize(rows[..|rows| - 1]) + (if last.supported then [EventOf(last)] else [])
  }

  // The database half: either a reason to resync, or the replayed events.
  datatype Replayed = Refuse(reason: Reason) | Replayed(events: seq<Event>)

  function ReplayFrom(db: Database, from: int, limit: nat): Replayed {
    if from < db.pruned then Refuse(Pruned)
    else if from > db.safe then Refuse(FutureSequence)
    else if |Stored(db.rows, db.pruned, from, db.safe)| > limit then Refuse(ReplayLimitExceeded)
    else Replayed(Materialize(Stored(db.rows, db.pruned, from, db.safe)))
  }

  function ResumeFrom(db: Database, hub: Hub, from: int, limit: nat): (Hub, Resumed)
    requires hub.Ok()
  {
    match ReplayFrom(db, from, limit)
    case Refuse(reason) => (hub, Advise(reason))
    case Replayed(events) =>
      var (next, outcome) := SubscribeAfterSnapshot(hub, db.safe);
      match outcome
      case ShutDown => (next, Cancelled)
      case NotCovered => (next, Advise(CatchupWindowExceeded))
      case Covered(id, replay) => (next, Attached(id, events + replay))
  }

  // subscribeFromDatabase, with the query already answered by the snapshot.
  method SubscribeFromDatabase(db: Database, hub: LiveHub.EventHub, from: int, limit: nat) returns (r: Resumed)
    requires hub.View().Ok()
    modifies hub
    ensures (hub.View(), r) == ResumeFrom(db, old(hub.View()), from, limit) && hub.View().Ok()
  {
    if from < db.pruned {
      return Advise(Pruned);
    }
    if from > db.safe {
      return Advise(FutureSequence);
    }
    var streamEvents := Stored(db.rows, db.pruned, from, db.safe);
    if |streamEvents| > limit {
      return Advise(ReplayLimitExceeded);
    }
    var events := MaterializeAll(streamEvents);
    var outcome := hub.SubscribeAfterSnapshot(db.safe);
    match outcome
    case ShutDown => r := Cancelled;
    case NotCovered => r := Advise(CatchupWindowExceeded);
    case Covered(id, replay) => r := Attached(id, events + replay);
  }

  method MaterializeAll(streamEvents: seq<Row>) returns (events: seq<Event>)
    ensures events == Materialize(streamEvents)
  {
    events := [];
    for index := 0 to |streamEvents|
      invariant events == Materialize(streamEvents[..index])
    {
      assert streamEvents[..index + 1][..index] == streamEvents[..index];
      if streamEvents[index].supported {
        events := events + [EventOf(streamEvents[index])];
      }
    }
    assert streamEvents[..|streamEvents|] == streamEvents;
  }

  // -------------------------------------------------------- selection facts

  // Not being below the horizon means nothing in range was pruned.
  lemma {:induction false} ReplayIsSelection(rows: seq<Row>, pruned: int, from: int, through: int)
    requires pruned <= from
    ensures Materialize(Stored(rows, pruned, from, through)) == Select(rows, from, through)
  {
    if rows == [] {
    } else {
      var init := rows[..|rows| - 1];
      ReplayIsSelection(init, pruned, from, through);
      var before := Stored(init, pruned, from, through);
      var last := rows[|rows| - 1];
      assert (before + [last])[..|before|] == before;
      assert before + [] == before;
    }
  }

  lemma {:induction false} SelectNone(rows: seq<Row>, lo: int, hi: int)
    requires forall i | 0 <= i < |rows| :: rows[i].sn <= lo || rows[i].sn > hi
    ensures Select(rows, lo, hi) == []
  {
    if rows == [] {
    } else {
      SelectNone(rows[..|rows| - 1], lo, hi);
    }
  }

  lemma {:induction false} SelectAppend(a: seq<Row>, b: seq<Row>, lo: int, hi: int)
    ensures Select(a + b, lo, hi) == Select(a, lo, hi) + Select(b, lo, hi)
  {
    if b == [] {
      assert a + b == a;
    } else {
      assert (a + b)[..|a + b| - 1] == a + b[..|b| - 1];
      SelectAppend(a, b[..|b| - 1], lo, hi);
    }
  }

  lemma {:induction false} SelectSplit(rows: seq<Row>, lo: int, mid: int, hi: int)
    requires Increasing(rows) && lo <= mid <= hi
    ensures Select(rows, lo, hi) == Select(rows, lo, mid) + Select(rows, mid, hi)
  {
    if rows == [] {
    } else {
      var init, last := rows[..|rows| - 1], rows[|rows| - 1];
      SelectSplit(init, lo, mid, hi);
      SelectLast(rows, lo, mid);
      SelectLast(rows, mid, hi);
      SelectLast(rows, lo, hi);
      if last.sn <= mid {
        SelectNone(init, mid, hi);
      }
      hide Select;
      assert Select(init, lo, mid) + [] == Select(init, lo, mid);
    }
  }

  lemma SelectLast(rows: seq<Row>, lo: int, hi: int)
    requires rows != []
    ensures var last := rows[|rows| - 1];
            Select(rows, lo, hi) == Select(rows[..|rows| - 1], lo, hi) + (if last.supported && lo < last.sn <= hi then [EventOf(last)] else [])
  {
  }

  lemma {:induction false} AboveSelect(rows: seq<Row>, lo: int, hi: int, from: int)
    requires lo <= from
    ensures Above(Select(rows, lo, hi), from) == Select(rows, from, hi)
  {
    hide Above;
    if rows == [] {
      AboveNone([], from);
    } else {
      var last := rows[|rows| - 1];
      var before := Select(rows[..|rows| - 1], lo, hi);
      AboveSelect(rows[..|rows| - 1], lo, hi, from);
      AboveOneMore(before, EventOf(last), from);
      assert before + [] == before;
    }
  }

  // The tailer's next row extends the selection by at most that row.
  lemma SelectNext(rows: seq<Row>, lo: int, tail: int, k: nat)
    requires Increasing(rows) && k < |rows| && lo <= tail < rows[k].sn
    requires forall i | 0 <= i < k :: rows[i].sn <= tail
    ensures Select(rows, lo, rows[k].sn) ==
            Select(rows, lo, tail) + (if rows[k].supported then [EventOf(rows[k])] else [])
  {
    hide Select;
    var sn := rows[k].sn;
    SelectSplit(rows, lo, tail, sn);
    var a, b := rows[..k], rows[k + 1..];
    assert rows == a + [rows[k]] + b;
    SelectAppend(a + [rows[k]], b, tail, sn);
    SelectAppend(a, [rows[k]], tail, sn);
    SelectNone(a, tail, sn);
    SelectNone(b, tail, sn);
    SelectOne(rows[k], tail, sn);
  }

  lemma SelectOne(row: Row, lo: int, hi: int)
    requires lo < row.sn <= hi
    ensures Select([row], lo, hi) == if row.supported then [EventOf(row)] else []
  {
  }

  // -------------------------------------------------------------- the system

  datatype System = System(world: World, db: Database, tail: int)

  datatype Action =
    | Commit(rows: seq<Row>, safe: int)   // rows become final, the watermark moves
    | Prune(through: int)
    | Tail                                // the tailer handles its next row
    | Redeliver(k: nat)                   // a rolled-back page is handled again
    | Resync(at: int)                     // reset the hub to the watermark an earlier bootstrap read
    | Client(op: Op)                      // any step of a subscriber or shutdown

  predicate Enabled(s: System, action: Action) {
    match action
    case Commit(rows, safe) =>
      && s.db.safe <= safe && Increasing(rows)
      && (forall i | 0 <= i < |rows| :: s.db.safe < rows[i].sn <= safe)
    case Prune(through) => s.db.pruned <= through <= s.db.safe
    case Tail => NextRow(s.db.rows, s.tail) < |s.db.rows|
    case Redeliver(k) => k < |s.db.rows| && s.db.rows[k].sn <= s.tail
    case Resync(at) => s.tail <= at <= s.db.safe
    case Client(op) => !op.Publishing? && !op.Resetting?
  }

  // Index of the first row after the cursor.
  function NextRow(rows: seq<Row>, tail: int): (k: nat)
    ensures k <= |rows|
    ensures forall i | 0 <= i < k :: rows[i].sn <= tail
    ensures k < |rows| ==> rows[k].sn > tail
  {
    if rows == [] || rows[0].sn > tail then 0 else 1 + NextRow(rows[1..], tail)
  }

  // The tailer publishes a row only if its kind is supported.
  function Handle(w: World, row: Row): World
    requires w.hub.Ok()
  {
    if row.supported then Step(w, Publishing(EventOf(row))) else w
  }

  function Act(s: System, action: Action): System
    requires s.world.hub.Ok() && Enabled(s, action)
  {
    match action
    case Commit(rows, safe) => s.(db := s.db.(rows := s.db.rows + rows, safe := safe))
    case Prune(through) => s.(db := s.db.(pruned := through))
    case Tail =>
      var row := s.db.rows[NextRow(s.db.rows, s.tail)];
      s.(world := Handle(s.world, row), tail := row.sn)
    case Redeliver(k) => s.(world := Handle(s.world, s.db.rows[k]))
    case Resync(at) => s.(world := Step(s.world, Resetting(at)), tail := at)
    case Client(op) => s.(world := Step(s.world, op))
  }

  // The hub's log is the supported part of the stream between reset and cursor.
  predicate Fed(s: System) {
    var w := s.world;
    && w.start <= s.tail <= s.db.safe
    && w.hub.through <= s.tail
    && (w.hub.closed ==> w.hub.registered == {})
    && (!w.hub.closed ==> w.log == Select(s.db.rows, w.start, s.tail))
    && (forall id | id in w.hub.registered && id in w.watches :: w.start <= w.watches[id].from)
  }

  predicate SystemOk(s: System) {
    s.world.hub.Ok() && Inv(s.world) && s.db.Ok() && Fed(s)
  }

  // ------------------------------------------------ each action keeps it

  lemma {:induction false} SelectMember(rows: seq<Row>, lo: int, hi: int, k: nat)
    requires k < |rows| && rows[k].supported && lo < rows[k].sn <= hi
    ensures EventOf(rows[k]) in Select(rows, lo, hi)
  {
    if k < |rows| - 1 {
      SelectMember(rows[..|rows| - 1], lo, hi, k);
    }
  }

  // Redelivered events are at or below the hub's position, so it ignores them.
  lemma RedeliveredIsIgnored(s: System, k: nat)
    requires SystemOk(s) && k < |s.db.rows| && s.db.rows[k].sn <= s.tail && s.db.rows[k].supported
    ensures !Accepts(s.world.hub, EventOf(s.db.rows[k]))
  {
    hide Select, SubscriberOk;
    var w := s.world;
    var row := s.db.rows[k];
    StartBelowBase(w);
    if !w.hub.closed && w.start < row.sn {
      SelectMember(s.db.rows, w.start, s.tail, k);
      var i :| 0 <= i < |w.log| && w.log[i] == EventOf(row);
      WindowBelow(Unrolled(w.hub.ring, w.hub.ringStart), w.hub.base, w.hub.through, w.start, w.log, i);
    }
  }

  lemma StartBelowBase(w: World)
    requires Inv(w)
    ensures w.start <= w.hub.base <= w.hub.through
  {
    hide SubscriberOk;
  }

  lemma TailKeepsOk(s: System)
    requires SystemOk(s) && Enabled(s, Tail)
    ensures SystemOk(Act(s, Tail))
  {
    hide Select, Inv, Offer, Overflows;
    var rows := s.db.rows;
    var k := NextRow(rows, s.tail);
    SelectNext(rows, s.world.start, s.tail, k);
    assert rows[k].sn <= s.db.safe;
    if rows[k].supported {
      StepKeepsInv(s.world, Publishing(EventOf(rows[k])));
    } else {
      assert s.world.log + [] == s.world.log;
    }
  }

  lemma RedeliverKeepsOk(s: System, k: nat)
    requires SystemOk(s) && Enabled(s, Redeliver(k))
    ensures SystemOk(Act(s, Redeliver(k)))
  {
    hide Select, Inv, Offer, Overflows;
    var row := s.db.rows[k];
    if row.supported {
      StepKeepsInv(s.world, Publishing(EventOf(row)));
      RedeliveredIsIgnored(s, k);
    }
  }

  lemma ClientKeepsOk(s: System, op: Op)
    requires SystemOk(s) && Enabled(s, Client(op))
    ensures SystemOk(Act(s, Client(op)))
  {
    hide Select, Inv, Above;
    StepKeepsInv(s.world, op);
    StartBelowBase(s.world);
  }

  lemma ActKeepsOk(s: System, action: Action)
    requires SystemOk(s) && Enabled(s, action)
    ensures SystemOk(Act(s, action))
  {
    hide Select, Inv, Step;
    match action
    case Commit(rows, safe) =>
      SelectAppend(s.db.rows, rows, s.world.start, s.tail);
      SelectNone(rows, s.world.start, s.tail);
    case Prune(_) =>
    case Tail => TailKeepsOk(s);
    case Redeliver(k) => RedeliverKeepsOk(s, k);
    case Resync(at) =>
      StepKeepsInv(s.world, Resetting(at));
      ResetEffect(s.world, at);
      SelectNone(s.db.rows, at, at);
    case Client(op) => ClientKeepsOk(s, op);
  }

  lemma ResetEffect(w: World, safeSeq: int)
    requires w.hub.Ok()
    ensures var w' := Step(w, Resetting(safeSeq));
            w'.start == safeSeq == w'.hub.through && w'.log == [] && w'.hub.registered == {} && w'.hub.closed == w.hub.closed
  {
  }

  // ---------------------------------------------------- what only ever grows

  // Final rows stay, and what a subscriber asked for and was replayed is settled.
  predicate Later(s: System, t: System) {
    && s.db.safe <= t.db.safe && s.db.rows <= t.db.rows
    && (forall i | |s.db.rows| <= i < |t.db.rows| :: t.db.rows[i].sn > s.db.safe)
    && (forall id | id in s.world.watches ::
          id in t.world.watches && t.world.watches[id].from == s.world.watches[id].from
          && t.world.watches[id].replay == s.world.watches[id].replay)
  }

  lemma StepKeepsWatches(w: World, op: Op, id: Id)
    requires Inv(w) && w.hub.Ok() && id in w.watches
    ensures var w' := Step(w, op);
            id in w'.watches && w'.watches[id].from == w.watches[id].from && w'.watches[id].replay == w.watches[id].replay
  {
    hide SubscriberOk, RingHoldsTail, Above, Offer, Overflows;
    assert id in w.hub.subscribers;
  }

  lemma ActIsLater(s: System, action: Action)
    requires SystemOk(s) && Enabled(s, action)
    ensures Later(s, Act(s, action))
  {
    hide Select, Inv, Step, Fed;
    var t := Act(s, action);
    forall id | id in s.world.watches
      ensures && id in t.world.watches && t.world.watches[id].from == s.world.watches[id].from
              && t.world.watches[id].replay == s.world.watches[id].replay
    {
      match action
      case Tail => StepKeepsWatches(s.world, Publishing(EventOf(s.db.rows[NextRow(s.db.rows, s.tail)])), id);
      case Redeliver(k) => StepKeepsWatches(s.world, Publishing(EventOf(s.db.rows[k])), id);
      case Resync(at) => StepKeepsWatches(s.world, Resetting(at), id);
      case Client(op) => StepKeepsWatches(s.world, op, id);
      case _ =>
    }
  }

  // Every action of the list is enabled in turn and leads from s to t.
  predicate Runs(s: System, actions: seq<Action>, t: System)
    requires SystemOk(s)
    decreases |actions|
  {
    if actions == [] then s == t else
    && Enabled(s, actions[0])
    && (ActKeepsOk(s, actions[0]); Runs(Act(s, actions[0]), actions[1..], t))
  }

  lemma {:induction false} RunsKeep(s: System, actions: seq<Action>, t: System)
    requires SystemOk(s) && Runs(s, actions, t)
    ensures SystemOk(t) && Later(s, t)
    decreases |actions|
  {
    hide Inv, Fed, Enabled, Act;
    if actions == [] {
    } else {
      ActKeepsOk(s, actions[0]);
      RunsKeep(Act(s, actions[0]), actions[1..], t);
      ActIsLater(s, actions[0]);
    }
  }

  // A fresh system: the tailer has bootstrapped at the watermark.
  function Boot(db: Database, capacity: nat, buffer: nat): System {
    System(Begin(capacity, buffer, db.safe), db, db.safe)
  }

  lemma BootOk(db: Database, capacity: nat, buffer: nat)
    requires db.Ok() && capacity > 0
    ensures SystemOk(Boot(db, capacity, buffer))
  {
    BeginInv(capacity, buffer, db.safe);
    SelectNone(db.rows, db.safe, db.safe);
  }

  // What a live subscriber holds, in terms of the durable stream.
  lemma LiveSelection(s: System, id: Id)
    requires SystemOk(s) && id in s.world.hub.registered
    ensures id in s.world.watches && id in s.world.hub.subscribers
    ensures Delivered(s.world, id) == Select(s.db.rows, s.world.watches[id].from, s.tail)
  {
    hide Select, Above, RingHoldsTail;
    assert SubscriberOk(s.world, id);
    AboveSelect(s.db.rows, s.world.start, s.tail, s.world.watches[id].from);
  }

  // What a successful resume returns, and what it leaves on record.
  lemma AttachEffect(db: Database, at: System, from: int, limit: nat, id: Id, events: seq<Event>)
    requires at.world.hub.Ok() && ResumeFrom(db, at.world.hub, from, limit).1 == Attached(id, events)
    ensures from <= db.safe
    ensures var world := Act(at, Client(Joining(db.safe))).world;
            && id in world.watches && world.watches[id].from == db.safe
            && events == Select(db.rows, from, db.safe) + world.watches[id].replay
  {
    hide Select, Above, Stored, Materialize;
    ReplayIsSelection(db.rows, db.pruned, from, db.safe);
  }

  lemma LaterTransitive(s: System, t: System, u: System)
    requires Later(s, t) && Later(t, u)
    ensures Later(s, u)
  {
  }

  /**
   Database replay, ring replay and live delivery together are every supported event above from, once and in order:
   the database is read in state s, the subscription is made later in state at, and end is any state after that.
   That the states at and after joining are in order follows from RunsKeep and ActKeepsOk; it is stated for Runs.
   */
  lemma ResumeStitch(s: System, before: seq<Action>, at: System, after: seq<Action>, end: System,
                     from: int, limit: nat, id: Id, events: seq<Event>)
    requires SystemOk(s) && Runs(s, before, at)
    requires at.world.hub.Ok() && ResumeFrom(s.db, at.world.hub, from, limit).1 == Attached(id, events)
    requires SystemOk(Act(at, Client(Joining(s.db.safe))))
    requires Runs(Act(at, Client(Joining(s.db.safe))), after, end)
    requires id in end.world.hub.registered
    ensures id in end.world.watches && id in end.world.hub.subscribers
    ensures events + end.world.watches[id].received + end.world.hub.subscribers[id].events
            == Select(end.db.rows, from, Max(s.db.safe, end.tail))
    ensures Ascending(events + end.world.watches[id].received + end.world.hub.subscribers[id].events, from)
  {
    hide Select, Inv, ResumeFrom, Act, Runs, Fed, Ascending;
    var joined := Act(at, Client(Joining(s.db.safe)));
    AttachEffect(s.db, at, from, limit, id, events);
    RunsKeep(s, before, at);
    ActIsLater(at, Client(Joining(s.db.safe)));
    RunsKeep(joined, after, end);
    assert end.world.watches[id].from == s.db.safe;
    assert end.world.watches[id].replay == joined.world.watches[id].replay;
    assert Later(s, end) by {
      LaterTransitive(s, at, joined);
      LaterTransitive(s, joined, end);
    }
    hide Later;
    FinalRowsStay(s, end, from);
    LiveSelection(end, id);
    JoinSelections(end.db.rows, from, s.db.safe, end.tail);
    var watch := end.world.watches[id];
    var dbEvents := Select(s.db.rows, from, s.db.safe);
    var queued := end.world.hub.subscribers[id].events;
    assert dbEvents + watch.replay + watch.received + queued == dbEvents + (watch.replay + watch.received + queued);
    SelectAscends(end.db.rows, from, Max(s.db.safe, end.tail));
  }

  // A selection is in order, and below whatever bounds its rows.
  lemma {:induction false} SelectBelow(rows: seq<Row>, lo: int, hi: int, bound: int)
    requires forall i | 0 <= i < |rows| :: rows[i].sn < bound
    ensures forall i | 0 <= i < |Select(rows, lo, hi)| :: lo < Select(rows, lo, hi)[i].sn < bound
  {
    if rows == [] {
    } else {
      SelectBelow(rows[..|rows| - 1], lo, hi, bound);
    }
  }

  lemma {:induction false} SelectAscends(rows: seq<Row>, lo: int, hi: int)
    requires Increasing(rows)
    ensures Ascending(Select(rows, lo, hi), lo)
  {
    if rows == [] {
    } else {
      var init, last := rows[..|rows| - 1], rows[|rows| - 1];
      SelectAscends(init, lo, hi);
      SelectLast(rows, lo, hi);
      SelectBelow(init, lo, hi, last.sn);
      hide Select;
      AscendingGrows(Select(init, lo, hi), lo, EventOf(last));
      assert Select(init, lo, hi) + [] == Select(init, lo, hi);
    }
  }

  lemma AscendingGrows(log: seq<Event>, lo: int, e: Event)
    requires Ascending(log, lo) && forall i | 0 <= i < |log| :: log[i].sn < e.sn
    ensures e.sn > lo ==> Ascending(log + [e], lo)
  {
  }

  lemma JoinSelections(rows: seq<Row>, from: int, safe: int, tail: int)
    requires Increasing(rows) && from <= safe
    ensures Select(rows, from, safe) + Select(rows, safe, tail) == Select(rows, from, Max(safe, tail))
  {
    hide Select;
    SelectSplit(rows, from, safe, Max(safe, tail));
    if tail < safe {
      SelectNone(rows, safe, tail);
      SelectNone(rows, safe, safe);
    }
  }

  lemma FinalRowsStay(s: System, t: System, lo: int)
    requires Later(s, t)
    ensures Select(t.db.rows, lo, s.db.safe) == Select(s.db.rows, lo, s.db.safe)
  {
    var more := t.db.rows[|s.db.rows|..];
    assert t.db.rows == s.db.rows + more;
    SelectAppend(s.db.rows, more, lo, s.db.safe);
    SelectNone(more, lo, s.db.safe);
  }
}
