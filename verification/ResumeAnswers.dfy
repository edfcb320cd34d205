/** Exactly when a database resume succeeds, and which reason it gives otherwise. */
module ResumeAnswers {
  import opened EventHub
  import opened HubHistory
  import opened HubAnswers
  import opened Resume

  // Where the rows in (from, through] are.
  function RowsIn(rows: seq<Row>, from: int, through: int): set<nat> {
    set i: nat | i < |rows| && from < rows[i].sn <= through
  }

  // Above the pruned horizon the query returns as many rows as the stream holds.
  lemma {:induction false} StoredCounts(rows: seq<Row>, pruned: int, from: int, through: int)
    requires pruned <= from
    ensures |Stored(rows, pruned, from, through)| == |RowsIn(rows, from, through)|
  {
    if rows == [] {
    } else {
      var init, last := rows[..|rows| - 1], rows[|rows| - 1];
      StoredCounts(init, pruned, from, through);
      OneMoreRow(rows, from, through);
      hide RowsIn;
    }
  }

  lemma OneMoreRow(rows: seq<Row>, from: int, through: int)
    requires rows != []
    ensures var init, last := rows[..|rows| - 1], rows[|rows| - 1];
            |RowsIn(rows, from, through)| == |RowsIn(init, from, through)| + (if from < last.sn <= through then 1 else 0)
  {
    var init, last := rows[..|rows| - 1], rows[|rows| - 1];
    var more: set<nat> := if from < last.sn <= through then {|init|} else {};
    assert RowsIn(rows, from, through) == RowsIn(init, from, through) + more;
  }

  /** The answer of a resume, read off the stream and the log: pruned, beyond the watermark, too many rows,
      shut down, too far behind the ring, or attached with the stream's events through the watermark
      followed by the log above it. */
  lemma ResumeAnswersExactly(db: Database, w: World, from: int, limit: nat)
    requires w.hub.Ok() && Inv(w)
    ensures var answer := ResumeFrom(db, w.hub, from, limit).1;
            if from < db.pruned then answer == Advise(Pruned)
            else if db.safe < from then answer == Advise(FutureSequence)
            else if |RowsIn(db.rows, from, db.safe)| > limit then answer == Advise(ReplayLimitExceeded)
            else if w.hub.closed then answer == Cancelled
            else if db.safe < Forgotten(w, w.hub.capacity) then answer == Advise(CatchupWindowExceeded)
            else answer == Attached(w.hub.nextId, Select(db.rows, from, db.safe) + Above(w.log, db.safe))
  {
    hide Inv, RowsIn, Select, Above, Forgotten, Stored, Materialize, Covers, Unrolled;
    if db.pruned <= from {
      StoredCounts(db.rows, db.pruned, from, db.safe);
      ReplayIsSelection(db.rows, db.pruned, from, db.safe);
    }
    SnapshotAnswer(w, db.safe);
  }

  lemma SnapshotAnswer(w: World, safeSeq: int)
    requires w.hub.Ok() && Inv(w)
    ensures var answer := SubscribeAfterSnapshot(w.hub, safeSeq).1;
            if w.hub.closed then answer == ShutDown
            else if safeSeq < Forgotten(w, w.hub.capacity) then answer == NotCovered
            else answer == Covered(w.hub.nextId, Above(w.log, safeSeq))
  {
    hide Inv, Above, Subscribe;
    KnownKeepsInv(w, safeSeq);
    AnswerOfState(w.(hub := w.hub.(known := Max(w.hub.known, safeSeq))), safeSeq);
  }
}
