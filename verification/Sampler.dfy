/**
 The drift detector's rotating sample: per entity kind a quota of rows after a
 stored cursor, wrapping to the rows at or before it.
 */
module Sampler {
  import opened Results

  // The six sampled entity kinds, by position.
  const KINDS: nat := 6

  // Source ids of one kind, ascending and distinct.
  predicate Ascending(ids: seq<int>) {
    forall i, j | 0 <= i < j < |ids| :: ids[i] < ids[j]
  }

  // How many ids are at or before the cursor.
  function Position(ids: seq<int>, after: int): (k: nat)
    requires Ascending(ids)
    ensures k <= |ids|
    ensures forall i | 0 <= i < k :: ids[i] <= after
    ensures forall i | k <= i < |ids| :: ids[i] > after
  {
    if ids == [] || ids[0] > after then 0 else 1 + Position(ids[1..], after)
  }

  function Min(a: nat, b: nat): nat {
    if a < b then a else b
  }

  // The query for rows after the cursor, and the one for rows through it.
  function RowsAfter(ids: seq<int>, after: int, limit: nat): seq<int>
    requires Ascending(ids)
  {
    var rows := ids[Position(ids, after)..];
    rows[..Min(limit, |rows|)]
  }

  function RowsThrough(ids: seq<int>, through: int, limit: nat): seq<int>
    requires Ascending(ids)
  {
    var rows := ids[..Position(ids, through)];
    rows[..Min(limit, |rows|)]
  }

  function Sample(ids: seq<int>, after: int, quota: nat): seq<int>
    requires Ascending(ids)
  {
    var first := RowsAfter(ids, after, quota);
    if |first| < quota then first + RowsThrough(ids, after, quota - |first|) else first
  }

  function NextCursor(ids: seq<int>, after: int, quota: nat): int
    requires Ascending(ids)
  {
    var samples := Sample(ids, after, quota);
    if samples == [] then after else samples[|samples| - 1]
  }

  // The cursor before the i-th of a series of successful passes.
  function CursorAt(ids: seq<int>, after: int, quota: nat, i: nat): int
    requires Ascending(ids)
    decreases i
  {
    if i == 0 then after else CursorAt(ids, NextCursor(ids, after, quota), quota, i - 1)
  }

  // ----------------------------------------------------------------- quotas

  function Quota(sampleSize: nat, kind: nat): nat {
    sampleSize / KINDS + (if kind < sampleSize % KINDS then 1 else 0)
  }

  function TotalQuota(sampleSize: nat, kinds: nat): nat {
    if kinds == 0 then 0 else TotalQuota(sampleSize, kinds - 1) + Quota(sampleSize, kinds - 1)
  }

  lemma {:induction false} TotalOfFirst(sampleSize: nat, kinds: nat)
    ensures TotalQuota(sampleSize, kinds) == kinds * (sampleSize / KINDS) + Min(kinds, sampleSize % KINDS)
  {
    if kinds == 0 {
    } else {
      TotalOfFirst(sampleSize, kinds - 1);
      assert kinds * (sampleSize / KINDS) == (kinds - 1) * (sampleSize / KINDS) + sampleSize / KINDS;
    }
  }

  /** Quotas are each at least one and use up the sample size exactly. */
  lemma QuotasAddUp(sampleSize: nat)
    requires sampleSize >= KINDS
    ensures forall kind | 0 <= kind < KINDS :: Quota(sampleSize, kind) >= 1
    ensures TotalQuota(sampleSize, KINDS) == sampleSize
  {
    TotalOfFirst(sampleSize, KINDS);
  }

  // --------------------------------------------------------------- rotation

  // The ids in the order the sampler will visit them.
  function Rotation(ids: seq<int>, after: int): seq<int>
    requires Ascending(ids)
  {
    ids[Position(ids, after)..] + ids[..Position(ids, after)]
  }

  lemma RotationLength(ids: seq<int>, after: int)
    requires Ascending(ids)
    ensures |Rotation(ids, after)| == |ids|
  {
  }

  lemma SampleIsPrefix(ids: seq<int>, after: int, quota: nat)
    requires Ascending(ids)
    ensures Sample(ids, after, quota) == Rotation(ids, after)[..Min(quota, |ids|)]
  {
  }

  lemma PositionOfMember(ids: seq<int>, j: nat)
    requires Ascending(ids) && j < |ids|
    ensures Position(ids, ids[j]) == j + 1
  {
  }

  // Rotating by k and then by m is rotating by k + m, around the end if need be.
  lemma RotateTwice(ids: seq<int>, k: nat, m: nat)
    requires k <= |ids| && 0 < m <= |ids|
    ensures var j := if k + m <= |ids| then k + m - 1 else k + m - 1 - |ids|;
            var before := ids[k..] + ids[..k];
            && j < |ids| && before[m - 1] == ids[j]
            && before[m..] + before[..m] == ids[j + 1..] + ids[..j + 1]
  {
    var before := ids[k..] + ids[..k];
    if k + m <= |ids| {
      assert before[m..] == ids[k + m..] + ids[..k];
      assert before[..m] == ids[k..k + m];
    } else {
      var j := k + m - 1 - |ids|;
      assert before[m..] == ids[j + 1..k];
      assert before[..m] == ids[k..] + ids[..j + 1];
    }
  }

  // A pass moves exactly what it sampled to the back.
  lemma PassRotates(ids: seq<int>, after: int, quota: nat)
    requires Ascending(ids) && ids != [] && quota > 0
    ensures var m := Min(quota, |ids|);
            var before := Rotation(ids, after);
            Rotation(ids, NextCursor(ids, after, quota)) == before[m..] + before[..m]
  {
    hide Position, Sample, Ascending;
    var k, m := Position(ids, after), Min(quota, |ids|);
    SampleIsPrefix(ids, after, quota);
    RotateTwice(ids, k, m);
    PositionOfMember(ids, if k + m <= |ids| then k + m - 1 else k + m - 1 - |ids|);
  }

  predicate NoDuplicates(s: seq<int>) {
    forall i, j | 0 <= i < j < |s| :: s[i] != s[j]
  }

  /** One pass never samples an entity twice, and samples as many as it can. */
  lemma SampleHasNoDuplicates(ids: seq<int>, after: int, quota: nat)
    requires Ascending(ids)
    ensures NoDuplicates(Sample(ids, after, quota))
    ensures |Sample(ids, after, quota)| == Min(quota, |ids|)
    ensures forall id | id in Sample(ids, after, quota) :: id in ids
  {
    SampleIsPrefix(ids, after, quota);
  }

  lemma VisitedNow(ids: seq<int>, after: int, quota: nat, x: nat)
    requires Ascending(ids) && x < Min(quota, |ids|)
    ensures Rotation(ids, after)[x] in Sample(ids, after, quota)
  {
  }

  lemma VisitedLater(ids: seq<int>, after: int, quota: nat, x: nat)
    requires Ascending(ids) && quota > 0 && Min(quota, |ids|) <= x < |ids|
    ensures Rotation(ids, NextCursor(ids, after, quota))[x - Min(quota, |ids|)] == Rotation(ids, after)[x]
  {
    hide NextCursor, Position;
    PassRotates(ids, after, quota);
    var before, m := Rotation(ids, after), Min(quota, |ids|);
    assert (before[m..] + before[..m])[x - m] == before[x];
  }

  // The id at position x of the rotation is sampled within x / quota passes.
  lemma {:induction false} ReachedInTime(ids: seq<int>, after: int, quota: nat, x: nat) returns (pass: nat)
    requires Ascending(ids) && quota > 0 && x < |ids|
    ensures pass * Min(quota, |ids|) <= x
    ensures Rotation(ids, after)[x] in Sample(ids, CursorAt(ids, after, quota, pass), quota)
    decreases x
  {
    hide Position, Sample, Ascending, NextCursor, Rotation;
    RotationLength(ids, after);
    RotationLength(ids, NextCursor(ids, after, quota));
    var m := Min(quota, |ids|);
    if x < m {
      pass := 0;
      VisitedNow(ids, after, quota, x);
    } else {
      VisitedLater(ids, after, quota, x);
      var later := ReachedInTime(ids, NextCursor(ids, after, quota), quota, x - m);
      pass := later + 1;
      MulSuccessor(later, m);
    }
  }

  lemma MulSuccessor(a: nat, m: nat)
    ensures (a + 1) * m == a * m + m
  {
  }

  /** Any run of passes whose quotas together reach the number of entities samples every one of them. */
  lemma EveryEntityIsSampled(ids: seq<int>, after: int, quota: nat, passes: nat, id: int)
    requires Ascending(ids) && quota > 0 && passes * quota >= |ids| && id in ids
    ensures exists pass | 0 <= pass < passes :: id in Sample(ids, CursorAt(ids, after, quota, pass), quota)
  {
    var rotation := Rotation(ids, after);
    var k := Position(ids, after);
    var i :| 0 <= i < |ids| && ids[i] == id;
    var x := if i >= k then i - k else |ids| - k + i;
    assert rotation[x] == id;
    var pass := ReachedInTime(ids, after, quota, x);
    EnoughPasses(pass, passes, quota, |ids|, x);
  }

  lemma EnoughPasses(pass: nat, passes: nat, quota: nat, n: nat, x: nat)
    requires pass * Min(quota, n) <= x < n <= passes * quota && quota > 0
    ensures pass < passes
  {
  }

  // ------------------------------------------------------------- the detector

  // What a detector pass meets: whether the job is for this installation, what
  // the backfill check says, whether the heartbeat of a skipped pass is recorded,
  // for each kind whether reading, inspecting or moving its cursor ends in an
  // error, and whether pruning and recording after the kinds succeed.
  datatype Circumstances = Circumstances(
    ours: bool, settled: Result<bool>, skipRecorded: bool, fails: seq<bool>, recorded: bool)

  predicate Starts(sampleSize: nat, around: Circumstances) {
    around.ours && sampleSize >= KINDS && around.settled == Ok(true)
  }

  // The pass got past this kind: nothing up to it ended in an error.
  predicate Reached(fails: seq<bool>, kind: nat)
    requires kind < |fails|
  {
    forall earlier | 0 <= earlier <= kind :: !fails[earlier]
  }

  // One detector pass over all kinds; rows are the cached ids per kind.
  class Detector {
    var cursors: seq<int>

    constructor ()
      ensures cursors == seq(KINDS, i => 0)
    {
      cursors := seq(KINDS, i => 0);
    }

    method SampleKind(rows: seq<int>, after: int, sampleSize: nat, kind: nat) returns (samples: seq<int>)
      requires Ascending(rows)
      ensures samples == Sample(rows, after, Quota(sampleSize, kind))
    {
      var quota := sampleSize / KINDS;
      if kind < sampleSize % KINDS {
        quota := quota + 1;
      }
      samples := RowsAfter(rows, after, quota);
      var remaining := quota - |samples|;
      if remaining > 0 {
        samples := samples + RowsThrough(rows, after, remaining);
      }
    }

    method Detect(sampleSize: nat, rows: seq<seq<int>>, around: Circumstances) returns (r: Result<seq<seq<int>>>)
      requires |cursors| == KINDS == |rows| == |around.fails|
      requires forall kind | 0 <= kind < KINDS :: Ascending(rows[kind])
      modifies `cursors
      ensures |cursors| == KINDS
      ensures r.Ok? <==>
              || !around.ours
              || (sampleSize >= KINDS && around.settled == Ok(false) && around.skipRecorded)
              || (Starts(sampleSize, around) && Reached(around.fails, KINDS - 1) && around.recorded)
      ensures r.Ok? && !Starts(sampleSize, around) ==> r.value == []
      ensures r.Ok? && Starts(sampleSize, around) ==> |r.value| == KINDS && forall kind | 0 <= kind < KINDS ::
                r.value[kind] == Sample(rows[kind], old(cursors)[kind], Quota(sampleSize, kind))
      ensures forall kind | 0 <= kind < KINDS ::
                cursors[kind] == if Starts(sampleSize, around) && Reached(around.fails, kind)
                                 then NextCursor(rows[kind], old(cursors)[kind], Quota(sampleSize, kind))
                                 else old(cursors)[kind]
    {
      hide Sample, Quota, Ascending;
      if !around.ours {
        return Ok([]);
      }
      if sampleSize < KINDS || around.settled.Err? {
        return Err;
      }
      if !around.settled.value {
        return if around.skipRecorded then Ok([]) else Err;
      }
      var samples: seq<seq<int>> := [];
      var kind := 0;
      while kind < KINDS
        invariant kind <= KINDS == |cursors| && |samples| == kind
        invariant forall k | 0 <= k < kind :: !around.fails[k]
        invariant forall k | 0 <= k < kind :: samples[k] == Sample(rows[k], old(cursors)[k], Quota(sampleSize, k))
        invariant forall k | 0 <= k < kind :: cursors[k] == NextCursor(rows[k], old(cursors)[k], Quota(sampleSize, k))
        invariant forall k | kind <= k < KINDS :: cursors[k] == old(cursors)[k]
      {
        var taken := SampleKind(rows[kind], cursors[kind], sampleSize, kind);
        if around.fails[kind] {
          return Err;
        }
        if taken != [] {
          cursors := cursors[kind := taken[|taken| - 1]];
        }
        samples := samples + [taken];
        kind := kind + 1;
      }
      r := if around.recorded then Ok(samples) else Err;
    }
  }
}
