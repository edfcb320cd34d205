/**
 The pull-request batch coordinator: submissions join a pending batch, which is
 executed when it is full or when its timer fires, whichever locks first.
 */
module Coordinator {
  import opened Results

  type Item = nat
  type BatchId = nat

  // Batches gather requests of one priority class and one sync source.
  datatype BatchKey = BatchKey(class_: string, source: string)

  datatype Timer =
    | Armed
    | Fired     // the callback runs and has not yet taken the lock
    | Quiet     // stopped, or the callback is over

  datatype Batch = Batch(key: BatchKey, items: seq<Item>, timer: Timer, closed: bool, scheduled: nat, executed: nat)

  // sent counts the results put on each item's channel, whose capacity is one.
  datatype State = State(
    max: nat,
    mapped: map<BatchKey, BatchId>,
    batches: map<BatchId, Batch>,
    joined: map<Item, BatchId>,
    asked: map<Item, BatchKey>,
    sent: map<Item, nat>,
    nextBatch: BatchId)

  datatype Step =
    | Submit(item: Item, key: BatchKey)
    | Fire(batch: BatchId)
    | Flush(batch: BatchId)
    | Execute(batch: BatchId)

  // ---------------------------------------------------------- locked sections

  predicate Pending(s: State, b: BatchId) {
    b in s.batches && s.batches[b].key in s.mapped && s.mapped[s.batches[b].key] == b
  }

  // The batch leaves the map and its execution is scheduled.
  function Dispatch(s: State, b: BatchId, timer: Timer): State
    requires b in s.batches
  {
    s.(mapped := s.mapped - {s.batches[b].key},
       batches := s.batches[b := s.batches[b].(closed := true, timer := timer, scheduled := s.batches[b].scheduled + 1)])
  }

  // Stopping a timer that has already fired does not recall its callback.
  function Stopped(timer: Timer): Timer {
    if timer == Armed then Quiet else timer
  }

  predicate WellFormed(s: State) {
    && s.max > 0
    && (forall k | k in s.mapped :: s.mapped[k] in s.batches)
    && (forall b | b in s.batches :: b < s.nextBatch)
  }

  function Join(s: State, item: Item, key: BatchKey): (State, BatchId)
    requires WellFormed(s)
  {
    var isNew := key !in s.mapped;
    var b := if isNew then s.nextBatch else s.mapped[key];
    var batch := if isNew then Batch(key, [], Armed, false, 0, 0) else s.batches[b];
    (s.(mapped := s.mapped[key := b],
        batches := s.batches[b := batch.(items := batch.items + [item])],
        joined := s.joined[item := b],
        asked := s.asked[item := key],
        sent := s.sent[item := 0],
        nextBatch := if isNew then s.nextBatch + 1 else s.nextBatch), b)
  }

  predicate Enabled(s: State, step: Step) {
    match step
    case Submit(item, _) => item !in s.joined
    case Fire(b) => b in s.batches && s.batches[b].timer == Armed
    case Flush(b) => b in s.batches && s.batches[b].timer == Fired
    case Execute(b) => b in s.batches && s.batches[b].executed < s.batches[b].scheduled
  }

  function Apply(s: State, step: Step): State
    requires WellFormed(s) && Enabled(s, step)
  {
    match step
    case Submit(item, key) =>
      var (next, b) := Join(s, item, key);
      if |next.batches[b].items| == s.max then Dispatch(next, b, Stopped(next.batches[b].timer)) else next
    case Fire(b) => s.(batches := s.batches[b := s.batches[b].(timer := Fired)])
    case Flush(b) =>
      if s.batches[b].closed || !Pending(s, b) then s.(batches := s.batches[b := s.batches[b].(timer := Quiet)])
      else Dispatch(s, b, Quiet)
    case Execute(b) =>
      s.(batches := s.batches[b := s.batches[b].(executed := s.batches[b].executed + 1)],
         sent := map item | item in s.sent ::
           if item in s.batches[b].items then s.sent[item] + 1 else s.sent[item])
  }

  // ---------------------------------------------------------------- invariant

  predicate Distinct(items: seq<Item>) {
    forall i, j | 0 <= i < j < |items| :: items[i] != items[j]
  }

  // A batch is either pending with a live timer, or scheduled exactly once.
  predicate BatchOk(s: State, b: BatchId)
    requires b in s.batches
  {
    var batch := s.batches[b];
    && 1 <= |batch.items| <= s.max && Distinct(batch.items)
    && (forall item | item in batch.items :: item in s.joined && s.joined[item] == b)
    && batch.executed <= batch.scheduled <= 1
    && batch.closed == (batch.scheduled == 1)
    && (!batch.closed <==> Pending(s, b))
    && (!batch.closed ==> |batch.items| < s.max && batch.timer != Quiet)
  }

  predicate ItemOk(s: State, item: Item)
    requires item in s.joined
  {
    && item in s.sent && item in s.asked
    && s.joined[item] in s.batches
    && s.batches[s.joined[item]].key == s.asked[item]
    && item in s.batches[s.joined[item]].items
    && s.sent[item] == s.batches[s.joined[item]].executed
  }

  predicate Inv(s: State) {
    && WellFormed(s)
    && s.sent.Keys == s.joined.Keys
    && (forall k | k in s.mapped :: s.batches[s.mapped[k]].key == k)
    && (forall b | b in s.batches :: BatchOk(s, b))
    && (forall item | item in s.joined :: ItemOk(s, item))
  }

  function Start(max: nat): State {
    State(max, map[], map[], map[], map[], map[], 0)
  }

  lemma StartInv(max: nat)
    requires max > 0
    ensures Inv(Start(max))
  {
  }

  // ------------------------------------------------------------- preservation

  lemma BatchOf(s: State, b: BatchId)
    requires Inv(s)
    ensures b in s.batches ==> BatchOk(s, b)
  {
  }

  lemma ItemOf(s: State, item: Item)
    requires Inv(s)
    ensures item in s.joined ==> ItemOk(s, item)
  {
  }

  // What a submission does: to its own batch, and to nothing else.
  lemma SubmitEffect(s: State, item: Item, key: BatchKey)
    requires WellFormed(s) && Inv(s) && Enabled(s, Submit(item, key))
    ensures var s' := Apply(s, Submit(item, key));
            var b := Join(s, item, key).1;
            var before := if b in s.batches then s.batches[b].items else [];
            && (b in s.batches ==> key in s.mapped && s.mapped[key] == b && s.batches[b].key == key && !s.batches[b].closed)
            && (b !in s.batches ==> key !in s.mapped && b == s.nextBatch)
            && s'.nextBatch == (if b in s.batches then s.nextBatch else s.nextBatch + 1)
            && b in s'.batches && s'.batches.Keys == s.batches.Keys + {b}
            && s'.batches[b].key == key && s'.batches[b].items == before + [item]
            && s'.batches[b].executed == 0
            && s'.batches[b].closed == (|before| + 1 == s.max)
            && s'.batches[b].scheduled == (if |before| + 1 == s.max then 1 else 0)
            && (|before| + 1 < s.max ==> s'.batches[b].timer != Quiet)
            && |before| < s.max
            && s'.mapped == (if |before| + 1 == s.max then s.mapped - {key} else s.mapped[key := b])
            && (forall other | other in s.batches && other != b :: s'.batches[other] == s.batches[other])
            && s'.joined == s.joined[item := b] && s'.asked == s.asked[item := key]
            && s'.sent == s.sent[item := 0] && s'.max == s.max
  {
    hide Inv;
    BatchOf(s, Join(s, item, key).1);
    SameKey(s, key);
  }

  lemma SameKey(s: State, key: BatchKey)
    requires WellFormed(s) && Inv(s)
    ensures key in s.mapped ==> s.batches[s.mapped[key]].key == key
  {
  }

  lemma SubmitKeepsOwn(s: State, item: Item, key: BatchKey)
    requires WellFormed(s) && Inv(s) && Enabled(s, Submit(item, key))
    ensures var b := Join(s, item, key).1; b in Apply(s, Submit(item, key)).batches && BatchOk(Apply(s, Submit(item, key)), b)
  {
    hide Inv, Apply, Join, WellFormed;
    SubmitEffect(s, item, key);
    BatchOf(s, Join(s, item, key).1);
  }

  lemma SubmitKeepsOther(s: State, item: Item, key: BatchKey, x: BatchId)
    requires WellFormed(s) && Inv(s) && Enabled(s, Submit(item, key)) && x in s.batches && x != Join(s, item, key).1
    ensures x in Apply(s, Submit(item, key)).batches && BatchOk(Apply(s, Submit(item, key)), x)
  {
    hide Inv, Apply, Join, WellFormed;
    SubmitEffect(s, item, key);
    BatchOf(s, x);
  }

  lemma SubmitKeepsItem(s: State, item: Item, key: BatchKey, other: Item)
    requires WellFormed(s) && Inv(s) && Enabled(s, Submit(item, key)) && other in Apply(s, Submit(item, key)).joined
    ensures ItemOk(Apply(s, Submit(item, key)), other)
  {
    hide Inv, Apply, Join, WellFormed;
    SubmitEffect(s, item, key);
    ItemOf(s, other);
    BatchOf(s, Join(s, item, key).1);
  }

  lemma SubmitKeepsMap(s: State, item: Item, key: BatchKey)
    requires Inv(s) && Enabled(s, Submit(item, key))
    ensures var s' := Apply(s, Submit(item, key));
            && WellFormed(s') && s'.sent.Keys == s'.joined.Keys
            && forall k | k in s'.mapped :: s'.batches[s'.mapped[k]].key == k
  {
    hide Apply, Join, BatchOk, ItemOk;
    SubmitEffect(s, item, key);
  }

  lemma SubmitKeepsInv(s: State, item: Item, key: BatchKey)
    requires WellFormed(s) && Inv(s) && Enabled(s, Submit(item, key))
    ensures Inv(Apply(s, Submit(item, key)))
  {
    hide Inv, Apply, Join, BatchOk, ItemOk;
    var s' := Apply(s, Submit(item, key));
    SubmitKeepsMap(s, item, key);
    SubmitEffect(s, item, key);
    forall x | x in s'.batches ensures BatchOk(s', x) {
      if x == Join(s, item, key).1 {
        SubmitKeepsOwn(s, item, key);
      } else {
        SubmitKeepsOther(s, item, key, x);
      }
    }
    forall other | other in s'.joined ensures ItemOk(s', other) {
      SubmitKeepsItem(s, item, key, other);
    }
    MakeInv(s');
  }

  lemma MakeInv(s: State)
    requires WellFormed(s) && s.sent.Keys == s.joined.Keys
    requires forall k | k in s.mapped :: s.batches[s.mapped[k]].key == k
    requires forall b | b in s.batches :: BatchOk(s, b)
    requires forall item | item in s.joined :: ItemOk(s, item)
    ensures Inv(s)
  {
  }

  // Steps that only touch one batch's timer, closing and counters.
  // One batch's timer moves, or the batch leaves the map and is scheduled.
  predicate Touches(s: State, s': State, b: BatchId) {
    && b in s.batches && b in s'.batches && s'.batches == s.batches[b := s'.batches[b]]
    && s'.max == s.max && s'.joined == s.joined && s'.asked == s.asked && s'.sent == s.sent
    && s'.batches[b].key == s.batches[b].key && s'.batches[b].items == s.batches[b].items
    && s'.batches[b].executed == s.batches[b].executed
    && (|| (s'.mapped == s.mapped && s'.batches[b].closed == s.batches[b].closed
            && s'.batches[b].scheduled == s.batches[b].scheduled
            && (s'.batches[b].closed || s'.batches[b].timer != Quiet))
        || (Pending(s, b) && !s.batches[b].closed && s'.mapped == s.mapped - {s.batches[b].key}
            && s'.batches[b].closed && s'.batches[b].scheduled == s.batches[b].scheduled + 1))
  }

  lemma TouchKeepsBatch(s: State, s': State, b: BatchId, x: BatchId)
    requires Touches(s, s', b) && x in s.batches && BatchOk(s, b) && BatchOk(s, x)
    ensures x in s'.batches && BatchOk(s', x)
  {
    hide Distinct;
  }

  lemma TouchKeepsItem(s: State, s': State, b: BatchId, item: Item)
    requires Touches(s, s', b) && item in s.joined && ItemOk(s, item)
    ensures item in s'.joined && ItemOk(s', item)
  {
  }

  lemma TouchKeepsInv(s: State, s': State, b: BatchId)
    requires Inv(s) && b in s.batches && WellFormed(s') && Touches(s, s', b)
    ensures Inv(s')
  {
    hide BatchOk, ItemOk;
    forall x | x in s'.batches ensures BatchOk(s', x) {
      TouchKeepsBatch(s, s', b, x);
    }
    forall item | item in s'.joined ensures ItemOk(s', item) {
      TouchKeepsItem(s, s', b, item);
    }
  }

  lemma ExecuteKeepsBatch(s: State, b: BatchId, x: BatchId)
    requires WellFormed(s) && Inv(s) && Enabled(s, Execute(b)) && x in s.batches
    ensures x in Apply(s, Execute(b)).batches && BatchOk(Apply(s, Execute(b)), x)
  {
    hide Inv, WellFormed;
    BatchOf(s, x);
  }

  lemma ExecuteKeepsItem(s: State, b: BatchId, item: Item)
    requires WellFormed(s) && Inv(s) && s.sent.Keys == s.joined.Keys && Enabled(s, Execute(b)) && item in s.joined
    ensures item in Apply(s, Execute(b)).joined && ItemOk(Apply(s, Execute(b)), item)
  {
    hide Inv, WellFormed;
    BatchOf(s, b);
    ItemOf(s, item);
  }

  lemma ExecuteKeepsInv(s: State, b: BatchId)
    requires Inv(s) && Enabled(s, Execute(b))
    ensures Inv(Apply(s, Execute(b)))
  {
    hide BatchOk, ItemOk;
    var s' := Apply(s, Execute(b));
    forall x | x in s'.batches ensures BatchOk(s', x) {
      ExecuteKeepsBatch(s, b, x);
    }
    forall item | item in s'.joined ensures ItemOk(s', item) {
      ExecuteKeepsItem(s, b, item);
    }
  }

  lemma TimerTouches(s: State, step: Step)
    requires WellFormed(s) && Enabled(s, step) && (step.Fire? || step.Flush?) && BatchOk(s, step.batch)
    ensures WellFormed(Apply(s, step)) && Touches(s, Apply(s, step), step.batch)
  {
    hide Distinct;
  }

  lemma StepKeepsInv(s: State, step: Step)
    requires Inv(s) && Enabled(s, step)
    ensures Inv(Apply(s, step))
  {
    hide Apply, Touches, ItemOk;
    match step
    case Submit(item, key) => SubmitKeepsInv(s, item, key);
    case Execute(b) => ExecuteKeepsInv(s, b);
    case _ =>
      BatchOf(s, step.batch);
      TimerTouches(s, step);
      TouchKeepsInv(s, Apply(s, step), step.batch);
  }

  predicate Runs(s: State, steps: seq<Step>, t: State)
    decreases |steps|
  {
    if steps == [] then s == t else WellFormed(s) && Enabled(s, steps[0]) && Runs(Apply(s, steps[0]), steps[1..], t)
  }

  lemma {:induction false} RunsKeepInv(s: State, steps: seq<Step>, t: State)
    requires Inv(s) && Runs(s, steps, t)
    ensures Inv(t)
    decreases |steps|
  {
    hide Inv, Apply, Enabled;
    if steps == [] {
    } else {
      StepKeepsInv(s, steps[0]);
      RunsKeepInv(Apply(s, steps[0]), steps[1..], t);
    }
  }

  // ---------------------------------------------------------------- theorems

  /** Every submitted item is in exactly one batch, exactly once, with items of its own key only. */
  lemma ItemsJoinOneBatch(max: nat, steps: seq<Step>, s: State, item: Item)
    requires max > 0 && Runs(Start(max), steps, s) && item in s.joined
    ensures forall b | b in s.batches :: item in s.batches[b].items <==> b == s.joined[item]
    ensures s.joined[item] in s.batches && Distinct(s.batches[s.joined[item]].items)
    ensures 1 <= |s.batches[s.joined[item]].items| <= s.max
    ensures forall other | other in s.batches[s.joined[item]].items ::
              item in s.asked && other in s.asked && s.asked[other] == s.asked[item]
  {
    hide Runs;
    StartInv(max);
    RunsKeepInv(Start(max), steps, s);
    assert ItemOk(s, item) && BatchOk(s, s.joined[item]);
    forall b | b in s.batches ensures item in s.batches[b].items <==> b == s.joined[item] {
      assert BatchOk(s, b);
    }
    forall other | other in s.batches[s.joined[item]].items
      ensures item in s.asked && other in s.asked && s.asked[other] == s.asked[item]
    {
      assert ItemOk(s, other);
    }
  }

  /** A batch is scheduled at most once; until then it is mapped with a timer that is armed or already firing. */
  lemma NoBatchIsStranded(max: nat, steps: seq<Step>, s: State, b: BatchId)
    requires max > 0 && Runs(Start(max), steps, s) && b in s.batches
    ensures s.batches[b].executed <= s.batches[b].scheduled <= 1
    ensures s.batches[b].scheduled == 0 ==> Pending(s, b) && s.batches[b].timer != Quiet
    ensures s.batches[b].scheduled == 0 && s.batches[b].timer == Fired ==>
              WellFormed(s) && Apply(s, Flush(b)).batches[b].scheduled == 1
  {
    hide Runs;
    StartInv(max);
    RunsKeepInv(Start(max), steps, s);
    assert BatchOk(s, b);
  }

  /** Results never block: each channel of capacity one gets one result, and gets it when its batch has run. */
  lemma OneResultPerItem(max: nat, steps: seq<Step>, s: State, item: Item)
    requires max > 0 && Runs(Start(max), steps, s) && item in s.joined
    ensures item in s.sent && s.joined[item] in s.batches
    ensures s.sent[item] == s.batches[s.joined[item]].executed <= 1
  {
    hide Runs;
    StartInv(max);
    RunsKeepInv(Start(max), steps, s);
    assert ItemOk(s, item) && BatchOk(s, s.joined[item]);
  }

  // ---------------------------------------------------------------- execution

  // What happened to an item before the write: an error, or a record to apply under its entity key.
  datatype Fate = Failed(error: string) | Prepared(entity: string)

  datatype Answer = Error(error: string) | Applied(outcome: string) | Omitted

  // The item's record is the last one of its entity in the batch.
  predicate LastOfEntity(items: seq<Item>, fates: map<Item, Fate>, i: nat)
    requires i < |items| && forall item | item in items :: item in fates
  {
    forall j | i < j < |items| :: fates[items[j]] != fates[items[i]]
  }

  // What the i-th item is told.
  function AnswerOf(items: seq<Item>, fates: map<Item, Fate>, outcomes: map<string, string>, i: nat): Answer
    requires i < |items| && forall item | item in items :: item in fates
  {
    match fates[items[i]]
    case Failed(error) => Error(error)
    case Prepared(entity) =>
      if LastOfEntity(items, fates, i) && entity in outcomes then Applied(outcomes[entity]) else Omitted
  }

  // No two items of the batch are prepared for one entity that was written.
  predicate OneItemPerEntity(items: seq<Item>, fates: map<Item, Fate>, outcomes: map<string, string>)
    requires forall item | item in items :: item in fates
  {
    forall i, j | 0 <= i < j < |items| ::
      fates[items[i]].Prepared? && fates[items[i]].entity in outcomes ==> fates[items[i]] != fates[items[j]]
  }

  /** Every prepared item hears the outcome of its entity if and only if the
      batch holds at most one item per written entity. */
  lemma EveryoneHearsExactly(items: seq<Item>, fates: map<Item, Fate>, outcomes: map<string, string>)
    requires forall item | item in items :: item in fates
    ensures OneItemPerEntity(items, fates, outcomes) <==>
            forall i | 0 <= i < |items| && fates[items[i]].Prepared? && fates[items[i]].entity in outcomes ::
              AnswerOf(items, fates, outcomes, i) == Applied(outcomes[fates[items[i]].entity])
  {
    if !OneItemPerEntity(items, fates, outcomes) {
      var i, j :| 0 <= i < j < |items| && fates[items[i]].Prepared? && fates[items[i]].entity in outcomes
                  && fates[items[i]] == fates[items[j]];
      assert !LastOfEntity(items, fates, i);
      assert AnswerOf(items, fates, outcomes, i) == Omitted;
    }
  }

  /** For example, two submissions of one pull request in one batch. */
  lemma EarlierOfTwoIsOmitted(first: Item, second: Item, entity: string, outcome: string)
    requires first != second
    ensures var fates := map[first := Prepared(entity), second := Prepared(entity)];
            var outcomes := map[entity := outcome];
            && AnswerOf([first, second], fates, outcomes, 0) == Omitted
            && AnswerOf([first, second], fates, outcomes, 1) == Applied(outcome)
  {
    var items, fates := [first, second], map[first := Prepared(entity), second := Prepared(entity)];
    assert fates[items[1]] == fates[items[0]];
    assert !LastOfEntity(items, fates, 0);
  }

  // Index of the last of the first n items prepared for the entity.
  function LastPrepared(items: seq<Item>, fates: map<Item, Fate>, n: nat, entity: string): (r: Option<nat>)
    requires n <= |items| && forall item | item in items :: item in fates
    ensures r.Some? ==> r.value < n && fates[items[r.value]] == Prepared(entity)
    ensures r.Some? ==> forall j | r.value < j < n :: fates[items[j]] != Prepared(entity)
    ensures r.None? ==> forall j | 0 <= j < n :: fates[items[j]] != Prepared(entity)
  {
    if n == 0 then None
    else if fates[items[n - 1]] == Prepared(entity) then Some(n - 1)
    else LastPrepared(items, fates, n - 1, entity)
  }

  lemma OneMorePrepared(items: seq<Item>, fates: map<Item, Fate>, n: nat)
    requires n < |items| && forall item | item in items :: item in fates
    ensures forall entity :: LastPrepared(items, fates, n + 1, entity) ==
              if fates[items[n]] == Prepared(entity) then Some(n) else LastPrepared(items, fates, n, entity)
  {
  }

  // The preparation loops: errors are recorded per item, records are collected
  // per entity key, a later record displacing an earlier one.
  method Prepare(items: seq<Item>, fates: map<Item, Fate>)
    returns (results: map<Item, Answer>, applyItems: map<string, Item>)
    requires forall item | item in items :: item in fates
    ensures forall item :: item in results <==> item in items && fates[item].Failed?
    ensures forall item | item in results :: results[item] == Error(fates[item].error)
    ensures forall entity :: entity in applyItems <==> LastPrepared(items, fates, |items|, entity).Some?
    ensures forall entity | entity in applyItems ::
              applyItems[entity] == items[LastPrepared(items, fates, |items|, entity).value]
  {
    hide LastPrepared;
    results, applyItems := map[], map[];
    for i := 0 to |items|
      invariant forall item :: item in results <==> item in items[..i] && fates[item].Failed?
      invariant forall item | item in results :: results[item] == Error(fates[item].error)
      invariant forall entity :: entity in applyItems <==> LastPrepared(items, fates, i, entity).Some?
      invariant forall entity | entity in applyItems ::
                  applyItems[entity] == items[LastPrepared(items, fates, i, entity).value]
    {
      assert items[..i + 1] == items[..i] + [items[i]];
      OneMorePrepared(items, fates, i);
      match fates[items[i]]
      case Failed(error) => results := results[items[i] := Error(error)];
      case Prepared(entity) => applyItems := applyItems[entity := items[i]];
    }
    assert items[..|items|] == items;
  }

  // The outcome loop: each entity's outcome goes to the one item it belongs to.
  method Record(errors: map<Item, Answer>, applyItems: map<string, Item>, outcomes: map<string, string>)
    returns (results: map<Item, Answer>)
    requires forall entity | entity in applyItems :: applyItems[entity] !in errors
    requires forall a, b | a in applyItems && b in applyItems && applyItems[a] == applyItems[b] :: a == b
    ensures forall item | item in errors :: item in results && results[item] == errors[item]
    ensures forall entity | entity in applyItems && entity in outcomes ::
              applyItems[entity] in results && results[applyItems[entity]] == Applied(outcomes[entity])
    ensures forall item | item in results && item !in errors ::
              exists entity | entity in applyItems && entity in outcomes :: applyItems[entity] == item
  {
    results := errors;
    var pending := applyItems.Keys * outcomes.Keys;
    while pending != {}
      invariant pending <= applyItems.Keys * outcomes.Keys
      invariant forall item | item in errors :: item in results && results[item] == errors[item]
      invariant forall entity | entity in applyItems && entity in outcomes && entity !in pending ::
                  applyItems[entity] in results && results[applyItems[entity]] == Applied(outcomes[entity])
      invariant forall item | item in results && item !in errors ::
                  exists entity | entity in applyItems && entity in outcomes :: applyItems[entity] == item
      decreases pending
    {
      var entity :| entity in pending;
      pending := pending - {entity};
      results := results[applyItems[entity] := Applied(outcomes[entity])];
    }
  }

  lemma SameItemSameEntity(items: seq<Item>, fates: map<Item, Fate>, a: string, b: string)
    requires forall item | item in items :: item in fates
    requires LastPrepared(items, fates, |items|, a).Some? && LastPrepared(items, fates, |items|, b).Some?
    requires items[LastPrepared(items, fates, |items|, a).value] == items[LastPrepared(items, fates, |items|, b).value]
    ensures a == b
  {
  }

  /**
   execute and finishAll: one answer per item, in order. The writer returns one
   outcome per entity key; when a batch holds several records of one entity,
   only the last of them hears it and the others are told it was omitted.
   */
  method Answers(items: seq<Item>, fates: map<Item, Fate>, outcomes: map<string, string>) returns (sent: seq<Answer>)
    requires Distinct(items) && forall item | item in items :: item in fates
    ensures |sent| == |items|
    ensures forall i | 0 <= i < |items| :: sent[i] == AnswerOf(items, fates, outcomes, i)
  {
    hide LastPrepared;
    var errors, applyItems := Prepare(items, fates);
    forall a, b | a in applyItems && b in applyItems && applyItems[a] == applyItems[b] ensures a == b {
      SameItemSameEntity(items, fates, a, b);
    }
    var results := Record(errors, applyItems, outcomes);
    sent := [];
    for i := 0 to |items|
      invariant |sent| == i
      invariant forall j | 0 <= j < i :: sent[j] == AnswerOf(items, fates, outcomes, j)
    {
      AnswerIsRecorded(items, fates, outcomes, applyItems, errors, results, i);
      sent := sent + [if items[i] in results then results[items[i]] else Omitted];
    }
  }

  lemma AnswerIsRecorded(items: seq<Item>, fates: map<Item, Fate>, outcomes: map<string, string>,
                         applyItems: map<string, Item>, errors: map<Item, Answer>, results: map<Item, Answer>, i: nat)
    requires i < |items| && Distinct(items) && forall item | item in items :: item in fates
    requires forall item :: item in errors <==> item in items && fates[item].Failed?
    requires forall item | item in errors :: errors[item] == Error(fates[item].error)
    requires forall entity :: entity in applyItems <==> LastPrepared(items, fates, |items|, entity).Some?
    requires forall entity | entity in applyItems ::
               applyItems[entity] == items[LastPrepared(items, fates, |items|, entity).value]
    requires forall item | item in errors :: item in results && results[item] == errors[item]
    requires forall entity | entity in applyItems && entity in outcomes ::
               applyItems[entity] in results && results[applyItems[entity]] == Applied(outcomes[entity])
    requires forall item | item in results && item !in errors ::
               exists entity | entity in applyItems && entity in outcomes :: applyItems[entity] == item
    ensures (if items[i] in results then results[items[i]] else Omitted) == AnswerOf(items, fates, outcomes, i)
  {
  }

  // -------------------------------------------------------------- the object

  class PrCoordinator {
    const max: nat
    var mapped: map<BatchKey, BatchId>
    var batches: map<BatchId, Batch>
    var nextBatch: BatchId
    ghost var joined: map<Item, BatchId>
    ghost var asked: map<Item, BatchKey>
    ghost var sent: map<Item, nat>

    ghost function View(): State
      reads this
    {
      State(max, mapped, batches, joined, asked, sent, nextBatch)
    }

    constructor (size: nat)
      requires size > 0
      ensures View() == Start(size) && Inv(View())
    {
      max := size;
      mapped, batches, nextBatch := map[], map[], 0;
      joined, asked, sent := map[], map[], map[];
      new;
      StartInv(size);
    }

    method JoinBatch(item: Item, key: BatchKey) returns (b: BatchId)
      requires WellFormed(View())
      modifies this
      ensures (View(), b) == Join(old(View()), item, key)
    {
      var batch: Batch;
      if key in mapped {
        b := mapped[key];
        batch := batches[b];
        assert mapped == mapped[key := b];
      } else {
        b := nextBatch;
        batch := Batch(key, [], Armed, false, 0, 0);
        nextBatch := nextBatch + 1;
        mapped := mapped[key := b];
      }
      batches := batches[b := batch.(items := batch.items + [item])];
      joined, asked, sent := joined[item := b], asked[item := key], sent[item := 0];
    }

    method DispatchBatch(b: BatchId, timer: Timer)
      requires b in batches
      modifies `mapped, `batches
      ensures View() == Dispatch(old(View()), b, timer)
    {
      mapped := mapped - {batches[b].key};
      batches := batches[b := batches[b].(closed := true, timer := timer, scheduled := batches[b].scheduled + 1)];
    }

    // The locked section of submit; the caller executes the batch when it is full.
    method SubmitItem(item: Item, key: BatchKey) returns (full: bool)
      requires WellFormed(View()) && Inv(View()) && item !in joined
      modifies this
      ensures View() == Apply(old(View()), Submit(item, key)) && WellFormed(View()) && Inv(View())
    {
      hide Inv, Dispatch;
      StepKeepsInv(View(), Submit(item, key));
      SubmitKeepsMap(View(), item, key);
      hide WellFormed;
      var b := JoinBatch(item, key);
      full := |batches[b].items| == max;
      if full {
        DispatchBatch(b, Stopped(batches[b].timer));
      }
    }

    // The timer callback; it executes the batch unless the size limit came first.
    method FlushBatch(key: BatchKey, b: BatchId) returns (execute: bool)
      requires WellFormed(View()) && Inv(View()) && b in batches && batches[b].timer == Fired && batches[b].key == key
      modifies this
      ensures View() == Apply(old(View()), Flush(b)) && WellFormed(View()) && Inv(View())
      ensures execute <==> !old(batches)[b].closed
    {
      StepKeepsInv(View(), Flush(b));
      BatchOf(View(), b);
      InvIsWellFormed(Apply(View(), Flush(b)));
      hide Inv, WellFormed;
      if batches[b].closed || key !in mapped || mapped[key] != b {
        batches := batches[b := batches[b].(timer := Quiet)];
        return false;
      }
      DispatchBatch(b, Quiet);
      return true;
    }
  }

  lemma InvIsWellFormed(s: State)
    requires Inv(s)
    ensures WellFormed(s)
  {
  }
}
