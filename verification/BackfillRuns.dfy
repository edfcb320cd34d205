/** Whole runs of the repository backfill: passes, their number, and the queue behind them. */
module BackfillRuns {
  import opened Results
  import opened PullCursor
  import opened Backfill

  // One applied page of a listing.
  datatype Listing = Listing(page: int64, keys: seq<Key>, next: int64)

  /** The stored backfill and its history. `returned` holds the jobs whose
      handler has returned but which the queue still counts as live, and
      `written` says for all arguments ever stored how many passes had been
      completed when they last were; `stacks` and `pass` are the applied pages
      of the stacks phase and of the current pass. */
  datatype System = System(
    store: Store,
    returned: set<Args>,
    written: map<Args, nat>,
    stacks: seq<Listing>,
    pass: seq<Listing>,
    seenBefore: set<Key>,
    ends: nat)

  datatype Action =
    | Deliver(args: Args, report: Report)   // a handler's transaction, or its early return
    | Retire(args: Args)                    // the queue marks a returned job completed
    | Rescue(args: Args)                    // the queue hands it out again: its worker died after the commit
    | Kick                                  // a kick-off inserts the stored cursor's job

  const Start: System :=
    System(Store(Repository, 1, {}, {Args(Repository, 1)}), {}, map[Args(Repository, 1) := 0], [], [], {}, 0)

  // Keys come from a finite universe; page arithmetic stays in range. Any job
  // may be delivered at any time, any number of times.
  predicate Allowed(universe: set<Key>, s: System, a: Action) {
    match a
    case Deliver(args, report) =>
      && Faithful(s.store, report)
      && (s.store.phase == PullRequests ==> forall key <- report.keys :: key in universe)
    case Retire(args) => args in s.returned
    case Rescue(args) => args in s.returned
    case Kick => true
  }

  // The history of an applied pull-request page.
  function Recorded(s: System, after: Store, report: Report): System {
    var pass := s.pass + [Listing(At(s.store).page, report.keys, report.next)];
    if report.next != 0 then s.(store := after, pass := pass)
    else if after.phase == PullRequests then
      s.(store := after, pass := [], seenBefore := PullKeys(after.children), ends := s.ends + 1)
    else s.(store := after, pass := pass, ends := s.ends + 1)
  }

  function Advance(s: System, after: Store, report: Report): System {
    if s.store.phase == PullRequests then Recorded(s, after, report)
    else if s.store.phase == Stacks then
      s.(store := after, stacks := s.stacks + [Listing(s.store.page as int64, report.keys, report.next)])
    else s.(store := after)
  }

  function Apply(s: System, a: Action): System {
    match a
    case Deliver(args, report) =>
      var (after, outcome) := Work(s.store, args, report);
      if outcome == Advanced then
        var next := Advance(s, after, report);
        next.(returned := s.returned + {args}, written := s.written[CursorArgs(after) := next.ends])
      else if outcome == Stale then s.(returned := s.returned + {args})
      else s
    case Retire(args) => s.(store := s.store.(jobs := s.store.jobs - {args}), returned := s.returned - {args})
    case Rescue(args) => s.(returned := s.returned - {args})
    case Kick => s.(store := s.store.(jobs := Insert(s.store.jobs, CursorArgs(s.store))))
  }

  predicate Runs(universe: set<Key>, s: System, actions: seq<Action>)
    decreases |actions|
  {
    actions == [] || (Allowed(universe, s, actions[0]) && Runs(universe, Apply(s, actions[0]), actions[1..]))
  }

  function Final(s: System, actions: seq<Action>): System
    decreases |actions|
  {
    if actions == [] then s else Final(Apply(s, actions[0]), actions[1..])
  }

  // ---------------------------------------------------------------- invariant

  function NextOf(pass: seq<Listing>): int64 {
    if pass == [] then 1 else pass[|pass| - 1].next
  }

  // Pages follow one another from the first, each where the one before it pointed.
  predicate Chained(pass: seq<Listing>) {
    forall i | 0 <= i < |pass| :: pass[i].page == NextOf(pass[..i])
  }

  predicate AllIn(pass: seq<Listing>, keys: set<Key>) {
    forall i | 0 <= i < |pass| :: KeysIn(pass[i].keys, keys)
  }

  predicate KeysIn(keys: seq<Key>, known: set<Key>) {
    forall key <- keys :: key in known
  }

  // A pass in progress: its cursor counts the keys it added, and is at zero
  // exactly while it has added none.
  predicate Scanning(s: System) {
    var c := At(s.store);
    && c.page == NextOf(s.pass)
    && (c.count == 0 <==> PullKeys(s.store.children) == s.seenBefore)
    && s.ends <= |s.seenBefore|
  }

  // A whole pass from page 1 to a page without successor that listed only keys
  // recorded before it began.
  predicate CleanPass(s: System) {
    && s.pass != [] && NextOf(s.pass) == 0
    && PullKeys(s.store.children) == s.seenBefore
    && 1 <= s.ends <= |s.seenBefore| + 1
  }

  predicate Inv(universe: set<Key>, s: System) {
    && s.seenBefore <= PullKeys(s.store.children) <= universe
    && Chained(s.pass) && AllIn(s.pass, PullKeys(s.store.children))
    && match s.store.phase {
         case Repository => s.pass == [] && s.ends == 0 && PullKeys(s.store.children) == {}
         case Stacks => s.pass == [] && s.ends == 0 && PullKeys(s.store.children) == {}
         case PullRequests => Scanning(s)
         case Waiting => CleanPass(s)
         case Done => CleanPass(s)
       }
  }

  // ------------------------------------------------------- a pull-request page

  // What one planned page does to the recorded keys and the cursor.
  lemma PullEffect(store: Store, report: Report)
    requires store.phase == PullRequests && Faithful(store, report)
    ensures var c := At(store);
            var count := c.count as int + |Unseen(report.keys, PullKeys(store.children))|;
            match PlanPulls(store, report)
            case None => report.next != 0
            case Some(move) =>
              && PullKeys(store.children + move.added) == PullKeys(store.children) + (set key | key in report.keys)
              && (report.next != 0 && Narrow(move.page) > 0 ==>
                    && move.phase == PullRequests && Narrow(move.page) == move.page && count <= MAX_INT64
                    && Unpair(move.page) == Cursor(report.next, count as int64, c.alternate))
              && (report.next == 0 && count > 0 ==>
                    && move.phase == PullRequests && move.page == (if c.alternate then 1 else 2)
                    && Narrow(move.page) == move.page && Unpair(move.page) == Cursor(1, 0, !c.alternate))
              && (report.next == 0 && count == 0 ==> move.phase == Waiting && move.page == Narrow(1) == 1)
  {
    hide Encode, Decode, Exact, Fits, Unpair;
    StoredDecodes(store.page);
    var c := At(store);
    var unseen := Unseen(report.keys, PullKeys(store.children));
    var added := ChildrenOf(PullRequest, unseen);
    UnseenFilters(report.keys, PullKeys(store.children));
    PullKeysGrow(store.children, PullRequest, unseen);
    FirstPage(!c.alternate);
    NarrowKeeps(1);
    NarrowKeeps(2);
    hide Narrow;
    var next := NextCursor(c, store, report);
    if report.next != 0 && Encode(next).Ok? && Fits(next) { WriteThenRead(next, added); }
  }

  lemma FreshKeys(keys: seq<Key>, seen: set<Key>)
    ensures |Unseen(keys, seen)| == 0 <==> (set key | key in keys) <= seen
  {
  }

  lemma ChainGrows(pass: seq<Listing>, listing: Listing, known: set<Key>, grown: set<Key>)
    requires Chained(pass) && AllIn(pass, known) && listing.page == NextOf(pass)
    requires known <= grown && KeysIn(listing.keys, grown)
    ensures Chained(pass + [listing]) && AllIn(pass + [listing], grown)
  {
  }

  // ------------------------------------------------------------ steps keep it

  lemma StrictlyMore<T>(a: set<T>, b: set<T>)
    requires a < b
    ensures |a| < |b|
  {
    assert b == a + (b - a);
    assert b - a != {};
  }

  // What one applied page does to them.
  lemma PageEffect(store: Store, args: Args, report: Report)
    requires store.phase == PullRequests && Faithful(store, report) && Work(store, args, report).1 == Advanced
    ensures var c := At(store);
            var after := Work(store, args, report).0;
            var count := c.count as int + |Unseen(report.keys, PullKeys(store.children))|;
            && args == CursorArgs(store)
            && after.jobs == Insert(store.jobs, CursorArgs(after))
            && PullKeys(after.children) == PullKeys(store.children) + (set key | key in report.keys)
            && (report.next != 0 ==>
                  && after.phase == PullRequests && count <= MAX_INT64
                  && At(after) == Cursor(report.next, count as int64, c.alternate))
            && (report.next == 0 && count > 0 ==>
                  && after.phase == PullRequests && after.page == (if c.alternate then 1 else 2)
                  && At(after) == Cursor(1, 0, !c.alternate))
            && (report.next == 0 && count == 0 ==> after.phase == Waiting)
  {
    hide Unpair, Faithful, Narrow;
    PullEffect(store, report);
    hide PlanPulls, PullKeys;
  }

  // The three ways a page leaves a pass: on to the next page, around again, or out.
  lemma PassKeepsInv(universe: set<Key>, s: System, after: Store, report: Report, count: nat)
    requires Inv(universe, s) && s.store.phase == PullRequests
    requires PullKeys(s.store.children) <= PullKeys(after.children) <= universe
    requires KeysIn(report.keys, PullKeys(after.children))
    requires count == 0 <==> PullKeys(after.children) == s.seenBefore
    requires count > 0 ==> |s.seenBefore| < |PullKeys(after.children)|
    requires report.next != 0 ==>
               && after.phase == PullRequests && count <= MAX_INT64
               && At(after).page == report.next && At(after).count as int == count
    requires report.next == 0 && count > 0 ==>
               after.phase == PullRequests && At(after).page == 1 && At(after).count == 0
    requires report.next == 0 && count == 0 ==> after.phase == Waiting
    ensures Inv(universe, Recorded(s, after, report))
  {
    hide At, PullKeys, KeysIn;
    var listing := Listing(At(s.store).page, report.keys, report.next);
    ChainGrows(s.pass, listing, PullKeys(s.store.children), PullKeys(after.children));
    NothingIn(PullKeys(after.children));
    hide Chained, AllIn;
    if report.next != 0 {
      assert Recorded(s, after, report) == s.(store := after, pass := s.pass + [listing]);
    } else if count > 0 {
      assert Recorded(s, after, report) == s.(store := after, pass := [], seenBefore := PullKeys(after.children), ends := s.ends + 1);
    } else {
      assert Recorded(s, after, report) == s.(store := after, pass := s.pass + [listing], ends := s.ends + 1);
    }
  }

  lemma PullPageKeepsInv(universe: set<Key>, s: System, args: Args, report: Report)
    requires Inv(universe, s) && Allowed(universe, s, Deliver(args, report))
    requires s.store.phase == PullRequests && Work(s.store, args, report).1 == Advanced
    ensures Inv(universe, Recorded(s, Work(s.store, args, report).0, report))
  {
    hide At, Faithful, Work, PullKeys, Chained, AllIn, Unseen, Recorded;
    PageEffect(s.store, args, report);
    var known := PullKeys(s.store.children);
    var count := At(s.store).count as int;
    CountTellsGrowth(report.keys, known, s.seenBefore, count);
    PassKeepsInv(universe, s, Work(s.store, args, report).0, report, count + |Unseen(report.keys, known)|);
  }

  lemma NothingIn(keys: set<Key>)
    ensures Chained([]) && AllIn([], keys)
  {
  }

  // The count of a pass is positive exactly when the pass has recorded keys.
  lemma CountTellsGrowth(keys: seq<Key>, known: set<Key>, before: set<Key>, count: nat)
    requires before <= known && (count == 0 <==> known == before)
    ensures var grown := known + set key | key in keys;
            && (count + |Unseen(keys, known)| == 0 <==> grown == before)
            && (grown != before ==> |before| < |grown|)
  {
    FreshKeys(keys, known);
    var grown := known + set key | key in keys;
    if before != grown { StrictlyMore(before, grown); }
  }

  lemma EarlyPageKeepsInv(universe: set<Key>, s: System, args: Args, report: Report)
    requires Inv(universe, s) && s.store.phase != PullRequests && Work(s.store, args, report).1 == Advanced
    ensures Inv(universe, s.(store := Work(s.store, args, report).0))
  {
    hide Unpair, PullKeys, ChildrenOf;
    PullKeysGrow(s.store.children, RepoRules, [RULES_KEY]);
    PullKeysGrow(s.store.children, Stack, report.keys);
    FirstPage(false);
    NarrowKeeps(1);
    hide Narrow;
    assert s.store.children + {} == s.store.children;
  }

  // Neither queue nor history of arguments matters to the passes.
  lemma QueueIsIrrelevant(universe: set<Key>, s: System, jobs: set<Args>, returned: set<Args>, written: map<Args, nat>)
    requires Inv(universe, s)
    ensures Inv(universe, s.(store := s.store.(jobs := jobs), returned := returned, written := written))
  {
    hide Unpair, PullKeys, Chained, AllIn;
  }

  lemma StepKeepsInv(universe: set<Key>, s: System, a: Action)
    requires Inv(universe, s) && Allowed(universe, s, a)
    ensures Inv(universe, Apply(s, a))
  {
    var t := Apply(s, a);
    if a.Deliver? && Work(s.store, a.args, a.report).1 == Advanced {
      var after := Work(s.store, a.args, a.report).0;
      if s.store.phase == PullRequests { PullPageKeepsInv(universe, s, a.args, a.report); }
      else { EarlyPageKeepsInv(universe, s, a.args, a.report); }
      hide Inv, Work, Recorded;
      QueueIsIrrelevant(universe, Advance(s, after, a.report), t.store.jobs, t.returned, t.written);
    } else {
      hide Inv;
      QueueIsIrrelevant(universe, s, t.store.jobs, t.returned, t.written);
    }
  }

  lemma {:induction false} RunKeepsInv(universe: set<Key>, s: System, actions: seq<Action>)
    requires Inv(universe, s) && Runs(universe, s, actions)
    ensures Inv(universe, Final(s, actions))
    decreases |actions|
  {
    hide Inv, Allowed, Apply;
    if actions == [] {
    } else {
      StepKeepsInv(universe, s, actions[0]);
      RunKeepsInv(universe, Apply(s, actions[0]), actions[1..]);
    }
  }

  lemma ReachedInv(universe: set<Key>, actions: seq<Action>)
    requires Runs(universe, Start, actions)
    ensures Inv(universe, Final(Start, actions))
  {
    assert PullKeys({}) == {};
    assert Inv(universe, Start);
    RunKeepsInv(universe, Start, actions);
  }

  // ---------------------------------------------------------------- theorems

  /** The scan stops only after a full pass, from page 1 to a page without
      successor, all of whose keys had been recorded before that pass began. */
  lemma StopsOnlyAfterCleanPass(universe: set<Key>, actions: seq<Action>)
    requires Runs(universe, Start, actions) && Final(Start, actions).store.phase in {Waiting, Done}
    ensures var s := Final(Start, actions);
            && s.pass != [] && s.pass[0].page == 1 && s.pass[|s.pass| - 1].next == 0
            && (forall i | 0 < i < |s.pass| :: s.pass[i].page == s.pass[i - 1].next)
            && (forall i | 0 <= i < |s.pass| :: forall key <- s.pass[i].keys :: key in s.seenBefore)
            && s.seenBefore == PullKeys(s.store.children)
  {
    hide Runs, Final, PullKeys, Inv;
    ReachedInv(universe, actions);
    CleanPassShape(universe, Final(Start, actions));
  }

  lemma CleanPassShape(universe: set<Key>, s: System)
    requires Inv(universe, s) && s.store.phase in {Waiting, Done}
    ensures s.pass != [] && s.pass[0].page == 1 && s.pass[|s.pass| - 1].next == 0
    ensures forall i | 0 < i < |s.pass| :: s.pass[i].page == s.pass[i - 1].next
    ensures forall i | 0 <= i < |s.pass| :: forall key <- s.pass[i].keys :: key in s.seenBefore
    ensures s.seenBefore == PullKeys(s.store.children)
  {
    hide PullKeys, Scanning;
    assert s.pass[..0] == [];
    forall i | 0 < i < |s.pass|
      ensures s.pass[i].page == s.pass[i - 1].next
    {
      assert s.pass[..i][i - 1] == s.pass[i - 1];
    }
  }

  /** Keys from a finite set bound the number of completed passes, and a scan
      that has completed that many has stopped. */
  lemma PassesAreBounded(universe: set<Key>, actions: seq<Action>)
    requires Runs(universe, Start, actions)
    ensures var s := Final(Start, actions);
            && s.ends <= |universe| + 1
            && (s.ends == |universe| + 1 ==> s.store.phase in {Waiting, Done})
            && (s.store.phase in {Waiting, Done} ==> s.ends >= 1)
  {
    hide Runs, Final, Inv;
    ReachedInv(universe, actions);
    EndsAreBounded(universe, Final(Start, actions));
  }

  lemma EndsAreBounded(universe: set<Key>, s: System)
    requires Inv(universe, s)
    ensures s.ends <= |universe| + 1
    ensures s.ends == |universe| + 1 ==> s.store.phase in {Waiting, Done}
    ensures s.store.phase in {Waiting, Done} ==> s.ends >= 1
  {
    hide PullKeys, At, Chained, AllIn;
    SubsetSize(s.seenBefore, universe);
  }

  lemma SubsetSize<T>(a: set<T>, b: set<T>)
    requires a <= b
    ensures |a| <= |b|
  {
    if a != b { StrictlyMore(a, b); }
  }

  function Rank(phase: Phase): nat {
    match phase
    case Repository => 0
    case Stacks => 1
    case PullRequests => 2
    case Waiting => 3
    case Done => 4
  }

  lemma WorkMovesForward(store: Store, args: Args, report: Report)
    ensures var after := Work(store, args, report).0;
            store.children <= after.children && Rank(store.phase) <= Rank(after.phase)
  {
    hide Decode, Encode, Narrow, PullKeys, Unseen, NextCursor;
  }

  /** No run loses a recorded child or returns to an earlier phase. */
  lemma {:induction false} RunsMoveForward(s: System, actions: seq<Action>)
    ensures s.store.children <= Final(s, actions).store.children
    ensures Rank(s.store.phase) <= Rank(Final(s, actions).store.phase)
    decreases |actions|
  {
    if actions == [] {
    } else {
      var a := actions[0];
      if a.Deliver? { WorkMovesForward(s.store, a.args, a.report); }
      RunsMoveForward(Apply(s, a), actions[1..]);
      hide Work, At, PullKeys, Rank;
    }
  }

  // ------------------------------------------------------------- stale jobs

  // The cursor a page writes is the cursor it was delivered for exactly when
  // the listing points back at its own page and brought nothing new.
  predicate PointsAtItself(store: Store, report: Report) {
    report.next == At(store).page && Unseen(report.keys, PullKeys(store.children)) == []
  }

  lemma SamePageExactly(store: Store, args: Args, report: Report)
    requires store.phase == PullRequests && Faithful(store, report) && Work(store, args, report).1 == Advanced
    ensures CursorArgs(Work(store, args, report).0) == args <==> PointsAtItself(store, report)
  {
    hide Unpair, Faithful, PullKeys;
    PageEffect(store, args, report);
    hide Work;
    var after := Work(store, args, report).0;
    StoredDecodes(store.page);
    StoredDecodes(after.page);
    if PointsAtItself(store, report) {
      assert At(after) == At(store);
    }
  }

  /** A job whose arguments are not the stored cursor changes nothing. A job
      that delivers its page a second time finds itself stale if and only if
      the page did not point at itself without news. */
  lemma StaleOrRepeatedJobChangesNothing(store: Store, args: Args, first: Report, second: Report)
    ensures IsStale(store, args) ==> Work(store, args, first) == (store, Stale)
    ensures store.phase == PullRequests && Faithful(store, first) && Work(store, args, first).1 == Advanced ==>
              var after := Work(store, args, first).0;
              Work(after, args, second) == (after, Stale) <==> !PointsAtItself(store, first)
  {
    hide Unpair, Faithful, Plan, PullKeys;
    if store.phase == PullRequests && Faithful(store, first) && Work(store, args, first).1 == Advanced {
      SamePageExactly(store, args, first);
      PageEffect(store, args, first);
      hide PointsAtItself;
    }
  }

  // ----------------------------------------------------------- the live queue

  // Some job is still going to be worked on for the stored cursor.
  predicate Live(s: System) {
    s.store.phase != Done ==> CursorArgs(s.store) in s.store.jobs && CursorArgs(s.store) !in s.returned
  }

  // The page ends a pass that recorded keys.
  predicate Restarts(store: Store, report: Report) {
    && store.phase == PullRequests && report.next == 0
    && (At(store).count > 0 || Unseen(report.keys, PullKeys(store.children)) != [])
  }

  /** A restart keeps the backfill alive if and only if the job of the first
      page of the pass with the other bit is not returned and unretired. */
  lemma RestartStaysLiveExactly(s: System, report: Report)
    requires Faithful(s.store, report) && Restarts(s.store, report)
    ensures Live(Apply(s, Deliver(CursorArgs(s.store), report))) <==>
            Args(PullRequests, if At(s.store).alternate then 1 else 2) !in s.returned
  {
    hide Unpair, Faithful, PullKeys;
    var args := CursorArgs(s.store);
    PullEffect(s.store, report);
    PageEffect(s.store, args, report);
    SamePageExactly(s.store, args, report);
    hide Work, PlanPulls;
  }

  // A sane listing points forwards, and its stack pages fit the column.
  predicate PointsForward(store: Store, report: Report) {
    && (store.phase == Stacks ==> report.next == 0 || store.page < report.next as int <= MAX_INT32)
    && (store.phase == PullRequests ==> report.next == 0 || report.next > At(store).page)
  }

  // Counting the pass this page may complete, every job that has returned and
  // is not retired was stored in the current pass or the one before.
  predicate Recent(s: System, report: Report) {
    s.store.phase == PullRequests ==>
      forall args <- s.returned | args.phase == PullRequests && args in s.written ::
        s.ends + (if Restarts(s.store, report) then 1 else 0) <= s.written[args] + 1
  }

  // The queue delivers live jobs only; at every delivery the listing points
  // forwards and retirement lags by less than two passes.
  predicate Timely(s: System, a: Action) {
    a.Deliver? ==> a.args in s.store.jobs && a.args !in s.returned && PointsForward(s.store, a.report) && Recent(s, a.report)
  }

  predicate Prompt(universe: set<Key>, s: System, actions: seq<Action>)
    decreases |actions|
  {
    actions == [] ||
    (&& Allowed(universe, s, actions[0]) && Timely(s, actions[0])
     && Prompt(universe, Apply(s, actions[0]), actions[1..]))
  }

  // ------------------------------------------------- what the pass bit is for

  // Within a pass the pages ascend; between neighbouring passes the bit differs.
  predicate InPass(c: Cursor, age: int, now: Cursor) {
    && (age == 0 ==> c.alternate == now.alternate && (c == now || c.page < now.page))
    && (age == 1 ==> c.alternate != now.alternate)
  }

  predicate Placed(s: System, args: Args)
    requires args in s.written
  {
    && Rank(args.phase) <= Rank(s.store.phase) && s.written[args] <= s.ends
    && (args.phase == s.store.phase == Stacks ==> args.page <= s.store.page)
    && (args.phase == s.store.phase == PullRequests ==>
          1 <= args.page <= MAX_INT32 && InPass(Unpair(args.page), s.ends - s.written[args], At(s.store)))
  }

  predicate Ordered(s: System) {
    && CursorArgs(s.store) in s.written && s.written[CursorArgs(s.store)] == s.ends
    && s.store.jobs <= s.written.Keys && s.returned <= s.written.Keys
    && forall args <- s.written :: Placed(s, args)
  }

  lemma PassGoesOn(c: Cursor, age: nat, now: Cursor, next: Cursor)
    requires InPass(c, age, now) && next.alternate == now.alternate && now.page < next.page
    ensures InPass(c, age, next) && (age <= 1 ==> c != next)
  {
  }

  lemma PassRestarts(c: Cursor, age: nat, now: Cursor, next: Cursor)
    requires InPass(c, age, now) && next.alternate != now.alternate
    ensures InPass(c, age + 1, next) && (age == 0 ==> c != next)
  {
  }

  // What an applied page of the other phases writes.
  lemma EarlyEffect(store: Store, args: Args, report: Report)
    requires store.phase != PullRequests && PointsForward(store, report) && Work(store, args, report).1 == Advanced
    ensures var after := Work(store, args, report).0;
            && args == CursorArgs(store) && after.jobs == Insert(store.jobs, CursorArgs(after))
            && (Rank(store.phase) < Rank(after.phase) || (store.phase == after.phase == Stacks && store.page < after.page))
            && (after.phase == PullRequests ==> store.phase == Stacks && after.page == 1)
  {
    hide PlanPulls, ChildrenOf;
    NarrowKeeps(1);
    NarrowKeeps(report.next as int);
    hide Narrow;
  }

  // The system after an applied page, as far as arguments are concerned.
  lemma AdvanceEffect(s: System, args: Args, report: Report)
    requires Work(s.store, args, report).1 == Advanced
    ensures var after := Work(s.store, args, report).0;
            var t := Apply(s, Deliver(args, report));
            && t.store == after && t.returned == s.returned + {args}
            && t.ends == s.ends + (if s.store.phase == PullRequests && report.next == 0 then 1 else 0)
            && t.written == s.written[CursorArgs(after) := t.ends]
  {
    hide Work, PullKeys, At;
  }

  // In a scan, what was placed stays placed, and what is recent is not written
  // again: while the pass goes on, ...
  lemma NextPageKeepsPlace(s: System, args: Args, report: Report, r: Args)
    requires s.store.phase == PullRequests && Faithful(s.store, report) && PointsForward(s.store, report)
    requires Work(s.store, args, report).1 == Advanced && r in s.written && Placed(s, r) && report.next != 0
    ensures var own := CursorArgs(Work(s.store, args, report).0);
            && (r != own ==> Placed(Apply(s, Deliver(args, report)), r))
            && (r.phase == PullRequests && s.ends <= s.written[r] + 1 ==> r != own)
            && (r.phase != PullRequests ==> r != own)
  {
    hide Work, Apply, Unpair, Faithful, PullKeys, InPass, Unseen;
    AdvanceEffect(s, args, report);
    PageEffect(s.store, args, report);
    if r.phase == PullRequests {
      PassGoesOn(Unpair(r.page), s.ends - s.written[r], At(s.store), At(Work(s.store, args, report).0));
    }
  }

  // ... and when it ends.
  lemma LastPageKeepsPlace(s: System, args: Args, report: Report, r: Args)
    requires s.store.phase == PullRequests && Faithful(s.store, report)
    requires Work(s.store, args, report).1 == Advanced && r in s.written && Placed(s, r) && report.next == 0
    ensures var own := CursorArgs(Work(s.store, args, report).0);
            && (r != own ==> Placed(Apply(s, Deliver(args, report)), r))
            && (r.phase == PullRequests && (Restarts(s.store, report) ==> s.ends <= s.written[r]) ==> r != own)
            && (r.phase != PullRequests ==> r != own)
  {
    hide Work, Apply, Unpair, Faithful, PullKeys, InPass, Unseen;
    AdvanceEffect(s, args, report);
    PageEffect(s.store, args, report);
    var after := Work(s.store, args, report).0;
    if r.phase == PullRequests && after.phase == PullRequests {
      PassRestarts(Unpair(r.page), s.ends - s.written[r], At(s.store), At(after));
    }
  }

  lemma EarlyKeepsPlace(s: System, args: Args, report: Report, r: Args)
    requires Ordered(s) && s.store.phase != PullRequests && PointsForward(s.store, report)
    requires Work(s.store, args, report).1 == Advanced && r in s.written
    ensures var after := Work(s.store, args, report).0;
            r != CursorArgs(after) && Placed(Apply(s, Deliver(args, report)), r)
  {
    AdvanceEffect(s, args, report);
    EarlyEffect(s.store, args, report);
    assert Placed(s, r);
    hide Work, Apply, Unpair, PullKeys, InPass, Ordered;
  }

  lemma AdvanceKeepsPlace(s: System, args: Args, report: Report, r: Args)
    requires Ordered(s) && Faithful(s.store, report) && Timely(s, Deliver(args, report))
    requires Work(s.store, args, report).1 == Advanced && r in s.written
    ensures var own := CursorArgs(Work(s.store, args, report).0);
            && (r != own ==> Placed(Apply(s, Deliver(args, report)), r))
            && (r in s.returned + {args} ==> r != own)
  {
    hide Work, Apply, Faithful, Placed, At, PullKeys, Unseen;
    AdvanceQueuesItsJob(s.store, args, report);
    assert Placed(s, r);
    if s.store.phase == PullRequests && report.next != 0 {
      NextPageKeepsPlace(s, args, report, r);
    } else if s.store.phase == PullRequests {
      LastPageKeepsPlace(s, args, report, r);
    } else {
      EarlyKeepsPlace(s, args, report, r);
    }
  }

  lemma AdvanceQueuesItsJob(store: Store, args: Args, report: Report)
    requires Faithful(store, report) && PointsForward(store, report) && Work(store, args, report).1 == Advanced
    ensures var after := Work(store, args, report).0;
            args == CursorArgs(store) && after.jobs == Insert(store.jobs, CursorArgs(after))
  {
    hide Work, Faithful, PointsForward, PullKeys, At;
    if store.phase == PullRequests { PageEffect(store, args, report); }
    else { EarlyEffect(store, args, report); }
  }

  // An applied page keeps the order of arguments, and its job is queued and new.
  lemma AdvanceKeepsOrder(s: System, args: Args, report: Report)
    requires Ordered(s) && Faithful(s.store, report) && Timely(s, Deliver(args, report))
    requires Work(s.store, args, report).1 == Advanced
    ensures var t := Apply(s, Deliver(args, report));
            Ordered(t) && Live(t)
  {
    hide Work, Apply, Faithful, Placed, PointsForward, Recent;
    AdvanceEffect(s, args, report);
    AdvanceQueuesItsJob(s.store, args, report);
    var t := Apply(s, Deliver(args, report));
    forall r | r in s.written
      ensures r != CursorArgs(t.store) ==> Placed(t, r)
      ensures r in t.returned ==> r != CursorArgs(t.store)
    {
      AdvanceKeepsPlace(s, args, report, r);
    }
    OwnPlace(t);
  }

  lemma OwnPlace(t: System)
    requires CursorArgs(t.store) in t.written && t.written[CursorArgs(t.store)] == t.ends
    ensures Placed(t, CursorArgs(t.store))
  {
    hide Unpair;
  }

  lemma StepKeepsOrder(universe: set<Key>, s: System, a: Action)
    requires Ordered(s) && Live(s) && Allowed(universe, s, a) && Timely(s, a)
    ensures Ordered(Apply(s, a)) && Live(Apply(s, a))
  {
    if a.Deliver? && Work(s.store, a.args, a.report).1 == Advanced {
      AdvanceKeepsOrder(s, a.args, a.report);
    } else {
      var t := Apply(s, a);
      assert t.written == s.written && t.ends == s.ends && CursorArgs(t.store) == CursorArgs(s.store);
      forall r | r in s.written
        ensures Placed(t, r)
      {
        assert Placed(s, r);
      }
      hide Placed, Plan, Faithful;
    }
  }

  lemma {:induction false} PromptStaysLive(universe: set<Key>, s: System, actions: seq<Action>)
    requires Ordered(s) && Live(s) && Prompt(universe, s, actions)
    ensures Live(Final(s, actions))
    decreases |actions|
  {
    hide Ordered, Live, Allowed, Apply, Timely;
    if actions == [] {
    } else {
      StepKeepsOrder(universe, s, actions[0]);
      PromptStaysLive(universe, Apply(s, actions[0]), actions[1..]);
    }
  }

  /** What the pass bit buys: in every run whose listings point forwards, and in
      which no job from two or more completed passes ago has returned without
      being retired when a page is delivered, an unfinished backfill always has
      a live job for its stored cursor. */
  lemma NeverStalls(universe: set<Key>, actions: seq<Action>)
    requires Prompt(universe, Start, actions)
    ensures Live(Final(Start, actions))
  {
    PromptStaysLive(universe, Start, actions);
  }

  // ------------------------------------------------- and what it does not buy

  // From the start to the first page of the first pass.
  const OPENING: seq<Action> := [
    Deliver(Args(Repository, 1), Report([], 0, 0)), Deliver(Args(Stacks, 1), Report([], 0, 0)),
    Retire(Args(Repository, 1)), Retire(Args(Stacks, 1))]

  // Two one-page passes that each bring a key, and the retirement of their jobs.
  function QuickPasses(a: Key, b: Key): seq<Action> {
    [Deliver(Args(PullRequests, 1), Report([a], 0, 0)), Deliver(Args(PullRequests, 2), Report([b], 0, 0)),
     Retire(Args(PullRequests, 1)), Retire(Args(PullRequests, 2))]
  }

  /** One pass more is too many. Two one-page passes that each record a new key,
      while the first pass's job has returned but still counts as live, write
      that job's own arguments again: the queue inserts nothing, and when both
      jobs retire the unfinished scan has no job. A new kick-off repairs it. */
  lemma TwoQuickPassesStall(a: Key, b: Key)
    requires a != b
    ensures Runs({a, b}, Start, OPENING + QuickPasses(a, b))
    ensures var s := Final(Start, OPENING + QuickPasses(a, b));
            s.store.phase == PullRequests && s.store.jobs == {} && !Live(s) && Live(Apply(s, Kick))
  {
    hide Runs, Final, QuickPasses, OPENING, PullKeys;
    Opening({a, b});
    TwoPasses({a, b}, Final(Start, OPENING), a, b);
    RunsJoin({a, b}, Start, OPENING, QuickPasses(a, b));
  }

  lemma Opening(universe: set<Key>)
    ensures Runs(universe, Start, OPENING)
    ensures var s := Final(Start, OPENING);
            && s.store.phase == PullRequests && s.store.page == 1 && PullKeys(s.store.children) == {}
            && s.store.jobs == {Args(PullRequests, 1)} && s.returned == {}
  {
    var opening := OPENING;
    NarrowKeeps(1);
    hide Narrow, PlanPulls, Unpair;
    var none := Report([], 0, 0);
    var s1 := Apply(Start, opening[0]);
    var s2 := Apply(s1, opening[1]);
    assert s2.store.jobs == {Args(Repository, 1), Args(Stacks, 1), Args(PullRequests, 1)};
    FourSteps(universe, Start, opening[0], opening[1], opening[2], opening[3]);
    assert opening == [opening[0], opening[1], opening[2], opening[3]];
  }

  lemma TwoPasses(universe: set<Key>, s: System, a: Key, b: Key)
    requires s.store.phase == PullRequests && s.store.page == 1 && s.returned == {}
    requires s.store.jobs == {Args(PullRequests, 1)} && a != b && {a, b} <= universe
    requires a !in PullKeys(s.store.children) && b !in PullKeys(s.store.children)
    ensures Runs(universe, s, QuickPasses(a, b))
    ensures var t := Final(s, QuickPasses(a, b));
            t.store.phase == PullRequests && t.store.jobs == {} && t.returned == {}
  {
    var passes := QuickPasses(a, b);
    hide Unpair, Faithful, Work, Recorded, Wrap;
    var first, second := Args(PullRequests, 1), Args(PullRequests, 2);
    OnePagePass(s, 1, false, a);
    var s1 := Apply(s, passes[0]);
    OnePagePass(s1, 2, true, b);
    var s2 := Apply(s1, passes[1]);
    hide PullKeys;
    assert s2.store.jobs == {first, second} && s2.returned == {first, second};
    FourSteps(universe, s, passes[0], passes[1], Retire(first), Retire(second));
    assert Apply(Apply(s2, Retire(first)), Retire(second)).store.jobs == {};
  }

  lemma FourSteps(universe: set<Key>, s: System, a: Action, b: Action, c: Action, d: Action)
    ensures Final(s, [a, b, c, d]) == Apply(Apply(Apply(Apply(s, a), b), c), d)
    ensures Runs(universe, s, [a, b, c, d]) <==>
            && Allowed(universe, s, a) && Allowed(universe, Apply(s, a), b) && Allowed(universe, Apply(Apply(s, a), b), c)
            && Allowed(universe, Apply(Apply(Apply(s, a), b), c), d)
  {
    hide Apply, Allowed;
    FirstStep(universe, s, a, [b, c, d]);
    FirstStep(universe, Apply(s, a), b, [c, d]);
    FirstStep(universe, Apply(Apply(s, a), b), c, [d]);
    FirstStep(universe, Apply(Apply(Apply(s, a), b), c), d, []);
    assert [a] + [b, c, d] == [a, b, c, d] && [b] + [c, d] == [b, c, d] && [c] + [d] == [c, d] && [d] + [] == [d];
  }

  lemma FirstStep(universe: set<Key>, s: System, a: Action, rest: seq<Action>)
    ensures Final(s, [a] + rest) == Final(Apply(s, a), rest)
    ensures Runs(universe, s, [a] + rest) <==> Allowed(universe, s, a) && Runs(universe, Apply(s, a), rest)
  {
    hide Apply, Allowed;
    assert ([a] + rest)[1..] == rest;
  }

  lemma {:induction false} RunsJoin(universe: set<Key>, s: System, first: seq<Action>, second: seq<Action>)
    requires Runs(universe, s, first) && Runs(universe, Final(s, first), second)
    ensures Runs(universe, s, first + second) && Final(s, first + second) == Final(Final(s, first), second)
    decreases |first|
  {
    hide Apply, Allowed;
    if first == [] {
      assert first + second == second;
    } else {
      RunsJoin(universe, Apply(s, first[0]), first[1..], second);
      FirstStep(universe, s, first[0], first[1..] + second);
      assert [first[0]] + (first[1..] + second) == first + second;
    }
  }

  // A pass of one page that records one key turns the pass bit and nothing else.
  lemma OnePagePass(s: System, page: Page, alternate: bool, key: Key)
    requires page == (if alternate then 2 else 1) && s.store.phase == PullRequests && s.store.page == page
    requires key !in PullKeys(s.store.children)
    ensures Faithful(s.store, Report([key], 0, 0))
    ensures var t := Apply(s, Deliver(Args(PullRequests, page), Report([key], 0, 0)));
            && t.store == Store(PullRequests, 3 - page, s.store.children + {Child(PullRequest, key)}, s.store.jobs + {Args(PullRequests, 3 - page)})
            && t.returned == s.returned + {Args(PullRequests, page)}
            && PullKeys(t.store.children) == PullKeys(s.store.children) + {key}
  {
    hide Decode, Encode, Wrap, Unpair;
    FirstPage(alternate);
    FirstPage(!alternate);
    StoredDecodes(page);
    NarrowKeeps(3 - page);
    var unseen := Unseen([key], PullKeys(s.store.children));
    assert unseen == [key] by {
      assert [key][1..] == [];
      assert Unseen([], PullKeys(s.store.children)) == [];
    }
    PullKeysGrow(s.store.children, PullRequest, unseen);
    assert ChildrenOf(PullRequest, unseen) == {Child(PullRequest, key)};
    WrapOne();
    hide Narrow, Unseen, PullKeys;
  }

  lemma WrapOne()
    ensures Wrap(1) == 1
  {
  }
}
