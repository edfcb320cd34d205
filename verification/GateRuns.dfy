/**
 Whole runs of the budget gate: accounting, release, floors, priorities,
 backoff and the merging of rate observations.
 */
module GateRuns {
  import opened Results
  import opened Gate

  datatype Op =
    | Try(now: Time, class_: Class, resource: Resource, auth: Auth, parent: Option<Admission>)
    | Done(id: nat)
    | Observed(bucket: Bucket, limit: int, remaining: int, resetAt: Time)
    | Limited(limitedAuth: Auth, until: Time)
    | Leased(leaseUntil: Time)
    | Stopped(failure: Failure)
    | Cancelled

  function Step(g: Gate, op: Op): Gate {
    match op
    case Try(now, class_, resource, auth, parent) => TryAdmit(g, now, class_, resource, auth, parent).0
    case Done(id) => Finish(g, id)
    case Observed(b, limit, remaining, resetAt) => Observe(g, b, limit, remaining, resetAt)
    case Limited(auth, until) => ObserveSecondaryLimit(g, auth, until)
    case Leased(until) => SetLeaseUntil(g, until)
    case Stopped(failure) => StopAdmission(g, failure)
    case Cancelled => CancelAdmissions(g)
  }

  function Run(g: Gate, ops: seq<Op>): Gate {
    if ops == [] then g else Step(Run(g, ops[..|ops| - 1]), ops[|ops| - 1])
  }

  // ------------------------------------------------------------- accounting

  // Steps that move neither slots nor reservations keep the books.
  lemma SameBooks(g: Gate, g': Gate)
    requires Accounted(g)
    requires g'.settings == g.settings && g'.inFlight == g.inFlight
    requires g'.admissions == g.admissions && g'.nextId == g.nextId
    requires forall b :: ReservedOf(g', b) == ReservedOf(g, b)
    requires forall b :: BudgetOf(g', b).known ==> BudgetOf(g', b).limit > 0 && BudgetOf(g', b).remaining >= 0
    ensures Accounted(g')
  {
    hide CostOf;
  }

  lemma TryKeepsAccounts(g: Gate, op: Op)
    requires Accounted(g) && op.Try?
    ensures Accounted(Step(g, op))
  {
    hide Admit, Starved, CostOf;
    var checked := CheckLease(g, op.now);
    forall b ensures ReservedOf(checked, b) == ReservedOf(g, b) && BudgetOf(checked, b) == BudgetOf(g, b) {
    }
    SameBooks(g, checked);
    if TryAdmit(g, op.now, op.class_, op.resource, op.auth, op.parent).1.Admitted? {
      AdmitKeepsAccounts(checked, op.resource, op.auth, !ReusesSlot(g, op.parent));
    }
  }

  lemma {:induction false} FinishThroughKeepsAccounts(g: Gate, n: nat)
    requires Accounted(g)
    ensures Accounted(FinishThrough(g, n))
  {
    hide Accounted, Finish;
    if n == 0 {
    } else {
      FinishThroughKeepsAccounts(g, n - 1);
      FinishKeepsAccounts(FinishThrough(g, n - 1), n);
    }
  }

  lemma StepKeepsAccounts(g: Gate, op: Op)
    requires Accounted(g)
    ensures Accounted(Step(g, op))
  {
    hide CostOf, TryAdmit, Finish, FinishThrough;
    match op
    case Try(_, _, _, _, _) => TryKeepsAccounts(g, op);
    case Done(id) => FinishKeepsAccounts(g, id);
    case Cancelled => FinishThroughKeepsAccounts(g, g.nextId);
    case _ =>
      var g' := Step(g, op);
      forall b
        ensures ReservedOf(g', b) == ReservedOf(g, b)
        ensures BudgetOf(g', b).known ==> BudgetOf(g', b).limit > 0 && BudgetOf(g', b).remaining >= 0
      {
        assert BudgetOf(g, b).known ==> BudgetOf(g, b).limit > 0 && BudgetOf(g, b).remaining >= 0;
      }
      SameBooks(g, g');
  }

  /** In every reachable state, slots and reservations are exactly those of the live admissions. */
  lemma {:induction false} AccountsBalance(g: Gate, ops: seq<Op>)
    requires Accounted(g)
    ensures Accounted(Run(g, ops))
  {
    hide Accounted, Step;
    if ops == [] {
    } else {
      AccountsBalance(g, ops[..|ops| - 1]);
      StepKeepsAccounts(Run(g, ops[..|ops| - 1]), ops[|ops| - 1]);
    }
  }

  /** A leased gate starts from a new one with the persisted snapshot restored; that is in order too. */
  lemma RestoreKeepsAccounts(options: Settings, s: Snapshot)
    requires forall b | b in {s.rest, s.appRest, s.graphql} :: b.known ==> b.limit > 0 && b.remaining >= 0
    ensures Accounted(Restore(New(options), s))
  {
    NewIsAccounted(options);
  }

  // ---------------------------------------------------------------- release

  // An id that was handed out and is no longer live.
  predicate Released(g: Gate, id: nat) {
    1 <= id <= g.nextId && id !in g.admissions
  }

  lemma {:induction false} FinishThroughOnlyRemoves(g: Gate, n: nat)
    ensures var next := FinishThrough(g, n);
            && next.nextId == g.nextId && next.admissions.Keys <= g.admissions.Keys
            && (forall id | 1 <= id <= n :: id !in next.admissions)
            && next.settings == g.settings && next.unavailable == g.unavailable && next.leaseUntil == g.leaseUntil
            && next.backoffUntil == g.backoffUntil && next.appBackoffUntil == g.appBackoffUntil
            && (forall b :: BudgetOf(next, b) == BudgetOf(g, b))
  {
    if n == 0 {
    } else {
      FinishThroughOnlyRemoves(g, n - 1);
    }
  }

  /** A released admission never becomes live again, so nothing can release it twice. */
  lemma {:induction false} ReleasedForever(g: Gate, ops: seq<Op>, id: nat)
    requires Released(g, id)
    ensures Released(Run(g, ops), id)
    ensures Finish(Run(g, ops), id) == Run(g, ops)
  {
    if ops == [] {
    } else {
      var before := Run(g, ops[..|ops| - 1]);
      ReleasedForever(g, ops[..|ops| - 1], id);
      FinishThroughOnlyRemoves(before, before.nextId);
      hide Starved, FinishThrough;
    }
  }

  /** Cancellation aborts the live admissions one locked section at a time, with
      anything in between. Once the gate is unavailable, every run that finishes
      each of them at least once ends with no admission, no slot and no reservation. */
  lemma AbortsDrain(g: Gate, ops: seq<Op>)
    requires Accounted(g) && g.unavailable.Some?
    requires forall id <- g.admissions :: Done(id) in ops
    ensures var next := Run(g, ops);
            next.admissions == map[] && next.inFlight == 0 && forall b :: ReservedOf(next, b) == 0
  {
    var next := Run(g, ops);
    AccountsBalance(g, ops);
    forall id | id in g.admissions
      ensures id !in next.admissions
    {
      FinishedIsGone(g, ops, id);
    }
    UnavailableAdmitsNothing(g, ops);
    hide CostOf, Run;
    assert next.admissions.Keys == {};
    assert SlotHolders(next.admissions) == {};
    forall b ensures ReservedOf(next, b) == 0 {
      NothingCosts(b, next.nextId);
    }
  }

  lemma {:induction false} UnavailableAdmitsNothing(g: Gate, ops: seq<Op>)
    requires g.unavailable.Some?
    ensures Run(g, ops).unavailable.Some? && Run(g, ops).admissions.Keys <= g.admissions.Keys
    ensures Run(g, ops).nextId == g.nextId
  {
    if ops == [] {
    } else {
      var before := Run(g, ops[..|ops| - 1]);
      UnavailableAdmitsNothing(g, ops[..|ops| - 1]);
      FinishThroughOnlyRemoves(before, before.nextId);
      hide Starved, FinishThrough;
    }
  }

  lemma {:induction false} FinishedIsGone(g: Gate, ops: seq<Op>, id: nat)
    requires g.unavailable.Some? && id in g.admissions && Done(id) in ops
    ensures id !in Run(g, ops).admissions
  {
    var init, op := ops[..|ops| - 1], ops[|ops| - 1];
    var before := Run(g, init);
    UnavailableAdmitsNothing(g, init);
    UnavailableAdmitsNothing(before, [op]);
    assert [op][..0] == [] && Run(before, [op]) == Step(before, op);
    if op == Done(id) {
    } else {
      FinishedIsGone(g, init, id);
    }
    hide TryAdmit, FinishThrough;
  }

  /** Done at one go, cancelling leaves nothing live either. */
  lemma CancelDrains(g: Gate)
    requires Accounted(g)
    ensures var next := CancelAdmissions(g);
            next.admissions == map[] && next.inFlight == 0 && forall b :: ReservedOf(next, b) == 0
  {
    hide CostOf, FinishThrough;
    var next := CancelAdmissions(g);
    FinishThroughKeepsAccounts(g, g.nextId);
    FinishThroughOnlyRemoves(g, g.nextId);
    assert next.admissions.Keys == {};
    assert SlotHolders(next.admissions) == {};
    forall b ensures ReservedOf(next, b) == 0 {
      NothingCosts(b, next.nextId);
    }
  }

  lemma {:induction false} NothingCosts(b: Bucket, n: nat)
    ensures CostOf(map[], b, n) == 0
  {
    if n == 0 {
    } else {
      NothingCosts(b, n - 1);
    }
  }

  // ------------------------------------------------------------ token mints

  /** A mint nested in a live slot-holding admission never waits on the ceiling, and takes no slot of its own. */
  lemma NestedMintSharesSlot(g: Gate, op: Op, parent: Admission)
    requires Accounted(g) && parent.id in g.admissions && g.admissions[parent.id] == parent && parent.holdsSlot
    requires op.Try? && op.parent == Some(parent)
    ensures var decision := TryAdmit(g, op.now, op.class_, op.resource, op.auth, op.parent).1;
            && decision != AwaitSlot
            && (decision.Admitted? ==> !decision.admission.holdsSlot)
    ensures Step(g, op).inFlight == g.inFlight
  {
  }

  /** An admission is refused for good once the gate is unavailable, whatever happens later. */
  lemma {:induction false} UnavailableSticks(g: Gate, ops: seq<Op>, op: Op)
    requires g.unavailable.Some? && op.Try?
    ensures Run(g, ops).unavailable == g.unavailable
    ensures TryAdmit(Run(g, ops), op.now, op.class_, op.resource, op.auth, op.parent).1 == Refused(g.unavailable.value)
  {
    if ops == [] {
    } else {
      var before := Run(g, ops[..|ops| - 1]);
      UnavailableSticks(g, ops[..|ops| - 1], op);
      FinishThroughOnlyRemoves(before, before.nextId);
      hide Starved, FinishThrough;
    }
  }

  // ----------------------------------------------------------------- floors

  function Available(g: Gate, b: Bucket): int {
    BudgetOf(g, b).remaining - ReservedOf(g, b)
  }

  // The least that admitting the class leaves of a budget.
  function Bound(s: Settings, class_: Class, limit: int): int {
    if class_ == Interactive then 0 else Reserve(s, class_, limit)
  }

  function Min(a: int, b: int): int {
    if a < b then a else b
  }

  // The run leaves the bucket's budget alone, stays inside its window, and
  // only admits on it classes that must leave at least bound.
  predicate WithinWindow(g: Gate, b: Bucket, bound: int, op: Op) {
    match op
    case Try(now, class_, resource, auth, _) =>
      BucketOf(resource, auth) == b ==>
        now < BudgetOf(g, b).resetAt && bound <= Bound(g.settings, class_, BudgetOf(g, b).limit)
    case Observed(other, _, _, _) => other != b
    case _ => true
  }

  lemma ReserveNonNegative(s: Settings, class_: Class, limit: int)
    requires Normalized(s) && limit > 0
    ensures Reserve(s, class_, limit) >= 0
  {
  }

  /** A request starves exactly when, inside a known window, admitting it would
      leave less of its budget than its class must leave. */
  lemma StarvedExactly(g: Gate, now: Time, class_: Class, resource: Resource, auth: Auth, holdsSlot: bool)
    requires Accounted(g)
    ensures var b := BucketOf(resource, auth);
            Starved(g, now, class_, resource, auth) <==>
            && BudgetOf(g, b).known && now < BudgetOf(g, b).resetAt
            && Available(Admit(g, resource, auth, holdsSlot).0, b) < Bound(g.settings, class_, BudgetOf(g, b).limit)
  {
    var b := BucketOf(resource, auth);
    hide Reserve, CostOf;
    if BudgetOf(g, b).known { ReserveNonNegative(g.settings, class_, BudgetOf(g, b).limit); }
  }

  lemma TryLeavesBound(g: Gate, b: Bucket, bound: int, op: Op)
    requires Accounted(g) && BudgetOf(g, b).known && op.Try? && WithinWindow(g, b, bound, op)
    ensures Available(Step(g, op), b) >= Min(Available(g, b), bound)
    ensures BudgetOf(Step(g, op), b) == BudgetOf(g, b) && Step(g, op).settings == g.settings
  {
    hide Reserve;
    assert Normalized(g.settings);
  }

  lemma {:induction false} FinishThroughFrees(g: Gate, b: Bucket, n: nat)
    requires Accounted(g)
    ensures ReservedOf(FinishThrough(g, n), b) <= ReservedOf(g, b)
  {
    if n == 0 {
    } else {
      FinishThroughFrees(g, b, n - 1);
      FinishThroughKeepsAccounts(g, n - 1);
      FinishFrees(FinishThrough(g, n - 1), b, n);
    }
  }

  lemma FinishFrees(g: Gate, b: Bucket, id: nat)
    requires Accounted(g)
    ensures ReservedOf(Finish(g, id), b) <= ReservedOf(g, b)
    ensures BudgetOf(Finish(g, id), b) == BudgetOf(g, b) && Finish(g, id).settings == g.settings
  {
    hide CostOf;
  }

  lemma StepLeavesBound(g: Gate, b: Bucket, bound: int, op: Op)
    requires Accounted(g) && BudgetOf(g, b).known && WithinWindow(g, b, bound, op)
    ensures Available(Step(g, op), b) >= Min(Available(g, b), bound)
    ensures BudgetOf(Step(g, op), b) == BudgetOf(g, b) && Step(g, op).settings == g.settings
  {
    hide TryAdmit, Finish, FinishThrough, Accounted, Bound;
    match op
    case Try(_, _, _, _, _) => TryLeavesBound(g, b, bound, op);
    case Done(id) => FinishFrees(g, b, id);
    case Cancelled =>
      FinishThroughFrees(g, b, g.nextId);
      FinishThroughOnlyRemoves(g, g.nextId);
    case _ =>
  }

  /** Between observations of a known window, no run takes a budget below the floor of the classes it admits. */
  lemma {:induction false} FloorsHold(g: Gate, b: Bucket, bound: int, ops: seq<Op>)
    requires Accounted(g) && BudgetOf(g, b).known
    requires forall i | 0 <= i < |ops| :: WithinWindow(g, b, bound, ops[i])
    ensures Available(Run(g, ops), b) >= Min(Available(g, b), bound)
    ensures BudgetOf(Run(g, ops), b) == BudgetOf(g, b) && Run(g, ops).settings == g.settings
  {
    hide Accounted, Step, Bound;
    if ops == [] {
    } else {
      var before := Run(g, ops[..|ops| - 1]);
      var last := ops[|ops| - 1];
      FloorsHold(g, b, bound, ops[..|ops| - 1]);
      AccountsBalance(g, ops[..|ops| - 1]);
      assert WithinWindow(before, b, bound, last);
      StepLeavesBound(before, b, bound, last);
    }
  }

  lemma CeilMonotone(x: real, y: real)
    requires x <= y
    ensures Ceil(x) <= Ceil(y)
  {
  }

  lemma ReserveMonotone(s: Settings, limit: int)
    requires Normalized(s) && limit > 0
    ensures 0 <= Reserve(s, Event, limit) <= Reserve(s, Sweep, limit)
  {
    ReserveNonNegative(s, Event, limit);
    var l := limit as real;
    assert l * s.eventFloor <= l * s.sweepFloor;
    CeilMonotone(l * s.eventFloor, l * s.sweepFloor);
  }

  /** Whenever sweep work is admitted, event and interactive work would be, on the same bucket and credential. */
  lemma PriorityIsMonotone(g: Gate, now: Time, resource: Resource, auth: Auth, parent: Option<Admission>)
    requires Accounted(g)
    requires TryAdmit(g, now, Sweep, resource, auth, parent).1.Admitted?
    ensures TryAdmit(g, now, Event, resource, auth, parent) == TryAdmit(g, now, Sweep, resource, auth, parent)
    ensures TryAdmit(g, now, Interactive, resource, auth, parent) == TryAdmit(g, now, Sweep, resource, auth, parent)
  {
    hide Reserve, Admit, CostOf;
    var limit := BudgetOf(g, BucketOf(resource, auth)).limit;
    if BudgetOf(g, BucketOf(resource, auth)).known {
      ReserveMonotone(g.settings, limit);
    }
  }

  // ---------------------------------------------------------------- backoff

  /** Each credential's backoff only grows, and only because of that credential. */
  lemma {:induction false} BackoffOnlyGrows(g: Gate, ops: seq<Op>, auth: Auth)
    ensures BackoffOf(Run(g, ops), auth) >= BackoffOf(g, auth)
    ensures (forall i | 0 <= i < |ops| :: ops[i].Limited? ==> ops[i].limitedAuth != auth) ==>
              BackoffOf(Run(g, ops), auth) == BackoffOf(g, auth)
  {
    if ops == [] {
    } else {
      var before := Run(g, ops[..|ops| - 1]);
      BackoffOnlyGrows(g, ops[..|ops| - 1], auth);
      hide Step;
      StepBackoff(before, ops[|ops| - 1], auth);
    }
  }

  lemma StepBackoff(g: Gate, op: Op, auth: Auth)
    ensures BackoffOf(Step(g, op), auth) >= BackoffOf(g, auth)
    ensures BackoffOf(Step(g, op), auth) > BackoffOf(g, auth) ==> op.Limited? && op.limitedAuth == auth
  {
    FinishThroughOnlyRemoves(g, g.nextId);
    hide Starved, FinishThrough;
  }

  // --------------------------------------------------- merging observations

  // The latest reset seen; within it the least remaining and the largest limit.
  predicate IsSummary(r: Budget, all: set<Budget>) {
    && r.known
    && (exists o | o in all :: o.resetAt == r.resetAt && o.remaining == r.remaining)
    && (exists o | o in all :: o.resetAt == r.resetAt && o.limit == r.limit)
    && (forall o | o in all :: o.resetAt <= r.resetAt)
    && (forall o | o in all && o.resetAt == r.resetAt :: r.remaining <= o.remaining && o.limit <= r.limit)
  }

  // The budget that summarizes what is known, or the start if nothing is.
  predicate Summarizes(r: Budget, start: Budget, all: set<Budget>) {
    if all == {} then r == start else IsSummary(r, all)
  }

  // What is known of a bucket after a run: its start value, if known, and the
  // complete observations of that bucket.
  function KnownOf(start: Budget, ops: seq<Op>, b: Bucket): set<Budget> {
    if ops == [] then (if start.known then {start} else {})
    else
      var op := ops[|ops| - 1];
      KnownOf(start, ops[..|ops| - 1], b) +
      (if op.Observed? && op.bucket == b && op.limit > 0 && op.remaining >= 0 && op.resetAt != 0
       then {Budget(true, op.limit, op.remaining, op.resetAt)} else {})
  }

  lemma SummaryMerges(r: Budget, start: Budget, all: set<Budget>, o: Budget)
    requires Summarizes(r, start, all) && o.known && (all == {} ==> !r.known)
    ensures IsSummary(Merge(r, o), all + {o})
  {
    var more := all + {o};
    assert o in more;
    if all != {} {
      var least :| least in all && least.resetAt == r.resetAt && least.remaining == r.remaining;
      var largest :| largest in all && largest.resetAt == r.resetAt && largest.limit == r.limit;
      assert least in more && largest in more;
    }
  }

  lemma SummaryIsUnique(a: Budget, b: Budget, start: Budget, all: set<Budget>)
    requires Summarizes(a, start, all) && Summarizes(b, start, all)
    ensures a == b
  {
  }

  lemma StepBudget(g: Gate, op: Op, b: Bucket)
    ensures BudgetOf(Step(g, op), b) ==
            if op.Observed? && op.bucket == b && op.limit > 0 && op.remaining >= 0 && op.resetAt != 0
            then Merge(BudgetOf(g, b), Budget(true, op.limit, op.remaining, op.resetAt)) else BudgetOf(g, b)
  {
    FinishThroughOnlyRemoves(g, g.nextId);
    hide Starved, FinishThrough, Merge;
  }

  /** After any run of any operations a bucket's budget is the summary of its
      start value and the complete observations of that bucket. */
  lemma {:induction false} BudgetIsSummary(g: Gate, ops: seq<Op>, b: Bucket)
    ensures Summarizes(BudgetOf(Run(g, ops), b), BudgetOf(g, b), KnownOf(BudgetOf(g, b), ops, b))
  {
    var start := BudgetOf(g, b);
    if ops == [] {
      if start.known { assert start in KnownOf(start, ops, b); }
    } else {
      var init, op := ops[..|ops| - 1], ops[|ops| - 1];
      BudgetIsSummary(g, init, b);
      StepBudget(Run(g, init), op, b);
      NothingKnown(start, init, b);
      hide IsSummary, Merge, Step;
      if op.Observed? && op.bucket == b && op.limit > 0 && op.remaining >= 0 && op.resetAt != 0 {
        SummaryMerges(BudgetOf(Run(g, init), b), start, KnownOf(start, init, b), Budget(true, op.limit, op.remaining, op.resetAt));
      }
    }
  }

  lemma {:induction false} NothingKnown(start: Budget, ops: seq<Op>, b: Bucket)
    ensures KnownOf(start, ops, b) == {} ==> !start.known
  {
    if ops == [] {
    } else {
      NothingKnown(start, ops[..|ops| - 1], b);
    }
  }

  /** Any two runs from one gate that observe the same of a bucket, in whatever
      order and however often, between whatever else, leave it the same budget. */
  lemma MergeIgnoresOrderAndDuplicates(g: Gate, ops: seq<Op>, other: seq<Op>, b: Bucket)
    requires KnownOf(BudgetOf(g, b), ops, b) == KnownOf(BudgetOf(g, b), other, b)
    ensures BudgetOf(Run(g, ops), b) == BudgetOf(Run(g, other), b)
  {
    BudgetIsSummary(g, ops, b);
    BudgetIsSummary(g, other, b);
    hide Run, KnownOf;
    SummaryIsUnique(BudgetOf(Run(g, ops), b), BudgetOf(Run(g, other), b), BudgetOf(g, b), KnownOf(BudgetOf(g, b), ops, b));
  }

  /** On known observations merging is associative, commutative and idempotent. */
  lemma MergeIsSemilattice(a: Budget, b: Budget, c: Budget)
    requires a.known && b.known && c.known
    ensures Merge(Merge(a, b), c) == Merge(a, Merge(b, c))
    ensures Merge(a, b) == Merge(b, a)
    ensures Merge(a, a) == a
  {
  }
}
