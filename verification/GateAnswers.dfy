/** What the gate decides, read off the operations that went before: the exact condition of every answer. */
module GateAnswers {
  import opened Results
  import opened Gate
  import opened GateRuns

  // --------------------------------------------------------- read off the history

  // The latest deadline of the credential: the one at the start, or one observed since.
  function BackoffIn(start: Time, ops: seq<Op>, auth: Auth): Time {
    if ops == [] then start
    else
      var before := BackoffIn(start, ops[..|ops| - 1], auth);
      match ops[|ops| - 1]
      case Limited(limited, until) => if limited == auth && until > before then until else before
      case _ => before
  }

  // The deadline a gate starts with.
  function StartBackoff(g: Gate, auth: Auth): Time {
    match auth
    case Installation => g.backoffUntil
    case AppJWT => g.appBackoffUntil
  }

  lemma {:induction false} BackoffIsLatest(start: Time, ops: seq<Op>, auth: Auth)
    ensures start <= BackoffIn(start, ops, auth)
    ensures forall op <- ops :: op.Limited? && op.limitedAuth == auth ==> op.until <= BackoffIn(start, ops, auth)
    ensures BackoffIn(start, ops, auth) == start || Limited(auth, BackoffIn(start, ops, auth)) in ops
  {
    if ops == [] {
    } else {
      BackoffIsLatest(start, ops[..|ops| - 1], auth);
      assert ops == ops[..|ops| - 1] + [ops[|ops| - 1]];
    }
  }

  lemma StepMovesBackoff(g: Gate, op: Op, auth: Auth)
    ensures StartBackoff(Step(g, op), auth) == BackoffIn(StartBackoff(g, auth), [op], auth)
  {
    FinishThroughOnlyRemoves(g, g.nextId);
    assert BackoffIn(StartBackoff(g, auth), [], auth) == StartBackoff(g, auth) && [op][..0] == [];
    hide Starved, FinishThrough;
  }

  lemma {:induction false} BackoffIsHistory(g: Gate, ops: seq<Op>, auth: Auth)
    ensures StartBackoff(Run(g, ops), auth) == BackoffIn(StartBackoff(g, auth), ops, auth)
  {
    if ops == [] {
    } else {
      var init, last := ops[..|ops| - 1], ops[|ops| - 1];
      BackoffIsHistory(g, init, auth);
      StepMovesBackoff(Run(g, init), last, auth);
      hide Step, StartBackoff;
      assert [last][..0] == [];
      assert BackoffIn(StartBackoff(Run(g, init), auth), [], auth) == StartBackoff(Run(g, init), auth);
    }
  }

  // --------------------------------------------------- one budget per kind of request

  // GraphQL requests share a budget; REST requests have one per credential.
  predicate SharesBudget(resource: Resource, auth: Auth, a: Admission) {
    a.resource == resource && (resource == GraphQL || a.auth == auth)
  }

  function BudgetFor(g: Gate, resource: Resource, auth: Auth): Budget {
    match resource
    case GraphQL => g.graphql
    case REST => match auth { case Installation => g.rest case AppJWT => g.appRest }
  }

  // What the live admissions that share the budget have reserved, among ids up to n.
  function Spent(admissions: map<nat, Admission>, resource: Resource, auth: Auth, n: nat): int {
    if n == 0 then 0
    else Spent(admissions, resource, auth, n - 1) +
         (if n in admissions && SharesBudget(resource, auth, admissions[n]) then admissions[n].cost else 0)
  }

  function CostFor(s: Settings, resource: Resource): int {
    match resource
    case REST => s.restEstimate
    case GraphQL => s.graphqlEstimate
  }

  // The share of a limit that requests of the class must leave.
  function Share(s: Settings, class_: Class): real {
    match class_
    case Interactive => 0.0
    case Event => s.eventFloor
    case Sweep => s.sweepFloor
  }

  lemma {:induction false} SpentIsReserved(admissions: map<nat, Admission>, resource: Resource, auth: Auth, n: nat)
    ensures Spent(admissions, resource, auth, n) == CostOf(admissions, BucketOf(resource, auth), n)
  {
    if n == 0 {
    } else {
      SpentIsReserved(admissions, resource, auth, n - 1);
    }
  }

  // In a known window the request would leave less than nothing, or less than its class's share.
  predicate TooLittleLeft(g: Gate, now: Time, class_: Class, resource: Resource, auth: Auth) {
    var budget := BudgetFor(g, resource, auth);
    var left := budget.remaining - Spent(g.admissions, resource, auth, g.nextId) - CostFor(g.settings, resource);
    budget.known && now < budget.resetAt && (left < 0 || left as real < budget.limit as real * Share(g.settings, class_))
  }

  lemma CeilExactly(n: int, x: real)
    ensures n < Ceil(x) <==> n as real < x
  {
  }

  lemma StarvedIsTooLittle(g: Gate, now: Time, class_: Class, resource: Resource, auth: Auth)
    requires Accounted(g)
    ensures Starved(g, now, class_, resource, auth) <==> TooLittleLeft(g, now, class_, resource, auth)
  {
    SpentIsReserved(g.admissions, resource, auth, g.nextId);
    var b := BucketOf(resource, auth);
    var budget := BudgetOf(g, b);
    assert budget == BudgetFor(g, resource, auth);
    assert ReservedOf(g, b) == Spent(g.admissions, resource, auth, g.nextId);
    var left := budget.remaining - ReservedOf(g, b) - Estimate(g, resource);
    CeilExactly(left, budget.limit as real * FloorFor(g.settings, class_));
    hide CostOf, Spent, Ceil, SlotHolders;
  }

  // --------------------------------------------------------------- the decision

  // The gate has not been stopped and its lease, if it has one, is alive.
  predicate Open(g: Gate, now: Time) {
    g.unavailable.None? && (g.leaseUntil == 0 || now < g.leaseUntil)
  }

  // A slot is free, or the parent is live and lends its own.
  predicate HasSlot(g: Gate, parent: Option<Admission>) {
    || |SlotHolders(g.admissions)| < g.settings.maxConcurrent
    || (parent.Some? && parent.value.holdsSlot && (parent.value.id, parent.value) in g.admissions.Items)
  }

  lemma DecisionOfState(g: Gate, now: Time, class_: Class, resource: Resource, auth: Auth, parent: Option<Admission>)
    requires Accounted(g)
    ensures var decision := TryAdmit(g, now, class_, resource, auth, parent).1;
            if !Open(g, now) then decision.Refused?
            else if now < StartBackoff(g, auth) then decision == AwaitBackoff(StartBackoff(g, auth))
            else if !HasSlot(g, parent) then decision == AwaitSlot
            else if TooLittleLeft(g, now, class_, resource, auth) then
              var budget := BudgetFor(g, resource, auth);
              decision == AwaitBudget(budget.resetAt, budget.remaining - Spent(g.admissions, resource, auth, g.nextId), budget.limit)
            else decision.Admitted?
  {
    var checked := CheckLease(g, now);
    StarvedIsTooLittle(g, now, class_, resource, auth);
    SpentIsReserved(g.admissions, resource, auth, g.nextId);
    assert ReservedOf(g, BucketOf(resource, auth)) == Spent(g.admissions, resource, auth, g.nextId);
    assert BudgetOf(g, BucketOf(resource, auth)) == BudgetFor(g, resource, auth);
    hide CostOf, Spent, Starved, TooLittleLeft, SlotHolders, Admit;
  }

  /** The answer of the gate after any operations. It refuses exactly when stopped or past its lease; an open
      gate makes a request wait for the latest deadline of its own credential exactly until then, for a slot
      exactly when all are taken and none is lent, and for the window's reset exactly when too little would be
      left; and it admits in every other case, and in no other. */
  lemma DecisionExactly(g: Gate, ops: seq<Op>, now: Time, class_: Class, resource: Resource, auth: Auth, parent: Option<Admission>)
    requires Accounted(g)
    ensures var r := Run(g, ops);
            var decision := TryAdmit(r, now, class_, resource, auth, parent).1;
            var deadline := BackoffIn(StartBackoff(g, auth), ops, auth);
            && (decision.Refused? <==> !Open(r, now))
            && (decision == AwaitBackoff(deadline) <==> Open(r, now) && now < deadline)
            && (decision == AwaitSlot <==> Open(r, now) && now >= deadline && !HasSlot(r, parent))
            && (decision.AwaitBudget? <==>
                  Open(r, now) && now >= deadline && HasSlot(r, parent) && TooLittleLeft(r, now, class_, resource, auth))
            && (decision.Admitted? <==>
                  Open(r, now) && now >= deadline && HasSlot(r, parent) && !TooLittleLeft(r, now, class_, resource, auth))
  {
    AccountsBalance(g, ops);
    BackoffIsHistory(g, ops, auth);
    hide Run, Accounted, TryAdmit, TooLittleLeft, HasSlot, Open, BackoffIn;
    DecisionOfState(Run(g, ops), now, class_, resource, auth, parent);
  }

  /** No request is admitted before a deadline its credential started with or was given since. */
  lemma NeverInsideBackoff(g: Gate, ops: seq<Op>, now: Time, class_: Class, resource: Resource, auth: Auth,
                           parent: Option<Admission>, until: Time)
    requires Accounted(g) && now < until && (until == StartBackoff(g, auth) || Limited(auth, until) in ops)
    ensures !TryAdmit(Run(g, ops), now, class_, resource, auth, parent).1.Admitted?
  {
    hide Run, Accounted, TryAdmit, TooLittleLeft, HasSlot, Open, BackoffIn;
    BackoffIsLatest(StartBackoff(g, auth), ops, auth);
    DecisionExactly(g, ops, now, class_, resource, auth, parent);
  }

  // ----------------------------------------------------------- what admission takes

  /** An admission reserves its estimate in the budget of its own kind and credential, leaves the other two
      alone, and takes a slot unless one is lent; an undecided request takes nothing. */
  lemma AdmissionTakesExactly(g: Gate, now: Time, class_: Class, resource: Resource, auth: Auth, parent: Option<Admission>)
    ensures var (next, decision) := TryAdmit(g, now, class_, resource, auth, parent);
            var cost := if decision.Admitted? then CostFor(g.settings, resource) else 0;
            && next.restReserved == g.restReserved + (if resource == REST && auth == Installation then cost else 0)
            && next.appReserved == g.appReserved + (if resource == REST && auth == AppJWT then cost else 0)
            && next.graphqlReserved == g.graphqlReserved + (if resource == GraphQL then cost else 0)
            && (!decision.Admitted? ==> next.inFlight == g.inFlight && next.admissions == g.admissions)
            && (decision.Admitted? ==>
                  var a := decision.admission;
                  && a == Admission(g.nextId + 1, resource, auth, cost, !ReusesSlot(g, parent))
                  && next.admissions == g.admissions[a.id := a] && next.nextId == a.id
                  && next.inFlight == g.inFlight + (if a.holdsSlot then 1 else 0))
  {
    hide Starved;
  }

  // --------------------------------------------------------------- construction

  /** Options are taken as they are if and only if they are usable; each usable number is kept whatever the
      others are, and the two floors are kept exactly when they are usable together. */
  lemma NormalizeExactly(o: Settings)
    ensures Normalize(o) == o <==> Normalized(o)
    ensures Normalize(Normalize(o)) == Normalize(o)
    ensures o.maxConcurrent > 0 ==> Normalize(o).maxConcurrent == o.maxConcurrent
    ensures o.restLimit > 0 ==> Normalize(o).restLimit == o.restLimit
    ensures o.graphqlLimit > 0 ==> Normalize(o).graphqlLimit == o.graphqlLimit
    ensures o.restEstimate > 0 ==> Normalize(o).restEstimate == o.restEstimate
    ensures o.graphqlEstimate > 0 ==> Normalize(o).graphqlEstimate == o.graphqlEstimate
    ensures Normalize(o).sweepFloor == o.sweepFloor && Normalize(o).eventFloor == o.eventFloor <==>
            0.0 < o.eventFloor < o.sweepFloor < 1.0
  {
  }

  predicate Usable(s: Snapshot) {
    forall budget <- {s.rest, s.appRest, s.graphql} :: budget.known ==> budget.limit > 0 && budget.remaining >= 0
  }

  /** A restored gate is bound by what was persisted: no request before its credential's persisted deadline is
      admitted after any operations, and known budgets enter the summary of their bucket. */
  lemma RestoredBindsDecisions(options: Settings, s: Snapshot, ops: seq<Op>, now: Time, class_: Class, resource: Resource,
                               auth: Auth, parent: Option<Admission>)
    requires Usable(s)
    ensures var g := Restore(New(options), s);
            var persisted := match resource { case GraphQL => s.graphql case REST => if auth == AppJWT then s.appRest else s.rest };
            var b := BucketOf(resource, auth);
            && (now < (if auth == AppJWT then s.appBackoffUntil else s.backoffUntil) ==>
                  !TryAdmit(Run(g, ops), now, class_, resource, auth, parent).1.Admitted?)
            && (persisted.known ==>
                  persisted in KnownOf(BudgetOf(g, b), ops, b) && IsSummary(BudgetOf(Run(g, ops), b), KnownOf(BudgetOf(g, b), ops, b)))
  {
    var g := Restore(New(options), s);
    var b := BucketOf(resource, auth);
    RestoreKeepsAccounts(options, s);
    BudgetIsSummary(g, ops, b);
    StartIsKnown(BudgetOf(g, b), ops, b);
    var deadline := if auth == AppJWT then s.appBackoffUntil else s.backoffUntil;
    assert StartBackoff(g, auth) == deadline;
    if now < deadline {
      NeverInsideBackoff(g, ops, now, class_, resource, auth, parent, deadline);
    }
    hide Run, TryAdmit, KnownOf, IsSummary, Accounted;
  }

  lemma {:induction false} StartIsKnown(start: Budget, ops: seq<Op>, b: Bucket)
    ensures start.known ==> start in KnownOf(start, ops, b)
  {
    if ops == [] {
    } else {
      StartIsKnown(start, ops[..|ops| - 1], b);
    }
  }
}
