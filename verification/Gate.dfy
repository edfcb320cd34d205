/**
 The budget gate: admission under a concurrency ceiling, per-bucket
 reservations, priority floors, per-credential backoff and a lease deadline.

 `Gate` is the gate's state as a value and its functions are the locked
 sections of the gate's methods. Time is an integer clock whose zero is Go's
 zero time; floors are real fractions of the limit.
 */
module Gate {
  import opened Results

  type Time = nat

  datatype Class = Interactive | Event | Sweep
  datatype Auth = Installation | AppJWT
  datatype Resource = REST | GraphQL
  datatype Bucket = RestBucket | AppBucket | GraphBucket
  datatype Failure = Closed | LeaseLost

  datatype Budget = Budget(known: bool, limit: int, remaining: int, resetAt: Time)

  datatype Admission = Admission(id: nat, resource: Resource, auth: Auth, cost: int, holdsSlot: bool)

  datatype Settings = Settings(maxConcurrent: int, restLimit: int, graphqlLimit: int,
                               sweepFloor: real, eventFloor: real, restEstimate: int, graphqlEstimate: int)

  datatype Gate = Gate(
    settings: Settings,
    inFlight: int,
    rest: Budget, appRest: Budget, graphql: Budget,
    restReserved: int, appReserved: int, graphqlReserved: int,
    backoffUntil: Time, appBackoffUntil: Time,
    unavailable: Option<Failure>,
    leaseUntil: Time,
    nextId: nat,
    admissions: map<nat, Admission>)

  datatype Decision =
    | Refused(failure: Failure)
    | AwaitBackoff(until: Time)
    | AwaitSlot
    | AwaitBudget(until: Time, available: int, limit: int)
    | Admitted(admission: Admission)

  // ----------------------------------------------------------- construction

  function Normalize(s: Settings): Settings {
    var sweep := if s.sweepFloor <= 0.0 || s.sweepFloor >= 1.0 then 0.20 else s.sweepFloor;
    var event := if s.eventFloor <= 0.0 || s.eventFloor >= 1.0 then 0.10 else s.eventFloor;
    var inverted := event >= sweep;
    Settings(
      if s.maxConcurrent <= 0 then 40 else s.maxConcurrent,
      if s.restLimit <= 0 then 5000 else s.restLimit,
      if s.graphqlLimit <= 0 then 5000 else s.graphqlLimit,
      if inverted then 0.20 else sweep,
      if inverted then 0.10 else event,
      if s.restEstimate <= 0 then 1 else s.restEstimate,
      if s.graphqlEstimate <= 0 then 100 else s.graphqlEstimate)
  }

  predicate Normalized(s: Settings) {
    && 0 < s.maxConcurrent && 0 < s.restLimit && 0 < s.graphqlLimit
    && 0.0 < s.eventFloor < s.sweepFloor < 1.0
    && 0 < s.restEstimate && 0 < s.graphqlEstimate
  }

  function New(options: Settings): Gate {
    var s := Normalize(options);
    Gate(s, 0,
         Budget(false, s.restLimit, 0, 0), Budget(false, 5000, 0, 0), Budget(false, s.graphqlLimit, 0, 0),
         0, 0, 0, 0, 0, None, 0, 0, map[])
  }

  // ---------------------------------------------------------------- buckets

  function BucketOf(resource: Resource, auth: Auth): Bucket {
    if resource == GraphQL then GraphBucket else if auth == AppJWT then AppBucket else RestBucket
  }

  function BudgetOf(g: Gate, b: Bucket): Budget {
    match b
    case RestBucket => g.rest
    case AppBucket => g.appRest
    case GraphBucket => g.graphql
  }

  function ReservedOf(g: Gate, b: Bucket): int {
    match b
    case RestBucket => g.restReserved
    case AppBucket => g.appReserved
    case GraphBucket => g.graphqlReserved
  }

  function AddReservation(g: Gate, b: Bucket, delta: int): Gate {
    match b
    case RestBucket => g.(restReserved := g.restReserved + delta)
    case AppBucket => g.(appReserved := g.appReserved + delta)
    case GraphBucket => g.(graphqlReserved := g.graphqlReserved + delta)
  }

  function BackoffOf(g: Gate, auth: Auth): Time {
    if auth == AppJWT then g.appBackoffUntil else g.backoffUntil
  }

  function Estimate(g: Gate, resource: Resource): int {
    if resource == REST then g.settings.restEstimate else g.settings.graphqlEstimate
  }

  function FloorFor(s: Settings, class_: Class): real {
    match class_
    case Sweep => s.sweepFloor
    case Event => s.eventFloor
    case Interactive => 0.0
  }

  function Ceil(x: real): int {
    -((-x).Floor)
  }

  // What must be left of a budget after admitting one request of the class.
  function Reserve(s: Settings, class_: Class, limit: int): int {
    Ceil(limit as real * FloorFor(s, class_))
  }

  // -------------------------------------------------------------- admission

  // A live, slot-holding parent lends its slot to a nested token mint.
  predicate ReusesSlot(g: Gate, parent: Option<Admission>) {
    parent.Some? && parent.value.holdsSlot &&
    parent.value.id in g.admissions && g.admissions[parent.value.id] == parent.value
  }

  // The lease deadline is enforced by the admission itself, and sticks.
  function CheckLease(g: Gate, now: Time): Gate {
    if g.unavailable.None? && g.leaseUntil != 0 && now >= g.leaseUntil then g.(unavailable := Some(LeaseLost)) else g
  }

  predicate Starved(g: Gate, now: Time, class_: Class, resource: Resource, auth: Auth) {
    var b := BucketOf(resource, auth);
    var state := BudgetOf(g, b);
    var after := state.remaining - ReservedOf(g, b) - Estimate(g, resource);
    && state.known && now < state.resetAt
    && (after < 0 || (FloorFor(g.settings, class_) > 0.0 && after < Reserve(g.settings, class_, state.limit)))
  }

  function Admit(g: Gate, resource: Resource, auth: Auth, holdsSlot: bool): (Gate, Admission) {
    var a := Admission(g.nextId + 1, resource, auth, Estimate(g, resource), holdsSlot);
    var counted := if holdsSlot then g.(inFlight := g.inFlight + 1) else g;
    (AddReservation(counted, BucketOf(resource, auth), a.cost)
       .(nextId := a.id, admissions := g.admissions[a.id := a]), a)
  }

  function TryAdmit(g0: Gate, now: Time, class_: Class, resource: Resource, auth: Auth,
                    parent: Option<Admission>): (Gate, Decision) {
    var reuse := ReusesSlot(g0, parent);
    var g := CheckLease(g0, now);
    var b := BucketOf(resource, auth);
    if g.unavailable.Some? then (g, Refused(g.unavailable.value))
    else if now < BackoffOf(g, auth) then (g, AwaitBackoff(BackoffOf(g, auth)))
    else if !reuse && g.inFlight >= g.settings.maxConcurrent then (g, AwaitSlot)
    else if Starved(g, now, class_, resource, auth) then
      (g, AwaitBudget(BudgetOf(g, b).resetAt, BudgetOf(g, b).remaining - ReservedOf(g, b), BudgetOf(g, b).limit))
    else
      var (next, a) := Admit(g, resource, auth, !reuse);
      (next, Admitted(a))
  }

  // finish, abort and body close all end here; only the first finds the entry.
  function Finish(g: Gate, id: nat): Gate {
    if id !in g.admissions then g else
    var a := g.admissions[id];
    var counted := if a.holdsSlot then g.(inFlight := g.inFlight - 1) else g;
    AddReservation(counted, BucketOf(a.resource, a.auth), -a.cost).(admissions := g.admissions - {id})
  }

  // ------------------------------------------------------------ observations

  function Merge(current: Budget, observed: Budget): Budget {
    if !observed.known then current
    else if !current.known || observed.resetAt > current.resetAt then observed
    else if observed.resetAt < current.resetAt then current
    else current.(remaining := if observed.remaining < current.remaining then observed.remaining else current.remaining,
                  limit := if observed.limit > current.limit then observed.limit else current.limit)
  }

  function SetBudget(g: Gate, b: Bucket, budget: Budget): Gate {
    match b
    case RestBucket => g.(rest := budget)
    case AppBucket => g.(appRest := budget)
    case GraphBucket => g.(graphql := budget)
  }

  // Complete, parsed headers or rate blocks only; anything else changes nothing.
  function Observe(g: Gate, b: Bucket, limit: int, remaining: int, resetAt: Time): Gate {
    if limit <= 0 || remaining < 0 || resetAt == 0 then g
    else SetBudget(g, b, Merge(BudgetOf(g, b), Budget(true, limit, remaining, resetAt)))
  }

  function ObserveSecondaryLimit(g: Gate, auth: Auth, until: Time): Gate {
    if until <= BackoffOf(g, auth) then g
    else if auth == AppJWT then g.(appBackoffUntil := until)
    else g.(backoffUntil := until)
  }

  datatype Snapshot = Snapshot(rest: Budget, appRest: Budget, graphql: Budget, backoffUntil: Time, appBackoffUntil: Time)

  function Restore(g: Gate, s: Snapshot): Gate {
    g.(rest := if s.rest.known then s.rest else g.rest,
       appRest := if s.appRest.known then s.appRest else g.appRest,
       graphql := if s.graphql.known then s.graphql else g.graphql,
       backoffUntil := if s.backoffUntil > g.backoffUntil then s.backoffUntil else g.backoffUntil,
       appBackoffUntil := if s.appBackoffUntil > g.appBackoffUntil then s.appBackoffUntil else g.appBackoffUntil)
  }

  // --------------------------------------------------------- lease and close

  function SetLeaseUntil(g: Gate, until: Time): Gate {
    if g.unavailable.None? then g.(leaseUntil := until) else g
  }

  function StopAdmission(g: Gate, failure: Failure): Gate {
    if g.unavailable.None? then g.(unavailable := Some(failure)) else g
  }

  // Finishing every live admission, one at a time, in the order of their ids.
  function FinishThrough(g: Gate, n: nat): Gate {
    if n == 0 then g else Finish(FinishThrough(g, n - 1), n)
  }

  function CancelAdmissions(g: Gate): Gate {
    FinishThrough(g, g.nextId)
  }

  // ------------------------------------------------------------- accounting

  // Cost of the live admissions of one bucket, among ids up to n.
  function CostOf(admissions: map<nat, Admission>, b: Bucket, n: nat): int {
    if n == 0 then 0
    else CostOf(admissions, b, n - 1) +
         (if n in admissions && BucketOf(admissions[n].resource, admissions[n].auth) == b then admissions[n].cost else 0)
  }

  // The live admissions that hold a slot.
  function SlotHolders(admissions: map<nat, Admission>): set<nat> {
    set id | id in admissions && admissions[id].holdsSlot
  }

  predicate Accounted(g: Gate) {
    && Normalized(g.settings)
    && (forall id | id in g.admissions :: 1 <= id <= g.nextId && g.admissions[id].id == id && g.admissions[id].cost > 0)
    && g.inFlight == |SlotHolders(g.admissions)| <= g.settings.maxConcurrent
    && (forall b :: ReservedOf(g, b) == CostOf(g.admissions, b, g.nextId))
    && (forall b :: BudgetOf(g, b).known ==> BudgetOf(g, b).limit > 0 && BudgetOf(g, b).remaining >= 0)
  }

  /** Normalization always yields usable settings; a new gate is in order. */
  lemma NewIsAccounted(options: Settings)
    ensures Normalized(Normalize(options))
    ensures Accounted(New(options))
  {
    assert SlotHolders(map[]) == {};
  }

  lemma {:induction false} CostUnchanged(m: map<nat, Admission>, m': map<nat, Admission>, b: Bucket, n: nat)
    requires forall id | 1 <= id <= n :: (id in m <==> id in m') && (id in m ==> m[id] == m'[id])
    ensures CostOf(m, b, n) == CostOf(m', b, n)
  {
    if n == 0 {
    } else {
      CostUnchanged(m, m', b, n - 1);
    }
  }

  lemma {:induction false} CostWithout(m: map<nat, Admission>, b: Bucket, n: nat, id: nat)
    requires id in m && 1 <= id
    ensures CostOf(m - {id}, b, n) ==
            CostOf(m, b, n) - (if id <= n && BucketOf(m[id].resource, m[id].auth) == b then m[id].cost else 0)
  {
    if n == 0 {
    } else {
      CostWithout(m, b, n - 1, id);
    }
  }

  lemma CostWith(m: map<nat, Admission>, b: Bucket, a: Admission)
    requires a.id > 0 && forall id | id in m :: id < a.id
    ensures CostOf(m[a.id := a], b, a.id) ==
            CostOf(m, b, a.id - 1) + (if BucketOf(a.resource, a.auth) == b then a.cost else 0)
  {
    CostUnchanged(m, m[a.id := a], b, a.id - 1);
  }

  lemma AdmitKeepsAccounts(g: Gate, resource: Resource, auth: Auth, holdsSlot: bool)
    requires Accounted(g) && (holdsSlot ==> g.inFlight < g.settings.maxConcurrent)
    ensures Accounted(Admit(g, resource, auth, holdsSlot).0)
  {
    hide CostOf;
    var (next, a) := Admit(g, resource, auth, holdsSlot);
    forall b
      ensures ReservedOf(next, b) == CostOf(next.admissions, b, next.nextId)
      ensures BudgetOf(next, b) == BudgetOf(g, b)
    {
      CostWith(g.admissions, b, a);
    }
    assert a.id !in g.admissions;
    assert SlotHolders(next.admissions) == SlotHolders(g.admissions) + (if holdsSlot then {a.id} else {});
  }

  lemma FinishKeepsAccounts(g: Gate, id: nat)
    requires Accounted(g)
    ensures Accounted(Finish(g, id))
  {
    if id in g.admissions {
      var a := g.admissions[id];
      var next := Finish(g, id);
      forall b ensures ReservedOf(next, b) == CostOf(next.admissions, b, next.nextId) {
        CostWithout(g.admissions, b, g.nextId, id);
      }
      assert SlotHolders(next.admissions) == SlotHolders(g.admissions) - {id};
      forall b ensures BudgetOf(next, b) == BudgetOf(g, b) {
      }
    }
  }
}
