/**
 The gate as the mutable object the client shares: every method performs
 exactly one locked section of the gate's specification and keeps its books.
 */
module LiveGate {
  import opened Results
  import opened Spec = Gate
  import opened GateRuns

  class Gate {
    const settings: Settings
    var inFlight: int
    var rest: Budget
    var appRest: Budget
    var graphql: Budget
    var restReserved: int
    var appReserved: int
    var graphqlReserved: int
    var backoffUntil: Time
    var appBackoffUntil: Time
    var unavailable: Option<Failure>
    var leaseUntil: Time
    var nextId: nat
    var admissions: map<nat, Admission>

    ghost function View(): Spec.Gate
      reads this
    {
      Spec.Gate(settings, inFlight, rest, appRest, graphql, restReserved, appReserved, graphqlReserved,
                backoffUntil, appBackoffUntil, unavailable, leaseUntil, nextId, admissions)
    }

    constructor (options: Settings)
      ensures View() == New(options) && Accounted(View())
    {
      settings := Normalize(options);
      inFlight := 0;
      rest := Budget(false, Normalize(options).restLimit, 0, 0);
      appRest := Budget(false, 5000, 0, 0);
      graphql := Budget(false, Normalize(options).graphqlLimit, 0, 0);
      restReserved, appReserved, graphqlReserved := 0, 0, 0;
      backoffUntil, appBackoffUntil := 0, 0;
      unavailable, leaseUntil := None, 0;
      nextId, admissions := 0, map[];
      new;
      NewIsAccounted(options);
    }

    method Reserve(b: Bucket, delta: int)
      modifies `restReserved, `appReserved, `graphqlReserved
      ensures View() == AddReservation(old(View()), b, delta)
    {
      match b
      case RestBucket => restReserved := restReserved + delta;
      case AppBucket => appReserved := appReserved + delta;
      case GraphBucket => graphqlReserved := graphqlReserved + delta;
    }

    // The floor test on the bucket's last observation.
    method IsStarved(now: Time, class_: Class, resource: Resource, auth: Auth) returns (starved: bool)
      ensures starved == Starved(View(), now, class_, resource, auth)
    {
      var b := BucketOf(resource, auth);
      var cost := if resource == REST then settings.restEstimate else settings.graphqlEstimate;
      var state := match b case RestBucket => rest case AppBucket => appRest case GraphBucket => graphql;
      var reserved := match b case RestBucket => restReserved case AppBucket => appReserved case GraphBucket => graphqlReserved;
      if !state.known || now >= state.resetAt {
        return false;
      }
      var after := state.remaining - reserved - cost;
      var floor := FloorFor(settings, class_);
      starved := after < 0 || (floor > 0.0 && after < Spec.Reserve(settings, class_, state.limit));
    }

    method Enter(resource: Resource, auth: Auth, holdsSlot: bool) returns (entry: Admission)
      modifies this
      ensures (View(), entry) == Admit(old(View()), resource, auth, holdsSlot)
    {
      nextId := nextId + 1;
      entry := Admission(nextId, resource, auth,
                         if resource == REST then settings.restEstimate else settings.graphqlEstimate, holdsSlot);
      if holdsSlot {
        inFlight := inFlight + 1;
      }
      Reserve(BucketOf(resource, auth), entry.cost);
      admissions := admissions[entry.id := entry];
    }

    method TryAdmit(now: Time, class_: Class, resource: Resource, auth: Auth, parent: Option<Admission>)
      returns (decision: Decision)
      requires Accounted(View())
      modifies this
      ensures (View(), decision) == Spec.TryAdmit(old(View()), now, class_, resource, auth, parent)
      ensures Accounted(View())
    {
      hide Accounted, Starved, Admit;
      TryKeepsAccounts(View(), Try(now, class_, resource, auth, parent));
      var reuse := parent.Some? && parent.value.holdsSlot &&
        parent.value.id in admissions && admissions[parent.value.id] == parent.value;
      if unavailable.None? && leaseUntil != 0 && now >= leaseUntil {
        unavailable := Some(LeaseLost);
      }
      if unavailable.Some? {
        return Refused(unavailable.value);
      }
      var backoff := if auth == AppJWT then appBackoffUntil else backoffUntil;
      if now < backoff {
        return AwaitBackoff(backoff);
      }
      if !reuse && inFlight >= settings.maxConcurrent {
        return AwaitSlot;
      }
      var starved := IsStarved(now, class_, resource, auth);
      if starved {
        var b := BucketOf(resource, auth);
        var state := match b case RestBucket => rest case AppBucket => appRest case GraphBucket => graphql;
        var reserved := match b case RestBucket => restReserved case AppBucket => appReserved case GraphBucket => graphqlReserved;
        return AwaitBudget(state.resetAt, state.remaining - reserved, state.limit);
      }
      var entry := Enter(resource, auth, !reuse);
      decision := Admitted(entry);
    }

    method Finish(id: nat)
      requires Accounted(View())
      modifies this
      ensures View() == Spec.Finish(old(View()), id) && Accounted(View())
    {
      hide Accounted;
      FinishKeepsAccounts(View(), id);
      if id in admissions {
        var a := admissions[id];
        admissions := admissions - {id};
        if a.holdsSlot {
          inFlight := inFlight - 1;
        }
        Reserve(BucketOf(a.resource, a.auth), -a.cost);
      }
    }

    method Observe(b: Bucket, limit: int, remaining: int, resetAt: Time)
      requires Accounted(View())
      modifies `rest, `appRest, `graphql
      ensures View() == Spec.Observe(old(View()), b, limit, remaining, resetAt) && Accounted(View())
    {
      hide Accounted;
      StepKeepsAccounts(View(), Observed(b, limit, remaining, resetAt));
      if limit <= 0 || remaining < 0 || resetAt == 0 {
        return;
      }
      var observed := Budget(true, limit, remaining, resetAt);
      match b
      case RestBucket => rest := Merge(rest, observed);
      case AppBucket => appRest := Merge(appRest, observed);
      case GraphBucket => graphql := Merge(graphql, observed);
    }

    method ObserveSecondaryLimit(auth: Auth, until: Time) returns (changed: bool)
      requires Accounted(View())
      modifies `backoffUntil, `appBackoffUntil
      ensures View() == Spec.ObserveSecondaryLimit(old(View()), auth, until) && Accounted(View())
      ensures changed <==> until > BackoffOf(old(View()), auth)
    {
      hide Accounted;
      StepKeepsAccounts(View(), Limited(auth, until));
      changed := until > (if auth == AppJWT then appBackoffUntil else backoffUntil);
      if changed {
        if auth == AppJWT {
          appBackoffUntil := until;
        } else {
          backoffUntil := until;
        }
      }
    }

    method SetLeaseUntil(until: Time)
      requires Accounted(View())
      modifies `leaseUntil
      ensures View() == Spec.SetLeaseUntil(old(View()), until) && Accounted(View())
    {
      hide Accounted;
      StepKeepsAccounts(View(), Leased(until));
      if unavailable.None? {
        leaseUntil := until;
      }
    }

    method StopAdmission(failure: Failure)
      requires Accounted(View())
      modifies `unavailable
      ensures View() == Spec.StopAdmission(old(View()), failure) && Accounted(View())
    {
      hide Accounted;
      StepKeepsAccounts(View(), Stopped(failure));
      if unavailable.None? {
        unavailable := Some(failure);
      }
    }

    // Takes over what an earlier holder of the lease persisted.
    method RestoreFrom(s: Snapshot)
      modifies this
      ensures View() == Restore(old(View()), s)
    {
      if s.rest.known { rest := s.rest; }
      if s.appRest.known { appRest := s.appRest; }
      if s.graphql.known { graphql := s.graphql; }
      if s.backoffUntil > backoffUntil { backoffUntil := s.backoffUntil; }
      if s.appBackoffUntil > appBackoffUntil { appBackoffUntil := s.appBackoffUntil; }
    }

    // Aborts every entry of the map, in whatever order the map yields them.
    method CancelAdmissions()
      requires Accounted(View())
      modifies this
      ensures View() == Spec.CancelAdmissions(old(View())) && Accounted(View())
    {
      hide CostOf, Spec.Finish, Spec.FinishThrough, Accounted;
      ghost var start := View();
      var entries := admissions.Keys;
      while entries != {}
        invariant Accounted(View())
        invariant admissions.Keys == entries
        invariant View().(inFlight := start.inFlight, admissions := start.admissions,
                          restReserved := start.restReserved, appReserved := start.appReserved,
                          graphqlReserved := start.graphqlReserved) == start
        decreases |entries|
      {
        var id :| id in entries;
        FinishFrame(View(), id);
        Finish(id);
        entries := entries - {id};
      }
      DrainedIsUnique(start, View());
    }
  }

  lemma FinishFrame(g: Spec.Gate, id: nat)
    ensures var next := Spec.Finish(g, id);
            && next.admissions == g.admissions - {id}
            && next.(inFlight := g.inFlight, admissions := g.admissions,
                     restReserved := g.restReserved, appReserved := g.appReserved,
                     graphqlReserved := g.graphqlReserved) == g
  {
  }

  // With nothing live, balanced books leave no choice: the result is that of cancelling in id order.
  lemma DrainedIsUnique(start: Spec.Gate, drained: Spec.Gate)
    requires Accounted(start) && Accounted(drained) && drained.admissions.Keys == {}
    requires drained.(inFlight := start.inFlight, admissions := start.admissions,
                      restReserved := start.restReserved, appReserved := start.appReserved,
                      graphqlReserved := start.graphqlReserved) == start
    ensures drained == Spec.CancelAdmissions(start)
  {
    hide CostOf, Spec.FinishThrough;
    var ordered := Spec.CancelAdmissions(start);
    CancelDrains(start);
    FinishThroughOnlyRemoves(start, start.nextId);
    assert drained.admissions == map[];
    assert SlotHolders(drained.admissions) == {};
    forall b ensures ReservedOf(drained, b) == 0 && BudgetOf(ordered, b) == BudgetOf(drained, b) {
      NothingCosts(b, drained.nextId);
      assert BudgetOf(start, b) == BudgetOf(drained, b);
    }
    assert ReservedOf(ordered, RestBucket) == ReservedOf(ordered, AppBucket) == ReservedOf(ordered, GraphBucket) == 0;
    assert ReservedOf(drained, RestBucket) == ReservedOf(drained, AppBucket) == ReservedOf(drained, GraphBucket) == 0;
    assert BudgetOf(ordered, RestBucket) == BudgetOf(drained, RestBucket);
    assert BudgetOf(ordered, AppBucket) == BudgetOf(drained, AppBucket);
    assert BudgetOf(ordered, GraphBucket) == BudgetOf(drained, GraphBucket);
  }
}
