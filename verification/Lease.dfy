/**
 The installation lease: any number of runtimes, one stored lease row and one
 clock. Store calls take effect in the store at one step and are answered at a
 later one, or never; every interleaving of the steps below is a run.
 */
module Lease {
  import opened Results
  import opened Gate
  import GateRuns

  // One unguessable token per runtime.
  type Token = nat

  datatype Row = Row(owner: Option<Token>, until: Time)

  datatype Stage =
    | Fresh                 // has not asked for the lease
    | Granted(until: Time)  // the store granted it; the answer is on its way
    | Up(gate: Gate)        // a gate exists
    | Dead                  // gave up before a gate existed

  // Renewals the store granted and the runtime has not yet processed.
  datatype Runtime = Runtime(ttl: nat, stage: Stage, answers: set<Time>)

  datatype State = State(now: Time, row: Row, runtimes: map<Token, Runtime>)

  datatype Step =
    | Tick(elapsed: nat)
    | Acquire(token: Token)                                       // executed by the store
    | AcquireFails(token: Token)                                  // the answer never arrives
    | Open(token: Token, options: Settings, snapshot: Snapshot)   // the answer arrives
    | Renew(token: Token)                                         // executed by the store
    | RenewAnswered(token: Token, until: Time)
    | RenewLost(token: Token, until: Time)                        // a transport error
    | Lose(token: Token)      // refused renewal or save, watchdog, cancellation; Use steps abort what is live
    | Close(token: Token)     // stops admission and starts draining
    | Release(token: Token)   // the last act of a closed gate
    | Use(token: Token, op: GateRuns.Op)

  // ------------------------------------------------------------------ store

  function StoreAcquire(row: Row, now: Time, token: Token, ttl: nat): (Row, bool) {
    if row.owner.None? || row.until <= now || row.owner == Some(token) then (Row(Some(token), now + ttl), true)
    else (row, false)
  }

  function StoreRenew(row: Row, now: Time, token: Token, ttl: nat): (Row, bool) {
    if row.owner == Some(token) && row.until > now then (Row(Some(token), now + ttl), true) else (row, false)
  }

  function StoreRelease(row: Row, token: Token): Row {
    if row.owner == Some(token) then Row(None, 0) else row
  }

  // ------------------------------------------------------------------ steps

  // Traffic and observations; lease changes of a gate have steps of their own.
  predicate Traffic(now: Time, op: GateRuns.Op) {
    op.Done? || op.Observed? || op.Limited? || op.Cancelled? || (op.Try? && op.now == now)
  }

  predicate Enabled(s: State, step: Step) {
    match step
    case Tick(_) => true
    case Acquire(t) => t in s.runtimes && s.runtimes[t].stage.Fresh?
    case AcquireFails(t) => t in s.runtimes && s.runtimes[t].stage.Granted?
    case Open(t, _, _) => t in s.runtimes && s.runtimes[t].stage.Granted?
    case Renew(t) => t in s.runtimes && s.runtimes[t].stage.Up?
    case RenewAnswered(t, until) => t in s.runtimes && s.runtimes[t].stage.Up? && until in s.runtimes[t].answers
    case RenewLost(t, until) => t in s.runtimes && s.runtimes[t].stage.Up? && until in s.runtimes[t].answers
    case Lose(t) => t in s.runtimes && s.runtimes[t].stage.Up?
    case Close(t) => t in s.runtimes && s.runtimes[t].stage.Up?
    case Release(t) => t in s.runtimes && s.runtimes[t].stage.Up? && s.runtimes[t].stage.gate.unavailable.Some?
    case Use(t, op) => t in s.runtimes && s.runtimes[t].stage.Up? && Traffic(s.now, op)
  }

  function WithStage(s: State, t: Token, stage: Stage): State
    requires t in s.runtimes
  {
    s.(runtimes := s.runtimes[t := s.runtimes[t].(stage := stage)])
  }

  function Apply(s: State, step: Step): State
    requires Enabled(s, step)
  {
    match step
    case Tick(elapsed) => s.(now := s.now + elapsed)
    case Acquire(t) =>
      var (row, ok) := StoreAcquire(s.row, s.now, t, s.runtimes[t].ttl);
      WithStage(s.(row := row), t, if ok then Granted(s.now + s.runtimes[t].ttl) else Dead)
    case AcquireFails(t) => WithStage(s, t, Dead)
    case Open(t, options, snapshot) =>
      var until := s.runtimes[t].stage.until;
      if s.now < until then WithStage(s, t, Up(SetLeaseUntil(Restore(New(options), snapshot), until)))
      else WithStage(s.(row := StoreRelease(s.row, t)), t, Dead)
    case Renew(t) =>
      var r := s.runtimes[t];
      var (row, ok) := StoreRenew(s.row, s.now, t, r.ttl);
      s.(row := row, runtimes := s.runtimes[t := r.(answers := if ok then r.answers + {s.now + r.ttl} else r.answers)])
    case RenewAnswered(t, until) =>
      var r := s.runtimes[t];
      var gate := if s.now < until then SetLeaseUntil(r.stage.gate, until) else StopAdmission(r.stage.gate, LeaseLost);
      s.(runtimes := s.runtimes[t := r.(stage := Up(gate), answers := r.answers - {until})])
    case RenewLost(t, until) =>
      s.(runtimes := s.runtimes[t := s.runtimes[t].(answers := s.runtimes[t].answers - {until})])
    case Lose(t) => WithStage(s, t, Up(StopAdmission(s.runtimes[t].stage.gate, LeaseLost)))
    case Close(t) => WithStage(s, t, Up(StopAdmission(s.runtimes[t].stage.gate, Closed)))
    case Release(t) => s.(row := StoreRelease(s.row, t))
    case Use(t, op) => WithStage(s, t, Up(GateRuns.Step(s.runtimes[t].stage.gate, op)))
  }

  // The request is admitted by runtime t's gate at the current instant.
  predicate Admits(s: State, t: Token, op: GateRuns.Op) {
    && t in s.runtimes && s.runtimes[t].stage.Up? && op.Try? && op.now == s.now
    && TryAdmit(s.runtimes[t].stage.gate, op.now, op.class_, op.resource, op.auth, op.parent).1.Admitted?
  }

  // ------------------------------------------------------------- invariants

  // An expiry a runtime knows of is covered by the stored lease, or already past.
  predicate Backed(s: State, t: Token, until: Time) {
    until <= s.now || (s.row.owner == Some(t) && until <= s.row.until)
  }

  predicate RuntimeOk(s: State, t: Token)
    requires t in s.runtimes
  {
    var r := s.runtimes[t];
    && r.ttl > 0
    && (s.row.owner == Some(t) ==> !r.stage.Fresh? && s.row.until <= s.now + r.ttl)
    && (r.stage.Granted? ==> Backed(s, t, r.stage.until) && r.answers == {})
    && (r.stage.Fresh? ==> r.answers == {})
    && (r.stage.Up? && r.stage.gate.unavailable.None? ==>
          && r.stage.gate.leaseUntil > 0 && Backed(s, t, r.stage.gate.leaseUntil)
          && forall until | until in r.answers :: until > 0 && Backed(s, t, until))
  }

  predicate Inv(s: State) {
    && (s.row.owner.Some? ==> s.row.owner.value in s.runtimes)
    && (forall t | t in s.runtimes :: RuntimeOk(s, t))
  }

  // Before anyone has asked: no owner, all runtimes fresh.
  predicate Initial(s: State) {
    && s.row.owner.None?
    && forall t | t in s.runtimes :: s.runtimes[t].ttl > 0 && s.runtimes[t].stage.Fresh? && s.runtimes[t].answers == {}
  }

  lemma InitialInv(s: State)
    requires Initial(s)
    ensures Inv(s)
  {
  }

  // Gate operations other than lease steps never clear a failure or move the deadline.
  lemma TrafficKeepsLease(g: Gate, op: GateRuns.Op, now: Time)
    requires Traffic(now, op)
    ensures var next := GateRuns.Step(g, op);
            && next.leaseUntil == g.leaseUntil
            && (g.unavailable.Some? ==> next.unavailable == g.unavailable)
  {
    GateRuns.FinishThroughOnlyRemoves(g, g.nextId);
    hide Starved, FinishThrough;
  }

  // What each step does to the runtime that takes it.
  lemma OwnStepKeeps(s: State, step: Step)
    requires Inv(s) && Enabled(s, step) && !step.Tick?
    ensures step.token in Apply(s, step).runtimes && RuntimeOk(Apply(s, step), step.token)
  {
    hide GateRuns.Step, FinishThrough, New, Restore;
    var t := step.token;
    assert RuntimeOk(s, t);
    match step
    case Use(_, op) => TrafficKeepsLease(s.runtimes[t].stage.gate, op, s.now);
    case _ =>
  }

  // The row only changes hands when its lease has expired or its owner lets go.
  lemma OthersKeep(s: State, step: Step, t: Token)
    requires Inv(s) && Enabled(s, step) && !step.Tick? && t in s.runtimes && t != step.token
    ensures t in Apply(s, step).runtimes && RuntimeOk(Apply(s, step), t)
  {
    hide GateRuns.Step, FinishThrough, New, Restore;
    assert RuntimeOk(s, t);
  }

  lemma StepKeepsInv(s: State, step: Step)
    requires Inv(s) && Enabled(s, step)
    ensures Inv(Apply(s, step))
  {
    var s' := Apply(s, step);
    hide GateRuns.Step, FinishThrough, New, Restore;
    if !step.Tick? {
      forall t | t in s'.runtimes ensures RuntimeOk(s', t) {
        if t == step.token {
          OwnStepKeeps(s, step);
        } else {
          OthersKeep(s, step, t);
        }
      }
    } else {
      forall t | t in s'.runtimes ensures RuntimeOk(s', t) {
        assert RuntimeOk(s, t);
      }
    }
  }

  // --------------------------------------------------------- over every run

  predicate Runs(s: State, steps: seq<Step>, t: State)
    decreases |steps|
  {
    if steps == [] then s == t else Enabled(s, steps[0]) && Runs(Apply(s, steps[0]), steps[1..], t)
  }

  lemma {:induction false} RunsKeepInv(s: State, steps: seq<Step>, t: State)
    requires Inv(s) && Runs(s, steps, t)
    ensures Inv(t)
    decreases |steps|
  {
    hide Inv, Apply, Enabled;
    if steps == [] {
    } else {
      StepKeepsInv(s, steps[0]);
      RunsKeepInv(Apply(s, steps[0]), steps[1..], t);
    }
  }

  lemma AdmittedInTime(g: Gate, op: GateRuns.Op)
    requires op.Try? && TryAdmit(g, op.now, op.class_, op.resource, op.auth, op.parent).1.Admitted?
    ensures g.unavailable.None? && (g.leaseUntil == 0 || op.now < g.leaseUntil)
  {
  }

  /** A gate that admits owns the stored lease, and that lease has not expired. */
  lemma AdmissionOwnsLease(start: State, steps: seq<Step>, s: State, t: Token, op: GateRuns.Op)
    requires Initial(start) && Runs(start, steps, s) && Admits(s, t, op)
    ensures s.row.owner == Some(t) && s.now < s.row.until
  {
    hide Runs, TryAdmit;
    InitialInv(start);
    RunsKeepInv(start, steps, s);
    AdmittedInTime(s.runtimes[t].stage.gate, op);
    assert RuntimeOk(s, t);
  }

  /** So no two gates can admit in the same state. */
  lemma OneGateAdmits(start: State, steps: seq<Step>, s: State, t: Token, op: GateRuns.Op, t': Token, op': GateRuns.Op)
    requires Initial(start) && Runs(start, steps, s) && Admits(s, t, op) && Admits(s, t', op')
    ensures t == t'
  {
    hide Runs, TryAdmit;
    AdmissionOwnsLease(start, steps, s, t, op);
    AdmissionOwnsLease(start, steps, s, t', op');
  }

  // A runtime that has asked and does not own the row has lost it for good.
  predicate OutOfOffice(s: State, t: Token) {
    t in s.runtimes && !s.runtimes[t].stage.Fresh? && s.row.owner != Some(t)
  }

  lemma {:induction false} OutForever(s: State, steps: seq<Step>, s': State, t: Token)
    requires OutOfOffice(s, t) && Runs(s, steps, s')
    ensures OutOfOffice(s', t)
    decreases |steps|
  {
    hide GateRuns.Step, FinishThrough, New, Restore;
    if steps == [] {
    } else {
      OutForever(Apply(s, steps[0]), steps[1..], s', t);
    }
  }

  /** Once another gate has admitted, the earlier one never admits again: admissions come in one block per runtime. */
  lemma SuccessionIsFinal(start: State, a: seq<Step>, s: State, b: seq<Step>, s': State, c: seq<Step>, s'': State,
                          t: Token, op: GateRuns.Op, t': Token, op': GateRuns.Op, again: GateRuns.Op)
    requires Initial(start) && Runs(start, a, s) && Runs(s, b, s') && Runs(s', c, s'')
    requires Admits(s, t, op) && Admits(s', t', op') && t != t'
    ensures !Admits(s'', t, again)
  {
    hide Runs, TryAdmit;
    InitialInv(start);
    RunsKeepInv(start, a, s);
    RunsKeepInv(s, b, s');
    RunsKeepInv(s', c, s'');
    OwnerAdmits(s', t', op');
    UpStaysUp(s, b, s', t);
    OutForever(s', c, s'', t);
    if Admits(s'', t, again) {
      OwnerAdmits(s'', t, again);
    }
  }

  lemma OwnerAdmits(s: State, t: Token, op: GateRuns.Op)
    requires Inv(s) && Admits(s, t, op)
    ensures s.row.owner == Some(t) && s.now < s.row.until
  {
  }

  lemma {:induction false} UpStaysUp(s: State, steps: seq<Step>, s': State, t: Token)
    requires t in s.runtimes && s.runtimes[t].stage.Up? && Runs(s, steps, s')
    ensures t in s'.runtimes && s'.runtimes[t].stage.Up?
    ensures s.runtimes[t].stage.gate.unavailable.Some? ==>
              s'.runtimes[t].stage.gate.unavailable == s.runtimes[t].stage.gate.unavailable
    decreases |steps|
  {
    if steps == [] {
    } else {
      UpStepStaysUp(s, steps[0], t);
      hide Apply, Enabled;
      UpStaysUp(Apply(s, steps[0]), steps[1..], s', t);
    }
  }

  lemma UpStepStaysUp(s: State, step: Step, t: Token)
    requires t in s.runtimes && s.runtimes[t].stage.Up? && Enabled(s, step)
    ensures var s' := Apply(s, step);
            && t in s'.runtimes && s'.runtimes[t].stage.Up?
            && (s.runtimes[t].stage.gate.unavailable.Some? ==>
                  s'.runtimes[t].stage.gate.unavailable == s.runtimes[t].stage.gate.unavailable)
  {
    var g := s.runtimes[t].stage.gate;
    if step.Use? {
      TrafficKeepsLease(g, step.op, s.now);
    }
    hide GateRuns.Step, FinishThrough, New, Restore, CancelAdmissions;
  }

  /** A gate that has become unavailable never admits again, even if a later renewal is granted. */
  lemma UnavailableForever(s: State, steps: seq<Step>, s': State, t: Token, op: GateRuns.Op)
    requires t in s.runtimes && s.runtimes[t].stage.Up? && s.runtimes[t].stage.gate.unavailable.Some?
    requires Runs(s, steps, s')
    ensures !Admits(s', t, op)
  {
    hide Runs, TryAdmit;
    UpStaysUp(s, steps, s', t);
    if Admits(s', t, op) {
      AdmittedInTime(s'.runtimes[t].stage.gate, op);
    }
  }
}
