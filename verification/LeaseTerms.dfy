/** How long a lease lasts: the deadline of every gate, read off the steps its runtime took. */
module LeaseTerms {
  import opened Results
  import opened Gate
  import opened Lease
  import GateRuns
  import GateAnswers

  // One gate's term of office: the time, why it has been stopped if it has, and until when it may admit.
  datatype Term = Term(now: Time, stopped: Option<Failure>, deadline: Time)

  // The first reason to stop is the one that stays.
  function Stop(term: Term, failure: Failure): Term {
    if term.stopped.Some? then term else term.(stopped := Some(failure))
  }

  // A renewal answered in time moves the deadline; a late one, a loss, a close, or a request that
  // finds the deadline reached ends the term for good. Nothing another runtime does matters.
  function TermStep(t: Token, term: Term, step: Step): Term {
    match step
    case Tick(elapsed) => term.(now := term.now + elapsed)
    case RenewAnswered(token, until) =>
      if token != t || term.stopped.Some? then term
      else if term.now < until then term.(deadline := until)
      else Stop(term, LeaseLost)
    case Lose(token) => if token == t then Stop(term, LeaseLost) else term
    case Close(token) => if token == t then Stop(term, Closed) else term
    case Use(token, op) => if token == t && op.Try? && term.deadline <= term.now then Stop(term, LeaseLost) else term
    case _ => term
  }

  function TermAfter(t: Token, term: Term, steps: seq<Step>): Term
    decreases |steps|
  {
    if steps == [] then term else TermAfter(t, TermStep(t, term, steps[0]), steps[1..])
  }

  predicate InOffice(s: State, t: Token, term: Term) {
    && t in s.runtimes && s.runtimes[t].stage.Up? && s.now == term.now
    && s.runtimes[t].stage.gate.unavailable == term.stopped
    && (term.stopped.None? ==> s.runtimes[t].stage.gate.leaseUntil == term.deadline > 0)
  }

  // A gate that stays available changes only its deadline by lease steps.
  lemma UseEffect(g: Gate, op: GateRuns.Op, now: Time)
    requires Traffic(now, op)
    ensures var next := GateRuns.Step(g, op);
            && next.leaseUntil == g.leaseUntil
            && next.unavailable ==
               (if g.unavailable.None? && op.Try? && g.leaseUntil != 0 && g.leaseUntil <= now then Some(LeaseLost) else g.unavailable)
  {
    GateRuns.FinishThroughOnlyRemoves(g, g.nextId);
    hide Starved, FinishThrough;
  }

  lemma StepKeepsTerm(s: State, step: Step, t: Token, term: Term)
    requires Enabled(s, step) && InOffice(s, t, term)
    ensures InOffice(Apply(s, step), t, TermStep(t, term, step))
  {
    if step.Use? { UseEffect(s.runtimes[step.token].stage.gate, step.op, s.now); }
    hide GateRuns.Step, FinishThrough, New, Restore;
  }

  lemma {:induction false} TermIsHistory(s: State, steps: seq<Step>, s': State, t: Token, term: Term)
    requires Runs(s, steps, s') && InOffice(s, t, term)
    ensures InOffice(s', t, TermAfter(t, term, steps))
    decreases |steps|
  {
    hide Apply, Enabled, InOffice, TermStep;
    if steps == [] {
    } else {
      StepKeepsTerm(s, steps[0], t, term);
      TermIsHistory(Apply(s, steps[0]), steps[1..], s', t, TermStep(t, term, steps[0]));
    }
  }

  // What the gate answers the request at the current instant.
  function Answer(s: State, t: Token, op: GateRuns.Op): Decision
    requires op.Try? && t in s.runtimes && s.runtimes[t].stage.Up?
  {
    TryAdmit(s.runtimes[t].stage.gate, s.now, op.class_, op.resource, op.auth, op.parent).1
  }

  // The refusal a term calls for, if any.
  function Refusal(term: Term): Option<Failure> {
    if term.stopped.Some? then term.stopped else if term.deadline <= term.now then Some(LeaseLost) else None
  }

  lemma RefusesExactly(s: State, t: Token, term: Term, op: GateRuns.Op)
    requires InOffice(s, t, term) && op.Try?
    ensures forall failure :: Answer(s, t, op) == Refused(failure) <==> Refusal(term) == Some(failure)
  {
    hide Starved, Admit;
  }

  /** From the moment its grant is answered in time, and through every run of everybody's steps, a gate
      refuses a request with a reason if and only if its term, as its own runtime's steps tell it, has been
      stopped for that reason or has reached its deadline. */
  lemma RefusesExactlyAfterTerm(start: State, before: seq<Step>, s: State, t: Token, options: Settings, snapshot: Snapshot,
                                after: seq<Step>, s': State, op: GateRuns.Op, failure: Failure)
    requires Initial(start) && Runs(start, before, s) && Enabled(s, Open(t, options, snapshot))
    requires s.now < s.runtimes[t].stage.until && Runs(Apply(s, Open(t, options, snapshot)), after, s') && op.Try?
    ensures var term := TermAfter(t, Term(s.now, None, s.runtimes[t].stage.until), after);
            && t in s'.runtimes && s'.runtimes[t].stage.Up? && s'.now == term.now
            && (Answer(s', t, op) == Refused(failure) <==> Refusal(term) == Some(failure))
  {
    var first := Term(s.now, None, s.runtimes[t].stage.until);
    OpenStartsTerm(s, t, options, snapshot);
    hide Runs, TermAfter, Answer, Initial, Enabled, Apply, Refusal;
    TermIsHistory(Apply(s, Open(t, options, snapshot)), after, s', t, first);
    RefusesExactly(s', t, TermAfter(t, first, after), op);
  }

  /** A gate whose runtime took no step that loses or closes it and answered nothing late, and that was asked
      nothing at or after its deadline, is still available, and its deadline is the last renewal answered. */
  lemma {:induction false} PunctualTermGoesOn(t: Token, term: Term, steps: seq<Step>)
    requires term.stopped.None?
    ensures TermAfter(t, term, steps).stopped.None? <==> Punctual(t, term, steps)
    decreases |steps|
  {
    if steps == [] {
    } else {
      PunctualTermGoesOn(t, TermStep(t, term, steps[0]).(stopped := None), steps[1..]);
      StoppedStays(t, TermStep(t, term, steps[0]), steps[1..]);
    }
  }

  // No step of the list is one that ends the term.
  predicate Punctual(t: Token, term: Term, steps: seq<Step>)
    decreases |steps|
  {
    steps == [] ||
    (&& steps[0] != Lose(t) && steps[0] != Close(t)
     && (steps[0].RenewAnswered? && steps[0].token == t ==> term.now < steps[0].until)
     && (steps[0].Use? && steps[0].token == t && steps[0].op.Try? ==> term.now < term.deadline)
     && Punctual(t, TermStep(t, term, steps[0]).(stopped := None), steps[1..]))
  }

  lemma {:induction false} StoppedStays(t: Token, term: Term, steps: seq<Step>)
    ensures term.stopped.Some? ==> TermAfter(t, term, steps).stopped == term.stopped
    decreases |steps|
  {
    if steps == [] {
    } else {
      StoppedStays(t, TermStep(t, term, steps[0]), steps[1..]);
    }
  }

  lemma OpenStartsTerm(s: State, t: Token, options: Settings, snapshot: Snapshot)
    requires Enabled(s, Open(t, options, snapshot)) && s.now < s.runtimes[t].stage.until
    ensures InOffice(Apply(s, Open(t, options, snapshot)), t, Term(s.now, None, s.runtimes[t].stage.until))
  {
  }

  lemma NotRefused(decision: Decision)
    ensures (forall failure :: decision != Refused(failure)) ==> !decision.Refused?
  {
    if decision.Refused? { assert decision == Refused(decision.failure); }
  }

  // ---------------------------------------------------------------- takeover

  // Steps that are not the runtime's own.
  predicate NotOf(t: Token, steps: seq<Step>) {
    forall step <- steps :: step.Tick? || step.token != t
  }

  lemma {:induction false} OthersLeaveAlone(s: State, steps: seq<Step>, s': State, t: Token)
    requires t in s.runtimes && Runs(s, steps, s') && NotOf(t, steps)
    ensures t in s'.runtimes && s'.runtimes[t] == s.runtimes[t]
    decreases |steps|
  {
    if steps == [] {
    } else {
      hide GateRuns.Step, FinishThrough, New, Restore;
      OthersLeaveAlone(Apply(s, steps[0]), steps[1..], s', t);
    }
  }

  /** A runtime that asks is granted its time-to-live exactly when the row is unowned, expired or its own; a
      grant answered in time opens a gate that does not refuse, and one answered late gives the row back. */
  lemma TakeoverExactly(s: State, t: Token, others: seq<Step>, s': State, options: Settings, snapshot: Snapshot, op: GateRuns.Op)
    requires Enabled(s, Acquire(t)) && Runs(Apply(s, Acquire(t)), others, s') && NotOf(t, others) && op.Try?
    ensures var until := s.now + s.runtimes[t].ttl;
            var answer := Open(t, options, snapshot);
            if s.row.owner.None? || s.row.until <= s.now || s.row.owner == Some(t) then
              && Apply(s, Acquire(t)).row == Row(Some(t), until) && Enabled(s', answer)
              && (s'.now < until ==> InOffice(Apply(s', answer), t, Term(s'.now, None, until)) && !Answer(Apply(s', answer), t, op).Refused?)
              && (until <= s'.now ==>
                    && Apply(s', answer).runtimes[t].stage.Dead? && Apply(s', answer).row.owner != Some(t)
                    && (s'.row.owner != Some(t) ==> Apply(s', answer).row == s'.row))
            else Apply(s, Acquire(t)).row == s.row && !Enabled(s', answer)
  {
    var granted := Apply(s, Acquire(t));
    OthersLeaveAlone(granted, others, s', t);
    hide Runs;
    var until := s.now + s.runtimes[t].ttl;
    if s'.runtimes[t].stage.Granted? && s'.now < until {
      OpenStartsTerm(s', t, options, snapshot);
      hide Apply;
      RefusesExactly(Apply(s', Open(t, options, snapshot)), t, Term(s'.now, None, until), op);
      NotRefused(Answer(Apply(s', Open(t, options, snapshot)), t, op));
    }
  }

  // ----------------------------------------------------------------- renewal

  /** In every reachable state a gate inside its term can renew: the store grants its time-to-live from now,
      and when the answer arrives before that has passed, the gate's deadline is the new one. */
  lemma RenewalExtends(start: State, before: seq<Step>, s: State, t: Token, term: Term, others: seq<Step>, s': State)
    requires Initial(start) && Runs(start, before, s)
    requires InOffice(s, t, term) && term.stopped.None? && s.now < term.deadline
    requires Runs(Apply(s, Renew(t)), others, s') && NotOf(t, others) && s'.now < s.now + s.runtimes[t].ttl
    ensures var until := s.now + s.runtimes[t].ttl;
            && Apply(s, Renew(t)).row == Row(Some(t), until)
            && Enabled(s', RenewAnswered(t, until))
            && InOffice(Apply(s', RenewAnswered(t, until)), t, Term(s'.now, None, until))
  {
    InitialInv(start);
    RunsKeepInv(start, before, s);
    assert RuntimeOk(s, t);
    OthersLeaveAlone(Apply(s, Renew(t)), others, s', t);
    hide Runs;
  }

  /** A closed gate that lets go frees the row: the next runtime that asks is granted at once. */
  lemma ReleaseFreesTheRow(s: State, t: Token, next: Token)
    requires Enabled(s, Release(t)) && s.row.owner == Some(t) && next in s.runtimes && s.runtimes[next].stage.Fresh?
    ensures var freed := Apply(s, Release(t));
            && Enabled(freed, Acquire(next))
            && Apply(freed, Acquire(next)).row == Row(Some(next), s.now + s.runtimes[next].ttl)
            && Apply(freed, Acquire(next)).runtimes[next].stage == Granted(s.now + s.runtimes[next].ttl)
  {
  }

  /** A gate that takes over is bound by what its predecessor persisted: after any of its own operations, no
      request before its credential's persisted deadline is admitted. */
  lemma SuccessorKeepsBackoff(s: State, t: Token, options: Settings, snapshot: Snapshot, ops: seq<GateRuns.Op>, op: GateRuns.Op)
    requires Enabled(s, Open(t, options, snapshot)) && s.now < s.runtimes[t].stage.until && GateAnswers.Usable(snapshot)
    requires op.Try? && op.now < (if op.auth == AppJWT then snapshot.appBackoffUntil else snapshot.backoffUntil)
    ensures var opened_ := Apply(s, Open(t, options, snapshot)).runtimes[t].stage;
            && opened_.Up?
            && !TryAdmit(GateRuns.Run(opened_.gate, ops), op.now, op.class_, op.resource, op.auth, op.parent).1.Admitted?
  {
    var restored := Restore(New(options), snapshot);
    var gate := Apply(s, Open(t, options, snapshot)).runtimes[t].stage.gate;
    GateRuns.RestoreKeepsAccounts(options, snapshot);
    GateRuns.StepKeepsAccounts(restored, GateRuns.Leased(s.runtimes[t].stage.until));
    assert gate == GateRuns.Step(restored, GateRuns.Leased(s.runtimes[t].stage.until));
    hide GateRuns.Run, TryAdmit, Accounted;
    GateAnswers.NeverInsideBackoff(gate, ops, op.now, op.class_, op.resource, op.auth, op.parent,
                                   GateAnswers.StartBackoff(gate, op.auth));
  }
}
