/** The backfill handler's transactions on the stored rows, proved to be the plan. */
module LiveBackfill {
  import opened Results
  import opened PullCursor
  import opened Backfill

  class Handler {
    var phase: Phase
    var page: Page
    var children: set<Child>
    var jobs: set<Args>

    ghost function View(): Store
      reads this
    {
      Store(phase, page, children, jobs)
    }

    constructor ()
      ensures View() == Store(Repository, 1, {}, {Args(Repository, 1)})
    {
      phase, page, children, jobs := Repository, 1, {}, {Args(Repository, 1)};
    }

    // Keeps, in order, the listed keys whose refresh is not recorded.
    method UnseenKeys(keys: seq<Key>) returns (unseen: seq<Key>)
      ensures unseen == Unseen(keys, PullKeys(children))
    {
      hide PullKeys, Unseen;
      var seen := PullKeys(children);
      unseen := [];
      UnseenOfNone(seen);
      var i := 0;
      while i < |keys|
        invariant 0 <= i <= |keys|
        invariant unseen == Unseen(keys[..i], seen)
      {
        UnseenOneMore(keys, seen, i);
        if keys[i] !in seen { unseen := unseen + [keys[i]]; }
        i := i + 1;
      }
      assert keys[..i] == keys;
    }

    // Records the children, moves the cursor and queues its job; a page the row
    // does not accept rolls all of it back.
    method Commit(move: Move) returns (outcome: Outcome)
      modifies this
      ensures outcome == Failed || outcome == Advanced
      ensures outcome == Failed <==> Narrow(move.page) <= 0
      ensures outcome == Failed ==> View() == old(View())
      ensures outcome == Advanced ==>
                View() == Store(move.phase, Narrow(move.page), old(children) + move.added,
                                Insert(old(jobs), Args(move.phase, move.page)))
    {
      var stored := Narrow(move.page);
      if stored <= 0 { return Failed; }
      children := children + move.added;
      phase, page := move.phase, stored;
      if move.phase != Done { jobs := jobs + {Args(move.phase, move.page)}; }
      outcome := Advanced;
    }

    // One page of the repeated scan. The estimate is the decoder's square root.
    method AdvancePullRequests(args: Args, report: Report, estimate: int64) returns (outcome: Outcome)
      requires args.phase == PullRequests && 0 <= estimate <= 3_037_000_499
      modifies this
      ensures (View(), outcome) == Work(old(View()), args, report)
    {
      hide Encode, Decode, Narrow, Wrap;
      if phase != args.phase || page != args.page { return Stale; }
      var decoded := DecodeFrom(page as int64, estimate);
      if decoded.Err? { return Failed; }
      var c := decoded.value;
      var unseen := UnseenKeys(report.keys);
      var count := Wrap(c.count as int + |unseen|);
      var added := ChildrenOf(PullRequest, unseen);
      var next;
      if report.next != 0 {
        next := Encode(Cursor(report.next, count, c.alternate));
      } else if count > 0 {
        next := Encode(Cursor(1, 0, !c.alternate));
      } else {
        outcome := Commit(Move(Waiting, 1, added));
        return;
      }
      if next.Err? { return Failed; }
      outcome := Commit(Move(PullRequests, next.value as int, added));
    }

    // A page job of any phase.
    method BackfillRepoPage(args: Args, report: Report, estimate: int64) returns (outcome: Outcome)
      requires 0 <= estimate <= 3_037_000_499
      modifies this
      ensures (View(), outcome) == Work(old(View()), args, report)
    {
      if phase != args.phase || page != args.page || phase == Done { return Stale; }
      match args.phase {
        case Repository => outcome := Commit(Move(Stacks, 1, ChildrenOf(RepoRules, [RULES_KEY])));
        case Stacks =>
          var added := ChildrenOf(Stack, report.keys);
          if report.next != 0 { outcome := Commit(Move(Stacks, report.next as int, added)); }
          else { outcome := Commit(Move(PullRequests, 1, added)); }
        case PullRequests =>
          outcome := AdvancePullRequests(args, report, estimate);
        case Waiting =>
          if report.pending > 0 { return Snoozed; }
          outcome := Commit(Move(Done, 1, {}));
      }
    }
  }
}
