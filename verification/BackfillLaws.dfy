/** What the phases around the scan promise: what they record, and when the backfill is done. */
module BackfillLaws {
  import opened Results
  import opened PullCursor
  import opened Backfill
  import opened BackfillRuns

  // ------------------------------------------------------------- when it is done

  /** A delivery finishes the backfill if and only if it is the waiting phase's own job and no child is pending. */
  lemma DoneExactly(s: System, args: Args, report: Report)
    requires s.store.phase != Done
    ensures Apply(s, Deliver(args, report)).store.phase == Done <==>
            s.store.phase == Waiting && args == CursorArgs(s.store) && report.pending == 0
  {
    NarrowKeeps(1);
    hide Narrow, Encode, Decode, PullKeys, Unseen, At;
  }

  /** While children are pending the waiting job is put off: store, queue, returned jobs and history stay as they are. */
  lemma PendingPutsOff(s: System, report: Report)
    requires s.store.phase == Waiting && report.pending > 0
    ensures Work(s.store, CursorArgs(s.store), report) == (s.store, Snoozed)
    ensures Apply(s, Deliver(CursorArgs(s.store), report)) == s
  {
  }

  /** In every run that ends done, some delivery found the backfill waiting with no child pending. */
  lemma {:induction false} DoneWithNothingPending(s: System, actions: seq<Action>)
    requires s.store.phase != Done && Final(s, actions).store.phase == Done
    ensures exists i | 0 <= i < |actions| ::
              && actions[i].Deliver? && actions[i].report.pending == 0
              && Final(s, actions[..i]).store.phase == Waiting
    decreases |actions|
  {
    if actions == [] {
    } else {
      var a, rest := actions[0], actions[1..];
      var next := Apply(s, a);
      assert actions[..0] == [] && Final(s, []) == s;
      if a.Deliver? { DoneExactly(s, a.args, a.report); }
      hide Apply;
      if next.store.phase != Done {
        DoneWithNothingPending(next, rest);
        var i :| 0 <= i < |rest| && rest[i].Deliver? && rest[i].report.pending == 0 && Final(next, rest[..i]).store.phase == Waiting;
        assert actions[..i + 1][0] == a && actions[..i + 1][1..] == rest[..i];
        assert actions[i + 1] == rest[i] && Final(s, actions[..i + 1]) == Final(next, rest[..i]);
      } else {
        OnlyDeliveriesFinish(s, a);
        assert actions[0].Deliver?;
      }
    }
  }

  lemma OnlyDeliveriesFinish(s: System, a: Action)
    ensures s.store.phase != Done && Apply(s, a).store.phase == Done ==> a.Deliver?
  {
  }

  // ------------------------------------------------------------ the early phases

  // The cursor the next stacks page is stored under: the column narrows it.
  function NextStackPage(stacks: seq<Listing>): int {
    if stacks == [] then 1 else Narrow(stacks[|stacks| - 1].next as int)
  }

  // Pages follow one another from the first, and all but the last point on.
  predicate StacksChained(stacks: seq<Listing>) {
    && (forall i | 0 <= i < |stacks| :: stacks[i].page as int == NextStackPage(stacks[..i]))
    && (forall i | 0 <= i < |stacks| - 1 :: stacks[i].next != 0)
  }

  predicate StackKeysIn(stacks: seq<Listing>, children: set<Child>) {
    forall i | 0 <= i < |stacks| :: forall key <- stacks[i].keys :: Child(Stack, key) in children
  }

  predicate StacksEnded(stacks: seq<Listing>) {
    stacks != [] && stacks[|stacks| - 1].next == 0
  }

  predicate EarlyInv(s: System) {
    && StacksChained(s.stacks) && StackKeysIn(s.stacks, s.store.children)
    && (s.store.phase == Repository ==> s.stacks == [])
    && (s.store.phase != Repository ==> Child(RepoRules, RULES_KEY) in s.store.children)
    && (s.store.phase == Stacks ==> !StacksEnded(s.stacks) && s.store.page == NextStackPage(s.stacks))
    && (Rank(s.store.phase) > Rank(Stacks) ==> StacksEnded(s.stacks))
  }

  lemma StacksGrow(stacks: seq<Listing>, listing: Listing)
    requires StacksChained(stacks) && listing.page as int == NextStackPage(stacks) && !StacksEnded(stacks)
    ensures StacksChained(stacks + [listing])
  {
    var longer := stacks + [listing];
    assert stacks[..|stacks|] == stacks;
    forall i | 0 <= i < |longer|
      ensures longer[i].page as int == NextStackPage(longer[..i])
    {
      assert longer[..i] == stacks[..i];
    }
  }

  lemma StacksPageKeepsEarly(s: System, args: Args, report: Report)
    requires EarlyInv(s) && s.store.phase == Stacks && Work(s.store, args, report).1 == Advanced
    ensures EarlyInv(Apply(s, Deliver(args, report)))
  {
    NarrowKeeps(1);
    hide PlanPulls;
    var listing := Listing(s.store.page as int64, report.keys, report.next);
    StacksGrow(s.stacks, listing);
    var t := Apply(s, Deliver(args, report));
    assert t.stacks == s.stacks + [listing];
    assert t.store.children == s.store.children + ChildrenOf(Stack, report.keys);
    hide StacksChained, Narrow;
  }

  lemma StepKeepsEarly(s: System, a: Action)
    requires EarlyInv(s)
    ensures EarlyInv(Apply(s, a))
  {
    if a.Deliver? && s.store.phase == Stacks && Work(s.store, a.args, a.report).1 == Advanced {
      StacksPageKeepsEarly(s, a.args, a.report);
    } else {
      if a.Deliver? { WorkMovesForward(s.store, a.args, a.report); }
      NarrowKeeps(1);
      hide StacksChained, Narrow, PlanPulls, PullKeys, At;
    }
  }

  lemma {:induction false} RunKeepsEarly(s: System, actions: seq<Action>)
    requires EarlyInv(s)
    ensures EarlyInv(Final(s, actions))
    decreases |actions|
  {
    hide EarlyInv, Apply;
    if actions == [] {
    } else {
      StepKeepsEarly(s, actions[0]);
      RunKeepsEarly(Apply(s, actions[0]), actions[1..]);
    }
  }

  /** Once a run has left the first phases, the rules and every stack listed from page 1 to a page without
      successor are recorded children. */
  lemma EarlyPhasesRecord(actions: seq<Action>)
    ensures var s := Final(Start, actions);
            && (s.store.phase != Repository ==> Child(RepoRules, RULES_KEY) in s.store.children)
            && (s.store.phase !in {Repository, Stacks} ==>
                  && s.stacks != [] && s.stacks[0].page == 1 && s.stacks[|s.stacks| - 1].next == 0
                  && (forall i | 0 < i < |s.stacks| :: s.stacks[i].page as int == Narrow(s.stacks[i - 1].next as int)))
            && (forall i | 0 <= i < |s.stacks| :: forall key <- s.stacks[i].keys :: Child(Stack, key) in s.store.children)
  {
    hide Final, Narrow;
    RunKeepsEarly(Start, actions);
    var s := Final(Start, actions);
    if s.stacks != [] {
      assert s.stacks[..0] == [];
      assert s.stacks[0].page as int == NextStackPage(s.stacks[..0]);
    }
    forall i | 0 < i < |s.stacks|
      ensures s.stacks[i].page as int == Narrow(s.stacks[i - 1].next as int)
    {
      assert s.stacks[..i][i - 1] == s.stacks[i - 1];
    }
  }
}
