/**
 The repository backfill: a stored cursor moved by queued page jobs through
 metadata, stacks and repeated overlapping pull-request passes.

 A job is identified by its arguments and the queue holds at most one live job
 per identity, so inserting the arguments of a job that is still live adds
 nothing. Each handler transaction is one step.
 */
module Backfill {
  import opened Results
  import opened PullCursor

  type Key = string

  type Int32 = x: int | -0x8000_0000 <= x <= 0x7fff_ffff

  // What the column accepts: its table checks that pages are positive.
  type Page = x: int | 1 <= x <= 0x7fff_ffff witness 1

  datatype Phase = Repository | Stacks | PullRequests | Waiting | Done

  datatype Kind = RepoRules | Stack | PullRequest

  datatype Child = Child(kind: Kind, key: Key)

  datatype Args = Args(phase: Phase, page: int)

  datatype Store = Store(phase: Phase, page: Page, children: set<Child>, jobs: set<Args>)

  // What GitHub and the database told the handler: the listed keys, the next
  // API page (0 at the end) and how many children are unfinished.
  datatype Report = Report(keys: seq<Key>, next: int64, pending: nat)

  datatype Move = Move(phase: Phase, page: int, added: set<Child>)

  datatype Outcome = Stale | Snoozed | Failed | Advanced

  const RULES_KEY: Key := "repo_rules"

  // ---------------------------------------------------------- one transaction

  // The column is 32 bits wide.
  function Narrow(x: int): Int32 {
    var low := x % 0x1_0000_0000;
    if low <= 0x7fff_ffff then low else low - 0x1_0000_0000
  }

  function PullKeys(children: set<Child>): set<Key> {
    set child | child in children && child.kind == PullRequest :: child.key
  }

  function ChildrenOf(kind: Kind, keys: seq<Key>): set<Child> {
    set key | key in keys :: Child(kind, key)
  }

  // The listed keys that are not recorded yet, in order; repetitions stay.
  function Unseen(keys: seq<Key>, seen: set<Key>): seq<Key> {
    if keys == [] then []
    else (if keys[0] in seen then [] else [keys[0]]) + Unseen(keys[1..], seen)
  }

  // The cursor that carries the pass to its next API page.
  function NextCursor(c: Cursor, store: Store, report: Report): Cursor {
    Cursor(report.next, Wrap(c.count as int + |Unseen(report.keys, PullKeys(store.children))|), c.alternate)
  }

  function WriteCursor(c: Cursor, added: set<Child>): Option<Move> {
    match Encode(c)
    case Err => None
    case Ok(encoded) => Some(Move(PullRequests, encoded as int, added))
  }

  function PlanPulls(store: Store, report: Report): Option<Move> {
    match Decode(store.page)
    case Err => None
    case Ok(c) =>
      var added := ChildrenOf(PullRequest, Unseen(report.keys, PullKeys(store.children)));
      var next := NextCursor(c, store, report);
      if report.next != 0 then WriteCursor(next, added)
      else if next.count > 0 then WriteCursor(Cursor(1, 0, !c.alternate), added)
      else Some(Move(Waiting, 1, added))
  }

  function Plan(store: Store, report: Report): Option<Move> {
    match store.phase
    case Repository => Some(Move(Stacks, 1, ChildrenOf(RepoRules, [RULES_KEY])))
    case Stacks =>
      var added := ChildrenOf(Stack, report.keys);
      Some(if report.next != 0 then Move(Stacks, report.next as int, added) else Move(PullRequests, 1, added))
    case PullRequests => PlanPulls(store, report)
    case Waiting => Some(Move(Done, 1, {}))
    case Done => None
  }

  predicate IsStale(store: Store, args: Args) {
    store.phase != args.phase || store.page != args.page || store.phase == Done
  }

  function CursorArgs(store: Store): Args {
    Args(store.phase, store.page)
  }

  function Insert(jobs: set<Args>, next: Args): set<Args> {
    if next.phase == Done then jobs else jobs + {next}
  }

  // The row holds 32 bits and must be positive; an update that is not rolls
  // everything back. The queued job carries the page as it was computed.
  function Work(store: Store, args: Args, report: Report): (Store, Outcome) {
    if IsStale(store, args) then (store, Stale)
    else if store.phase == Waiting && report.pending > 0 then (store, Snoozed)
    else
      match Plan(store, report)
      case None => (store, Failed)
      case Some(move) =>
        if Narrow(move.page) <= 0 then (store, Failed)
        else
          (Store(move.phase, Narrow(move.page), store.children + move.added, Insert(store.jobs, Args(move.phase, move.page))),
           Advanced)
  }

  // ------------------------------------------------------- facts about a page

  lemma {:induction false} UnseenFilters(keys: seq<Key>, seen: set<Key>)
    ensures forall key :: key in Unseen(keys, seen) <==> key in keys && key !in seen
    ensures |Unseen(keys, seen)| <= |keys|
  {
    if keys == [] {
    } else {
      UnseenFilters(keys[1..], seen);
    }
  }

  lemma UnseenOfNone(seen: set<Key>)
    ensures Unseen([], seen) == []
  {
  }

  lemma {:induction false} UnseenOneMore(keys: seq<Key>, seen: set<Key>, i: nat)
    requires i < |keys|
    ensures Unseen(keys[..i + 1], seen) == Unseen(keys[..i], seen) + (if keys[i] in seen then [] else [keys[i]])
    decreases i
  {
    if i == 0 {
      assert keys[..1] == [keys[0]] && [keys[0]][1..] == [];
    } else {
      UnseenOneMore(keys[1..], seen, i - 1);
      assert keys[..i + 1][1..] == keys[1..][..i];
      assert keys[..i][1..] == keys[1..][..i - 1];
    }
  }

  lemma PullKeysGrow(children: set<Child>, kind: Kind, keys: seq<Key>)
    ensures PullKeys(children + ChildrenOf(kind, keys))
         == PullKeys(children) + (if kind == PullRequest then set key | key in keys else {})
  {
    var all := children + ChildrenOf(kind, keys);
    forall key | key in keys && kind == PullRequest
      ensures key in PullKeys(all)
    {
      assert Child(PullRequest, key) in all;
    }
    forall key | key in PullKeys(children)
      ensures key in PullKeys(all)
    {
      assert Child(PullRequest, key) in all;
    }
    forall key | key in PullKeys(all) && key !in PullKeys(children)
      ensures kind == PullRequest && key in keys
    {
      assert Child(PullRequest, key) in all;
    }
  }

  // The cursor a stored page stands for.
  function At(store: Store): (c: Cursor)
    ensures c.WellFormed()
  {
    Unpair(store.page)
  }

  // Every stored page decodes.
  lemma StoredDecodes(page: Page)
    ensures Decode(page) == Ok(Unpair(page)) && Encode(Unpair(page)) == Ok(page as int64)
  {
    DecodeThenEncode(page);
  }

  // A fitting cursor is written and read back as it is.
  lemma WriteThenRead(c: Cursor, added: set<Child>)
    requires Fits(c)
    ensures WriteCursor(c, added).Some?
    ensures var move := WriteCursor(c, added).value;
            && move.phase == PullRequests && move.added == added && 1 <= move.page <= MAX_INT32
            && Narrow(move.page) == move.page && Unpair(move.page) == c
  {
    hide Encode, Unpair, Exact;
    EncodeIsExact(c);
    UnpairExact(c);
    NarrowKeeps(Encode(c).value as int);
  }

  lemma NarrowKeeps(x: int)
    ensures -0x8000_0000 <= x <= 0x7fff_ffff <==> Narrow(x) == x
  {
  }

  lemma RestartFits(alternate: bool)
    ensures Fits(Cursor(1, 0, alternate))
  {
    AlwaysFits(Cursor(1, 0, alternate));
  }

  // The first cursor of a pass is 1 or 2, after its bit.
  lemma FirstPage(alternate: bool)
    ensures var page := if alternate then 2 else 1;
            Encode(Cursor(1, 0, alternate)) == Ok(page as int64) && Unpair(page) == Cursor(1, 0, alternate)
  {
    var c := Cursor(1, 0, alternate);
    RestartFits(alternate);
    assert Exact(c) == if alternate then 2 else 1;
    hide Encode, Unpair, Exact;
    EncodeIsExact(c);
    UnpairExact(c);
  }

  // The arithmetic of a page does not leave the column's range unnoticed: the
  // next cursor is refused by encoder or column, or it fits.
  predicate Faithful(store: Store, report: Report) {
    store.phase == PullRequests ==>
      && At(store).count as int + |Unseen(report.keys, PullKeys(store.children))| <= MAX_INT64
      && (report.next != 0 ==> Placeable(NextCursor(At(store), store, report)))
  }

  predicate Placeable(next: Cursor) {
    Encode(next).Ok? && Narrow(Encode(next).value as int) > 0 ==> Fits(next)
  }

  /** A page that leads to another one fails without a trace or stores the next
      cursor exactly, if and only if that cursor is placeable. */
  lemma PlaceableExactly(store: Store, report: Report)
    requires store.phase == PullRequests && report.next != 0
    ensures var next := NextCursor(At(store), store, report);
            var (after, outcome) := Work(store, CursorArgs(store), report);
            Placeable(next) <==> (outcome == Failed && after == store) || (outcome == Advanced && At(after) == next)
  {
    hide Encode, Decode, Exact, Narrow, Unpair, Wrap;
    StoredDecodes(store.page);
    var next := NextCursor(At(store), store, report);
    var after := Work(store, CursorArgs(store), report).0;
    ExactUnpair(after.page);
    if Fits(next) {
      WriteThenRead(next, ChildrenOf(PullRequest, Unseen(report.keys, PullKeys(store.children))));
    }
  }

  // Every page number GitHub could index with 32 bits, and every listing of
  // fewer than 2^28 keys, is faithful; larger page numbers need not be.
  lemma OrdinaryPagesAreFaithful(store: Store, report: Report)
    requires report.next as int <= MAX_INT32 && |report.keys| < 0x1000_0000
    ensures Faithful(store, report)
  {
    hide Encode, Narrow, Fits;
    UnseenFilters(report.keys, PullKeys(store.children));
    SmallCount(store.page);
    var next := NextCursor(At(store), store, report);
    if next.WellFormed() { SmallDiagonal(next); }
    AcceptsExactlyWhatFits(next);
  }

  lemma SmallCount(page: Page)
    ensures 0 <= Unpair(page).count <= 46340
  {
    hide Tri;
    DiagonalSmall((page - 1) / 2);
  }

  lemma SmallDiagonal(c: Cursor)
    requires c.WellFormed() && c.page as int <= MAX_INT32 && c.count as int <= 0x1000_0000 + 46340
    ensures Exact(c) <= MAX_INT64
  {
    var d := c.page as int - 1 + c.count as int;
    TriDoubles(d);
    MulBound(d, 0xa000_0000);
  }

  /** A page number past the overflow that wraps to a positive value: the scan
      advances, the row stands for another page of another pass, and the job
      queued for it does not match the row. */
  lemma HugePageIsMisplaced(store: Store, report: Report)
    requires store.phase == PullRequests && store.page == 1 && CursorArgs(store) in store.jobs
    requires report.next == 3_037_000_502 && report.keys == []
    ensures !Faithful(store, report)
    ensures var (after, outcome) := Work(store, CursorArgs(store), report);
            && outcome == Advanced && after.page == 666_541_103 && At(after) == Cursor(1102, 24715, false)
            && (CursorArgs(after) in after.jobs ==> CursorArgs(after) in store.jobs)
  {
    hide Encode, Decode, Narrow, Exact, Unpair, Fits, Wrap;
    FirstPage(false);
    StoredDecodes(1);
    HugeCursor(store, report);
    HugePageWraps();
    MisplacedCursor();
    PlaceableExactly(store, report);
    assert WriteCursor(Cursor(3_037_000_502, 0, false), {}).Some?;
  }

  /** The page before it wraps to a negative value, which the column refuses. */
  lemma HugePageIsRefused(store: Store, report: Report)
    requires store.phase == PullRequests && store.page == 1
    requires report.next == 3_037_000_501 && report.keys == []
    ensures Work(store, CursorArgs(store), report) == (store, Failed)
  {
    hide Encode, Decode, Narrow, Exact, Unpair, Fits, Wrap;
    FirstPage(false);
    StoredDecodes(1);
    HugeCursor(store, report);
    OverflowIsAccepted();
    NegativeNarrow();
  }

  lemma NegativeNarrow()
    ensures Narrow(-9_223_372_033_672_301_115) == -1_112_492_603
    ensures Narrow(-9_223_372_027_598_300_113) == 666_541_103
  {
  }

  lemma HugePageWraps()
    ensures Encode(Cursor(3_037_000_502, 0, false)) == Ok(-9_223_372_027_598_300_113)
    ensures Narrow(-9_223_372_027_598_300_113) == 666_541_103
  {
    var d := Wrap(3_037_000_501);
    assert 3_037_000_501 * 3_037_000_502 == 9_223_372_046_111_251_502;
    assert 9_223_372_046_111_251_502 % 0x1_0000_0000_0000_0000 == 9_223_372_046_111_251_502;
    assert Wrap(9_223_372_046_111_251_502) == -9_223_372_027_598_300_114;
    NegativeNarrow();
  }

  lemma MisplacedCursor()
    ensures Unpair(666_541_103) == Cursor(1102, 24715, false)
  {
    var c := Cursor(1102, 24715, false);
    var d: nat := c.page as int - 1 + c.count as int;
    TriDoubles(d);
    assert Exact(c) == 666_541_103;
    hide Unpair, Exact;
    UnpairExact(c);
  }

  lemma HugeCursor(store: Store, report: Report)
    requires report.keys == []
    ensures NextCursor(Cursor(1, 0, false), store, report) == Cursor(report.next, 0, false)
  {
  }
}
