/** The retention window, and how the stored rows link up when no restart interrupts a rollback. */
module Linkage {
  import opened Uint64
  import opened Chain
  import opened PendingTable
  import opened BlockTable
  import opened Dao
  import opened BlockParser
  import opened ParserRuns

  // ---------------------------------------------------------------- retention window

  function WindowStart(w: World): nat {
    if w.start + RETAINED <= w.high then w.high - RETAINED else w.start
  }

  /** The stored numbers are exactly the window, and the cursor lies in it or just above it. */
  ghost predicate ExactWindow(w: World) {
    && (forall n: uint64 :: n in w.st.rows <==> WindowStart(w) <= n < w.high)
    && WindowStart(w) <= w.st.cur <= w.high
  }

  /** The round prunes if it stores a block. */
  predicate PruneSucceeds(w: World, step: Step) {
    match step
    case SubRound(fault) => !fault.PruneFails?
    case BatchRound(views, pruneFails) =>
      BatchLoop(w.st, views).0.cur == w.st.cur || (BatchLoop(w.st, views).1 && !pruneFails)
    case _ => true
  }

  predicate PrunesSucceed(w: World, steps: seq<Step>)
    decreases |steps|
  {
    steps == [] || (PruneSucceeds(w, steps[0]) && PrunesSucceed(Next(w, steps[0]), steps[1..]))
  }

  lemma ExactWindowAfterRound(w: World, fault: Fault)
    requires RETAINED - 1 <= w.start <= w.st.cur && (w.high == w.start || w.high <= MAX_BLOCKS)
    requires ExactWindow(w) && !fault.PruneFails?
    ensures ExactWindow(Next(w, SubRound(fault)))
  {
  }

  /** A batch stores the numbers it passes. */
  lemma {:induction false} BatchNumbers(s: ParserState, views: seq<View>)
    ensures var s' := BatchLoop(s, views).0;
      && s.cur <= s'.cur && (s'.cur == s.cur || s'.cur <= MAX_BLOCKS)
      && forall n: uint64 :: n in s'.rows <==> n in s.rows || s.cur <= n < s'.cur
    decreases |views|
  {
    hide ParseBlock, Interrupts;
    if views != [] { BatchNumbers(s, views[..|views| - 1]); }
  }

  /** Storing the numbers from the cursor on and then pruning keeps the window. */
  lemma WindowAfterStores(w: World, w': World, rows: BlockTable, pruned: bool)
    requires RETAINED - 1 <= w.start <= w.st.cur && ExactWindow(w)
    requires w'.start == w.start && w'.high == (if w.high < w'.st.cur then w'.st.cur else w.high)
    requires w.st.cur <= w'.st.cur && (w'.st.cur == w.st.cur || (pruned && w'.st.cur <= MAX_BLOCKS))
    requires forall n: uint64 :: n in rows <==> n in w.st.rows || w.st.cur <= n < w'.st.cur
    requires pruned ==> w.st.cur < w'.st.cur
    requires w'.st.rows == if pruned then Prune(rows, Sub(w'.st.cur, RETAINED)) else rows
    ensures ExactWindow(w')
  {
  }

  lemma ExactWindowAfterBatch(w: World, views: seq<View>, pruneFails: bool)
    requires Safe(w) && ExactWindow(w) && MeetsChain(w, views) && PruneSucceeds(w, BatchRound(views, pruneFails))
    ensures ExactWindow(Next(w, BatchRound(views, pruneFails)))
  {
    var (s', ok) := BatchLoop(w.st, views);
    var w' := Next(w, BatchRound(views, pruneFails));
    BatchNumbers(w.st, views);
    BatchActsAsRounds(w, views);
    assert w'.start == w.start && w'.high == (if w.high < w'.st.cur then w'.st.cur else w.high) && w'.st.cur == s'.cur;
    assert w'.st.rows == if ok && !pruneFails then Prune(s'.rows, Sub(s'.cur, RETAINED)) else s'.rows;
    hide *;
    WindowAfterStores(w, w', s'.rows, ok && !pruneFails);
  }

  lemma ExactWindowAfterStep(w: World, step: Step)
    requires w.start >= RETAINED - 1 ==> Safe(w) && ExactWindow(w)
    requires Legal(w, step, RETAINED) && PruneSucceeds(w, step)
    ensures Next(w, step).start >= RETAINED - 1 ==> ExactWindow(Next(w, step))
  {
    if w.start >= RETAINED - 1 {
      match step
      case SubRound(fault) => ExactWindowAfterRound(w, fault);
      case BatchRound(views, pruneFails) => ExactWindowAfterBatch(w, views, pruneFails);
      case Restart => if w.st.rows.Keys != {} { RestartFindsHigh(w); }
      case Reorg(_) =>
      case NewPending(_, _) =>
    }
  }

  lemma {:induction false} ExactWindowAfterRun(w: World, steps: seq<Step>)
    requires w.start >= RETAINED - 1 ==> Safe(w) && ExactWindow(w)
    requires LegalRun(w, steps, RETAINED) && PrunesSucceed(w, steps)
    ensures Exec(w, steps).start >= RETAINED - 1 ==> Safe(Exec(w, steps)) && ExactWindow(Exec(w, steps))
    decreases |steps|
  {
    hide ExactWindow, PruneSucceeds, Next, Legal, Safe;
    if steps != [] {
      SafeAfterStep(w, steps[0]);
      ExactWindowAfterStep(w, steps[0]);
      ExactWindowAfterRun(Next(w, steps[0]), steps[1..]);
    }
  }

  /** In every run from a fresh start at number 19 or above in which no prune fails:
      between rounds the stored numbers are exactly max(start, high - 20) up to
      high - 1, and the cursor lies in max(start, high - 20) up to high.  Once a
      block is stored, a restart puts the cursor at `high`. */
  lemma WindowIsExact(chain: Hash, config: uint64, tables: Tables, steps: seq<Step>)
    requires LegalRun(Begin(chain, config, tables), steps, RETAINED)
    requires PrunesSucceed(Begin(chain, config, tables), steps)
    ensures var w := Exec(Begin(chain, config, tables), steps);
      w.start >= RETAINED - 1 ==> ExactWindow(w) && (w.high > w.start ==> Next(w, Restart).st.cur == w.high)
  {
    ExactWindowAfterRun(Begin(chain, config, tables), steps);
    var w := Exec(Begin(chain, config, tables), steps);
    hide Exec, LegalRun, PrunesSucceed;
    if w.start >= RETAINED - 1 && w.high > w.start {
      assert w.high - 1 in w.st.rows;
      RestartFindsHigh(w);
    }
  }

  // ---------------------------------------------------------------- linkage

  /** The chain the parser has followed up to the cursor. */
  function Followed(w: World): Hash {
    if w.st.cur > 0 && w.st.cur - 1 in w.st.rows then w.st.rows[w.st.cur - 1].hash
    else if w.st.cur <= |w.chain| then w.chain[..w.st.cur]
    else w.chain
  }

  predicate OnFollowed(followed: Hash, n: nat, row: BlockRow) {
    n < |followed| && row.hash == BlockAt(followed, n) && row.parent == followed[..n]
  }

  /** Rows below the cursor lie on one chain, which agrees with the node's chain
      more than 20 blocks below the highest cursor. */
  predicate Linked(w: World) {
    && w.high <= w.st.cur + RETAINED
    && (w.start < w.st.cur ==> |Followed(w)| == w.st.cur)
    && (forall n :: n in w.st.rows && n < w.st.cur ==> OnFollowed(Followed(w), n, w.st.rows[n]))
    && (w.start + RETAINED < w.high ==> Agree(Followed(w), w.chain, w.high - RETAINED))
  }

  predicate Agree(a: Hash, b: Hash, k: nat) {
    k <= |a| && k <= |b| && a[..k] == b[..k]
  }

  /** The round handles a block, at least in part. */
  predicate Touches(w: World, step: Step) {
    match step
    case SubRound(fault) => PassesCheck(w.st, w.chain, fault)
    case BatchRound(views, _) => views != [] && Fetches(w.st, w.chain, views[0].fault)
    case _ => false
  }

  /** Has a block been handled, at least in part, since the cursor was last at `high`? */
  function Disturbed(w: World, step: Step, disturbed: bool): bool {
    Next(w, step).st.cur < Next(w, step).high && (disturbed || Touches(w, step))
  }

  /** Every restart finds the rows from the cursor up to `high` as they were when the
      cursor was last there: the parser may have rolled back since, but it has not
      handled a block again. */
  predicate SteadyRun(w: World, steps: seq<Step>, disturbed: bool)
    decreases |steps|
  {
    steps == []
    || ((steps[0].Restart? ==> !disturbed) && SteadyRun(Next(w, steps[0]), steps[1..], Disturbed(w, steps[0], disturbed)))
  }

  /** Every restart finds the cursor at most `lag` below `high`. */
  predicate LagRun(w: World, steps: seq<Step>, lag: nat)
    decreases |steps|
  {
    steps == []
    || ((steps[0].Restart? ==> w.high <= w.st.cur + lag) && LagRun(Next(w, steps[0]), steps[1..], lag))
  }

  /** Runs whose restarts find no rollback in progress are steady. */
  lemma {:induction false} NoLagIsSteady(w: World, steps: seq<Step>, disturbed: bool)
    requires LagRun(w, steps, 0) && (disturbed ==> w.st.cur < w.high)
    ensures SteadyRun(w, steps, disturbed)
    decreases |steps|
  {
    hide Next, Touches;
    if steps != [] { NoLagIsSteady(Next(w, steps[0]), steps[1..], Disturbed(w, steps[0], disturbed)); }
  }

  /** Below a cursor past the start, the followed chain is the parent of the next
      block that passes the fork check. */
  lemma FollowedIsParent(w: World, fault: Fault)
    requires Safe(w) && Linked(w) && PassesCheck(w.st, w.chain, fault) && w.start < w.st.cur
    ensures Followed(w) == Parent(BlockAt(w.chain, w.st.cur)) == w.chain[..w.st.cur]
  {
  }

  /** The round steps back over a row, and what that says about the rows below. */
  predicate StepsBack(w: World, w': World) {
    && w'.chain == w.chain && w'.start == w.start && w'.high == w.high && w'.st.rows == w.st.rows
    && w.start <= w'.st.cur == w.st.cur - 1 && w.st.cur - 1 in w.st.rows
    && w.high < w.st.cur + RETAINED
    && (w.start < w'.st.cur ==> w'.st.cur - 1 in w.st.rows || w'.st.cur + RETAINED == w.high)
    && (forall n :: n in w.st.rows ==> w.start <= n)
  }

  lemma RollbackStepsBack(w: World, fault: Fault)
    requires Safe(w) && Linked(w) && RollsBack(w.st, w.chain, fault)
    ensures StepsBack(w, Next(w, SubRound(fault)))
  {
    RowsInRange(w);
    hide ParentClosed, RowFits, ParseBlock;
    assert Parent(BlockAt(w.chain, w.st.cur)) == w.chain[..w.st.cur];
  }

  lemma FollowedAfterRollback(w: World, w': World)
    requires Linked(w) && StepsBack(w, w') && w.start < w'.st.cur
    ensures w'.st.cur < |Followed(w)| && Followed(w') == Followed(w)[..w'.st.cur]
  {
  }

  lemma LinkedAfterRollback(w: World, w': World)
    requires Linked(w) && StepsBack(w, w')
    ensures Linked(w')
  {
  }

  /** The row of block b is written at the cursor; other rows stay or are pruned. */
  lemma LinkedAfterStore(w: World, b: Hash, w': World)
    requires Linked(w) && w.start <= w.st.cur < |w.chain| && b == BlockAt(w.chain, w.st.cur)
    requires forall n :: n in w.st.rows ==> w.start <= n
    requires w.start < w.st.cur ==> Followed(w) == Parent(b)
    requires w'.chain == w.chain && w'.start == w.start
    requires w'.high == (if w.high < w'.st.cur then w'.st.cur else w.high) && w'.st.cur == w.st.cur + 1
    requires w.st.cur in w'.st.rows && w'.st.rows[w.st.cur] == BlockRow(b, Parent(b))
    requires forall n :: n in w'.st.rows && n != w.st.cur ==> n in w.st.rows && w'.st.rows[n] == w.st.rows[n]
    ensures Linked(w') && Followed(w') == b
  {
  }

  lemma LinkedIfUnmoved(w: World, w': World)
    requires Linked(w) && w'.st.cur == w.st.cur && w'.st.rows == w.st.rows
    requires w'.chain == w.chain && w'.start == w.start && w'.high == w.high
    ensures Linked(w') && Followed(w') == Followed(w)
  {
  }

  /** The bottom of the chain that a shallow reorganisation keeps. */
  lemma ShallowReorgAgrees(w: World, chain: Hash)
    requires Safe(w) && KeepsBelow(w, chain, RETAINED) && w.start + RETAINED < w.high
    ensures Agree(w.chain, chain, w.high - RETAINED)
  {
    assert HandledOnChain(w.chain, w.handled, w.high - RETAINED - 1);
  }

  /** When no row is stored below the cursor, the cursor is at the start of the window. */
  lemma NoRowMeansWindowStart(w: World)
    requires Safe(w) && Linked(w) && w.start < w.st.cur && w.st.cur - 1 !in w.st.rows
    ensures w.st.cur + RETAINED == w.high && w.start + RETAINED < w.high && Followed(w) == w.chain[..w.st.cur]
  {
    assert HandledOnChain(w.chain, w.handled, w.st.cur - 1);
    hide ParentClosed, RowFits, OnFollowed;
  }

  /** A shallow reorganisation leaves the followed chain alone. */
  lemma ReorgKeepsFollowed(w: World, chain: Hash)
    requires Safe(w) && Linked(w) && KeepsBelow(w, chain, RETAINED)
    ensures w.start < w.st.cur ==> Followed(w.(chain := chain)) == Followed(w)
    ensures w.start + RETAINED < w.high ==> Agree(Followed(w), chain, w.high - RETAINED)
    ensures w.st.cur == w.start ==> forall n :: n in w.st.rows ==> w.st.cur <= n
  {
    RowsInRange(w);
    assert w.start < w.st.cur ==> 0 < w.st.cur;
    hide Safe, Linked, Followed, Agree, KeepsBelow;
    LinkedAgrees(w);
    if w.start + RETAINED < w.high {
      ShallowReorgAgrees(w, chain);
      AgreeTwice(Followed(w), w.chain, chain, w.high - RETAINED);
    }
    if w.start < w.st.cur {
      if w.st.cur - 1 !in w.st.rows { NoRowMeansWindowStart(w); }
      FollowedOnSwitch(w, chain);
    }
  }

  lemma FollowedOnSwitch(w: World, chain: Hash)
    requires 0 < w.st.cur && (w.st.cur - 1 in w.st.rows || Agree(w.chain, chain, w.st.cur))
    ensures Followed(w.(chain := chain)) == Followed(w)
  {
  }

  lemma LinkedAgrees(w: World)
    requires Linked(w)
    ensures w.start + RETAINED < w.high ==> Agree(Followed(w), w.chain, w.high - RETAINED)
  {
    hide Followed, OnFollowed, Agree;
  }

  lemma AgreeTwice(a: Hash, b: Hash, c: Hash, k: nat)
    requires Agree(a, b, k) && Agree(b, c, k)
    ensures Agree(a, c, k) && b[..k] == c[..k]
  {
  }

  lemma LinkedAfterReorg(w: World, chain: Hash)
    requires Safe(w) && Linked(w) && KeepsBelow(w, chain, RETAINED)
    ensures Linked(w.(chain := chain))
  {
    ReorgKeepsFollowed(w, chain);
    hide Followed, OnFollowed, Agree, KeepsBelow;
  }

  lemma LinkedAfterRound(w: World, fault: Fault)
    requires Safe(w) && Linked(w)
    ensures Linked(Next(w, SubRound(fault)))
  {
    hide Linked, Followed, ParentClosed, ParseBlock;
    var w' := Next(w, SubRound(fault));
    if RollsBack(w.st, w.chain, fault) {
      RollbackStepsBack(w, fault);
      LinkedAfterRollback(w, w');
    } else if Stores(w.st, w.chain, fault) {
      if w.start < w.st.cur { FollowedIsParent(w, fault); }
      RowsInRange(w);
      LinkedAfterStore(w, BlockAt(w.chain, w.st.cur), w');
    } else {
      LinkedIfUnmoved(w, w');
    }
  }

  lemma {:induction false} LinkedAfterRounds(w: World, views: seq<View>)
    requires Safe(w) && Linked(w) && NotForked(w.st, w.chain) && forall v :: v in views ==> v.chain == w.chain
    ensures Linked(AsRounds(w, views))
    decreases |views|
  {
    hide Linked, Safe, Next, NotForked, BatchLoop;
    if views != [] {
      var front := views[..|views| - 1];
      LinkedAfterRounds(w, front);
      BatchActsAsRounds(w, front);
      LinkedAfterRound(AsRounds(w, front), RoundFault(AsRounds(w, front).st, views[|views| - 1]));
    }
  }

  lemma LinkedAfterPrune(w: World)
    requires Linked(w) && RETAINED <= w.st.cur
    ensures Linked(Pruned(w)) && Followed(Pruned(w)) == Followed(w)
  {
  }

  lemma LinkedAfterBatch(w: World, views: seq<View>, pruneFails: bool)
    requires Safe(w) && Linked(w) && MeetsChain(w, views)
    ensures Linked(Next(w, BatchRound(views, pruneFails)))
  {
    LinkedAfterRounds(w, views);
    BatchIsRounds(w, views, pruneFails);
    hide Next, Linked, AsRounds, BatchLoop, Pruned;
    if BatchLoop(w.st, views).1 && !pruneFails { LinkedAfterPrune(AsRounds(w, views)); }
  }

  /** The world with the cursor back at the highest number reached. */
  function AtHigh(w: World): World {
    if w.high < TWO_64 then w.(st := w.st.(cur := w.high)) else w
  }

  /** The rows are linked below the cursor and, as long as nothing below `high` has
      been handled again, also up to `high`. */
  predicate SteadyLinked(w: World, disturbed: bool) {
    Linked(w) && (!disturbed ==> Linked(AtHigh(w)))
  }

  lemma SafeAtHigh(w: World)
    requires Safe(w)
    ensures Safe(AtHigh(w)) && w.high < TWO_64
  {
    forall n | n in w.st.rows ensures RowFits(AtHigh(w), n) { assert RowFits(w, n); }
  }

  /** A round that handles nothing only moves the cursor. */
  lemma UntouchedOnlyMoves(w: World, step: Step)
    requires Safe(w) && (step.SubRound? || (step.BatchRound? && MeetsChain(w, step.views))) && !Touches(w, step)
    ensures Next(w, step) == w.(st := w.st.(cur := Next(w, step).st.cur)) && Next(w, step).st.cur <= w.st.cur
  {
    if step.BatchRound? {
      NoFirstFetch(w, step.views);
      assert step.views[0] in step.views;
    }
    hide ParentClosed, RowFits, BatchLoop, BatchHandled, ParseBlock;
  }

  lemma {:induction false} NoFirstFetch(w: World, views: seq<View>)
    requires views != [] && !Fetches(w.st, views[0].chain, views[0].fault)
    ensures BatchLoop(w.st, views) == (w.st, false) && BatchHandled(w.st, views) == {}
    decreases |views|
  {
    var front := views[..|views| - 1];
    if front == [] {
      assert views[|views| - 1] == views[0];
    } else {
      assert front[0] == views[0];
      NoFirstFetch(w, front);
    }
  }

  lemma LinkedAfterStep(w: World, step: Step, disturbed: bool)
    requires w.start >= RETAINED - 1 ==> Safe(w) && SteadyLinked(w, disturbed)
    requires Legal(w, step, RETAINED) && (step.Restart? ==> !disturbed)
    ensures Next(w, step).start >= RETAINED - 1 ==> Safe(Next(w, step)) && Linked(Next(w, step))
  {
    SafeAfterStep(w, step);
    if w.start >= RETAINED - 1 && !(step.Restart? && w.st.rows.Keys == {}) {
      match step
      case Reorg(chain) => LinkedAfterReorg(w, chain);
      case SubRound(fault) => LinkedAfterRound(w, fault);
      case BatchRound(views, pruneFails) => LinkedAfterBatch(w, views, pruneFails);
      case Restart =>
        RestartFindsHigh(w);
        SafeAtHigh(w);
        LinkedIfUnmoved(AtHigh(w), Next(w, step));
      case NewPending(_, _) => LinkedIfUnmoved(w, Next(w, step));
    }
  }

  /** What a step leaves of the world at the highest number, if it handles nothing below it. */
  lemma LinkedAtHighAfterStep(w: World, step: Step)
    requires Safe(w) && Linked(AtHigh(w)) && Legal(w, step, RETAINED) && !step.Restart? && !Touches(w, step)
    ensures Linked(AtHigh(Next(w, step)))
  {
    SafeAtHigh(w);
    match step
    case Reorg(chain) => LinkedAfterReorg(AtHigh(w), chain);
    case SubRound(_) => UntouchedOnlyMoves(w, step);
    case BatchRound(_, _) => UntouchedOnlyMoves(w, step);
    case NewPending(_, _) => LinkedIfUnmoved(AtHigh(w), AtHigh(Next(w, step)));
  }

  lemma SteadyLinkedAfterStep(w: World, step: Step, disturbed: bool)
    requires w.start >= RETAINED - 1 ==> Safe(w) && SteadyLinked(w, disturbed)
    requires Legal(w, step, RETAINED) && (step.Restart? ==> !disturbed)
    ensures Next(w, step).start >= RETAINED - 1 ==>
      Safe(Next(w, step)) && SteadyLinked(Next(w, step), Disturbed(w, step, disturbed))
  {
    hide Linked, Touches, Legal, ParentClosed, RowFits;
    LinkedAfterStep(w, step, disturbed);
    var w' := Next(w, step);
    if w'.start >= RETAINED - 1 {
      AtHighIsSelf(w');
      if w'.st.cur < w'.high && !disturbed && !Touches(w, step) {
        LowCursorNotRestarted(w, step);
        LinkedAtHighAfterStep(w, step);
      }
      hide Next, Safe, AtHigh;
    }
  }

  lemma AtHighIsSelf(w: World)
    requires Safe(w)
    ensures w.high <= w.st.cur ==> AtHigh(w) == w
  {
    hide ParentClosed, RowFits;
  }

  /** A restart leaves the cursor at the highest number. */
  lemma LowCursorNotRestarted(w: World, step: Step)
    requires w.start >= RETAINED - 1 ==> Safe(w)
    requires Next(w, step).start >= RETAINED - 1 && Next(w, step).st.cur < Next(w, step).high
    ensures !step.Restart? && w.start >= RETAINED - 1
  {
    if step.Restart? && w.st.rows.Keys != {} { RestartFindsHigh(w); }
  }

  lemma {:induction false} LinkedAfterRun(w: World, steps: seq<Step>, disturbed: bool)
    requires w.start >= RETAINED - 1 ==> Safe(w) && SteadyLinked(w, disturbed)
    requires LegalRun(w, steps, RETAINED) && SteadyRun(w, steps, disturbed)
    ensures Exec(w, steps).start >= RETAINED - 1 ==> Safe(Exec(w, steps)) && Linked(Exec(w, steps))
    decreases |steps|
  {
    if steps == [] {
      hide Linked;
    } else {
      hide Linked, SteadyLinked, Next, Safe, Legal, Disturbed;
      SteadyLinkedAfterStep(w, steps[0], disturbed);
      LinkedAfterRun(Next(w, steps[0]), steps[1..], Disturbed(w, steps[0], disturbed));
    }
  }

  /** Each stored row below the cursor names the row under it as its parent. */
  predicate RowsLink(w: World) {
    forall n: uint64, m: uint64 :: n in w.st.rows && m in w.st.rows && n == m + 1 && n < w.st.cur
      ==> w.st.rows[n].parent == w.st.rows[m].hash
  }

  lemma LinkedMeansRowsLink(w: World)
    requires Linked(w)
    ensures RowsLink(w)
  {
    forall n: uint64, m: uint64 | n in w.st.rows && m in w.st.rows && n == m + 1 && n < w.st.cur
      ensures w.st.rows[n].parent == w.st.rows[m].hash
    {
      assert OnFollowed(Followed(w), n, w.st.rows[n]) && OnFollowed(Followed(w), m, w.st.rows[m]);
    }
  }

  /** In every steady run from a fresh start at number 19 or above, each stored row
      below the cursor names the row under it as its parent. */
  lemma RowsAreLinked(chain: Hash, config: uint64, tables: Tables, steps: seq<Step>)
    requires LegalRun(Begin(chain, config, tables), steps, RETAINED) && SteadyRun(Begin(chain, config, tables), steps, false)
    ensures var w := Exec(Begin(chain, config, tables), steps);
      w.start >= RETAINED - 1 ==> RowsLink(w)
  {
    BeginIsLinked(chain, config, tables);
    LinkedAfterRun(Begin(chain, config, tables), steps, false);
    var w := Exec(Begin(chain, config, tables), steps);
    hide Exec, LegalRun, SteadyRun, Linked, RowsLink;
    if w.start >= RETAINED - 1 { LinkedMeansRowsLink(w); }
  }

  /** The invariants hold of a fresh start. */
  lemma BeginIsLinked(chain: Hash, config: uint64, tables: Tables)
    ensures var w := Begin(chain, config, tables);
      w.start >= RETAINED - 1 ==> Safe(w) && ExactWindow(w) && SteadyLinked(w, false)
  {
  }
}
