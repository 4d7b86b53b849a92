/** Runs that show that each hypothesis of the parser's theorems is needed. */
module Necessity {
  import opened Wrappers
  import opened Uint64
  import opened Chain
  import opened PendingTable
  import opened BlockTable
  import opened Dao
  import opened BlockParser
  import opened BatchRefinement
  import opened Handling
  import opened ParserRuns
  import opened Linkage
  import opened Convergence
  import opened Confirmations
  import opened Reachability

  /** n bodies without transactions, told apart from others by their tag. */
  function Flat(tag: nat, n: nat): (h: Hash)
    requires n <= MAX_BLOCKS
    ensures |h| == n
  {
    seq(n, _ => Body([], 0, tag))
  }

  /** A chain of exactly s blocks that begins as the given one. */
  function Base(chain: Hash, s: nat): (h: Hash)
    requires s <= MAX_BLOCKS
    ensures |h| == s
  {
    if s <= |chain| then chain[..s] else chain + Flat(0, s - |chain|)
  }

  lemma BaseKeeps(chain: Hash, s: nat, k: nat)
    requires k <= s <= MAX_BLOCKS && k <= |chain|
    ensures Base(chain, s)[..k] == chain[..k]
  {
  }

  /** A chain above the base, of n further blocks with the given tag. */
  function Above(base: Hash, tag: nat, n: nat): (h: Hash)
    requires |base| + n <= MAX_BLOCKS
    ensures |h| == |base| + n
  {
    base + Flat(tag, n)
  }

  lemma AboveDiffer(base: Hash, n: nat, m: nat)
    requires |base| + n <= MAX_BLOCKS && |base| + m <= MAX_BLOCKS && 0 < n && 0 < m
    ensures BlockAt(Above(base, 1, n), |base|) != BlockAt(Above(base, 2, m), |base|)
    ensures Above(base, 1, n)[..|base|] == base == Above(base, 2, m)[..|base|]
  {
    assert BlockAt(Above(base, 1, n), |base|)[|base|] != BlockAt(Above(base, 2, m), |base|)[|base|];
  }

  /** Reorganisations between chains with the same base reach no deeper than it. */
  lemma SameBaseIsLegal(w: World, chain: Hash, base: Hash, depth: nat)
    requires w.high <= |base| + depth && |base| <= |chain| && chain[..|base|] == base
    requires (|base| <= |w.chain| && w.chain[..|base|] == base) || base == Base(w.chain, |base|)
    ensures KeepsBelow(w, chain, depth)
  {
    var k := Fixed(w, depth);
    assert chain[..k] == chain[..|base|][..k];
    if |base| <= |w.chain| && w.chain[..|base|] == base {
      assert w.chain[..k] == w.chain[..|base|][..k];
    } else {
      BaseKeeps(w.chain, |base|, k);
    }
  }

  lemma ReorgIsWithin(w: World, chain: Hash, limits: Limits)
    requires KeepsBelow(w, chain, limits.depth) && (limits.once ==> TxOnce(chain))
    ensures Within(w, Reorg(chain), limits)
  {
  }

  lemma BeginIs(chain: Hash, config: uint64, tables: Tables)
    ensures var w := Begin(chain, config, tables);
      && w.chain == chain && w.start == w.high == w.st.cur < TWO_64 && w.st.rows == map[] && w.st.tables == tables
      && w.handled == {} && w.seen == {}
  {
  }

  lemma NextReorg(w: World, chain: Hash)
    ensures Next(w, Reorg(chain)) == w.(chain := chain)
  {
  }

  // ---------------------------------------------------------------- start number

  /** While the cursor is below 20 the bound of the prune wraps and the table is
      emptied, so a reorganisation goes unnoticed. */
  lemma LowStartSkips(w: World, limits: Limits)
    requires w.start == w.high == w.st.cur < RETAINED - 1 && w.st.rows == map[] && w.handled == {}
    requires limits.depth == RETAINED && !limits.once
    ensures exists v :: Reaches(w, v, limits) && v.start == w.start && !AncestorsHandled(v)
  {
    var s := w.start;
    var a, b: Hash := Flat(1, s + 1), Flat(2, s + 2);
    var w1 := w.(chain := a);
    var w2 := LowRound(w1, {}, s);
    var w3 := w2.(chain := b);
    var w4 := LowRound(w3, {a}, s + 1);
    assert BlockAt(b, s)[0] != a[0] && |BlockAt(b, s)| != |b| && BlockAt(b, s) !in w4.handled;
    assert !AncestorsHandled(w4);
    ReachesSelf(w, limits);
    NextReorg(w, a);
    NextReorg(w2, b);
    hide Next, Reaches, AncestorsHandled;
    ReachesNext(w, w, Reorg(a), limits);
    ReachesNext(w, w1, QUIET, limits);
    ReachesNext(w, w2, Reorg(b), limits);
    ReachesNext(w, w3, QUIET, limits);
  }

  /** A round below number 20 on a chain that ends with its block leaves the table empty. */
  lemma LowRound(w: World, handled: set<Hash>, s: nat) returns (v: World)
    requires w.st.rows == map[] && w.handled == handled && w.st.cur == s == w.high < RETAINED && |w.chain| == s + 1
    ensures v == Next(w, QUIET)
    ensures v.st.cur == s + 1 == v.high && v.handled == handled + {w.chain} && v.start == w.start
    ensures s + 1 < RETAINED ==> v.st.rows == map[]
  {
    v := Next(w, QUIET);
    assert BlockAt(w.chain, s) == w.chain;
    assert Handles(w.st, w.chain, NoFault) && Stores(w.st, w.chain, NoFault);
  }

  /** All ancestors of handled blocks are handled in every run of an epoch exactly
      when the epoch starts at number 19 or above. */
  lemma StartBoundIsExact(chain: Hash, config: uint64, tables: Tables)
    ensures var w := Begin(chain, config, tables);
      (forall steps :: LegalRun(w, steps, RETAINED) && Exec(w, steps).start == w.start ==> AncestorsHandled(Exec(w, steps)))
      <==> RETAINED - 1 <= w.start
  {
    var w := Begin(chain, config, tables);
    if RETAINED - 1 <= w.start {
      forall steps | LegalRun(w, steps, RETAINED) && Exec(w, steps).start == w.start
        ensures AncestorsHandled(Exec(w, steps))
      {
        NoBlockSkipped(chain, config, tables, steps);
      }
    } else {
      var limits := Limits(RETAINED, 0, false);
      LowStartSkips(w, limits);
      var v :| Reaches(w, v, limits) && v.start == w.start && !AncestorsHandled(v);
      var steps := SomeRun(w, v, limits);
    }
  }

  // ---------------------------------------------------------------- reorganisation depth

  lemma {:induction false} ShallowerIsLegal(w: World, steps: seq<Step>, depth: nat, deeper: nat)
    requires depth <= deeper && LegalRun(w, steps, depth)
    ensures LegalRun(w, steps, deeper)
    decreases |steps|
  {
    hide Next, MeetsChain;
    if steps != [] {
      if steps[0].Reorg? {
        var k, j := Fixed(w, depth), Fixed(w, deeper);
        assert steps[0].chain[..k][..j] == steps[0].chain[..j] && w.chain[..k][..j] == w.chain[..j];
      }
      ShallowerIsLegal(Next(w, steps[0]), steps[1..], depth, deeper);
    }
  }

  /** A reorganisation that replaces number `high` - 21 makes the parser handle a
      block whose parent it never handles: the row that would show it is pruned. */
  lemma DeepReorgSkips(w: World, limits: Limits)
    requires Safe(w) && ExactWindow(w) && w.start == w.high == w.st.cur && w.st.rows == map[] && w.handled == {}
    requires w.start + RETAINED + 2 <= MAX_BLOCKS && RETAINED < limits.depth && !limits.once
    ensures exists v :: Reaches(w, v, limits) && v.start == w.start && !AncestorsHandled(v)
  {
    assert RETAINED - 1 <= w.start;
    hide *;
    var s := w.start;
    var base := Base(w.chain, s);
    var a, b := Above(base, 1, RETAINED + 1), Above(base, 2, RETAINED + 2);
    AboveDiffer(base, RETAINED + 1, RETAINED + 2);
    SameBaseIsLegal(w, a, base, RETAINED);
    SameBaseIsLegal(w, a, base, limits.depth);
    var w2 := ReachesFirstChain(w, a, limits);
    SameBaseIsLegal(w2, b, base, limits.depth);
    var w4 := ReachesSecondChain(w, w2, a, b, s, limits);
  }

  /** The world in which the first chain has been followed. */
  lemma ReachesFirstChain(w: World, a: Hash, limits: Limits) returns (w2: World)
    requires Safe(w) && ExactWindow(w) && w.start == w.high == w.st.cur && w.st.rows == map[] && w.handled == {}
    requires |a| == w.start + RETAINED + 1 && KeepsBelow(w, a, RETAINED) && KeepsBelow(w, a, limits.depth) && !limits.once
    ensures Reaches(w, w2, limits)
    ensures var s := w.start;
      && w2.st.cur == w2.high == s + RETAINED + 1 && w2.start == s && w2.chain == a
      && w2.handled == BlocksBetween(a, s, s + RETAINED + 1) && forall n :: n in w2.st.rows ==> s + 1 <= n
  {
    hide *;
    var s, w1 := w.start, w.(chain := a);
    NextReorg(w, a);
    SafeOnNewChain(w, a);
    ReachesSelf(w, limits);
    ReorgIsWithin(w, a, limits);
    ReachesNext(w, w, Reorg(a), limits);
    w2 := FollowsFirst(w1, s);
    SettleReaches(w, w1, s + RETAINED + 1, RETAINED + 1, limits);
  }

  lemma ReachesSecondChain(w: World, w2: World, a: Hash, b: Hash, s: nat, limits: Limits) returns (w4: World)
    requires Reaches(w, w2, limits) && KeepsBelow(w2, b, limits.depth) && !limits.once
    requires RETAINED - 1 <= s && w2.st.cur == w2.high == s + RETAINED + 1 && w2.start == s && |a| == s + RETAINED + 1
    requires w2.handled == BlocksBetween(a, s, s + RETAINED + 1) && forall n :: n in w2.st.rows ==> s + 1 <= n
    requires |b| == s + RETAINED + 2 && BlockAt(b, s) != BlockAt(a, s)
    ensures Reaches(w, w4, limits) && w4.start == s && !AncestorsHandled(w4)
  {
    hide *;
    var w3 := w2.(chain := b);
    NextReorg(w2, b);
    ReorgIsWithin(w2, b, limits);
    ReachesNext(w, w2, Reorg(b), limits);
    var v, n := MissesParent(w3, a, s);
    w4 := v;
    SettleReaches(w, w3, s + RETAINED + 2, n, limits);
  }

  lemma SafeOnNewChain(w: World, chain: Hash)
    requires Safe(w) && ExactWindow(w) && KeepsBelow(w, chain, RETAINED)
    ensures Safe(w.(chain := chain)) && ExactWindow(w.(chain := chain))
  {
    SafeAfterReorg(w, chain);
    NextReorg(w, chain);
    hide Next, ParentClosed, RowFits, KeepsBelow;
  }

  /** The parser follows the first chain for 21 blocks; the row of the first is pruned. */
  lemma FollowsFirst(w1: World, s: nat) returns (w2: World)
    requires Safe(w1) && ExactWindow(w1) && w1.start == w1.high == w1.st.cur == s && w1.st.rows == map[] && w1.handled == {}
    requires |w1.chain| == s + RETAINED + 1
    ensures w2 == Settle(w1, s + RETAINED + 1, RETAINED + 1)
    ensures w2.st.cur == w2.high == s + RETAINED + 1 && w2.start == s && w2.chain == w1.chain
    ensures w2.handled == BlocksBetween(w1.chain, s, s + RETAINED + 1)
    ensures forall n :: n in w2.st.rows ==> s + 1 <= n
  {
    assert RETAINED - 1 <= s;
    hide *;
    var t := s + RETAINED + 1;
    w2 := Settle(w1, t, RETAINED + 1);
    NothingStored(w1);
    SettleForward(w1, t, RETAINED + 1, s);
    SettleKeepsWindow(w1, t, RETAINED + 1);
    ReachedMeans(w1, w2, s);
    WindowPassedStart(w2);
  }

  lemma NothingStored(w: World)
    requires w.st.rows == map[]
    ensures !OffChain(w) && CanonicalFrom(w, w.st.cur)
  {
  }

  lemma ReachedMeans(w: World, v: World, base: nat)
    requires Reached(w, v, base) && w.handled == {} && w.high <= v.st.cur
    ensures v.chain == w.chain && v.start == w.start && v.high == v.st.cur
    ensures v.handled == BlocksBetween(w.chain, w.st.cur, v.st.cur)
  {
    hide OffChain, CanonicalFrom, BlocksBetween;
  }

  lemma WindowPassedStart(w: World)
    requires ExactWindow(w) && w.start + RETAINED < w.high
    ensures forall n :: n in w.st.rows ==> w.start + 1 <= n
  {
  }

  /** On the second chain the rollback stops above the block that was replaced. */
  lemma MissesParent(w3: World, a: Hash, s: nat) returns (w4: World, n: nat)
    requires RETAINED - 1 <= s && w3.st.cur == w3.high == s + RETAINED + 1 && w3.start == s
    requires |a| == s + RETAINED + 1 && w3.handled == BlocksBetween(a, s, s + RETAINED + 1)
    requires forall n :: n in w3.st.rows ==> s + 1 <= n
    requires |w3.chain| == s + RETAINED + 2 && BlockAt(w3.chain, s) != BlockAt(a, s)
    ensures w4 == Settle(w3, s + RETAINED + 2, n)
    ensures w4.start == s && !AncestorsHandled(w4)
  {
    hide Settle, Rollbacks, OffChain, CanonicalFrom;
    RollbacksBounded(w3, s + 1);
    var r, t := Rollbacks(w3), s + RETAINED + 2;
    var low := w3.st.cur - r;
    n := r + 1;
    w4 := Settle(w3, t, n);
    Settled(w3, t, n);
    SkipsBlock(w3.chain, a, s, low, w4);
  }

  lemma SkipsBlock(b: Hash, a: Hash, s: nat, low: nat, w: World)
    requires s < |a| && s < low < |b| && BlockAt(b, s) != BlockAt(a, s) && w.start == s
    requires w.handled == BlocksBetween(a, s, |a|) + BlocksBetween(b, low, low + 1)
    ensures !AncestorsHandled(w)
  {
    assert BlockAt(b, low) in BlocksBetween(b, low, low + 1);
    assert BlockAt(BlockAt(b, low), s) == BlockAt(b, s);
    assert BlockAt(b, s) !in BlocksBetween(a, s, |a|);
  }

  /** With a start number of at least 19, no block is skipped in any run exactly
      when reorganisations replace nothing more than 20 below the highest cursor. */
  lemma ReorgDepthIsExact(chain: Hash, config: uint64, tables: Tables, depth: nat)
    requires var w := Begin(chain, config, tables); RETAINED - 1 <= w.start && w.start + RETAINED + 2 <= MAX_BLOCKS
    ensures var w := Begin(chain, config, tables);
      (forall steps :: LegalRun(w, steps, depth) && Exec(w, steps).start == w.start ==> AncestorsHandled(Exec(w, steps)))
      <==> depth <= RETAINED
  {
    var w := Begin(chain, config, tables);
    if depth <= RETAINED {
      forall steps | LegalRun(w, steps, depth) && Exec(w, steps).start == w.start
        ensures AncestorsHandled(Exec(w, steps))
      {
        ShallowerIsLegal(w, steps, depth, RETAINED);
        NoBlockSkipped(chain, config, tables, steps);
      }
    } else {
      var limits := Limits(depth, 0, false);
      DeepReorgSkips(w, limits);
      var v :| Reaches(w, v, limits) && v.start == w.start && !AncestorsHandled(v);
      var steps := SomeRun(w, v, limits);
    }
  }

  // ---------------------------------------------------------------- reorganisation within a batch

  /** A reorganisation between two fetches of a batch stores two rows that do not
      link, and leaves a canonical block unhandled; on the new chain no later round
      rolls back, so nothing repairs this. */
  lemma MidBatchReorgGoesUnseen(w: World, a: Hash, b: Hash, target: nat, n: nat)
    requires RETAINED - 1 <= w.st.cur <= w.high && w.st.cur < |a| && w.st.cur + 1 < |b| && BlockAt(a, w.st.cur) != BlockAt(b, w.st.cur)
    requires BlockAt(b, w.st.cur) !in w.handled
    requires w.st.cur + 2 + n <= target <= |b|
    ensures var c := w.st.cur;
      var after := Next(Next(w, BatchRound([View(a, NoFault), View(b, NoFault)], false)), Reorg(b));
      && !Links(after.st.rows, c + 1)
      && Settle(after, target, n).st.cur == c + 2 + n
      && BlockAt(b, c) !in Settle(after, target, n).handled
  {
    var c := w.st.cur;
    TwoBlockBatch(w, a, b);
    var after := Next(Next(w, BatchRound([View(a, NoFault), View(b, NoFault)], false)), Reorg(b));
    hide Next, Settle;
    assert BlockAt(b, c) == Parent(BlockAt(b, c + 1));
    assert BlockAt(b, c + 1) == b[..after.st.cur];
    SettleForward(after, target, n, c + 2);
    hide OffChain, CanonicalFrom;
    forall h | h in BlocksBetween(b, c + 2, c + 2 + n) ensures |h| > c + 2 {}
  }

  lemma TwoBlockBatch(w: World, a: Hash, b: Hash)
    requires RETAINED - 1 <= w.st.cur < |a| && w.st.cur + 1 < |b|
    ensures var c := w.st.cur;
      var after := Next(Next(w, BatchRound([View(a, NoFault), View(b, NoFault)], false)), Reorg(b));
      && after.st.cur == c + 2 <= after.high && after.chain == b
      && c in after.st.rows && after.st.rows[c].hash == BlockAt(a, c)
      && c + 1 in after.st.rows && after.st.rows[c + 1] == BlockRow(BlockAt(b, c + 1), Parent(BlockAt(b, c + 1)))
      && after.handled == w.handled + {BlockAt(a, c), BlockAt(b, c + 1)}
  {
    var v, v' := View(a, NoFault), View(b, NoFault);
    assert [v, v'][..1] == [v] && [v][..0] == [];
    hide ParseBlock;
    assert BatchLoop(w.st, [v]) == (Store(w.st, a, NoFault), true);
    assert BatchLoop(w.st, [v, v']) == (Store(Store(w.st, a, NoFault), b, NoFault), true);
    assert BatchHandled(w.st, [v]) == {BlockAt(a, w.st.cur)};
    assert BatchHandled(w.st, [v, v']) == {BlockAt(a, w.st.cur), BlockAt(b, w.st.cur + 1)};
  }

  /** Such a run from a fresh start: the parser never handles block s of chain b. */
  lemma MidBatchFromStart(chain: Hash, config: uint64, tables: Tables, room: nat) returns (a: Hash, b: Hash)
    requires var s := Begin(chain, config, tables).start; RETAINED - 1 <= s && s + 2 + room <= MAX_BLOCKS
    ensures var w := Begin(chain, config, tables);
      && KeepsBelow(w, a, RETAINED) && w.start < |a| && KeepsBelow(w, b, RETAINED) && |b| == w.start + 2 + room
      && var after := Next(Next(w, BatchRound([View(a, NoFault), View(b, NoFault)], false)), Reorg(b));
         && !Links(after.st.rows, w.start + 1)
         && Settle(after, |b|, room).st.cur == |b| && BlockAt(b, w.start) !in Settle(after, |b|, room).handled
  {
    hide *;
    var w := Begin(chain, config, tables);
    var s := w.start;
    BeginIs(chain, config, tables);
    var base := Base(chain, s);
    a, b := Above(base, 1, 1), Above(base, 2, 2 + room);
    AboveDiffer(base, 1, 2 + room);
    SameBaseIsLegal(w, a, base, RETAINED);
    SameBaseIsLegal(w, b, base, RETAINED);
    MidBatchReorgGoesUnseen(w, a, b, |b|, room);
  }

  // ---------------------------------------------------------------- a batch on a stale row

  /** A batch that starts above a row that is off the chain stores a row that does
      not link to it, and no later round on the chain rolls back; a round in sub
      mode would have. */
  lemma StaleStartGoesUnseen(w: World, target: nat, n: nat)
    requires OffChain(w) && RETAINED - 1 <= w.st.cur <= w.high && w.st.cur + 1 + n <= target <= |w.chain|
    ensures var c, after := w.st.cur, Next(w, BatchRound([View(w.chain, NoFault)], false));
      && c in after.st.rows && c - 1 in after.st.rows && !Links(after.st.rows, c)
      && Settle(after, target, n).st.cur == c + 1 + n
      && Next(w, QUIET) == Rewind(w, 1)
  {
    var after := Next(w, BatchRound([View(w.chain, NoFault)], false));
    RollbackRound(w);
    OneBlockBatch(w);
    hide Next, Settle;
    assert BlockAt(w.chain, w.st.cur) == w.chain[..after.st.cur];
    SettleForward(after, target, n, w.st.cur + 1);
  }

  lemma OneBlockBatch(w: World)
    requires OffChain(w) && RETAINED - 1 <= w.st.cur < |w.chain|
    ensures var c, after := w.st.cur, Next(w, BatchRound([View(w.chain, NoFault)], false));
      && after.st.cur == c + 1 <= after.high && after.chain == w.chain
      && c in after.st.rows && after.st.rows[c] == BlockRow(BlockAt(w.chain, c), w.chain[..c])
      && c - 1 in after.st.rows && after.st.rows[c - 1] == w.st.rows[c - 1]
  {
    var v := View(w.chain, NoFault);
    assert [v][..0] == [];
    assert Parent(BlockAt(w.chain, w.st.cur)) == w.chain[..w.st.cur];
    hide ParseBlock;
    assert BatchLoop(w.st, [v]) == (Store(w.st, w.chain, NoFault), true);
  }

  /** Such a world is reached from a fresh start: a reorganisation before the batch is enough. */
  lemma StaleStartFromStart(chain: Hash, config: uint64, tables: Tables, room: nat) returns (w: World)
    requires var s := Begin(chain, config, tables).start; RETAINED - 1 <= s && s + 2 + room <= MAX_BLOCKS
    ensures var w0 := Begin(chain, config, tables);
      && Reaches(w0, w, Limits(RETAINED, 0, false))
      && OffChain(w) && RETAINED - 1 <= w.st.cur <= w.high && |w.chain| == w.st.cur + 1 + room
  {
    hide KeepsBelow, Above, Base;
    var w0, limits := Begin(chain, config, tables), Limits(RETAINED, 0, false);
    var s := w0.start;
    var base := Base(chain, s);
    var a, b := Above(base, 1, 1), Above(base, 2, 2 + room);
    AboveDiffer(base, 1, 2 + room);
    SameBaseIsLegal(w0, a, base, RETAINED);
    var w1 := w0.(chain := a);
    HandleRound(w1);
    var w2 := Next(w1, QUIET);
    SameBaseIsLegal(w2, b, base, RETAINED);
    w := w2.(chain := b);
    NextReorg(w0, a);
    NextReorg(w2, b);
    assert BlockAt(b, s) == b[..s + 1];
    hide Next, BlockAt, Reaches;
    ReorgIsWithin(w0, a, limits);
    ReorgIsWithin(w2, b, limits);
    ReachesSelf(w0, limits);
    ReachesNext(w0, w0, Reorg(a), limits);
    ReachesNext(w0, w1, QUIET, limits);
    ReachesNext(w0, w2, Reorg(b), limits);
  }
}
