/** What failed prunes change: exactly when the window and the bound of 20 rollbacks hold. */
module FailedPrunes {
  import opened Uint64
  import opened Chain
  import opened PendingTable
  import opened BlockTable
  import opened BlockParser
  import opened ParserRuns
  import opened Linkage
  import opened Convergence
  import opened Confirmations
  import opened Reachability
  import opened Necessity
  import opened Restarts

  const UNPRUNED: Step := SubRound(PruneFails)

  lemma UnprunedRound(w: World)
    requires !OffChain(w) && RETAINED - 1 <= w.st.cur < |w.chain|
    ensures var w' := Next(w, UNPRUNED);
      && w'.st.cur == w.st.cur + 1
      && w'.st.rows == Upsert(w.st.rows, w.st.cur, BlockRow(BlockAt(w.chain, w.st.cur), w.chain[..w.st.cur]))
      && w'.chain == w.chain && w'.start == w.start && w'.high == (if w.high < w.st.cur + 1 then w.st.cur + 1 else w.high)
  {
    assert Parent(BlockAt(w.chain, w.st.cur)) == w.chain[..w.st.cur];
    assert Stores(w.st, w.chain, PruneFails);
    hide ParseBlock;
  }

  lemma UnprunedIsWithin(w: World, limits: Limits)
    ensures Within(w, UNPRUNED, limits)
  {
  }

  // ---------------------------------------------------------------- the window

  /** After 21 blocks whose last prune failed, the row of the first is still there. */
  lemma UnprunedRowStays(chain: Hash, config: uint64, tables: Tables, limits: Limits) returns (v: World)
    requires var s := Begin(chain, config, tables).start; RETAINED - 1 <= s && s + RETAINED + 1 <= MAX_BLOCKS
    requires limits.depth == RETAINED && !limits.once
    ensures Reaches(Begin(chain, config, tables), v, limits) && !ExactWindow(v) && v.start == Begin(chain, config, tables).start
  {
    hide *;
    var w := Begin(chain, config, tables);
    var s := w.start;
    BeginIs(chain, config, tables);
    BeginIsLinked(chain, config, tables);
    var base := Base(chain, s);
    var a := Above(base, 1, RETAINED + 1);
    AboveDiffer(base, RETAINED + 1, 1);
    SameBaseIsLegal(w, a, base, RETAINED);
    SafeOnNewChain(w, a);
    var w1 := w.(chain := a);
    NextReorg(w, a);
    ReachesSelf(w, limits);
    ReorgIsWithin(w, a, limits);
    ReachesNext(w, w, Reorg(a), limits);
    NothingStored(w1);
    var w2 := Settle(w1, s + RETAINED, RETAINED);
    SettleForward(w1, s + RETAINED, RETAINED, s);
    SettleKeepsWindow(w1, s + RETAINED, RETAINED);
    SettleReaches(w, w1, s + RETAINED, RETAINED, limits);
    ReachedIs(w1, w2, s);
    UnprunedRound(w2);
    UnprunedIsWithin(w2, limits);
    ReachesNext(w, w2, UNPRUNED, limits);
    v := Next(w2, UNPRUNED);
    RowBelowWindow(w2, v);
  }

  lemma ReachedIs(w: World, v: World, base: nat)
    requires Reached(w, v, base)
    ensures v.chain == w.chain && v.start == w.start && !OffChain(v) && CanonicalFrom(v, base)
    ensures v.high == if w.high < v.st.cur then v.st.cur else w.high
  {
    hide OffChain, CanonicalFrom, BlocksBetween;
  }

  lemma RowBelowWindow(w: World, v: World)
    requires ExactWindow(w) && w.high == w.st.cur == w.start + RETAINED && w.start < TWO_64
    requires v.st.cur == w.st.cur + 1 == v.high && v.start == w.start && exists row :: v.st.rows == Upsert(w.st.rows, w.st.cur, row)
    ensures !ExactWindow(v)
  {
    var n: uint64 := w.start;
    assert n in w.st.rows && n in v.st.rows && n < WindowStart(v);
  }

  /** The stored numbers are exactly the window in every run of an epoch exactly when
      no prune may fail. */
  lemma PrunesAreNeededForWindow(chain: Hash, config: uint64, tables: Tables, failing: bool)
    requires var s := Begin(chain, config, tables).start; RETAINED - 1 <= s && s + RETAINED + 1 <= MAX_BLOCKS
    ensures var w := Begin(chain, config, tables);
      (forall steps :: LegalRun(w, steps, RETAINED) && (failing || PrunesSucceed(w, steps)) && Exec(w, steps).start == w.start ==>
         ExactWindow(Exec(w, steps)))
      <==> !failing
  {
    var w := Begin(chain, config, tables);
    hide ExactWindow;
    if failing {
      var v := UnprunedRowStays(chain, config, tables, Limits(RETAINED, 0, false));
      var steps := SomeRun(w, v, Limits(RETAINED, 0, false));
    } else {
      forall steps | LegalRun(w, steps, RETAINED) && PrunesSucceed(w, steps) && Exec(w, steps).start == w.start
        ensures ExactWindow(Exec(w, steps))
      {
        WindowIsExact(chain, config, tables, steps);
      }
    }
  }

  // ---------------------------------------------------------------- more than 20 rollbacks

  lemma {:induction false} RollbacksAtLeast(w: World, k: nat)
    requires k <= w.st.cur && forall j :: 0 <= j < k ==> OffChain(Rewind(w, j))
    ensures k <= Rollbacks(w)
    decreases k
  {
    if k > 0 {
      assert Rewind(w, 0) == w && OffChain(w);
      forall j | 0 <= j < k - 1 ensures OffChain(Rewind(Rewind(w, 1), j)) {
        assert Rewind(Rewind(w, 1), j) == Rewind(w, j + 1);
      }
      RollbacksAtLeast(Rewind(w, 1), k - 1);
    }
  }

  /** Rows that no prune reaches stay as they are. */
  lemma {:induction false} SettleKeepsRow(w: World, target: nat, n: nat, base: nat, k: uint64)
    requires !OffChain(w) && RETAINED - 1 <= base <= w.st.cur <= w.high && w.st.cur + n <= target <= |w.chain|
    requires CanonicalFrom(w, base) && k in w.st.rows && k < w.st.cur && w.st.cur + n <= k + RETAINED
    ensures k in Settle(w, target, n).st.rows && Settle(w, target, n).st.rows[k] == w.st.rows[k]
    decreases n
  {
    hide Next, OffChain, CanonicalFrom;
    if n > 0 {
      RoundReaches(w, base);
      HandleRound(w);
      SettleKeepsRow(Next(w, QUIET), target, n - 1, base, k);
    }
  }

  /** The first chain of the scene, 22 blocks longer. */
  function LongChain(c: Scene): (h: Hash)
    requires |c.base| + 25 <= MAX_BLOCKS
    ensures |h| == |c.base| + 25
  {
    ChainA(c) + Flat(1, 22)
  }

  /** A chain that leaves it one block above the base. */
  function ThirdChain(c: Scene): (h: Hash)
    requires |c.base| + 25 <= MAX_BLOCKS
    ensures |h| == |c.base| + 25
  {
    LongChain(c)[..|c.base| + 1] + Flat(3, 24)
  }

  lemma LongFacts(c: Scene)
    requires |c.base| + 25 <= MAX_BLOCKS
    ensures var s, a, b, long, third := |c.base|, ChainA(c), ChainB(c), LongChain(c), ThirdChain(c);
      && a[..s] == c.base == long[..s] && long[..s + 2] == BlockAt(a, s + 1) == a[..s + 2]
      && BlockAt(long, s + 1) == long[..s + 2] && Parent(BlockAt(a, s + 1)) == long[..s + 1]
      && third[..s + 1] == long[..s + 1] && third[..s + 1] != BlockAt(b, s)
      && |long| == |third| == s + 25
      && forall m :: s + 1 <= m < s + 25 ==> BlockAt(third, m) != BlockAt(long, m)
  {
    var s, a, b, long, third := |c.base|, ChainA(c), ChainB(c), LongChain(c), ThirdChain(c);
    ChainFacts(c);
    assert third[..s + 1][s] != BlockAt(b, s)[s];
    assert third[s + 1] == Body([], 0, 3) && long[s + 1] == a[s + 1];
    forall m | s + 1 <= m < s + 25 ensures BlockAt(third, m) != BlockAt(long, m) {
      assert BlockAt(third, m)[s + 1] == third[s + 1] && BlockAt(long, m)[s + 1] == long[s + 1];
    }
  }

  lemma MixedOnLongChain(w: World, c: Scene)
    requires |c.base| + 25 <= MAX_BLOCKS && w.chain == LongChain(c) && Mixed(w.(chain := ChainA(c)), c)
    ensures var s := |c.base|;
      && !OffChain(w) && CanonicalFrom(w, s + 1) && w.st.cur == w.high == s + 2 && w.start == s && |w.chain| == s + 25
      && s in w.st.rows && w.st.rows[s].hash == BlockAt(ChainB(c), s)
  {
    LongFacts(c);
    hide LongChain, ThirdChain, ChainA, ChainB;
  }

  /** On the longer chain, row s of the other chain is kept until its prune fails. */
  lemma KeepsMixedRow(w: World, c: Scene) returns (u: World)
    requires RETAINED - 1 <= |c.base| && |c.base| + 25 <= MAX_BLOCKS
    requires w.chain == LongChain(c) && Mixed(w.(chain := ChainA(c)), c)
    ensures var s := |c.base|;
      && u == Settle(w, s + RETAINED, RETAINED - 2)
      && u.st.cur == s + RETAINED == u.high && u.start == s && u.chain == w.chain
      && !OffChain(u) && CanonicalFrom(u, s + 1)
      && s in u.st.rows && u.st.rows[s].hash == BlockAt(ChainB(c), s)
  {
    assert RETAINED == 20;
    hide *;
    var s := |c.base|;
    MixedOnLongChain(w, c);
    u := Settle(w, s + RETAINED, RETAINED - 2);
    SettleForward(w, s + RETAINED, RETAINED - 2, s + 1);
    SettleKeepsRow(w, s + RETAINED, RETAINED - 2, s + 1, s);
    ReachedIs(w, u, s + 1);
  }

  /** The rows that the rollback on the third chain steps over. */
  lemma TwentyOneRollbacks(w: World, c: Scene)
    requires |c.base| + 25 <= MAX_BLOCKS && w.chain == ThirdChain(c) && w.st.cur == |c.base| + RETAINED + 1
    requires |c.base| in w.st.rows && w.st.rows[|c.base|].hash == BlockAt(ChainB(c), |c.base|)
    requires forall m: uint64 :: |c.base| + 1 <= m < w.st.cur ==> m in w.st.rows && w.st.rows[m].hash == BlockAt(LongChain(c), m)
    ensures RETAINED < Rollbacks(w)
  {
    LongFacts(c);
    hide LongChain, ThirdChain, ChainB, Rollbacks;
    forall j | 0 <= j < RETAINED + 1 ensures OffChain(Rewind(w, j)) {
      var m: uint64 := w.st.cur - j - 1;
      assert m in w.st.rows;
    }
    RollbacksAtLeast(w, RETAINED + 1);
  }

  /** After a restart in the middle of a rollback and a failed prune, the parser may
      roll back 21 times. */
  lemma RestartAndFailedPrune(chain: Hash, config: uint64, tables: Tables, limits: Limits) returns (v: World)
    requires var s := Begin(chain, config, tables).start; RETAINED - 1 <= s && s + 25 <= MAX_BLOCKS
    requires limits.depth == RETAINED && limits.lag >= 1 && !limits.once
    ensures Reaches(Begin(chain, config, tables), v, limits) && RETAINED < Rollbacks(v)
    ensures v.start == Begin(chain, config, tables).start
  {
    assert RETAINED == 20;
    hide *;
    var w0 := Begin(chain, config, tables);
    var c, w := RestartMixesChains(chain, config, tables, limits);
    var s, a, long, third := |c.base|, ChainA(c), LongChain(c), ThirdChain(c);
    LongFacts(c);
    MixedMeans(w, c);
    SameBaseIsLegal(w, long, c.base, RETAINED);
    ReorgIsWithin(w, long, limits);
    NextReorg(w, long);
    ReachesNext(w0, w, Reorg(long), limits);
    var w1 := w.(chain := long);
    assert w1.(chain := a) == w;
    var w2 := KeepsMixedRow(w1, c);
    SettleReaches(w0, w1, s + RETAINED, RETAINED - 2, limits);
    UnprunedRound(w2);
    UnprunedIsWithin(w2, limits);
    ReachesNext(w0, w2, UNPRUNED, limits);
    var w3 := Next(w2, UNPRUNED);
    PrefixOfPrefix(third, long, s + 1);
    SameBaseIsLegal(w3, third, long[..s + 1], RETAINED);
    ReorgIsWithin(w3, third, limits);
    NextReorg(w3, third);
    ReachesNext(w0, w3, Reorg(third), limits);
    v := w3.(chain := third);
    RowsOnLongChain(w2, w3, c);
    TwentyOneRollbacks(v, c);
  }

  lemma PrefixOfPrefix(a: Hash, b: Hash, n: nat)
    requires n <= |a| && n <= |b| && a[..n] == b[..n]
    ensures |b[..n]| == n && a[..|b[..n]|] == b[..n]
  {
  }

  lemma MixedMeans(w: World, c: Scene)
    requires |c.base| + 3 <= MAX_BLOCKS && Mixed(w, c)
    ensures w.chain == ChainA(c) && w.start == |c.base| && w.high == |c.base| + 2
  {
  }

  lemma RowsOnLongChain(w: World, w': World, c: Scene)
    requires |c.base| + 25 <= MAX_BLOCKS && w.chain == LongChain(c) && w.st.cur == |c.base| + RETAINED
    requires CanonicalFrom(w, |c.base| + 1) && |c.base| in w.st.rows
    requires w'.st.rows == Upsert(w.st.rows, w.st.cur, BlockRow(BlockAt(w.chain, w.st.cur), w.chain[..w.st.cur]))
    ensures |c.base| in w'.st.rows && w'.st.rows[|c.base|] == w.st.rows[|c.base|]
    ensures forall m: uint64 :: |c.base| + 1 <= m < w.st.cur + 1 ==> m in w'.st.rows && w'.st.rows[m].hash == BlockAt(LongChain(c), m)
  {
    hide LongChain;
  }

  /** On reaching any world of an epoch at most 20 rollbacks are needed, exactly when
      no restart finds the cursor below `high` or no prune fails. */
  lemma RollbackBoundIsExact(chain: Hash, config: uint64, tables: Tables, lag: nat, failing: bool)
    requires var s := Begin(chain, config, tables).start; RETAINED - 1 <= s && s + 25 <= MAX_BLOCKS
    ensures var w := Begin(chain, config, tables);
      (forall steps :: (&& LegalRun(w, steps, RETAINED) && LagRun(w, steps, lag) && (failing || PrunesSucceed(w, steps))
                        && Exec(w, steps).start == w.start) ==> Rollbacks(Exec(w, steps)) <= RETAINED)
      <==> lag == 0 || !failing
  {
    var w := Begin(chain, config, tables);
    hide Rollbacks, ConvergesTo;
    if lag == 0 || !failing {
      forall steps | LegalRun(w, steps, RETAINED) && LagRun(w, steps, lag) && (failing || PrunesSucceed(w, steps))
                     && Exec(w, steps).start == w.start
        ensures Rollbacks(Exec(w, steps)) <= RETAINED
      {
        if lag == 0 { NoLagIsSteady(w, steps, false); }
        Converges(chain, config, tables, steps, 0);
      }
    } else {
      var v := RestartAndFailedPrune(chain, config, tables, Limits(RETAINED, lag, false));
      var steps := SomeRun(w, v, Limits(RETAINED, lag, false));
    }
  }
}
