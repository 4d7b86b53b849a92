/** Batch mode prunes once and never checks for forks: exactly when that makes no difference. */
module BatchRefinement {
  import opened Uint64
  import opened Chain
  import opened PendingTable
  import opened BlockTable
  import opened Dao
  import opened BlockParser

  /** n fault-free rounds in sub mode. */
  function SubRounds(s: ParserState, chain: Hash, n: nat): ParserState {
    if n == 0 then s else SubStep(SubRounds(s, chain, n - 1), chain, NoFault)
  }

  /** n fault-free iterations that all meet the same chain. */
  function FixedViews(chain: Hash, n: nat): seq<View> {
    seq(n, _ => View(chain, NoFault))
  }

  /** The tables after the blocks numbered from a up to a + n have been handled. */
  function HandleRange(t: Tables, chain: Hash, a: nat, n: nat): Tables
    requires a + n <= |chain|
  {
    if n == 0 then t else HandleAll(HandleRange(t, chain, a, n - 1), BlockAt(chain, a + n - 1))
  }

  function CanonicalRow(chain: Hash, n: nat): BlockRow
    requires n < |chain|
  {
    BlockRow(BlockAt(chain, n), chain[..n])
  }

  /** The rows with those of the blocks numbered from a up to a + n written over them. */
  function FillRows(rows: BlockTable, chain: Hash, a: nat, n: nat): BlockTable
    requires a + n <= |chain|
  {
    if n == 0 then rows else FillRows(rows, chain, a, n - 1)[a + n - 1 := CanonicalRow(chain, a + n - 1)]
  }

  lemma {:induction false} FillRowsAt(rows: BlockTable, chain: Hash, a: nat, n: nat, k: uint64)
    requires a + n <= |chain|
    ensures k in FillRows(rows, chain, a, n) <==> k in rows || a <= k < a + n
    ensures a <= k < a + n ==> FillRows(rows, chain, a, n)[k] == CanonicalRow(chain, k)
    ensures k in rows && !(a <= k < a + n) ==> FillRows(rows, chain, a, n)[k] == rows[k]
    decreases n
  {
    if n > 0 { FillRowsAt(rows, chain, a, n - 1, k); }
  }

  lemma StoreCanonical(s: ParserState, chain: Hash)
    requires s.cur < |chain|
    ensures Fetches(s, chain, NoFault) && BatchStores(s, View(chain, NoFault))
    ensures Store(s, chain, NoFault)
         == ParserState(s.cur + 1, Upsert(s.rows, s.cur, CanonicalRow(chain, s.cur)), HandleAll(s.tables, BlockAt(chain, s.cur)))
  {
    hide HandleAll;
    assert Parent(BlockAt(chain, s.cur)) == chain[..s.cur];
  }

  /** What a batch does before it prunes. */
  lemma {:induction false} BatchFills(s: ParserState, chain: Hash, n: nat)
    requires s.cur + n <= |chain|
    ensures BatchLoop(s, FixedViews(chain, n))
         == (ParserState(s.cur + n, FillRows(s.rows, chain, s.cur, n), HandleRange(s.tables, chain, s.cur, n)), true)
    decreases n
  {
    hide FillRows, HandleRange, BatchLoop, FixedViews, HandleAll, Store, Fetches, BatchStores, CanonicalRow, Upsert;
    if n == 0 {
      NothingFilled(s, chain);
    } else {
      BatchFills(s, chain, n - 1);
      FixedViewsStep(chain, n);
      BatchLoopNext(s, FixedViews(chain, n), n - 1);
      FillRowsStep(s, chain, n);
      StoreCanonical(BatchLoop(s, FixedViews(chain, n - 1)).0, chain);
    }
  }

  lemma NothingFilled(s: ParserState, chain: Hash)
    requires s.cur <= |chain|
    ensures BatchLoop(s, FixedViews(chain, 0)) == (s, true) && SubRounds(s, chain, 0) == s
    ensures FillRows(s.rows, chain, s.cur, 0) == SubRows(s.rows, chain, s.cur, 0) == s.rows
    ensures HandleRange(s.tables, chain, s.cur, 0) == s.tables
  {
  }

  lemma FixedViewsStep(chain: Hash, n: nat)
    requires n > 0
    ensures var views := FixedViews(chain, n);
      && |views| == n && views[..n - 1] == FixedViews(chain, n - 1) && views[..n] == views && views[n - 1] == View(chain, NoFault)
  {
  }

  lemma FillRowsStep(s: ParserState, chain: Hash, n: nat)
    requires 0 < n && s.cur + n <= |chain|
    ensures FillRows(s.rows, chain, s.cur, n)
         == Upsert(FillRows(s.rows, chain, s.cur, n - 1), s.cur + n - 1, CanonicalRow(chain, s.cur + n - 1))
    ensures HandleRange(s.tables, chain, s.cur, n)
         == HandleAll(HandleRange(s.tables, chain, s.cur, n - 1), BlockAt(chain, s.cur + n - 1))
  {
  }

  /** The stored row below the cursor, if any, is the canonical block. */
  predicate MatchesBelow(s: ParserState, chain: Hash) {
    s.cur <= |chain| && (s.cur > 0 && s.cur - 1 in s.rows ==> s.rows[s.cur - 1].hash == chain[..s.cur])
  }

  /** No row number is so large that a wrapped prune would keep it. */
  predicate SmallNumbers(rows: BlockTable) {
    forall n :: n in rows ==> n < MAX_BLOCKS
  }

  /** The rows that n > 0 rounds in sub mode leave of those written or found: each
      round prunes, and while the new cursor is below 20 the bound wraps, so the
      prune empties the table. */
  predicate KeptBySub(a: nat, n: nat, k: nat) {
    RETAINED <= a + n <= k + RETAINED && (RETAINED - 1 <= a || RETAINED - 1 <= k < a + n)
  }

  predicate KeptByBatch(a: nat, n: nat, k: nat) {
    RETAINED <= a + n <= k + RETAINED
  }

  function SubRows(rows: BlockTable, chain: Hash, a: nat, n: nat): BlockTable
    requires a + n <= |chain|
  {
    if n == 0 then rows
    else map k | k in FillRows(rows, chain, a, n) && KeptBySub(a, n, k) :: FillRows(rows, chain, a, n)[k]
  }

  lemma FillRowsSmall(rows: BlockTable, chain: Hash, a: nat, n: nat)
    requires a + n <= |chain| && SmallNumbers(rows)
    ensures SmallNumbers(FillRows(rows, chain, a, n))
  {
  }

  lemma SubRowsStep(rows: BlockTable, chain: Hash, a: nat, n: nat)
    requires 0 < n && a + n <= |chain| && SmallNumbers(rows)
    ensures SubRows(rows, chain, a, n)
         == Prune(Upsert(SubRows(rows, chain, a, n - 1), a + n - 1, CanonicalRow(chain, a + n - 1)), Sub(a + n, RETAINED))
  {
    var before, after := FillRows(rows, chain, a, n - 1), FillRows(rows, chain, a, n);
    FillRowsSmall(rows, chain, a, n);
    assert after == before[a + n - 1 := CanonicalRow(chain, a + n - 1)];
    var left := SubRows(rows, chain, a, n);
    var right := Prune(Upsert(SubRows(rows, chain, a, n - 1), a + n - 1, CanonicalRow(chain, a + n - 1)), Sub(a + n, RETAINED));
    forall k: uint64 ensures k in left <==> k in right {
      FillRowsAt(rows, chain, a, n - 1, k);
    }
    assert left.Keys == right.Keys;
  }

  lemma RoundOnMatch(s: ParserState, chain: Hash)
    requires s.cur < |chain| && !Forked(s, chain[..s.cur])
    ensures SubStep(s, chain, NoFault)
         == ParserState(s.cur + 1, Prune(Upsert(s.rows, s.cur, CanonicalRow(chain, s.cur)), Sub(s.cur + 1, RETAINED)),
                        HandleAll(s.tables, BlockAt(chain, s.cur)))
  {
    hide HandleAll;
    assert Parent(BlockAt(chain, s.cur)) == chain[..s.cur];
  }

  lemma {:induction false} SubRoundsFill(s: ParserState, chain: Hash, n: nat)
    requires s.cur + n <= |chain| && MatchesBelow(s, chain) && SmallNumbers(s.rows)
    ensures SubRounds(s, chain, n)
         == ParserState(s.cur + n, SubRows(s.rows, chain, s.cur, n), HandleRange(s.tables, chain, s.cur, n))
    decreases n
  {
    hide FillRows, SubRows, HandleRange, HandleAll, SubStep, Prune, CanonicalRow, Upsert, Forked, SmallNumbers;
    if n == 0 {
      NothingFilled(s, chain);
    } else {
      SubRoundsFill(s, chain, n - 1);
      NotForked(s, chain, n - 1, HandleRange(s.tables, chain, s.cur, n - 1));
      RoundOnMatch(SubRounds(s, chain, n - 1), chain);
      SubRowsStep(s.rows, chain, s.cur, n);
      FillRowsStep(s, chain, n);
    }
  }

  /** The row a round meets below the cursor is the one the round before wrote. */
  lemma NotForked(s: ParserState, chain: Hash, n: nat, t: Tables)
    requires s.cur + n < |chain| && MatchesBelow(s, chain) && SmallNumbers(s.rows)
    ensures !Forked(ParserState(s.cur + n, SubRows(s.rows, chain, s.cur, n), t), chain[..s.cur + n])
  {
  }

  /** What the one prune changes.  On a chain that is fixed during the batch, when
      the row below the cursor matches it, a successful batch of n blocks leaves
      the same cursor and pending table as n successful rounds in sub mode; and it
      leaves the same block rows exactly when no round prunes with a wrapped bound
      (or all of them do, or the wrong rows are gone again at the end). */
  lemma BatchOnOneChain(s: ParserState, chain: Hash, n: nat)
    requires 0 < n && s.cur + n <= |chain| && MatchesBelow(s, chain) && SmallNumbers(s.rows)
    ensures var batch, sub := BatchStep(s, FixedViews(chain, n), false), SubRounds(s, chain, n);
      && batch.cur == sub.cur == s.cur + n
      && batch.tables == sub.tables == HandleRange(s.tables, chain, s.cur, n)
      && (batch == sub <==>
            || RETAINED - 1 <= s.cur
            || s.cur + n < RETAINED
            || (2 * RETAINED - 1 <= s.cur + n && forall k :: k in s.rows ==> k < s.cur + n))
  {
    BatchFills(s, chain, n);
    SubRoundsFill(s, chain, n);
    var fill := FillRows(s.rows, chain, s.cur, n);
    var batch, sub := BatchStep(s, FixedViews(chain, n), false), SubRounds(s, chain, n);
    FillRowsSmall(s.rows, chain, s.cur, n);
    hide FillRows, BatchLoop, SubRounds, HandleRange;
    assert batch.rows == map k | k in fill && KeptByBatch(s.cur, n, k) :: fill[k];
    if s.cur < RETAINED - 1 && RETAINED <= s.cur + n {
      if s.cur + n < 2 * RETAINED - 1 {
        FillRowsAt(s.rows, chain, s.cur, n, RETAINED - 2);
        assert RETAINED - 2 in batch.rows && RETAINED - 2 !in sub.rows;
      } else {
        forall k: uint64 ensures k in fill <==> k in s.rows || s.cur <= k < s.cur + n {
          FillRowsAt(s.rows, chain, s.cur, n, k);
        }
        if k :| k in s.rows && s.cur + n <= k {
          assert k in batch.rows && k !in sub.rows;
        } else {
          assert batch.rows == sub.rows;
        }
      }
    } else {
      assert batch.rows == sub.rows;
    }
  }

  // ---------------------------------------------------------------- chains that change

  /** The block that iteration k fetches has the row below it as its parent: the
      first finds the stored row, the others the block fetched just before. */
  predicate Fits(s: ParserState, views: seq<View>, k: nat)
    requires k < |views|
  {
    if k == 0 then s.cur > 0 && s.cur - 1 in s.rows ==> IsPrefix(views[0].chain, s.cur, s.rows[s.cur - 1].hash)
    else s.cur + k <= |views[k - 1].chain| && IsPrefix(views[k].chain, s.cur + k, views[k - 1].chain[..s.cur + k])
  }

  predicate IsPrefix(chain: Hash, n: nat, h: Hash) {
    n <= |chain| && chain[..n] == h
  }

  predicate AllFit(s: ParserState, views: seq<View>) {
    forall k :: 0 <= k < |views| ==> Fits(s, views, k)
  }

  /** If rows n and n - 1 are stored, row n names row n - 1 as its parent. */
  predicate Links(rows: BlockTable, n: nat) {
    n > 0 && n in rows && n - 1 in rows ==> rows[n].parent == rows[n - 1].hash
  }

  /** What a successful batch leaves before it prunes. */
  lemma {:induction false} BatchRowsAt(s: ParserState, views: seq<View>, n: uint64)
    requires BatchLoop(s, views).1
    ensures var s' := BatchLoop(s, views).0;
      && s'.cur == s.cur + |views| && (views != [] ==> s'.cur <= MAX_BLOCKS)
      && (n in s'.rows <==> n in s.rows || s.cur <= n < s'.cur)
      && (n in s.rows && !(s.cur <= n < s'.cur) ==> s'.rows[n] == s.rows[n])
      && (s.cur <= n < s'.cur ==>
            n < |views[n - s.cur].chain| && s'.rows[n] == CanonicalRow(views[n - s.cur].chain, n))
    decreases |views|
  {
    hide ParseBlock, Interrupts;
    if views != [] {
      var front := views[..|views| - 1];
      BatchRowsAt(s, front, n);
      var mid := BatchLoop(s, front).0;
      var chain := views[|views| - 1].chain;
      assert Parent(BlockAt(chain, mid.cur)) == chain[..mid.cur];
      if s.cur <= n < mid.cur { assert front[n - s.cur] == views[n - s.cur]; }
    }
  }

  predicate AllLink(rows: BlockTable, first: nat, n: nat) {
    forall m :: first <= m < first + n ==> Links(rows, m)
  }

  /** The rows that decide whether the block of iteration k fits. */
  lemma RowsOfIteration(s: ParserState, views: seq<View>, k: nat)
    requires k < |views| && BatchLoop(s, views).1
    ensures var rows, n := BatchLoop(s, views).0.rows, s.cur + k;
      && n < |views[k].chain| && n in rows && rows[n] == CanonicalRow(views[k].chain, n)
      && (k == 0 && n > 0 ==> (n - 1 in rows <==> n - 1 in s.rows) && (n - 1 in rows ==> rows[n - 1] == s.rows[n - 1]))
      && (k > 0 ==> n <= |views[k - 1].chain| && n - 1 in rows && rows[n - 1] == CanonicalRow(views[k - 1].chain, n - 1))
  {
    BatchRowsAt(s, views, s.cur);
    hide BatchLoop, CanonicalRow;
    BatchRowsAt(s, views, s.cur + k);
    if s.cur + k > 0 { BatchRowsAt(s, views, s.cur + k - 1); }
  }

  lemma LinksWhenFits(s: ParserState, views: seq<View>, k: nat)
    requires k < |views| && BatchLoop(s, views).1
    ensures Links(BatchLoop(s, views).0.rows, s.cur + k) <==> Fits(s, views, k)
  {
    RowsOfIteration(s, views, k);
    hide BatchLoop;
  }

  /** After a successful batch, on whatever chains its fetches met, a row that it
      wrote links to the row below it exactly when the block fits; and all do
      exactly when the row below the cursor is on the first chain and every
      further chain keeps the block fetched before. */
  lemma BatchLinksExactly(s: ParserState, views: seq<View>, pruneFails: bool)
    requires views != [] && BatchLoop(s, views).1
    ensures var rows := BatchStep(s, views, pruneFails).rows;
      forall k :: 0 <= k < |views| && s.cur + k > 0 && s.cur + k in rows && s.cur + k - 1 in rows ==>
        (Links(rows, s.cur + k) <==> Fits(s, views, k))
    ensures AllLink(BatchLoop(s, views).0.rows, s.cur, |views|) <==> AllFit(s, views)
  {
    hide BatchLoop, Fits;
    var rows := BatchLoop(s, views).0.rows;
    forall k | 0 <= k < |views| ensures Links(rows, s.cur + k) <==> Fits(s, views, k) {
      LinksWhenFits(s, views, k);
    }
    if AllFit(s, views) {
      forall m | s.cur <= m < s.cur + |views| ensures Links(rows, m) { assert Fits(s, views, m - s.cur); }
    } else {
      var k :| 0 <= k < |views| && !Fits(s, views, k);
      assert !Links(rows, s.cur + k);
    }
  }

  /** Fault-free rounds in sub mode that meet the chains of the views. */
  function SubRoundsOn(s: ParserState, views: seq<View>): ParserState
    decreases |views|
  {
    if views == [] then s
    else SubStep(SubRoundsOn(s, views[..|views| - 1]), views[|views| - 1].chain, NoFault)
  }

  /** What rounds in sub mode make of a state on which a batch has stored its rows. */
  function PrunedTo(s: ParserState, stored: nat): ParserState {
    if stored == 0 || s.cur < RETAINED then s else s.(rows := Prune(s.rows, s.cur - RETAINED))
  }

  /** The state after the canonical block at the cursor is handled and stored. */
  function Stored(s: ParserState, chain: Hash): ParserState
    requires s.cur < |chain|
  {
    ParserState(s.cur + 1, Upsert(s.rows, s.cur, CanonicalRow(chain, s.cur)), HandleAll(s.tables, BlockAt(chain, s.cur)))
  }

  lemma StoreWithoutFault(s: ParserState, v: View)
    requires BatchStores(s, v)
    ensures Store(s, v.chain, v.fault) == Stored(s, v.chain)
  {
    hide HandleAll;
    assert Parent(BlockAt(v.chain, s.cur)) == v.chain[..s.cur];
  }

  /** The round after some that fitted finds a fork exactly when the next block does not fit. */
  lemma NextFits(s: ParserState, views: seq<View>, k: nat)
    requires RETAINED - 1 <= s.cur && k < |views| && BatchLoop(s, views).1 && BatchLoop(s, views[..k]).1
    ensures var m := PrunedTo(BatchLoop(s, views[..k]).0, k);
      && m.cur == s.cur + k < |views[k].chain|
      && (Forked(m, views[k].chain[..m.cur]) <==> !Fits(s, views, k))
  {
    hide BatchLoop, CanonicalRow, PrunedTo, Prune;
    BatchRowsAt(s, views, s.cur);
    RowsOfIteration(s, views, k);
    var mid := BatchLoop(s, views[..k]).0;
    BatchRowsAt(s, views[..k], s.cur + k - 1);
    RowBelowSurvives(mid, k);
    if k > 0 {
      assert views[..k][k - 1] == views[k - 1];
      CanonicalHash(views[k - 1].chain, s.cur + k - 1);
    }
  }

  lemma CanonicalHash(chain: Hash, n: nat)
    requires n < |chain|
    ensures CanonicalRow(chain, n).hash == chain[..n + 1]
  {
  }

  lemma RowBelowSurvives(mid: ParserState, stored: nat)
    requires 0 < mid.cur
    ensures var m := PrunedTo(mid, stored);
      && m.cur == mid.cur && m.tables == mid.tables && (m.cur - 1 in m.rows <==> m.cur - 1 in mid.rows)
      && (m.cur - 1 in m.rows ==> m.rows[m.cur - 1] == mid.rows[m.cur - 1])
  {
  }

  lemma PruneOnceMore(rows: BlockTable, number: uint64, row: BlockRow, stored: nat)
    requires RETAINED - 1 <= number < MAX_BLOCKS
    ensures var before := if stored == 0 || number < RETAINED then rows else Prune(rows, number - RETAINED);
      Prune(Upsert(before, number, row), number + 1 - RETAINED) == Prune(Upsert(rows, number, row), number + 1 - RETAINED)
  {
  }

  lemma {:induction false} RoundsThatFit(s: ParserState, views: seq<View>, k: nat)
    requires RETAINED - 1 <= s.cur && k <= |views| && BatchLoop(s, views).1
    requires forall j :: 0 <= j < k ==> Fits(s, views, j)
    ensures BatchLoop(s, views[..k]).1 && SubRoundsOn(s, views[..k]) == PrunedTo(BatchLoop(s, views[..k]).0, k)
    decreases k
  {
    BatchPrefix(s, views, k);
    if k > 0 {
      RoundsThatFit(s, views, k - 1);
      NextFits(s, views, k - 1);
      BatchLoopNext(s, views, k - 1);
      assert views[..k][..k - 1] == views[..k - 1] && views[..k][k - 1] == views[k - 1];
      hide *;
      OneRoundThatFits(s, views, k - 1);
    }
  }

  lemma OneRoundThatFits(s: ParserState, views: seq<View>, k: nat)
    requires RETAINED - 1 <= s.cur && k < |views| && BatchLoop(s, views).1
    requires BatchLoop(s, views[..k]).1 && SubRoundsOn(s, views[..k]) == PrunedTo(BatchLoop(s, views[..k]).0, k)
    requires BatchLoop(s, views[..k + 1]).1 && Fits(s, views, k)
    ensures SubRoundsOn(s, views[..k + 1]) == PrunedTo(BatchLoop(s, views[..k + 1]).0, k + 1)
  {
    var v, mid := views[k], BatchLoop(s, views[..k]).0;
    NextFits(s, views, k);
    BatchLoopNext(s, views, k);
    assert views[..k + 1][..k] == views[..k] && views[..k + 1][k] == v;
    assert SubRoundsOn(s, views[..k + 1]) == SubStep(PrunedTo(mid, k), v.chain, NoFault);
    hide *;
    StoreWithoutFault(mid, v);
    RoundAfterPrune(mid, v.chain, k);
  }

  lemma RoundAfterPrune(mid: ParserState, chain: Hash, k: nat)
    requires RETAINED - 1 <= mid.cur < |chain| && !Forked(PrunedTo(mid, k), chain[..mid.cur])
    requires PrunedTo(mid, k).cur == mid.cur
    ensures SubStep(PrunedTo(mid, k), chain, NoFault) == PrunedTo(Stored(mid, chain), k + 1)
  {
    RoundOnMatch(PrunedTo(mid, k), chain);
    PruneOnceMore(mid.rows, mid.cur, CanonicalRow(chain, mid.cur), k);
    hide Prune, Upsert, CanonicalRow, HandleAll, SubStep, Forked;
  }

  /** The iterations of a successful batch succeed. */
  lemma {:induction false} BatchPrefix(s: ParserState, views: seq<View>, k: nat)
    requires k <= |views| && BatchLoop(s, views).1
    ensures BatchLoop(s, views[..k]).1
    decreases |views|
  {
    if k < |views| {
      assert views[..|views| - 1][..k] == views[..k];
      BatchPrefix(s, views[..|views| - 1], k);
    } else {
      assert views[..k] == views;
    }
  }

  /** A round in sub mode raises the cursor by at most one. */
  lemma RoundRaises(s: ParserState, chain: Hash)
    requires SmallNumbers(s.rows) && s.cur <= MAX_BLOCKS
    ensures var s' := SubStep(s, chain, NoFault); SmallNumbers(s'.rows) && s'.cur <= s.cur + 1 && s'.cur <= MAX_BLOCKS
  {
    hide HandleAll;
  }

  lemma {:induction false} RoundsRaise(s: ParserState, views: seq<View>, k: nat)
    requires k <= |views| && SmallNumbers(s.rows) && s.cur <= MAX_BLOCKS
    ensures var s', mid := SubRoundsOn(s, views), SubRoundsOn(s, views[..k]);
      s'.cur <= mid.cur + |views| - k && s'.cur <= MAX_BLOCKS && SmallNumbers(s'.rows)
    decreases |views|
  {
    hide SubStep, SmallNumbers;
    if views == [] {
      assert views[..k] == views;
    } else if k == |views| {
      assert views[..k] == views;
      RoundsRaise(s, views[..|views| - 1], |views| - 1);
      RoundRaises(SubRoundsOn(s, views[..|views| - 1]), views[|views| - 1].chain);
    } else {
      assert views[..|views| - 1][..k] == views[..k];
      RoundsRaise(s, views[..|views| - 1], k);
      RoundRaises(SubRoundsOn(s, views[..|views| - 1]), views[|views| - 1].chain);
    }
  }

  /** Batch mode refines sub mode exactly when every block fits: from number 19 on, a
      successful batch leaves the same cursor, block rows and tables as rounds in
      sub mode that meet the same chains, if and only if the row below the cursor is
      on the first chain and every further chain keeps the block fetched before. */
  lemma BatchRefinesSub(s: ParserState, views: seq<View>)
    requires RETAINED - 1 <= s.cur && SmallNumbers(s.rows) && views != [] && BatchLoop(s, views).1
    ensures BatchStep(s, views, false) == SubRoundsOn(s, views) <==> AllFit(s, views)
  {
    hide BatchLoop, SubRoundsOn, Fits;
    BatchRowsAt(s, views, s.cur);
    if AllFit(s, views) {
      assert views[..|views|] == views;
      RoundsThatFit(s, views, |views|);
    } else {
      UnfitFallsBehind(s, views);
    }
  }

  lemma UnfitFallsBehind(s: ParserState, views: seq<View>)
    requires RETAINED - 1 <= s.cur && SmallNumbers(s.rows) && BatchLoop(s, views).1 && !AllFit(s, views)
    ensures SubRoundsOn(s, views).cur < s.cur + |views|
  {
    assert views[..|views|] == views;
    BatchRowsAt(s, views, s.cur);
    var k := FirstUnfit(s, views, 0);
    RoundsThatFit(s, views, k);
    NextFits(s, views, k);
    assert views[..k + 1][..k] == views[..k] && views[..k + 1][k] == views[k];
    assert SubRoundsOn(s, views[..k + 1]) == SubStep(SubRoundsOn(s, views[..k]), views[k].chain, NoFault);
    assert 0 < s.cur <= MAX_BLOCKS;
    hide *;
    RollsBackUnfit(SubRoundsOn(s, views[..k]), views[k].chain);
    RoundsRaise(s, views, k + 1);
  }

  lemma RollsBackUnfit(s: ParserState, chain: Hash)
    requires 0 < s.cur < |chain| && Forked(s, chain[..s.cur])
    ensures SubStep(s, chain, NoFault).cur == s.cur - 1
  {
    assert Parent(BlockAt(chain, s.cur)) == chain[..s.cur];
  }

  lemma {:induction false} FirstUnfit(s: ParserState, views: seq<View>, from: nat) returns (k: nat)
    requires from <= |views| && !AllFit(s, views) && forall j :: 0 <= j < from ==> Fits(s, views, j)
    ensures k < |views| && !Fits(s, views, k) && forall j :: 0 <= j < k ==> Fits(s, views, j)
    decreases |views| - from
  {
    if !Fits(s, views, from) { k := from; } else { k := FirstUnfit(s, views, from + 1); }
  }
}
