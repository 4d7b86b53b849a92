/** What sub mode does on a chain that stays fixed: it settles on that chain. */
module Convergence {
  import opened Uint64
  import opened Chain
  import opened PendingTable
  import opened BlockTable
  import opened Dao
  import opened BlockParser
  import opened ParserRuns
  import opened Linkage

  const QUIET: Step := SubRound(NoFault)

  /** n iterations of the parser's loop in sub mode without faults, while the
      guard compares the cursor with `target`, the tip number less ConfirmNum. */
  function Settle(w: World, target: nat, n: nat): World
    decreases n
  {
    if n == 0 then w else Settle(if w.st.cur < target then Next(w, QUIET) else w, target, n - 1)
  }

  /** The row below the cursor is not the canonical block. */
  predicate OffChain(w: World) {
    && 0 < w.st.cur <= |w.chain|
    && w.st.cur - 1 in w.st.rows
    && w.st.rows[w.st.cur - 1].hash != w.chain[..w.st.cur]
  }

  function Rewind(w: World, k: nat): World
    requires k <= w.st.cur
  {
    w.(st := w.st.(cur := w.st.cur - k))
  }

  /** How many rows directly below the cursor are off the chain. */
  function Rollbacks(w: World): nat
    decreases w.st.cur
  {
    if OffChain(w) then 1 + Rollbacks(Rewind(w, 1)) else 0
  }

  /** The rows from `base` to the cursor that pruning leaves are canonical. */
  predicate CanonicalFrom(w: World, base: nat) {
    forall m: uint64 :: base <= m < w.st.cur <= m + RETAINED && m < |w.chain| ==>
      m in w.st.rows && w.st.rows[m] == BlockRow(BlockAt(w.chain, m), w.chain[..m])
  }

  function BlocksBetween(chain: Hash, a: nat, b: nat): set<Hash>
    requires b <= |chain|
  {
    set k: nat | a <= k < b :: BlockAt(chain, k)
  }

  lemma RollbackRound(w: World)
    requires OffChain(w) && w.st.cur < |w.chain| && w.st.cur <= w.high
    ensures Next(w, QUIET) == Rewind(w, 1)
  {
  }

  lemma HandleRound(w: World)
    requires !OffChain(w) && RETAINED - 1 <= w.st.cur < |w.chain|
    ensures var w' := Next(w, QUIET);
      && w'.st.cur == w.st.cur + 1
      && w'.st.rows == Prune(Upsert(w.st.rows, w.st.cur, BlockRow(BlockAt(w.chain, w.st.cur), w.chain[..w.st.cur])), w.st.cur + 1 - RETAINED)
      && w'.chain == w.chain && w'.start == w.start && w'.high == (if w.high < w.st.cur + 1 then w.st.cur + 1 else w.high)
      && w'.handled == w.handled + {BlockAt(w.chain, w.st.cur)}
  {
    assert Parent(BlockAt(w.chain, w.st.cur)) == w.chain[..w.st.cur];
    assert Stores(w.st, w.chain, NoFault);
  }

  /** What handling the canonical block at the cursor keeps. */
  lemma HandleRoundMatches(w: World, base: nat)
    requires !OffChain(w) && RETAINED - 1 <= base <= w.st.cur < |w.chain|
    requires CanonicalFrom(w, base)
    ensures !OffChain(Next(w, QUIET)) && CanonicalFrom(Next(w, QUIET), base)
  {
    HandleRound(w);
    hide Next;
    assert BlockAt(w.chain, w.st.cur) == w.chain[..w.st.cur + 1];
  }

  lemma {:induction false} SettleBack(w: World, target: nat, n: nat, k: nat)
    requires w.st.cur < target <= |w.chain| && w.st.cur <= w.high
    requires k <= n && k <= Rollbacks(w)
    ensures k <= w.st.cur
    ensures Settle(w, target, n) == Settle(Rewind(w, k), target, n - k)
    ensures Rollbacks(Rewind(w, k)) == Rollbacks(w) - k
    decreases k
  {
    hide Next;
    if k > 0 {
      RollbackRound(w);
      SettleBack(Rewind(w, 1), target, n - 1, k - 1);
      assert Rewind(Rewind(w, 1), k - 1) == Rewind(w, k);
    } else {
      assert Rewind(w, 0) == w;
    }
  }

  /** World v has been reached from w by handling the canonical blocks from w's cursor to v's. */
  predicate Reached(w: World, v: World, base: nat) {
    && w.st.cur <= v.st.cur <= |w.chain| && v.chain == w.chain && v.start == w.start
    && v.high == (if w.high < v.st.cur then v.st.cur else w.high)
    && !OffChain(v) && CanonicalFrom(v, base)
    && v.handled == w.handled + BlocksBetween(w.chain, w.st.cur, v.st.cur)
  }

  lemma ReachedAlready(w: World, base: nat)
    requires !OffChain(w) && CanonicalFrom(w, base) && w.st.cur <= w.high && w.st.cur <= |w.chain|
    ensures Reached(w, w, base)
  {
  }

  lemma ReachedFurther(u: World, v: World, w: World, base: nat)
    requires Reached(u, v, base) && Reached(v, w, base)
    ensures Reached(u, w, base)
  {
  }

  lemma RoundReaches(w: World, base: nat)
    requires !OffChain(w) && RETAINED - 1 <= base <= w.st.cur <= w.high && w.st.cur < |w.chain|
    requires CanonicalFrom(w, base)
    ensures Reached(w, Next(w, QUIET), base) && Next(w, QUIET).st.cur == w.st.cur + 1 <= Next(w, QUIET).high
    ensures !OffChain(Next(w, QUIET)) && CanonicalFrom(Next(w, QUIET), base) && Next(w, QUIET).chain == w.chain
  {
    HandleRound(w);
    HandleRoundMatches(w, base);
    hide Next, OffChain, CanonicalFrom, Prune;
    assert BlocksBetween(w.chain, w.st.cur, w.st.cur + 1) == {BlockAt(w.chain, w.st.cur)};
  }

  lemma {:induction false} SettleForward(w: World, target: nat, n: nat, base: nat)
    requires !OffChain(w) && RETAINED - 1 <= base <= w.st.cur <= w.high && w.st.cur + n <= target <= |w.chain|
    requires CanonicalFrom(w, base)
    ensures Settle(w, target, n).st.cur == w.st.cur + n && Reached(w, Settle(w, target, n), base)
    decreases n
  {
    hide Next, Reached, OffChain, CanonicalFrom;
    if n > 0 {
      RoundReaches(w, base);
      SettleForward(Next(w, QUIET), target, n - 1, base);
      ReachedFurther(w, Next(w, QUIET), Settle(w, target, n), base);
    } else {
      ReachedAlready(w, base);
    }
  }

  lemma {:induction false} SettleIdle(w: World, target: nat, n: nat)
    requires target <= w.st.cur
    ensures Settle(w, target, n) == w
    decreases n
  {
    hide Next;
    if n > 0 { SettleIdle(w, target, n - 1); }
  }

  lemma {:induction false} SettleSplit(w: World, target: nat, a: nat, b: nat)
    ensures Settle(w, target, a + b) == Settle(Settle(w, target, a), target, b)
    decreases a
  {
    hide Next;
    if a > 0 { SettleSplit(if w.st.cur < target then Next(w, QUIET) else w, target, a - 1, b); }
  }

  /** The row names the canonical block of its number. */
  predicate OnChain(w: World, n: uint64)
    requires n in w.st.rows
  {
    n < |w.chain| && w.st.rows[n].hash == BlockAt(w.chain, n)
  }

  /** The rollback stops above the rows that are on the chain. */
  lemma {:induction false} RollbacksBounded(w: World, low: nat)
    requires low <= w.st.cur && forall n :: n in w.st.rows && n < low ==> OnChain(w, n)
    ensures Rollbacks(w) <= w.st.cur - low
    decreases w.st.cur
  {
    if OffChain(w) && low < w.st.cur {
      forall n | n in Rewind(w, 1).st.rows && n < low ensures OnChain(Rewind(w, 1), n) { assert OnChain(w, n); }
      RollbacksBounded(Rewind(w, 1), low);
    }
  }

  /** The state after the rollbacks and j - r handled blocks. */
  lemma Settled(w: World, target: nat, j: nat)
    requires w.st.cur < target <= |w.chain| && w.st.cur <= w.high
    requires RETAINED - 1 + Rollbacks(w) <= w.st.cur
    requires Rollbacks(w) <= j <= 2 * Rollbacks(w) + target - w.st.cur
    ensures Settle(w, target, j).st.cur == w.st.cur - 2 * Rollbacks(w) + j
    ensures Reached(Rewind(w, Rollbacks(w)), Settle(w, target, j), w.st.cur - Rollbacks(w))
  {
    hide Next, Settle, Reached;
    SettleBack(w, target, j, Rollbacks(w));
    SettleForward(Rewind(w, Rollbacks(w)), target, j - Rollbacks(w), w.st.cur - Rollbacks(w));
  }

  lemma RollbacksStayAboveStart(w: World)
    requires Safe(w)
    ensures Rollbacks(w) <= w.st.cur - w.start
  {
    RowsInRange(w);
    RollbacksBounded(w, w.start);
  }

  /** Rows below the window are gone when no prune failed; and when the rows are
      linked, those that a failed prune left are on the chain. */
  lemma AtMost20Rollbacks(w: World)
    requires Safe(w) && (ExactWindow(w) || Linked(w))
    ensures Rollbacks(w) <= RETAINED
  {
    if w.high <= w.start + RETAINED {
      assert w.st.cur <= w.high;
      RollbacksStayAboveStart(w);
    } else if ExactWindow(w) {
      RollbacksBounded(w, w.high - RETAINED);
    } else {
      LinkedRowsOnChain(w, w.high - RETAINED);
    }
  }

  lemma LinkedRowsOnChain(w: World, low: nat)
    requires Linked(w) && w.start + RETAINED < w.high && low == w.high - RETAINED && w.st.cur <= w.high
    ensures Rollbacks(w) <= RETAINED
  {
    hide Followed, Rollbacks;
    forall n | n in w.st.rows && n < low ensures OnChain(w, n) {
      assert OnFollowed(Followed(w), n, w.st.rows[n]);
      assert Followed(w)[..low][..n + 1] == Followed(w)[..n + 1] && w.chain[..low][..n + 1] == w.chain[..n + 1];
    }
    RollbacksBounded(w, low);
  }

  /** Sub mode rolls back r times in a row, never below the start number, then handles
      a block on every further round and never rolls back again; after exactly
      2r + target - cursor rounds it is at `target`, where it stays, and the rows
      it wrote are canonical. */
  ghost predicate ConvergesTo(w: World, target: nat)
    requires w.st.cur <= target
  {
    var r, c := Rollbacks(w), w.st.cur;
    && r <= c && w.start + r <= c
    && (forall j: nat :: j <= r ==> Settle(w, target, j) == Rewind(w, j))
    && (forall j: nat :: r <= j <= 2 * r + target - c ==>
          Settle(w, target, j).st.cur == c - 2 * r + j && Reached(Rewind(w, r), Settle(w, target, j), c - r))
    && (forall j: nat :: 2 * r + target - c <= j ==>
          Settle(w, target, j) == Settle(w, target, 2 * r + target - c) && Settle(w, target, j).st.cur == target)
  }

  /** In every run from a fresh start at number 19 or above, as soon as the chain
      stays fixed the parser settles on it.  If the run is steady, or if no prune has
      failed in it, it takes at most 20 rollbacks. */
  lemma Converges(chain: Hash, config: uint64, tables: Tables, steps: seq<Step>, target: nat)
    requires LegalRun(Begin(chain, config, tables), steps, RETAINED)
    ensures var w := Exec(Begin(chain, config, tables), steps);
      w.start >= RETAINED - 1 && w.st.cur < target <= |w.chain| ==> ConvergesTo(w, target)
    ensures var w0 := Begin(chain, config, tables);
      Exec(w0, steps).start >= RETAINED - 1 && (SteadyRun(w0, steps, false) || PrunesSucceed(w0, steps)) ==>
        Rollbacks(Exec(w0, steps)) <= RETAINED
  {
    var w0 := Begin(chain, config, tables);
    var w := Exec(w0, steps);
    BeginIsLinked(chain, config, tables);
    SafeAfterRun(w0, steps);
    if SteadyRun(w0, steps, false) { LinkedAfterRun(w0, steps, false); }
    if PrunesSucceed(w0, steps) { ExactWindowAfterRun(w0, steps); }
    hide *;
    if w.start >= RETAINED - 1 {
      if w.st.cur < target <= |w.chain| { ConvergesFrom(w, target); }
      if SteadyRun(w0, steps, false) || PrunesSucceed(w0, steps) { AtMost20Rollbacks(w); }
    }
  }

  lemma ConvergesFrom(w: World, target: nat)
    requires Safe(w) && w.st.cur < target <= |w.chain|
    ensures ConvergesTo(w, target)
  {
    RollbacksStayAboveStart(w);
    assert RETAINED - 1 <= w.start && w.st.cur <= w.high;
    hide *;
    ConvergesAbove(w, target);
  }

  lemma ConvergesAbove(w: World, target: nat)
    requires RETAINED - 1 <= w.start && w.start + Rollbacks(w) <= w.st.cur < target <= |w.chain| && w.st.cur <= w.high
    ensures ConvergesTo(w, target)
  {
    hide Rollbacks, Settle, Reached, Rewind;
    var r, c := Rollbacks(w), w.st.cur;
    forall j: nat | j <= r ensures Settle(w, target, j) == Rewind(w, j) { RollsBackFirst(w, target, j); }
    forall j: nat | r <= j <= 2 * r + target - c
      ensures Settle(w, target, j).st.cur == c - 2 * r + j && Reached(Rewind(w, r), Settle(w, target, j), c - r)
    {
      Settled(w, target, j);
    }
    forall j: nat | 2 * r + target - c <= j
      ensures Settle(w, target, j) == Settle(w, target, 2 * r + target - c) && Settle(w, target, j).st.cur == target
    {
      StaysSettled(w, target, j);
    }
  }

  lemma RollsBackFirst(w: World, target: nat, j: nat)
    requires w.st.cur < target <= |w.chain| && w.st.cur <= w.high && j <= Rollbacks(w) <= w.st.cur
    ensures Settle(w, target, j) == Rewind(w, j)
  {
    hide *;
    SettleBack(w, target, j, j);
    SettleZero(Rewind(w, j), target);
  }

  lemma StaysSettled(w: World, target: nat, j: nat)
    requires w.st.cur < target <= |w.chain| && w.st.cur <= w.high
    requires RETAINED - 1 + Rollbacks(w) <= w.st.cur
    requires 2 * Rollbacks(w) + target - w.st.cur <= j
    ensures var m := 2 * Rollbacks(w) + target - w.st.cur;
      Settle(w, target, j) == Settle(w, target, m) && Settle(w, target, j).st.cur == target
  {
    hide *;
    var m := 2 * Rollbacks(w) + target - w.st.cur;
    Settled(w, target, m);
    SettleSplit(w, target, m, j - m);
    SettleIdle(Settle(w, target, m), target, j - m);
  }

  lemma SettleZero(w: World, target: nat)
    ensures Settle(w, target, 0) == w
  {
  }

  lemma {:induction false} SettleKeepsWindow(w: World, target: nat, n: nat)
    requires Safe(w) && ExactWindow(w)
    ensures Safe(Settle(w, target, n)) && ExactWindow(Settle(w, target, n))
    decreases n
  {
    hide Safe, ExactWindow, Next;
    if n > 0 {
      QuietKeepsWindow(w);
      SettleKeepsWindow(if w.st.cur < target then Next(w, QUIET) else w, target, n - 1);
    }
  }

  lemma QuietKeepsWindow(w: World)
    requires Safe(w) && ExactWindow(w)
    ensures Safe(Next(w, QUIET)) && ExactWindow(Next(w, QUIET))
  {
    hide Next;
    SafeAfterRound(w, NoFault);
    ExactWindowAfterRound(w, NoFault);
  }
}
