/**
 How low a rollback may be when a restart interrupts it: exactly when rows keep
 linking, when recorded numbers agree, and when 20 rollbacks are enough.
 */
module Restarts {
  import opened Wrappers
  import opened Uint64
  import opened Chain
  import opened PendingTable
  import opened BlockTable
  import opened Dao
  import opened BlockParser
  import opened Handling
  import opened ParserRuns
  import opened Linkage
  import opened Convergence
  import opened Confirmations
  import opened Reachability
  import opened Necessity

  // ---------------------------------------------------------------- a fresh transaction

  lemma {:induction false} LongString(strings: set<string>) returns (r: string)
    ensures forall t :: t in strings ==> |t| < |r|
    decreases strings
  {
    if strings == {} {
      r := "";
    } else {
      var t :| t in strings;
      var rest := LongString(strings - {t});
      r := rest + t + "t";
      forall u | u in strings ensures |u| < |r| {
        if u != t { assert u in strings - {t}; }
      }
    }
  }

  function TxHashes(chain: Hash): set<string> {
    set n, i | 0 <= n < |chain| && 0 <= i < |chain[n].txs| :: chain[n].txs[i].hash
  }

  function Outpoints(t: PendingTable): set<string> {
    set id | id in t :: t[id].outpoint
  }

  /** The first blocks of both chains of the run, the transaction that the run is
      about, and the id of its row. */
  datatype Scene = Scene(base: Hash, hash: string, id: nat)

  predicate FreshScene(c: Scene, t: PendingTable) {
    c.hash !in TxHashes(c.base) && OutPoint0(c.hash) !in Outpoints(t) && c.id !in t
  }

  lemma SceneFor(base: Hash, t: PendingTable) returns (c: Scene)
    ensures c.base == base && FreshScene(c, t)
  {
    var hash := LongString(TxHashes(base) + Outpoints(t));
    var id := 0;
    if t.Keys != {} {
      var m := MaximumExists(t.Keys);
      id := m + 1;
    }
    c := Scene(base, hash, id);
    hide TxHashes, Outpoints;
    assert |OutPoint0(hash)| > |hash|;
  }

  function TxOf(c: Scene): Tx { Tx(c.hash, Some(UpdateKeyList), true) }

  function RowOf(c: Scene): PendingRow {
    PendingRow(UpdateKeyList, "master", OutPoint0(c.hash), 0, 0, Pending)
  }

  predicate RowFor(c: Scene, w: World) {
    c.id in w.st.tables.pending && HasKey(w.st.tables.pending[c.id], UpdateKeyList, OutPoint0(c.hash))
  }

  /** The first chain has the transaction in the second block above the base. */
  function ChainA(c: Scene): (h: Hash)
    requires |c.base| + 3 <= MAX_BLOCKS
    ensures |h| == |c.base| + 3
  {
    c.base + [Body([], 0, 1), Body([TxOf(c)], 0, 1), Body([], 0, 1)]
  }

  /** The second chain has it in the first. */
  function ChainB(c: Scene): (h: Hash)
    requires |c.base| + 3 <= MAX_BLOCKS
    ensures |h| == |c.base| + 3
  {
    c.base + [Body([TxOf(c)], 0, 2), Body([], 0, 2), Body([], 0, 2)]
  }

  lemma ChainFacts(c: Scene)
    requires |c.base| + 3 <= MAX_BLOCKS
    ensures var s, a, b := |c.base|, ChainA(c), ChainB(c);
      && a[..s] == c.base == b[..s]
      && a[s] == Body([], 0, 1) && a[s + 1] == Body([TxOf(c)], 0, 1) && b[s] == Body([TxOf(c)], 0, 2)
      && BlockAt(a, s) == a[..s + 1] == Parent(BlockAt(a, s + 1)) && BlockAt(a, s + 1) == a[..s + 2]
      && BlockAt(b, s) == b[..s + 1]
      && a[..s + 1] != b[..s + 1] && a[..s + 2] != b[..s + 2]
  {
    var s, a, b := |c.base|, ChainA(c), ChainB(c);
    assert a[..s + 1][s] != b[..s + 1][s] && a[..s + 2][s] != b[..s + 2][s];
  }

  lemma ChainsOnce(c: Scene)
    requires |c.base| + 3 <= MAX_BLOCKS && TxOnce(c.base) && c.hash !in TxHashes(c.base)
    ensures TxOnce(ChainA(c)) && TxOnce(ChainB(c))
  {
    forall n, i | 0 <= n < |c.base| && 0 <= i < |c.base[n].txs| ensures c.base[n].txs[i].hash != c.hash {
      assert c.base[n].txs[i].hash in TxHashes(c.base);
    }
  }

  lemma BaseOnce(chain: Hash, s: nat)
    requires s <= MAX_BLOCKS && TxOnce(chain)
    ensures TxOnce(Base(chain, s))
  {
  }

  // ---------------------------------------------------------------- the run

  /** A fault-free round that handles a block, as it acts on one pending row. */
  lemma HandlesRow(w: World, id: nat)
    requires !OffChain(w) && RETAINED - 1 <= w.st.cur < |w.chain| && id in w.st.tables.pending
    ensures var w', b, row := Next(w, QUIET), BlockAt(w.chain, w.st.cur), w.st.tables.pending[id];
      && id in w'.st.tables.pending
      && w'.st.tables.pending[id] == (if Mentions(b, row) then ConfirmedBy(b, row) else row)
      && (Mentions(b, row) || id in w.seen ==> id in w'.seen)
  {
    assert Parent(BlockAt(w.chain, w.st.cur)) == w.chain[..w.st.cur];
    assert Handles(w.st, w.chain, NoFault);
    ParseBlockRows(w.st.tables, BlockAt(w.chain, w.st.cur), NoFault);
    hide ParseBlock, HandleAll;
  }

  /** The two rows, the row's block number, and the history, at one point of the run. */
  predicate Snapshot(w: World, c: Scene, chain: Hash, cur: nat, lower: Hash, upper: Hash, number: uint64) {
    var s := |c.base|;
    && w.chain == chain && w.start == s && w.high == s + 2 && w.st.cur == cur
    && s in w.st.rows && s + 1 in w.st.rows && (forall n :: n in w.st.rows ==> n == s || n == s + 1)
    && |upper| > 0 && w.st.rows[s].hash == lower && w.st.rows[s + 1] == BlockRow(upper, Parent(upper))
    && c.id in w.seen && RowFor(c, w) && w.st.tables.pending[c.id].blockNumber == number
  }

  lemma OnlyThisBlockMentions(c: Scene, chain: Hash, n: nat, row: PendingRow)
    requires n < |chain| && HasKey(row, UpdateKeyList, OutPoint0(c.hash))
    ensures chain[n].txs == [] ==> !Mentions(BlockAt(chain, n), row)
    ensures chain[n].txs == [TxOf(c)] ==> Mentions(BlockAt(chain, n), row)
  {
    if chain[n].txs == [TxOf(c)] {
      assert TxConfirms(BodyOf(BlockAt(chain, n)).txs[0], row);
    }
  }

  /** The sender inserts the row, and the node's chain becomes the first one. */
  lemma RowInserted(w: World, c: Scene)
    requires FreshScene(c, w.st.tables.pending)
    ensures var v := Next(w, NewPending(c.id, RowOf(c)));
      && v == w.(st := w.st.(tables := v.st.tables)) && RowFor(c, v)
  {
    forall id | id in w.st.tables.pending ensures !HasKey(w.st.tables.pending[id], UpdateKeyList, OutPoint0(c.hash)) {
      assert w.st.tables.pending[id].outpoint in Outpoints(w.st.tables.pending);
    }
  }

  /** Blocks s and s + 1 of the first chain are handled. */
  lemma FirstChainHandled(w: World, c: Scene)
    requires RETAINED - 1 <= |c.base| && |c.base| + 3 <= MAX_BLOCKS && w.chain == ChainA(c)
    requires w.start == w.high == w.st.cur == |c.base| && w.st.rows == map[] && RowFor(c, w)
    ensures var s, a := |c.base|, ChainA(c);
      Snapshot(Next(Next(w, QUIET), QUIET), c, a, s + 2, BlockAt(a, s), BlockAt(a, s + 1), s + 1)
  {
    hide Next, ChainA;
    var s, a := |c.base|, ChainA(c);
    ChainFacts(c);
    var row := w.st.tables.pending[c.id];
    OnlyThisBlockMentions(c, a, s, row);
    OnlyThisBlockMentions(c, a, s + 1, row);
    HandleRound(w);
    HandlesRow(w, c.id);
    hide Mentions;
    HandleRound(Next(w, QUIET));
    HandlesRow(Next(w, QUIET), c.id);
  }

  /** On the second chain the parser rolls back twice and handles its block s. */
  lemma SecondChainHandled(w: World, c: Scene)
    requires RETAINED - 1 <= |c.base| && |c.base| + 3 <= MAX_BLOCKS
    requires var s, a := |c.base|, ChainA(c);
      Snapshot(w, c, ChainB(c), s + 2, BlockAt(a, s), BlockAt(a, s + 1), s + 1)
    ensures var s, a, b := |c.base|, ChainA(c), ChainB(c);
      Snapshot(Next(Next(Next(w, QUIET), QUIET), QUIET), c, b, s + 1, BlockAt(b, s), BlockAt(a, s + 1), s)
  {
    hide Next, ChainA, ChainB;
    var s, a, b := |c.base|, ChainA(c), ChainB(c);
    ChainFacts(c);
    RollbackRound(w);
    RollbackRound(Rewind(w, 1));
    assert Rewind(Rewind(w, 1), 1) == Rewind(w, 2);
    OnlyThisBlockMentions(c, b, s, w.st.tables.pending[c.id]);
    hide Mentions, BlockAt;
    HandleRound(Rewind(w, 2));
    HandlesRow(Rewind(w, 2), c.id);
  }

  lemma RestartReturnsToHigh(w: World, c: Scene, chain: Hash, lower: Hash, upper: Hash, number: uint64)
    requires Snapshot(w, c, chain, |c.base| + 1, lower, upper, number) && |c.base| + 3 <= MAX_BLOCKS
    ensures Snapshot(Next(w, Restart), c, chain, |c.base| + 2, lower, upper, number)
  {
    assert Highest(w.st.rows) == |c.base| + 1;
  }

  lemma SnapshotOnChain(w: World, c: Scene, chain: Hash, chain': Hash, cur: nat, lower: Hash, upper: Hash, number: uint64)
    requires Snapshot(w, c, chain, cur, lower, upper, number)
    ensures Snapshot(Next(w, Reorg(chain')), c, chain', cur, lower, upper, number)
  {
  }

  lemma NotReorgWithin(w: World, step: Step, limits: Limits)
    requires step == QUIET || (step.Restart? && w.high <= w.st.cur + limits.lag)
          || (step.NewPending? && step.row.blockNumber == 0 && step.row.status == Pending)
    ensures Within(w, step, limits)
  {
  }

  /** The world at the end of the run: the row below the cursor is canonical, yet row
      s names a block of the other chain, and the pending row records it. */
  predicate Mixed(w: World, c: Scene)
    requires |c.base| + 3 <= MAX_BLOCKS
  {
    var s, a, b := |c.base|, ChainA(c), ChainB(c);
    Snapshot(w, c, a, s + 2, BlockAt(b, s), BlockAt(a, s + 1), s)
  }

  /** Legal reorganisations between the two chains. */
  lemma SwitchIsWithin(w: World, c: Scene, chain: Hash, limits: Limits)
    requires |c.base| + 3 <= MAX_BLOCKS && w.high <= |c.base| + 2 && limits.depth == RETAINED
    requires w.chain == ChainA(c) || w.chain == ChainB(c) || c.base == Base(w.chain, |c.base|)
    requires chain == ChainA(c) || chain == ChainB(c)
    requires limits.once ==> TxOnce(ChainA(c)) && TxOnce(ChainB(c))
    ensures Within(w, Reorg(chain), limits)
  {
    ChainFacts(c);
    hide ChainA, ChainB, Base, KeepsBelow, TxOnce;
    SameBaseIsLegal(w, chain, c.base, RETAINED);
    ReorgIsWithin(w, chain, limits);
  }

  /** The first half of the run: up to the reorganisation to the second chain. */
  lemma OutwardRun(w0: World, w: World, c: Scene, limits: Limits) returns (v: World)
    requires Reaches(w0, w, limits) && limits.depth == RETAINED
    requires RETAINED - 1 <= |c.base| && |c.base| + 3 <= MAX_BLOCKS && FreshScene(c, w.st.tables.pending)
    requires w.start == w.high == w.st.cur == |c.base| && w.st.rows == map[] && c.base == Base(w.chain, |c.base|)
    requires limits.once ==> TxOnce(ChainA(c)) && TxOnce(ChainB(c))
    ensures Reaches(w0, v, limits)
    ensures var s, a := |c.base|, ChainA(c);
      Snapshot(v, c, ChainB(c), s + 2, BlockAt(a, s), BlockAt(a, s + 1), s + 1)
  {
    var s, a, b := |c.base|, ChainA(c), ChainB(c);
    hide *;
    var w1 := Next(w, NewPending(c.id, RowOf(c)));
    RowInserted(w, c);
    NotReorgWithin(w, NewPending(c.id, RowOf(c)), limits);
    ReachesNext(w0, w, NewPending(c.id, RowOf(c)), limits);
    var w2 := Next(w1, Reorg(a));
    NextReorg(w1, a);
    SwitchIsWithin(w1, c, a, limits);
    ReachesNext(w0, w1, Reorg(a), limits);
    SameRow(c, w1, w2);
    FirstChainHandled(w2, c);
    var w4 := Next(Next(w2, QUIET), QUIET);
    NotReorgWithin(w2, QUIET, limits);
    NotReorgWithin(Next(w2, QUIET), QUIET, limits);
    ReachesNext(w0, w2, QUIET, limits);
    ReachesNext(w0, Next(w2, QUIET), QUIET, limits);
    v := Next(w4, Reorg(b));
    SnapshotMeans(w4, c, a, s + 2, BlockAt(a, s), BlockAt(a, s + 1), s + 1);
    SwitchIsWithin(w4, c, b, limits);
    ReachesNext(w0, w4, Reorg(b), limits);
    SnapshotOnChain(w4, c, a, b, s + 2, BlockAt(a, s), BlockAt(a, s + 1), s + 1);
  }

  lemma SameRow(c: Scene, w: World, v: World)
    requires RowFor(c, w) && v.st.tables == w.st.tables
    ensures RowFor(c, v)
  {
  }

  lemma SnapshotMeans(w: World, c: Scene, chain: Hash, cur: nat, lower: Hash, upper: Hash, number: uint64)
    requires Snapshot(w, c, chain, cur, lower, upper, number)
    ensures w.chain == chain && w.high == |c.base| + 2 && w.st.cur == cur && w.start == |c.base|
  {
  }

  /** Two rollbacks, and one block of the second chain. */
  lemma RollbackRun(w0: World, w: World, c: Scene, limits: Limits) returns (v: World)
    requires Reaches(w0, w, limits) && RETAINED - 1 <= |c.base| && |c.base| + 3 <= MAX_BLOCKS
    requires var s, a := |c.base|, ChainA(c);
      Snapshot(w, c, ChainB(c), s + 2, BlockAt(a, s), BlockAt(a, s + 1), s + 1)
    ensures Reaches(w0, v, limits)
    ensures var s, a, b := |c.base|, ChainA(c), ChainB(c);
      Snapshot(v, c, b, s + 1, BlockAt(b, s), BlockAt(a, s + 1), s)
  {
    hide *;
    SecondChainHandled(w, c);
    var w1 := Next(w, QUIET);
    var w2 := Next(w1, QUIET);
    NotReorgWithin(w, QUIET, limits);
    NotReorgWithin(w1, QUIET, limits);
    NotReorgWithin(w2, QUIET, limits);
    ReachesNext(w0, w, QUIET, limits);
    ReachesNext(w0, w1, QUIET, limits);
    ReachesNext(w0, w2, QUIET, limits);
    v := Next(w2, QUIET);
  }

  /** The restart, and the reorganisation back. */
  lemma HomewardRun(w0: World, w: World, c: Scene, limits: Limits) returns (v: World)
    requires Reaches(w0, w, limits) && limits.depth == RETAINED && limits.lag >= 1
    requires |c.base| + 3 <= MAX_BLOCKS
    requires var s, a, b := |c.base|, ChainA(c), ChainB(c);
      Snapshot(w, c, b, s + 1, BlockAt(b, s), BlockAt(a, s + 1), s)
    requires limits.once ==> TxOnce(ChainA(c)) && TxOnce(ChainB(c))
    ensures Reaches(w0, v, limits) && Mixed(v, c)
  {
    var s, a, b := |c.base|, ChainA(c), ChainB(c);
    hide Next, Reaches, Within, Snapshot, ChainA, ChainB, BlockAt, TxOnce;
    SnapshotMeans(w, c, b, s + 1, BlockAt(b, s), BlockAt(a, s + 1), s);
    RestartReturnsToHigh(w, c, b, BlockAt(b, s), BlockAt(a, s + 1), s);
    NotReorgWithin(w, Restart, limits);
    ReachesNext(w0, w, Restart, limits);
    var w1 := Next(w, Restart);
    SnapshotMeans(w1, c, b, s + 2, BlockAt(b, s), BlockAt(a, s + 1), s);
    SwitchIsWithin(w1, c, a, limits);
    ReachesNext(w0, w1, Reorg(a), limits);
    v := Next(w1, Reorg(a));
    SnapshotOnChain(w1, c, b, a, s + 2, BlockAt(b, s), BlockAt(a, s + 1), s);
  }

  /** A restart that finds the cursor one below `high`, after a block there has been
      handled again, brings the cursor back above rows of an orphaned chain.  From
      every fresh start such a run mixes the rows of two chains. */
  lemma RestartMixesChains(chain: Hash, config: uint64, tables: Tables, limits: Limits) returns (c: Scene, v: World)
    requires var s := Begin(chain, config, tables).start; RETAINED - 1 <= s && s + 3 <= MAX_BLOCKS
    requires limits.depth == RETAINED && limits.lag >= 1 && (limits.once ==> TxOnce(chain))
    ensures |c.base| == Begin(chain, config, tables).start
    ensures Reaches(Begin(chain, config, tables), v, limits) && Mixed(v, c)
  {
    hide *;
    var w := Begin(chain, config, tables);
    BeginIs(chain, config, tables);
    c := SceneFor(Base(chain, w.start), tables.pending);
    if limits.once {
      BaseOnce(chain, w.start);
      SceneIsOnce(c, tables.pending);
    }
    ReachesSelf(w, limits);
    var w4 := OutwardRun(w, w, c, limits);
    var w7 := RollbackRun(w, w4, c, limits);
    v := HomewardRun(w, w7, c, limits);
  }

  lemma SceneIsOnce(c: Scene, t: PendingTable)
    requires |c.base| + 3 <= MAX_BLOCKS && TxOnce(c.base) && FreshScene(c, t)
    ensures TxOnce(ChainA(c)) && TxOnce(ChainB(c))
  {
    ChainsOnce(c);
    hide ChainA, ChainB, TxOnce;
  }

  lemma MixedBreaks(w: World, c: Scene)
    requires |c.base| + 3 <= MAX_BLOCKS && Mixed(w, c)
    ensures w.start == |c.base| && !RowsLink(w) && !NumbersAgree(w)
  {
    var s, a := |c.base|, ChainA(c);
    ChainFacts(c);
    OnlyThisBlockMentions(c, a, s + 1, w.st.tables.pending[c.id]);
    hide ChainA, ChainB, Mentions;
    var n: uint64 := s + 1;
    assert w.st.rows[n].parent != w.st.rows[n - 1].hash;
    assert ExpectedAt(a, n, w.st.tables.pending[c.id]);
    assert CursorRowCanonical(w);
  }

  // ---------------------------------------------------------------- exactly when it matters

  /** Stored rows below the cursor link in every run of an epoch exactly when no
      restart finds the cursor below `high`. */
  lemma RestartLagIsExactForRows(chain: Hash, config: uint64, tables: Tables, lag: nat)
    requires var s := Begin(chain, config, tables).start; RETAINED - 1 <= s && s + 3 <= MAX_BLOCKS
    ensures var w := Begin(chain, config, tables);
      (forall steps :: LegalRun(w, steps, RETAINED) && LagRun(w, steps, lag) && Exec(w, steps).start == w.start ==>
         RowsLink(Exec(w, steps)))
      <==> lag == 0
  {
    var w := Begin(chain, config, tables);
    if lag == 0 {
      forall steps | LegalRun(w, steps, RETAINED) && LagRun(w, steps, lag) && Exec(w, steps).start == w.start
        ensures RowsLink(Exec(w, steps))
      {
        NoLagIsSteady(w, steps, false);
        RowsAreLinked(chain, config, tables, steps);
      }
    } else {
      var c, v := RestartMixesChains(chain, config, tables, Limits(RETAINED, lag, false));
      MixedBreaks(v, c);
      var steps := SomeRun(w, v, Limits(RETAINED, lag, false));
    }
  }

  /** Recorded block numbers agree with the canonical chain in every run of an epoch
      exactly when no restart finds the cursor below `high`. */
  lemma RestartLagIsExactForNumbers(chain: Hash, config: uint64, tables: Tables, lag: nat)
    requires var s := Begin(chain, config, tables).start; RETAINED - 1 <= s && s + 3 <= MAX_BLOCKS
    requires TxOnce(chain)
    ensures var w := Begin(chain, config, tables);
      (forall steps :: LegalRun(w, steps, RETAINED) && LagRun(w, steps, lag) && Exec(w, steps).start == w.start
                       && (forall step :: step in steps ==> ValidChain(step)) ==>
         NumbersAgree(Exec(w, steps)))
      <==> lag == 0
  {
    var w := Begin(chain, config, tables);
    hide TxOnce, NumbersAgree;
    if lag == 0 {
      forall steps | LegalRun(w, steps, RETAINED) && LagRun(w, steps, lag) && Exec(w, steps).start == w.start
                     && forall step :: step in steps ==> ValidChain(step)
        ensures NumbersAgree(Exec(w, steps))
      {
        NoLagIsSteady(w, steps, false);
        ConfirmationsAgree(chain, config, tables, steps);
      }
    } else {
      var c, v := RestartMixesChains(chain, config, tables, Limits(RETAINED, lag, true));
      MixedBreaks(v, c);
      var steps := SomeRun(w, v, Limits(RETAINED, lag, true));
    }
  }
}
