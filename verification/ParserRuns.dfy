/**
 Runs of the block parser: rounds, reorganisations of the chain, restarts and
 new pending rows in any order.
 */
module ParserRuns {
  import opened Uint64
  import opened Chain
  import opened PendingTable
  import opened BlockTable
  import opened Dao
  import opened BlockParser
  import opened Handling

  /** The node's chain, the configured start, the parser and its tables, and the
      history of the current epoch.  An epoch begins with a start that finds no
      stored row: `start` is the cursor it begins with, `high` the highest cursor
      reached, `handled` the blocks all of whose transactions were handled, and
      `seen` the ids of rows that existed when a block with their transaction
      was handled. */
  datatype World = World(
    chain: Hash,
    config: uint64,
    st: ParserState,
    start: nat,
    high: nat,
    handled: set<Hash>,
    seen: set<nat>)

  datatype Step =
    | Reorg(chain: Hash)
    | SubRound(fault: Fault)
    | BatchRound(views: seq<View>, pruneFails: bool)
    | Restart
    | NewPending(id: nat, row: PendingRow)

  function Tip(chain: Hash): uint64 {
    if |chain| == 0 then 0 else |chain| - 1
  }

  /** The first state of an epoch. */
  function Begin(chain: Hash, config: uint64, tables: Tables): World {
    var cur := InitCursor(map[], config, Tip(chain));
    World(chain, config, ParserState(cur, map[], tables), cur, cur, {}, {})
  }

  /** The block that an iteration of a batch handles, if any. */
  function IterationHandles(s: ParserState, v: View): set<Hash> {
    if Fetches(s, v.chain, v.fault) && !Interrupts(v.fault, BlockAt(v.chain, s.cur)) then {BlockAt(v.chain, s.cur)} else {}
  }

  function BatchHandled(s: ParserState, views: seq<View>): set<Hash>
    decreases |views|
  {
    if views == [] then {}
    else
      var (mid, ok) := BatchLoop(s, views[..|views| - 1]);
      BatchHandled(s, views[..|views| - 1]) + if ok then IterationHandles(mid, views[|views| - 1]) else {}
  }

  /** The blocks the step handles completely. */
  function HandledBy(w: World, step: Step): set<Hash> {
    match step
    case SubRound(fault) => if Handles(w.st, w.chain, fault) then {BlockAt(w.chain, w.st.cur)} else {}
    case BatchRound(views, _) => BatchHandled(w.st, views)
    case _ => {}
  }

  /** The world after a round that moved the parser to `st` and handled `blocks`. */
  function Advance(w: World, st: ParserState, blocks: set<Hash>): World {
    w.(st := st,
       high := if w.high < st.cur then st.cur else w.high,
       handled := w.handled + blocks,
       seen := w.seen + (set id | id in w.st.tables.pending
                                && exists h :: h in blocks && Mentions(h, w.st.tables.pending[id])))
  }

  function Next(w: World, step: Step): World {
    match step
    case Reorg(chain) => w.(chain := chain)
    case SubRound(fault) => Advance(w, SubStep(w.st, w.chain, fault), HandledBy(w, step))
    case BatchRound(views, pruneFails) => Advance(w, BatchStep(w.st, views, pruneFails), HandledBy(w, step))
    case Restart =>
      if w.st.rows.Keys == {} then Begin(w.chain, w.config, w.st.tables)
      else w.(st := w.st.(cur := InitCursor(w.st.rows, w.config, Tip(w.chain))))
    case NewPending(id, row) =>
      w.(st := w.st.(tables := w.st.tables.(pending := Apply(w.st.tables.pending, Create(id, row)))))
  }

  /** The new chain replaces only numbers that are at most `depth` below the
      highest cursor. */
  predicate KeepsBelow(w: World, chain: Hash, depth: nat) {
    var k := Fixed(w, depth);
    k <= |chain| && chain[..k] == w.chain[..k]
  }

  /** How many blocks of the chain lie more than `depth` below the highest cursor. */
  function Fixed(w: World, depth: nat): (k: nat)
    ensures k <= |w.chain|
  {
    if w.high <= depth then 0 else if w.high - depth <= |w.chain| then w.high - depth else |w.chain|
  }

  /** Steps of a run whose reorganisations reach at most `depth` blocks down, and
      whose batches meet one chain, on which the row below the cursor lies. */
  predicate Legal(w: World, step: Step, depth: nat) {
    match step
    case Reorg(chain) => KeepsBelow(w, chain, depth)
    case BatchRound(views, _) => MeetsChain(w, views)
    case NewPending(_, row) => row.blockNumber == 0 && row.status == Pending
    case _ => true
  }

  predicate MeetsChain(w: World, views: seq<View>) {
    && views != [] && (forall v :: v in views ==> v.chain == w.chain)
    && NotForked(w.st, w.chain)
  }

  predicate NotForked(s: ParserState, chain: Hash) {
    s.cur < |chain| ==> !Forked(s, chain[..s.cur])
  }

  function Exec(w: World, steps: seq<Step>): World
    decreases |steps|
  {
    if steps == [] then w else Exec(Next(w, steps[0]), steps[1..])
  }

  predicate LegalRun(w: World, steps: seq<Step>, depth: nat)
    decreases |steps|
  {
    steps == [] || (Legal(w, steps[0], depth) && LegalRun(Next(w, steps[0]), steps[1..], depth))
  }

  lemma {:induction false} ExecAppend(w: World, a: seq<Step>, b: seq<Step>, depth: nat)
    ensures Exec(w, a + b) == Exec(Exec(w, a), b)
    ensures LegalRun(w, a + b, depth) <==> LegalRun(w, a, depth) && LegalRun(Exec(w, a), b, depth)
    decreases |a|
  {
    if a == [] {
      assert a + b == b;
    } else {
      assert (a + b)[0] == a[0] && (a + b)[1..] == a[1..] + b;
      ExecAppend(Next(w, a[0]), a[1..], b, depth);
    }
  }

  // ---------------------------------------------------------------- safety

  /** Every handled block is at or above the start, and all its ancestors from
      the start on have been handled. */
  predicate AncestorsHandled(w: World) {
    forall h, n :: h in w.handled && w.start <= n < |h| ==> BlockAt(h, n) in w.handled
  }

  predicate ParentClosed(w: World) {
    forall h :: h in w.handled ==> |h| > w.start && (|h| > w.start + 1 ==> Parent(h) in w.handled)
  }

  predicate RowFits(w: World, n: uint64)
    requires n in w.st.rows
  {
    var row := w.st.rows[n];
    w.start <= n < w.high && row.hash in w.handled && |row.hash| == n + 1 && row.parent == Parent(row.hash)
  }

  /** The canonical block numbered n exists and has been handled. */
  predicate HandledOnChain(chain: Hash, handled: set<Hash>, n: nat) {
    n < |chain| && BlockAt(chain, n) in handled
  }

  /** What a sub-mode run with shallow reorganisations keeps. */
  predicate Safe(w: World) {
    && RETAINED - 1 <= w.start <= w.st.cur <= w.high
    && (w.high == w.start || w.high <= MAX_BLOCKS)
    && ParentClosed(w)
    && (forall n :: n in w.st.rows ==> RowFits(w, n))
    && (forall n: nat :: w.start <= n < w.high <= n + RETAINED ==> n in w.st.rows)
    && (forall n: nat :: w.start <= n && n + RETAINED < w.high ==> HandledOnChain(w.chain, w.handled, n))
  }

  lemma RowsInRange(w: World)
    requires Safe(w)
    ensures forall n :: n in w.st.rows ==> w.start <= n < w.high
  {
  }

  lemma {:induction false} ClosedUpwards(w: World, h: Hash, n: nat)
    requires ParentClosed(w) && h in w.handled && w.start <= n < |h|
    ensures BlockAt(h, n) in w.handled
    decreases |h|
  {
    if n + 1 == |h| {
      assert h[..n + 1] == h;
    } else {
      ClosedUpwards(w, Parent(h), n);
      assert Parent(h)[..n + 1] == h[..n + 1];
    }
  }

  lemma ClosedMeansAncestors(w: World)
    requires ParentClosed(w)
    ensures AncestorsHandled(w)
  {
    forall h, n | h in w.handled && w.start <= n < |h| ensures BlockAt(h, n) in w.handled {
      ClosedUpwards(w, h, n);
    }
  }

  /** The parent of a block that passes the fork check has been handled. */
  lemma ParentHandled(w: World, fault: Fault)
    requires Safe(w) && PassesCheck(w.st, w.chain, fault) && w.st.cur > w.start
    ensures w.chain[..w.st.cur] in w.handled
  {
    var below: nat := w.st.cur - 1;
    assert Parent(BlockAt(w.chain, w.st.cur)) == w.chain[..below + 1];
    if below in w.st.rows {
      assert RowFits(w, below);
    } else {
      assert HandledOnChain(w.chain, w.handled, below);
    }
  }

  /** Steps that handle and store nothing only need to keep the cursor in range. */
  lemma SafeIfNothingStored(w: World, w': World)
    requires Safe(w)
    requires w'.chain == w.chain && w'.start == w.start && w'.high == w.high && w'.handled == w.handled
    requires w'.st.rows == w.st.rows && w.start <= w'.st.cur <= w.high
    ensures Safe(w')
  {
  }

  /** The block at the cursor joins the handled ones. */
  lemma SafeWithBlock(w: World, fault: Fault, w': World)
    requires Safe(w) && PassesCheck(w.st, w.chain, fault)
    requires w' == w.(handled := w.handled + {BlockAt(w.chain, w.st.cur)}, st := w'.st, seen := w'.seen)
    requires w'.st.rows == w.st.rows && w'.st.cur == w.st.cur
    ensures Safe(w')
  {
    if w.st.cur > w.start {
      ParentHandled(w, fault);
      assert Parent(BlockAt(w.chain, w.st.cur)) == w.chain[..w.st.cur];
    }
    forall n: nat | w.start <= n && n + RETAINED < w.high ensures HandledOnChain(w'.chain, w'.handled, n) {
      assert HandledOnChain(w.chain, w.handled, n);
    }
    forall n | n in w'.st.rows ensures RowFits(w', n) { assert RowFits(w, n); }
  }

  /** A handled block is stored, the cursor passes it, and old rows may be pruned. */
  lemma SafeWithRow(w: World, bound: nat, w': World)
    requires Safe(w) && w.st.cur < |w.chain| && BlockAt(w.chain, w.st.cur) in w.handled
    requires var b := BlockAt(w.chain, w.st.cur);
      && w' == w.(st := w'.st, high := if w.high < w'.st.cur then w'.st.cur else w.high)
      && w'.st.cur == Add(w.st.cur, 1)
      && w'.st.rows == Prune(Upsert(w.st.rows, w.st.cur, BlockRow(b, Parent(b))), bound)
    requires bound == 0 || bound + RETAINED == w.st.cur + 1
    ensures Safe(w')
  {
    var b := BlockAt(w.chain, w.st.cur);
    assert ParentClosed(w');
    forall n: nat | w.start <= n < w'.high <= n + RETAINED ensures n in w'.st.rows {
      assert n == w.st.cur || n in w.st.rows;
    }
    forall n: nat | w.start <= n && n + RETAINED < w'.high ensures HandledOnChain(w'.chain, w'.handled, n) {
      if n + RETAINED < w.high {
        assert HandledOnChain(w.chain, w.handled, n);
      } else {
        ClosedUpwards(w, b, n);
        assert BlockAt(b, n) == BlockAt(w.chain, n);
      }
    }
    forall n | n in w'.st.rows ensures RowFits(w', n) {
      if n != w.st.cur { assert RowFits(w, n); }
    }
  }

  lemma SafeAfterRound(w: World, fault: Fault)
    requires Safe(w)
    ensures Safe(Next(w, SubRound(fault)))
  {
    hide ParseBlock, ParentClosed;
    var w' := Next(w, SubRound(fault));
    if Handles(w.st, w.chain, fault) {
      var mid := w.(handled := w'.handled, seen := w'.seen, st := w.st.(tables := w'.st.tables));
      SafeWithBlock(w, fault, mid);
      if Stores(w.st, w.chain, fault) {
        var b := BlockAt(w.chain, w.st.cur);
        var rows := Upsert(w.st.rows, w.st.cur, BlockRow(b, Parent(b)));
        assert Prune(rows, 0) == rows;
        SafeWithRow(mid, if fault.PruneFails? then 0 else w.st.cur + 1 - RETAINED, w');
      } else {
        assert w' == mid;
      }
    } else {
      assert w'.handled == w.handled;
      if RollsBack(w.st, w.chain, fault) { assert RowFits(w, Sub(w.st.cur, 1)); }
      SafeIfNothingStored(w, w');
    }
  }

  lemma SafeAfterReorg(w: World, chain: Hash)
    requires Safe(w) && KeepsBelow(w, chain, RETAINED)
    ensures Safe(Next(w, Reorg(chain)))
  {
    var w' := Next(w, Reorg(chain));
    forall n: nat | w.start <= n && n + RETAINED < w.high
      ensures HandledOnChain(w'.chain, w'.handled, n)
    {
      assert HandledOnChain(w.chain, w.handled, n);
      var k := Fixed(w, RETAINED);
      assert chain[..n + 1] == chain[..k][..n + 1] == w.chain[..k][..n + 1] == w.chain[..n + 1];
    }
    forall n | n in w'.st.rows ensures RowFits(w', n) { assert RowFits(w, n); }
  }

  // ---------------------------------------------------------------- batches

  /** The fault with which a round in sub mode does what an iteration of a batch does. */
  function RoundFault(s: ParserState, v: View): Fault {
    if BatchStores(s, v) then PruneFails else v.fault
  }

  /** The rounds in sub mode that do what the iterations of a batch do. */
  function AsRounds(w: World, views: seq<View>): World
    decreases |views|
  {
    if views == [] then w
    else
      var u := AsRounds(w, views[..|views| - 1]);
      if BatchLoop(w.st, views[..|views| - 1]).1 then Next(u, SubRound(RoundFault(u.st, views[|views| - 1]))) else u
  }

  function Pruned(w: World): World {
    w.(st := w.st.(rows := Prune(w.st.rows, Sub(w.st.cur, RETAINED))))
  }

  lemma IterationIsRound(u: World, v: View)
    requires Safe(u) && v.chain == u.chain && NotForked(u.st, u.chain)
    ensures var u' := Next(u, SubRound(RoundFault(u.st, v)));
      && (if Fetches(u.st, u.chain, v.fault) then u'.st == Store(u.st, u.chain, v.fault) else u'.st == u.st)
      && (BatchStores(u.st, v) ==> NotForked(u'.st, u.chain) && u'.st.cur == u.st.cur + 1)
      && (!BatchStores(u.st, v) ==> u'.st.cur == u.st.cur)
      && Tracks(u, u', IterationHandles(u.st, v))
  {
    hide HandleAll, HandleUpTo, ConfirmPending, ParentClosed, RowFits;
    if u.st.cur < |u.chain| {
      assert Parent(BlockAt(u.chain, u.st.cur)) == u.chain[..u.st.cur];
      if Fetches(u.st, u.chain, v.fault) {
        assert Store(u.st, u.chain, RoundFault(u.st, v)) == Store(u.st, u.chain, v.fault);
      }
    }
  }

  /** World u is w after handling the blocks and moving to where it stands. */
  predicate Tracks(w: World, u: World, blocks: set<Hash>) {
    u == w.(st := u.st, high := if w.high < u.st.cur then u.st.cur else w.high, seen := u.seen, handled := w.handled + blocks)
  }

  lemma TracksFurther(w: World, u: World, u': World, blocks: set<Hash>, more: set<Hash>)
    requires Tracks(w, u, blocks) && Tracks(u, u', more) && u.st.cur <= u'.st.cur
    ensures Tracks(w, u', blocks + more)
  {
    assert w.handled + (blocks + more) == (w.handled + blocks) + more;
  }

  /** The last iteration of a batch. */
  lemma LastIteration(w: World, views: seq<View>)
    requires views != []
    ensures var front, v := views[..|views| - 1], views[|views| - 1];
      var (mid, ok), u := BatchLoop(w.st, front), AsRounds(w, front);
      && AsRounds(w, views) == (if ok then Next(u, SubRound(RoundFault(u.st, v))) else u)
      && BatchHandled(w.st, views) == BatchHandled(w.st, front) + (if ok then IterationHandles(mid, v) else {})
      && BatchLoop(w.st, views) == (if ok && Fetches(mid, v.chain, v.fault)
                                    then (Store(mid, v.chain, v.fault), BatchStores(mid, v)) else (mid, false))
  {
    hide Next, RoundFault, Store, BatchStores, Interrupts;
  }

  /** A batch that meets the chain its cursor row lies on acts as rounds in sub mode. */
  lemma {:induction false} BatchActsAsRounds(w: World, views: seq<View>)
    requires Safe(w) && NotForked(w.st, w.chain) && forall v :: v in views ==> v.chain == w.chain
    ensures var u, (st, ok) := AsRounds(w, views), BatchLoop(w.st, views);
      && Safe(u) && u.st == st && Tracks(w, u, BatchHandled(w.st, views))
      && w.st.cur <= st.cur && (ok ==> NotForked(st, w.chain) && st.cur == w.st.cur + |views|)
    decreases |views|
  {
    assert Tracks(w, w, {});
    if views != [] {
      hide *;
      var front, v := views[..|views| - 1], views[|views| - 1];
      LastIteration(w, views);
      BatchActsAsRounds(w, front);
      var u := AsRounds(w, front);
      if BatchLoop(w.st, front).1 {
        assert v in views;
        IterationIsRound(u, v);
        SafeAfterRound(u, RoundFault(u.st, v));
        TracksFurther(w, u, AsRounds(w, views), BatchHandled(w.st, front), IterationHandles(u.st, v));
      }
    }
  }

  /** The rows are those of the same senders' transactions. */
  predicate SameRows(t: Tables, t': Tables) {
    && t'.pending.Keys == t.pending.Keys
    && forall id :: id in t.pending ==>
         t'.pending[id].action == t.pending[id].action && t'.pending[id].outpoint == t.pending[id].outpoint
  }

  lemma SameRowsAfterRound(w: World, t: Tables, fault: Fault)
    requires SameRows(t, w.st.tables)
    ensures SameRows(t, Next(w, SubRound(fault)).st.tables)
  {
    var t' := Next(w, SubRound(fault)).st.tables;
    if PassesCheck(w.st, w.chain, fault) {
      ParseBlockRows(w.st.tables, BlockAt(w.chain, w.st.cur), fault);
      assert t' == ParseBlock(w.st.tables, BlockAt(w.chain, w.st.cur), fault);
    } else {
      assert t' == w.st.tables;
    }
    hide Next, ParseBlock, Mentions, NotedUpTo;
  }

  /** The ids of the rows that blocks of the set have transactions for. */
  function SeenBy(t: Tables, blocks: set<Hash>): set<nat> {
    set id | id in t.pending && exists h :: h in blocks && Mentions(h, t.pending[id])
  }

  lemma SeenBySame(t: Tables, t': Tables, blocks: set<Hash>)
    requires SameRows(t, t')
    ensures SeenBy(t', blocks) == SeenBy(t, blocks)
  {
    forall id, h | id in t.pending ensures Mentions(h, t'.pending[id]) <==> Mentions(h, t.pending[id]) {
      SameKeySameMentions(h, t.pending[id], t'.pending[id]);
    }
    hide Mentions;
  }

  lemma {:induction false} BatchSeesAsRounds(w: World, views: seq<View>)
    requires Safe(w) && NotForked(w.st, w.chain) && forall v :: v in views ==> v.chain == w.chain
    ensures SameRows(w.st.tables, AsRounds(w, views).st.tables)
    ensures AsRounds(w, views).seen == w.seen + SeenBy(w.st.tables, BatchHandled(w.st, views))
    decreases |views|
  {
    hide SameRows, NotForked, Fetches, BatchStores, Store, Interrupts, SubStep, RoundFault, Mentions, Handles, IterationHandles;
    if views == [] {
      SameRowsRefl(w.st.tables);
      assert SeenBy(w.st.tables, {}) == {};
    } else {
      var front, v := views[..|views| - 1], views[|views| - 1];
      LastIteration(w, views);
      BatchSeesAsRounds(w, front);
      BatchActsAsRounds(w, front);
      var u := AsRounds(w, front);
      if BatchLoop(w.st, front).1 {
        assert v in views;
        IterationIsRound(u, v);
        SameRowsAfterRound(u, w.st.tables, RoundFault(u.st, v));
        var blocks := HandledBy(u, SubRound(RoundFault(u.st, v)));
        assert Next(u, SubRound(RoundFault(u.st, v))).seen == u.seen + SeenBy(u.st.tables, blocks);
        SeenBySame(w.st.tables, u.st.tables, blocks);
        BlocksOfIteration(u, v);
        assert SeenBy(w.st.tables, BatchHandled(w.st, front) + blocks)
            == SeenBy(w.st.tables, BatchHandled(w.st, front)) + SeenBy(w.st.tables, blocks);
      }
    }
  }

  lemma SameRowsRefl(t: Tables)
    ensures SameRows(t, t)
  {
  }

  lemma BlocksOfIteration(u: World, v: View)
    requires v.chain == u.chain && NotForked(u.st, u.chain)
    ensures HandledBy(u, SubRound(RoundFault(u.st, v))) == IterationHandles(u.st, v)
  {
    if u.st.cur < |u.chain| {
      assert Parent(BlockAt(u.chain, u.st.cur)) == u.chain[..u.st.cur];
    }
  }

  /** A whole batch is its rounds in sub mode, and then a prune if all went well. */
  lemma BatchIsRounds(w: World, views: seq<View>, pruneFails: bool)
    requires Safe(w) && MeetsChain(w, views)
    ensures var u := AsRounds(w, views);
      && Safe(u)
      && Next(w, BatchRound(views, pruneFails)) == (if BatchLoop(w.st, views).1 && !pruneFails then Pruned(u) else u)
      && (BatchLoop(w.st, views).1 ==> RETAINED <= u.st.cur)
  {
    BatchActsAsRounds(w, views);
    BatchSeesAsRounds(w, views);
    assert Next(w, BatchRound(views, pruneFails)).seen == w.seen + SeenBy(w.st.tables, BatchHandled(w.st, views));
    hide BatchLoop, AsRounds, BatchHandled, Mentions, ParentClosed, RowFits, NotForked, SeenBy;
  }

  lemma SafeAfterPrune(w: World)
    requires Safe(w) && RETAINED <= w.st.cur
    ensures Safe(Pruned(w))
  {
    forall n | n in Pruned(w).st.rows ensures RowFits(Pruned(w), n) { assert RowFits(w, n); }
  }

  /** A batch on a fixed chain that its cursor row lies on keeps what rounds keep. */
  lemma SafeAfterBatch(w: World, views: seq<View>, pruneFails: bool)
    requires Safe(w) && MeetsChain(w, views)
    ensures Safe(Next(w, BatchRound(views, pruneFails)))
  {
    hide Next, Safe;
    BatchIsRounds(w, views, pruneFails);
    if BatchLoop(w.st, views).1 && !pruneFails { SafeAfterPrune(AsRounds(w, views)); }
  }

  // ---------------------------------------------------------------- restarts and runs

  /** A restart puts the cursor back to the highest cursor reached. */
  lemma RestartFindsHigh(w: World)
    requires Safe(w) && w.st.rows.Keys != {}
    ensures Next(w, Restart).st == w.st.(cur := w.high)
  {
    var m := Highest(w.st.rows);
    assert RowFits(w, m);
    assert w.high - 1 in w.st.rows;
  }

  lemma SafeAfterStep(w: World, step: Step)
    requires w.start >= RETAINED - 1 ==> Safe(w)
    requires Legal(w, step, RETAINED)
    ensures Next(w, step).start >= RETAINED - 1 ==> Safe(Next(w, step))
  {
    if step.Restart? && w.st.rows.Keys == {} {
      assert Next(w, step).handled == {};
    } else if w.start >= RETAINED - 1 {
      match step
      case Reorg(chain) => SafeAfterReorg(w, chain);
      case SubRound(fault) => SafeAfterRound(w, fault);
      case BatchRound(views, pruneFails) => SafeAfterBatch(w, views, pruneFails);
      case Restart =>
        RestartFindsHigh(w);
        forall n | n in w.st.rows ensures RowFits(Next(w, step), n) { assert RowFits(w, n); }
      case NewPending(_, _) =>
        forall n | n in w.st.rows ensures RowFits(Next(w, step), n) { assert RowFits(w, n); }
    }
  }

  lemma {:induction false} SafeAfterRun(w: World, steps: seq<Step>)
    requires w.start >= RETAINED - 1 ==> Safe(w)
    requires LegalRun(w, steps, RETAINED)
    ensures Exec(w, steps).start >= RETAINED - 1 ==> Safe(Exec(w, steps))
    decreases |steps|
  {
    if steps != [] {
      SafeAfterStep(w, steps[0]);
      SafeAfterRun(Next(w, steps[0]), steps[1..]);
    }
  }

  /** No canonical block is skipped.  In every run of sub-mode rounds (failing
      anywhere), restarts (also in the middle of a rollback) and reorganisations
      that replace only numbers at or above `high` - 20, every ancestor, from the
      start number on, of every handled block has been handled. */
  lemma NoBlockSkipped(chain: Hash, config: uint64, tables: Tables, steps: seq<Step>)
    requires LegalRun(Begin(chain, config, tables), steps, RETAINED)
    ensures var w := Exec(Begin(chain, config, tables), steps);
      w.start >= RETAINED - 1 ==> AncestorsHandled(w)
  {
    SafeAfterRun(Begin(chain, config, tables), steps);
    var w := Exec(Begin(chain, config, tables), steps);
    if w.start >= RETAINED - 1 { ClosedMeansAncestors(w); }
  }

  /** When the row below the cursor is canonical, every canonical block from the
      start number up to the cursor has been handled. */
  lemma CanonicalBlocksHandled(w: World, n: nat)
    requires Safe(w) && w.start <= n < w.st.cur
    requires w.st.cur - 1 in w.st.rows && w.st.cur <= |w.chain| && w.st.rows[w.st.cur - 1].hash == w.chain[..w.st.cur]
    ensures BlockAt(w.chain, n) in w.handled
  {
    assert RowFits(w, w.st.cur - 1);
    ClosedUpwards(w, w.chain[..w.st.cur], n);
    assert w.chain[..w.st.cur][..n + 1] == w.chain[..n + 1];
  }

  /** With a configured number every epoch of a run begins one above it. */
  lemma {:induction false} EpochsStartAboveConfig(w: World, steps: seq<Step>)
    requires 0 < w.config < TWO_64 - 1 && w.start == w.config + 1
    ensures Exec(w, steps).config == w.config && Exec(w, steps).start == w.config + 1
    decreases |steps|
  {
    if steps != [] {
      StartCursor(map[], w.config, Tip(w.chain));
      assert Next(w, steps[0]).config == w.config && Next(w, steps[0]).start == w.start;
      hide Next;
      EpochsStartAboveConfig(Next(w, steps[0]), steps[1..]);
    }
  }

  /** In every run with a configured number of at least 18: whenever the row below the
      cursor is canonical, all canonical blocks above the configured number and below
      the cursor have been handled. */
  lemma HandledFromConfigOn(chain: Hash, config: uint64, tables: Tables, steps: seq<Step>, n: nat)
    requires LegalRun(Begin(chain, config, tables), steps, RETAINED) && 18 <= config < TWO_64 - 1
    requires var w := Exec(Begin(chain, config, tables), steps);
      && config + 1 <= n < w.st.cur <= |w.chain|
      && w.st.cur - 1 in w.st.rows && w.st.rows[w.st.cur - 1].hash == w.chain[..w.st.cur]
    ensures var w := Exec(Begin(chain, config, tables), steps);
      BlockAt(w.chain, n) in w.handled
  {
    var w0 := Begin(chain, config, tables);
    StartCursor(map[], config, Tip(chain));
    EpochsStartAboveConfig(w0, steps);
    SafeAfterRun(w0, steps);
    hide Exec, LegalRun, ParentClosed, RowFits;
    CanonicalBlocksHandled(Exec(w0, steps), n);
  }
}
