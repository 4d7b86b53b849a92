/** The block numbers recorded on pending rows agree with the canonical chain. */
module Confirmations {
  import opened Uint64
  import opened Chain
  import opened PendingTable
  import opened BlockTable
  import opened Dao
  import opened BlockParser
  import opened Handling
  import opened ParserRuns
  import opened Linkage

  /** A chain includes no transaction in two of its blocks. */
  predicate TxOnce(chain: Hash) {
    forall n, m, i, j ::
      0 <= n < m < |chain| && 0 <= i < |chain[n].txs| && 0 <= j < |chain[m].txs| ==>
        chain[n].txs[i].hash != chain[m].txs[j].hash
  }

  predicate ValidChain(step: Step) {
    step.Reorg? ==> TxOnce(step.chain)
  }

  /** The row waits for a transaction of block n of the followed chain. */
  predicate ExpectedAt(followed: Hash, n: nat, row: PendingRow) {
    n < |followed| && Mentions(BlockAt(followed, n), row)
  }

  /** Confirmed rows carry the number of their transaction's block on the followed
      chain, and rows seen by a handled block are confirmed. */
  predicate Agreed(w: World) {
    && (forall id, n: uint64 ::
          id in w.st.tables.pending && w.start <= n < w.st.cur && ExpectedAt(Followed(w), n, w.st.tables.pending[id]) ==>
            RecordedAt(Followed(w), n, w.st.tables.pending[id]))
    && (forall id :: id in w.seen ==> id in w.st.tables.pending && w.st.tables.pending[id].status == Confirm)
  }

  /** A confirmed row records number and time of block n of the chain. */
  predicate RecordedAt(chain: Hash, n: uint64, row: PendingRow)
    requires n < |chain|
  {
    row.status == Confirm ==> row.blockNumber == n && row.blockTimestamp == chain[n].timestamp
  }

  lemma MentionedOnce(chain: Hash, n: nat, m: nat, row: PendingRow)
    requires TxOnce(chain) && n < m < |chain|
    requires Mentions(BlockAt(chain, n), row)
    ensures !Mentions(BlockAt(chain, m), row)
  {
    if Mentions(BlockAt(chain, m), row) {
      var i :| 0 <= i < |chain[n].txs| && TxConfirms(chain[n].txs[i], row);
      var j :| 0 <= j < |chain[m].txs| && TxConfirms(chain[m].txs[j], row);
      assert chain[n].txs[i].hash != chain[m].txs[j].hash;
      OutPoint0Injective(chain[n].txs[i].hash, chain[m].txs[j].hash);
    }
  }

  lemma ExpectedOnPrefix(f: Hash, c: nat, n: nat, row: PendingRow)
    requires n < c <= |f|
    ensures ExpectedAt(f[..c], n, row) <==> ExpectedAt(f, n, row)
  {
  }

  /** Handling the block above the followed chain leaves rows of lower blocks alone. */
  lemma HandlingKeepsLower(w: World, fault: Fault, id: nat, n: uint64)
    requires Safe(w) && Linked(w) && TxOnce(w.chain) && PassesCheck(w.st, w.chain, fault)
    requires id in w.st.tables.pending && w.start <= n < w.st.cur
    requires ExpectedAt(Followed(w), n, w.st.tables.pending[id])
    ensures var t' := ParseBlock(w.st.tables, BlockAt(w.chain, w.st.cur), fault);
      id in t'.pending && t'.pending[id] == w.st.tables.pending[id]
  {
    FollowedIsParent(w, fault);
    assert BlockAt(w.chain[..w.st.cur], n) == BlockAt(w.chain, n);
    MentionedOnce(w.chain, n, w.st.cur, w.st.tables.pending[id]);
    ParseBlockRows(w.st.tables, BlockAt(w.chain, w.st.cur), fault);
  }

  /** Parsing leaves each row's action and outpoint, and so what it waits for, alone. */
  lemma ParsingKeepsExpected(t: Tables, h: Hash, fault: Fault, id: nat, f: Hash, n: nat)
    requires |h| > 0 && id in t.pending
    ensures id in ParseBlock(t, h, fault).pending
    ensures ExpectedAt(f, n, ParseBlock(t, h, fault).pending[id]) <==> ExpectedAt(f, n, t.pending[id])
  {
    ParseBlockRows(t, h, fault);
    hide ParseBlock;
    var a, b := t.pending[id], ParseBlock(t, h, fault).pending[id];
    assert a.action == b.action && a.outpoint == b.outpoint;
    if n < |f| {
      var g := BlockAt(f, n);
      forall j | 0 <= j < |BodyOf(g).txs|
        ensures TxConfirms(BodyOf(g).txs[j], a) <==> TxConfirms(BodyOf(g).txs[j], b)
      {
      }
    }
  }

  lemma AgreedAfterStore(w: World, fault: Fault)
    requires Safe(w) && Linked(w) && Agreed(w) && TxOnce(w.chain) && PassesCheck(w.st, w.chain, fault)
    ensures var w' := Next(w, SubRound(fault));
      forall id, n: uint64 ::
        id in w'.st.tables.pending && w.start <= n < w'.st.cur && ExpectedAt(Followed(w'), n, w'.st.tables.pending[id]) ==>
          RecordedAt(Followed(w'), n, w'.st.tables.pending[id])
  {
    var w' := Next(w, SubRound(fault));
    var b := BlockAt(w.chain, w.st.cur);
    RoundOutcome(w, fault);
    hide Next, ParseBlock, Safe, Linked, Mentions, TxOnce, Followed;
    forall id, n: uint64 |
      id in w'.st.tables.pending && w.start <= n < w'.st.cur && ExpectedAt(Followed(w'), n, w'.st.tables.pending[id])
      ensures RecordedAt(Followed(w'), n, w'.st.tables.pending[id])
    {
      ParseKeepsIds(w.st.tables, b, fault);
      ParsingKeepsExpected(w.st.tables, b, fault, id, Followed(w'), n);
      if n < w.st.cur {
        if Stores(w.st, w.chain, fault) {
          FollowedIsParent(w, fault);
          ExpectedOnPrefix(b, w.st.cur, n, w.st.tables.pending[id]);
        }
        HandlingKeepsLower(w, fault, id, n);
        assert RecordedAt(Followed(w), n, w.st.tables.pending[id]);
      } else {
        RecordedAtNewBlock(w.st.tables, b, fault, id, n);
      }
    }
  }

  lemma ParseKeepsIds(t: Tables, h: Hash, fault: Fault)
    requires |h| > 0
    ensures ParseBlock(t, h, fault).pending.Keys == t.pending.Keys
  {
    ParseBlockRows(t, h, fault);
    hide ParseBlock;
  }

  /** A block that is handled completely records its number and time. */
  lemma RecordedAtNewBlock(t: Tables, b: Hash, fault: Fault, id: nat, n: uint64)
    requires |b| == n + 1 && !Interrupts(fault, b) && id in t.pending && ExpectedAt(b, n, t.pending[id])
    ensures id in ParseBlock(t, b, fault).pending && RecordedAt(b, n, ParseBlock(t, b, fault).pending[id])
  {
    assert b == BlockAt(b, n);
    ParseBlockRows(t, b, fault);
    hide ParseBlock, Mentions;
  }

  /** Cursor, tables and followed chain after a round that passes the fork check. */
  lemma RoundOutcome(w: World, fault: Fault)
    requires Safe(w) && Linked(w) && PassesCheck(w.st, w.chain, fault)
    ensures var w' := Next(w, SubRound(fault));
      && w'.st.tables == ParseBlock(w.st.tables, BlockAt(w.chain, w.st.cur), fault)
      && (if Stores(w.st, w.chain, fault)
          then w'.st.cur == w.st.cur + 1 && Followed(w') == BlockAt(w.chain, w.st.cur)
          else w'.st.cur == w.st.cur && Followed(w') == Followed(w))
  {
    hide ParseBlock, ParentClosed;
    var w' := Next(w, SubRound(fault));
    if Stores(w.st, w.chain, fault) {
      if w.start < w.st.cur { FollowedIsParent(w, fault); }
      RowsInRange(w);
      LinkedAfterStore(w, BlockAt(w.chain, w.st.cur), w');
    }
  }

  lemma SeenAfterRound(w: World, fault: Fault)
    requires Agreed(w)
    ensures var w' := Next(w, SubRound(fault));
      forall id :: id in w'.seen ==> id in w'.st.tables.pending && w'.st.tables.pending[id].status == Confirm
  {
    if PassesCheck(w.st, w.chain, fault) {
      ParseBlockRows(w.st.tables, BlockAt(w.chain, w.st.cur), fault);
    }
    hide ParseBlock;
  }

  lemma AgreedAfterRollback(w: World, w': World)
    requires Linked(w) && Agreed(w) && StepsBack(w, w')
    requires w'.st.tables == w.st.tables && w'.seen == w.seen
    ensures Agreed(w')
  {
    forall id, n: uint64 |
      id in w'.st.tables.pending && w.start <= n < w'.st.cur && ExpectedAt(Followed(w'), n, w'.st.tables.pending[id])
      ensures RecordedAt(Followed(w'), n, w'.st.tables.pending[id])
    {
      FollowedAfterRollback(w, w');
      hide Linked, StepsBack;
      ExpectedOnPrefix(Followed(w), w'.st.cur, n, w.st.tables.pending[id]);
    }
  }

  lemma AgreedAfterRound(w: World, fault: Fault)
    requires Safe(w) && Linked(w) && Agreed(w) && TxOnce(w.chain)
    ensures Agreed(Next(w, SubRound(fault)))
  {
    hide Safe, Linked, ParseBlock, TxOnce;
    SeenAfterRound(w, fault);
    if PassesCheck(w.st, w.chain, fault) {
      AgreedAfterStore(w, fault);
    } else if RollsBack(w.st, w.chain, fault) {
      RollbackStepsBack(w, fault);
      assert Next(w, SubRound(fault)).seen == w.seen;
      AgreedAfterRollback(w, Next(w, SubRound(fault)));
    } else {
      AgreedIfUnmoved(w, Next(w, SubRound(fault)));
    }
  }

  lemma AgreedIfUnmoved(w: World, w': World)
    requires Agreed(w) && w'.start == w.start && w'.chain == w.chain && w'.seen == w.seen
    requires w'.st.cur == w.st.cur && w'.st.rows == w.st.rows && w'.st.tables == w.st.tables
    ensures Agreed(w')
  {
    assert Followed(w') == Followed(w);
    hide Followed, Mentions;
  }

  /** The sender's insert adds a pending row that no block has seen. */
  lemma AgreedAfterNewPending(w: World, id: nat, row: PendingRow)
    requires Agreed(w) && row.status == Pending
    ensures Agreed(Next(w, NewPending(id, row)))
  {
    var w' := Next(w, NewPending(id, row));
    assert Followed(w') == Followed(w);
    assert forall id' :: id' in w'.st.tables.pending ==>
      (id' in w.st.tables.pending && w'.st.tables.pending[id'] == w.st.tables.pending[id'])
      || w'.st.tables.pending[id'].status == Pending;
    assert forall id' :: id' in w.st.tables.pending ==>
      id' in w'.st.tables.pending && w'.st.tables.pending[id'] == w.st.tables.pending[id'];
    hide Followed, Mentions, Next;
  }

  lemma {:induction false} AgreedAfterRounds(w: World, views: seq<View>)
    requires Safe(w) && Linked(w) && Agreed(w) && TxOnce(w.chain)
    requires NotForked(w.st, w.chain) && forall v :: v in views ==> v.chain == w.chain
    ensures Agreed(AsRounds(w, views))
    decreases |views|
  {
    hide Linked, Safe, Agreed, Next, NotForked, BatchLoop, TxOnce;
    if views != [] {
      var front := views[..|views| - 1];
      AgreedAfterRounds(w, front);
      LinkedAfterRounds(w, front);
      BatchActsAsRounds(w, front);
      AgreedAfterRound(AsRounds(w, front), RoundFault(AsRounds(w, front).st, views[|views| - 1]));
    }
  }

  lemma AgreedAfterBatch(w: World, views: seq<View>, pruneFails: bool)
    requires Safe(w) && Linked(w) && Agreed(w) && TxOnce(w.chain) && MeetsChain(w, views)
    ensures Agreed(Next(w, BatchRound(views, pruneFails)))
  {
    var u := AsRounds(w, views);
    AgreedAfterRounds(w, views);
    LinkedAfterRounds(w, views);
    BatchIsRounds(w, views, pruneFails);
    hide Next, Linked, AsRounds, BatchLoop, ExpectedAt;
    if BatchLoop(w.st, views).1 && !pruneFails { LinkedAfterPrune(u); }
    hide Followed;
  }

  /** The records agree below the cursor and, as long as nothing below `high` has
      been handled again, also up to `high`. */
  predicate SteadyAgreed(w: World, disturbed: bool) {
    Agreed(w) && (!disturbed ==> Agreed(AtHigh(w)))
  }

  lemma AgreedAfterStep(w: World, step: Step, disturbed: bool)
    requires Safe(w) && SteadyLinked(w, disturbed) && SteadyAgreed(w, disturbed)
    requires TxOnce(w.chain) && ValidChain(step) && Legal(w, step, RETAINED) && (step.Restart? ==> !disturbed)
    ensures !(step.Restart? && w.st.rows.Keys == {}) ==> Agreed(Next(w, step))
  {
    hide TxOnce, ExpectedAt, ParseBlock;
    if !(step.Restart? && w.st.rows.Keys == {}) {
      match step
      case SubRound(fault) => AgreedAfterRound(w, fault);
      case BatchRound(views, pruneFails) => AgreedAfterBatch(w, views, pruneFails);
      case Reorg(chain) => ReorgKeepsFollowed(w, chain);
      case Restart => RestartIsAtHigh(w);
      case NewPending(id, row) => AgreedAfterNewPending(w, id, row);
    }
  }

  lemma RestartIsAtHigh(w: World)
    requires Safe(w) && w.st.rows.Keys != {}
    ensures Next(w, Restart) == AtHigh(w)
  {
    RestartFindsHigh(w);
    SafeAtHigh(w);
  }

  lemma AgreedAtHighAfterStep(w: World, step: Step)
    requires Safe(w) && Linked(AtHigh(w)) && Agreed(AtHigh(w)) && Legal(w, step, RETAINED)
    requires !step.Restart? && !Touches(w, step)
    ensures Agreed(AtHigh(Next(w, step)))
  {
    SafeAtHigh(w);
    hide ExpectedAt;
    match step
    case Reorg(chain) => ReorgKeepsFollowed(AtHigh(w), chain);
    case SubRound(_) => UntouchedOnlyMoves(w, step);
    case BatchRound(_, _) => UntouchedOnlyMoves(w, step);
    case NewPending(id, row) => AgreedAfterNewPending(AtHigh(w), id, row);
  }

  lemma SteadyAgreedAfterStep(w: World, step: Step, disturbed: bool)
    requires w.start >= RETAINED - 1 ==> Safe(w) && SteadyLinked(w, disturbed) && SteadyAgreed(w, disturbed)
    requires TxOnce(w.chain) && ValidChain(step) && Legal(w, step, RETAINED) && (step.Restart? ==> !disturbed)
    ensures Next(w, step).start >= RETAINED - 1 ==> SteadyAgreed(Next(w, step), Disturbed(w, step, disturbed))
  {
    hide Agreed, Linked, TxOnce, Legal, Touches, ParentClosed, RowFits;
    var w' := Next(w, step);
    SafeAfterStep(w, step);
    if step.Restart? && w.st.rows.Keys == {} {
      BeginAgrees(w.chain, w.config, w.st.tables);
      assert AtHigh(w') == w';
    } else if w.start >= RETAINED - 1 {
      SafeAtHigh(w');
      AgreedAfterStep(w, step, disturbed);
      if w'.st.cur < w'.high && !disturbed && !Touches(w, step) {
        LowCursorNotRestarted(w, step);
        AgreedAtHighAfterStep(w, step);
      } else {
        assert w'.st.cur >= w'.high ==> AtHigh(w') == w';
      }
      hide Next;
    }
  }

  lemma {:induction false} AgreedAfterRun(w: World, steps: seq<Step>, disturbed: bool)
    requires w.start >= RETAINED - 1 ==> Safe(w) && SteadyLinked(w, disturbed) && SteadyAgreed(w, disturbed)
    requires TxOnce(w.chain) && forall step :: step in steps ==> ValidChain(step)
    requires LegalRun(w, steps, RETAINED) && SteadyRun(w, steps, disturbed)
    ensures Exec(w, steps).start >= RETAINED - 1 ==> Safe(Exec(w, steps)) && Agreed(Exec(w, steps))
    decreases |steps|
  {
    if steps == [] {
      hide Agreed;
    } else {
      ChainAfterStep(w, steps[0]);
      hide Agreed, SteadyAgreed, SteadyLinked, Next, Safe, Legal, Disturbed, TxOnce, ValidChain;
      SteadyLinkedAfterStep(w, steps[0], disturbed);
      SteadyAgreedAfterStep(w, steps[0], disturbed);
      AgreedAfterRun(Next(w, steps[0]), steps[1..], Disturbed(w, steps[0], disturbed));
    }
  }

  lemma ChainAfterStep(w: World, step: Step)
    requires TxOnce(w.chain) && ValidChain(step)
    ensures TxOnce(Next(w, step).chain)
  {
  }

  /** The row below the cursor is stored and names the canonical block. */
  predicate CursorRowCanonical(w: World) {
    && 0 < w.st.cur <= |w.chain| && w.st.cur - 1 in w.st.rows
    && w.st.rows[w.st.cur - 1].hash == w.chain[..w.st.cur]
  }

  /** When the row below the cursor is canonical, every pending row that existed when
      its transaction was last handled, and whose transaction is in canonical block
      n from the start number up to the cursor, is confirmed with number and time of
      block n. */
  predicate NumbersAgree(w: World) {
    CursorRowCanonical(w) ==>
      forall id, n: uint64 ::
        id in w.seen && w.start <= n < w.st.cur && id in w.st.tables.pending
        && ExpectedAt(w.chain, n, w.st.tables.pending[id]) ==>
          ConfirmedInBlock(w.chain, n, w.st.tables.pending[id])
  }

  predicate ConfirmedInBlock(chain: Hash, n: uint64, row: PendingRow)
    requires n < |chain|
  {
    row.status == Confirm && row.blockNumber == n && row.blockTimestamp == chain[n].timestamp
  }

  lemma AgreedMeansNumbersAgree(w: World)
    requires Agreed(w)
    ensures NumbersAgree(w)
  {
    if CursorRowCanonical(w) {
      hide Mentions;
      forall id, n: uint64 | id in w.seen && w.start <= n < w.st.cur && id in w.st.tables.pending
                             && ExpectedAt(w.chain, n, w.st.tables.pending[id])
        ensures ConfirmedInBlock(w.chain, n, w.st.tables.pending[id])
      {
        ExpectedOnPrefix(w.chain, w.st.cur, n, w.st.tables.pending[id]);
        assert RecordedAt(Followed(w), n, w.st.tables.pending[id]);
      }
    }
  }

  /** In every steady run from a fresh start at number 19 or above with shallow
      reorganisations and the parser as the only writer of confirmations, the
      recorded numbers agree with the canonical chain, whatever orphaned blocks had
      included the transactions before. */
  lemma ConfirmationsAgree(chain: Hash, config: uint64, tables: Tables, steps: seq<Step>)
    requires TxOnce(chain) && forall step :: step in steps ==> ValidChain(step)
    requires LegalRun(Begin(chain, config, tables), steps, RETAINED) && SteadyRun(Begin(chain, config, tables), steps, false)
    ensures var w := Exec(Begin(chain, config, tables), steps);
      w.start >= RETAINED - 1 ==> NumbersAgree(w)
  {
    BeginIsLinked(chain, config, tables);
    BeginAgrees(chain, config, tables);
    AgreedAfterRun(Begin(chain, config, tables), steps, false);
    var w := Exec(Begin(chain, config, tables), steps);
    hide Exec, LegalRun, SteadyRun, Safe, TxOnce, ExpectedAt, Agreed, NumbersAgree;
    if w.start >= RETAINED - 1 { AgreedMeansNumbersAgree(w); }
  }

  lemma BeginAgrees(chain: Hash, config: uint64, tables: Tables)
    ensures SteadyAgreed(Begin(chain, config, tables), false)
  {
  }
}
