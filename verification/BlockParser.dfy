/**
 The block parser: a cursor that follows a chain that may reorganise, and the
 tables it writes.  The specification is the functions `SubStep`, `BatchStep`
 and `InitCursor` on a value of type `ParserState`; the class does the same
 work step by step on its fields and the database.
 */
module BlockParser {
  import opened Uint64
  import opened Wrappers
  import opened Chain
  import opened PendingTable
  import opened BlockTable
  import opened Dao

  const RETAINED: uint64 := 20

  datatype Tables = Tables(pending: PendingTable, notes: NoteTable)

  datatype ParserState = ParserState(cur: uint64, rows: BlockTable, tables: Tables)

  /** The call inside the handler of a transaction that returns an error. */
  datatype HandlerCall = VersionCheck | PendingUpdate | NotesUpdate

  /** The first call of a round that returns an error, if any. */
  datatype Fault =
    | NoFault
    | FetchFails
    | FindFails
    | HandleFails(tx: nat, call: HandlerCall)
    | CreateFails
    | PruneFails

  // ---------------------------------------------------------------- handling a block

  predicate HasHandler(tx: Tx) {
    tx.action == Some(UpdateKeyList)
  }

  predicate Relevant(tx: Tx) {
    HasHandler(tx) && tx.keyListOutput
  }

  /** Number and timestamp of a block, as the handler receives them. */
  function NumberOf(h: Hash): uint64
    requires |h| > 0
  {
    Number(h)
  }

  function ConfirmPending(t: Tables, h: Hash, tx: Tx): Tables
    requires |h| > 0
  {
    t.(pending := Apply(t.pending, ConfirmByKey(UpdateKeyList, OutPoint0(tx.hash), NumberOf(h), BodyOf(h).timestamp)))
  }

  function ConfirmTx(t: Tables, h: Hash, tx: Tx): Tables
    requires |h| > 0
  {
    if !Relevant(tx) then t
    else
      var t' := ConfirmPending(t, h, tx);
      t'.(notes := ConfirmNotes(t'.notes, OutPoint0(tx.hash), NumberOf(h), BodyOf(h).timestamp))
  }

  /** The tables after the first k transactions of block h have been handled. */
  function HandleUpTo(t: Tables, h: Hash, k: nat): Tables
    requires |h| > 0 && k <= |BodyOf(h).txs|
  {
    if k == 0 then t else ConfirmTx(HandleUpTo(t, h, k - 1), h, BodyOf(h).txs[k - 1])
  }

  function HandleAll(t: Tables, h: Hash): Tables
    requires |h| > 0
  {
    HandleUpTo(t, h, |BodyOf(h).txs|)
  }

  /** Does the fault hit a call that handling block h makes? */
  predicate Interrupts(fault: Fault, h: Hash)
    requires |h| > 0
  {
    && fault.HandleFails?
    && fault.tx < |BodyOf(h).txs|
    && HasHandler(BodyOf(h).txs[fault.tx])
    && (fault.call.VersionCheck? || Relevant(BodyOf(h).txs[fault.tx]))
  }

  function ParseBlock(t: Tables, h: Hash, fault: Fault): Tables
    requires |h| > 0
  {
    if !Interrupts(fault, h) then HandleAll(t, h)
    else
      var done := HandleUpTo(t, h, fault.tx);
      if fault.call.NotesUpdate? then ConfirmPending(done, h, BodyOf(h).txs[fault.tx]) else done
  }

  // ---------------------------------------------------------------- one round in sub mode

  /** The stored row below the cursor names another block than the parent. */
  predicate Forked(s: ParserState, parent: Hash) {
    Sub(s.cur, 1) in s.rows && s.rows[Sub(s.cur, 1)].hash != parent
  }

  predicate Fetches(s: ParserState, chain: Hash, fault: Fault) {
    !fault.FetchFails? && s.cur < |chain|
  }

  predicate RollsBack(s: ParserState, chain: Hash, fault: Fault) {
    Fetches(s, chain, fault) && !fault.FindFails? && Forked(s, Parent(BlockAt(chain, s.cur)))
  }

  /** The round gets past the fork check. */
  predicate PassesCheck(s: ParserState, chain: Hash, fault: Fault) {
    Fetches(s, chain, fault) && !fault.FindFails? && !Forked(s, Parent(BlockAt(chain, s.cur)))
  }

  /** The round handles every transaction of the block at the cursor. */
  predicate Handles(s: ParserState, chain: Hash, fault: Fault) {
    PassesCheck(s, chain, fault) && !Interrupts(fault, BlockAt(chain, s.cur))
  }

  /** The state after the block at the cursor is handled, stored and passed. */
  function Store(s: ParserState, chain: Hash, fault: Fault): ParserState
    requires s.cur < |chain|
  {
    var h := BlockAt(chain, s.cur);
    var tables := ParseBlock(s.tables, h, fault);
    if Interrupts(fault, h) || fault.CreateFails? then s.(tables := tables)
    else ParserState(Add(s.cur, 1), Upsert(s.rows, s.cur, BlockRow(h, Parent(h))), tables)
  }

  predicate Stores(s: ParserState, chain: Hash, fault: Fault) {
    Handles(s, chain, fault) && !fault.CreateFails?
  }

  function SubStep(s: ParserState, chain: Hash, fault: Fault): ParserState {
    if RollsBack(s, chain, fault) then s.(cur := Sub(s.cur, 1))
    else if !PassesCheck(s, chain, fault) then s
    else
      var s' := Store(s, chain, fault);
      if Stores(s, chain, fault) && !fault.PruneFails?
      then s'.(rows := Prune(s'.rows, Sub(s'.cur, RETAINED)))
      else s'
  }

  // ---------------------------------------------------------------- one round in batch mode

  /** What one iteration of a batch meets: the chain at its fetch, and its fault. */
  datatype View = View(chain: Hash, fault: Fault)

  predicate BatchStores(s: ParserState, v: View) {
    && Fetches(s, v.chain, v.fault)
    && !Interrupts(v.fault, BlockAt(v.chain, s.cur)) && !v.fault.CreateFails?
  }

  /** The state after the iterations on `views`, up to the first that fails. */
  function BatchLoop(s: ParserState, views: seq<View>): (r: (ParserState, bool))
    decreases |views|
  {
    if views == [] then (s, true)
    else
      var (mid, ok) := BatchLoop(s, views[..|views| - 1]);
      var v := views[|views| - 1];
      if !ok || !Fetches(mid, v.chain, v.fault) then (mid, false)
      else (Store(mid, v.chain, v.fault), BatchStores(mid, v))
  }

  function BatchStep(s: ParserState, views: seq<View>, pruneFails: bool): ParserState {
    var (s', ok) := BatchLoop(s, views);
    if ok && !pruneFails then s'.(rows := Prune(s'.rows, Sub(s'.cur, RETAINED))) else s'
  }

  // ---------------------------------------------------------------- start

  /** The cursor after a start: the configured number or the tip when nothing is
      stored, the highest stored row otherwise; then one further. */
  function InitCursor(rows: BlockTable, configured: uint64, tip: uint64): uint64
  {
    var c := if rows.Keys != {} then Highest(rows)
             else if configured == 0 && tip > 0 then tip
             else configured;
    Add(c, 1)
  }

  /** A first start begins one above the configured number, whatever the tip; one above
      the tip if none is configured, and at 1 if there is no tip either.  A start with
      stored rows begins one above the highest. */
  lemma StartCursor(rows: BlockTable, configured: uint64, tip: uint64)
    ensures var cur := InitCursor(rows, configured, tip);
      && (rows == map[] && 0 < configured < 0xffff_ffff_ffff_ffff ==> cur == configured + 1)
      && (rows == map[] && configured == 0 && 0 < tip < 0xffff_ffff_ffff_ffff ==> cur == tip + 1)
      && (rows == map[] && configured == 0 && tip == 0 ==> cur == 1)
      && forall n :: n in rows && (forall k :: k in rows ==> k <= n) && n < 0xffff_ffff_ffff_ffff ==> cur == n + 1
  {
  }

  // ---------------------------------------------------------------- mode guards

  datatype Mode = Batch | SubMode | Idle

  /** The guards of the parser's loop, in 64-bit arithmetic. */
  function ModeOf(cur: uint64, latest: uint64, confirmNum: uint64, concurrencyNum: uint64): Mode {
    if concurrencyNum > 1 && cur < Sub(Sub(latest, confirmNum), concurrencyNum) then Batch
    else if cur < Sub(latest, confirmNum) then SubMode
    else Idle
  }

  /** Does a round that starts at `cur` ask the node for block n (if no call fails)? */
  predicate AsksFor(cur: uint64, latest: uint64, confirmNum: uint64, concurrencyNum: uint64, n: nat) {
    match ModeOf(cur, latest, confirmNum, concurrencyNum)
    case Batch => cur <= n < cur + concurrencyNum
    case SubMode => n == cur
    case Idle => false
  }

  /** With a tip of at least ConfirmNum + ConcurrencyNum the parser idles exactly when
      the block at its cursor is not yet deep enough, and otherwise asks for it; it
      batches exactly when all blocks of the batch are. */
  lemma GuardsFollowDepth(cur: uint64, latest: uint64, confirmNum: uint64, concurrencyNum: uint64)
    requires confirmNum + concurrencyNum <= latest
    ensures var mode := ModeOf(cur, latest, confirmNum, concurrencyNum);
      && (mode.Idle? <==> latest <= cur + confirmNum)
      && (mode.Batch? <==> 1 < concurrencyNum && cur + concurrencyNum + confirmNum < latest)
      && (AsksFor(cur, latest, confirmNum, concurrencyNum, cur) <==> cur + confirmNum < latest)
  {
  }

  /** Every requested block is deeper than ConfirmNum below the tip, whatever the
      cursor, exactly when the subtractions of the guards in use do not wrap. */
  lemma ConfirmationDepth(latest: uint64, confirmNum: uint64, concurrencyNum: uint64)
    ensures (forall cur: uint64, n: nat :: AsksFor(cur, latest, confirmNum, concurrencyNum, n) ==> n + confirmNum < latest)
       <==> (if concurrencyNum > 1 then confirmNum + concurrencyNum <= latest else confirmNum <= latest)
  {
    var depth := if concurrencyNum > 1 then confirmNum + concurrencyNum else confirmNum;
    if latest < depth {
      var cur: uint64 := if latest < confirmNum then 0 else latest - confirmNum;
      assert AsksFor(cur, latest, confirmNum, concurrencyNum, cur);
    }
  }

  // ---------------------------------------------------------------- the parser object

  class BlockParser {
    var CurrentBlockNumber: uint64
    const DbDao: DbDao
    const ConcurrencyNum: uint64
    const ConfirmNum: uint64
    var errCountHandle: nat
    /** The block numbers requested so far. */
    ghost var requested: set<int>

    constructor (configured: uint64, dbDao: DbDao, concurrencyNum: uint64, confirmNum: uint64)
      ensures CurrentBlockNumber == configured && DbDao == dbDao
      ensures ConcurrencyNum == concurrencyNum && ConfirmNum == confirmNum && errCountHandle == 0 && requested == {}
    {
      CurrentBlockNumber, DbDao, ConcurrencyNum, ConfirmNum := configured, dbDao, concurrencyNum, confirmNum;
      errCountHandle, requested := 0, {};
    }

    ghost function State(): ParserState
      reads this, DbDao
    {
      ParserState(CurrentBlockNumber, DbDao.blocks, Tables(DbDao.pending, DbDao.notes))
    }

    /** Sets the cursor of a fresh parser; `tip` is the node's tip number. */
    method InitCurrentBlockNumber(tip: uint64)
      modifies this`CurrentBlockNumber
      ensures State() == old(State()).(cur := InitCursor(old(DbDao.blocks), old(CurrentBlockNumber), tip))
      ensures DbDao.blocks == map[] ==>
        && (0 < old(CurrentBlockNumber) < 0xffff_ffff_ffff_ffff ==> CurrentBlockNumber == old(CurrentBlockNumber) + 1)
        && (old(CurrentBlockNumber) == 0 && tip < 0xffff_ffff_ffff_ffff ==> CurrentBlockNumber == tip + 1)
      ensures forall n :: n in DbDao.blocks && (forall k :: k in DbDao.blocks ==> k <= n) && n < 0xffff_ffff_ffff_ffff ==>
        CurrentBlockNumber == n + 1
    {
      var found := DbDao.FindBlockInfo();
      if found.Some? {
        CurrentBlockNumber := found.value;
      } else if CurrentBlockNumber == 0 && tip > 0 {
        CurrentBlockNumber := tip;
      }
      CurrentBlockNumber := Add(CurrentBlockNumber, 1);
    }

    method CheckFork(parentHash: Hash) returns (fork: bool)
      ensures fork == Forked(State(), parentHash)
    {
      var block := DbDao.FindBlockInfoByBlockNumber(Sub(CurrentBlockNumber, 1));
      if block.None? {
        fork := false;
      } else {
        fork := block.value.hash != parentHash;
      }
    }

    /** The handler registered for the key-list action. */
    method ActionUpdateKeylist(h: Hash, tx: Tx, failing: Option<HandlerCall>) returns (ok: bool)
      requires |h| > 0 && HasHandler(tx)
      modifies DbDao`pending, DbDao`notes
      ensures ok <==> failing.None? || (!failing.value.VersionCheck? && !Relevant(tx))
      ensures var t := old(State()).tables;
        State().tables == if ok then ConfirmTx(t, h, tx)
                          else if failing.value.NotesUpdate? then ConfirmPending(t, h, tx)
                          else t
    {
      if failing.Some? && failing.value.VersionCheck? { return false; }
      if !tx.keyListOutput { return true; }
      var outpoint := OutPoint0(tx.hash);
      if failing.Some? && failing.value.PendingUpdate? { return false; }
      DbDao.UpdatePendingStatusToConfirm(UpdateKeyList, outpoint, Number(h), BodyOf(h).timestamp);
      if failing.Some? && failing.value.NotesUpdate? { return false; }
      DbDao.UpdateAvatarNotesToConfirm(outpoint, Number(h), BodyOf(h).timestamp);
      ok := true;
    }

    method ParsingBlockData(h: Hash, fault: Fault) returns (ok: bool)
      requires |h| > 0
      modifies this`errCountHandle, DbDao`pending, DbDao`notes
      ensures ok <==> !Interrupts(fault, h)
      ensures State() == old(State()).(tables := ParseBlock(old(State()).tables, h, fault))
      ensures errCountHandle == if ok then 0 else old(errCountHandle) + 1
    {
      var txs := BodyOf(h).txs;
      ghost var t := State().tables;
      for i := 0 to |txs|
        invariant State().tables == HandleUpTo(t, h, i)
        invariant errCountHandle == old(errCountHandle)
        invariant Interrupts(fault, h) ==> i <= fault.tx
      {
        if txs[i].action == Some(UpdateKeyList) {
          var failing := if fault.HandleFails? && fault.tx == i then Some(fault.call) else None;
          var done := ActionUpdateKeylist(h, txs[i], failing);
          if !done {
            errCountHandle := errCountHandle + 1;
            return false;
          }
        }
      }
      errCountHandle := 0;
      ok := true;
    }

    method ParserSubMode(chain: Hash, fault: Fault) returns (ok: bool)
      modifies this, DbDao
      ensures State() == SubStep(old(State()), chain, fault)
      ensures ok <==> RollsBack(old(State()), chain, fault)
                      || (Stores(old(State()), chain, fault) && !fault.PruneFails?)
      ensures requested == old(requested) + {old(CurrentBlockNumber)}
    {
      requested := requested + {CurrentBlockNumber};
      if fault.FetchFails? || |chain| <= CurrentBlockNumber { return false; }
      var block := BlockAt(chain, CurrentBlockNumber);
      var parentHash := Parent(block);
      if fault.FindFails? { return false; }
      var fork := CheckFork(parentHash);
      if fork {
        CurrentBlockNumber := Add(CurrentBlockNumber, 0xffff_ffff_ffff_ffff);
        return true;
      }
      var done := ParsingBlockData(block, fault);
      if !done || fault.CreateFails? { return false; }
      DbDao.CreateBlockInfo(CurrentBlockNumber, block, parentHash);
      CurrentBlockNumber := Add(CurrentBlockNumber, 1);
      if fault.PruneFails? { return false; }
      DbDao.DeleteBlockInfo(Sub(CurrentBlockNumber, RETAINED));
      ok := true;
    }

    method ParserConcurrencyMode(views: seq<View>, pruneFails: bool) returns (ok: bool)
      requires |views| == ConcurrencyNum
      modifies this, DbDao
      ensures State() == BatchStep(old(State()), views, pruneFails)
      ensures ok <==> BatchLoop(old(State()), views).1 && !pruneFails
      ensures forall n :: n in requested ==>
        n in old(requested) || old(CurrentBlockNumber) <= n < old(CurrentBlockNumber) + ConcurrencyNum
      ensures ConcurrencyNum > 0 ==> old(CurrentBlockNumber) in requested
      ensures ok ==> forall n :: old(CurrentBlockNumber) <= n < old(CurrentBlockNumber) + ConcurrencyNum ==> n in requested
      ensures old(requested) <= requested
    {
      hide ParseBlock, HandleAll, Interrupts, Prune, BlockAt, Parent;
      for i := 0 to ConcurrencyNum
        invariant BatchLoop(old(State()), views[..i]) == (State(), true)
        invariant CurrentBlockNumber <= old(CurrentBlockNumber) + i
        invariant i > 0 ==> CurrentBlockNumber == old(CurrentBlockNumber) + i
        invariant forall n :: n in requested ==>
          n in old(requested) || old(CurrentBlockNumber) <= n < old(CurrentBlockNumber) + i
        invariant old(requested) <= requested
        invariant forall n :: old(CurrentBlockNumber) <= n < old(CurrentBlockNumber) + i ==> n in requested
      {
        BatchLoopNext(old(State()), views, i);
        requested := requested + {CurrentBlockNumber};
        var v := views[i];
        if v.fault.FetchFails? || |v.chain| <= CurrentBlockNumber {
          BatchLoopFails(old(State()), views, i + 1);
          return false;
        }
        var block := BlockAt(v.chain, CurrentBlockNumber);
        var done := ParsingBlockData(block, v.fault);
        if !done || v.fault.CreateFails? {
          BatchLoopFails(old(State()), views, i + 1);
          return false;
        }
        DbDao.CreateBlockInfo(CurrentBlockNumber, block, Parent(block));
        CurrentBlockNumber := Add(CurrentBlockNumber, 1);
      }
      assert views[..ConcurrencyNum] == views;
      if pruneFails { return false; }
      DbDao.DeleteBlockInfo(Sub(CurrentBlockNumber, RETAINED));
      ok := true;
    }

    /** One iteration of the loop in `Run`, after the tip number `latest` was read.
        `view` serves a round in sub mode, `views` a batch. */
    method Round(latest: uint64, view: View, views: seq<View>, pruneFails: bool)
      requires |views| == ConcurrencyNum
      modifies this, DbDao
      ensures State() == match ModeOf(old(CurrentBlockNumber), latest, ConfirmNum, ConcurrencyNum)
                         case Batch => BatchStep(old(State()), views, pruneFails)
                         case SubMode => SubStep(old(State()), view.chain, view.fault)
                         case Idle => old(State())
      ensures forall n :: n in requested && n !in old(requested) ==>
        0 <= n && AsksFor(old(CurrentBlockNumber), latest, ConfirmNum, ConcurrencyNum, n)
      ensures ConfirmNum + ConcurrencyNum <= latest ==>
        && (forall n :: n in requested && n !in old(requested) ==> n + ConfirmNum < latest)
        && (old(CurrentBlockNumber) + ConfirmNum < latest ==> old(CurrentBlockNumber) in requested)
    {
      if ConcurrencyNum > 1 && CurrentBlockNumber < Sub(Sub(latest, ConfirmNum), ConcurrencyNum) {
        var _ := ParserConcurrencyMode(views, pruneFails);
      } else if CurrentBlockNumber < Sub(latest, ConfirmNum) {
        var _ := ParserSubMode(view.chain, view.fault);
      }
    }
  }

  lemma BatchLoopNext(s: ParserState, views: seq<View>, i: nat)
    requires i < |views| && BatchLoop(s, views[..i]).1
    ensures var mid := BatchLoop(s, views[..i]).0;
      BatchLoop(s, views[..i + 1]) == if !Fetches(mid, views[i].chain, views[i].fault) then (mid, false)
                                      else (Store(mid, views[i].chain, views[i].fault), BatchStores(mid, views[i]))
  {
    assert views[..i + 1][..i] == views[..i];
  }

  /** A batch that has failed stays failed. */
  lemma {:induction false} BatchLoopFails(s: ParserState, views: seq<View>, k: nat)
    requires k <= |views| && !BatchLoop(s, views[..k]).1
    ensures BatchLoop(s, views) == (BatchLoop(s, views[..k]).0, false)
    decreases |views|
  {
    if k < |views| {
      assert views[..|views| - 1][..k] == views[..k];
      BatchLoopFails(s, views[..|views| - 1], k);
    } else {
      assert views[..k] == views;
    }
  }
}
