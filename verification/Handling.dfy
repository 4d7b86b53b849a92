/** What handling a block means for a row of the tables, and why replaying it is harmless. */
module Handling {
  import opened Uint64
  import opened Wrappers
  import opened Chain
  import opened PendingTable
  import opened BlockTable
  import opened Dao
  import opened BlockParser

  /** The transaction updates a key list of the current version. */
  predicate UpdatesKeyList(tx: Tx) {
    tx.action == Some(UpdateKeyList) && tx.keyListOutput
  }

  /** It is the one that the row waits for: its output 0 is the row's outpoint. */
  predicate TxConfirms(tx: Tx, row: PendingRow) {
    UpdatesKeyList(tx) && row.action == UpdateKeyList && row.outpoint == OutPoint0(tx.hash)
  }

  /** One of the first k transactions of the block is the one the row waits for. */
  predicate MentionsUpTo(h: Hash, k: nat, row: PendingRow)
    requires |h| > 0 && k <= |BodyOf(h).txs|
  {
    exists j :: 0 <= j < k && TxConfirms(BodyOf(h).txs[j], row)
  }

  predicate Mentions(h: Hash, row: PendingRow) {
    |h| > 0 && MentionsUpTo(h, |BodyOf(h).txs|, row)
  }

  predicate NotedUpTo(h: Hash, k: nat, outpoint: string)
    requires |h| > 0 && k <= |BodyOf(h).txs|
  {
    exists j :: 0 <= j < k && UpdatesKeyList(BodyOf(h).txs[j]) && OutPoint0(BodyOf(h).txs[j].hash) == outpoint
  }

  function ConfirmedBy(h: Hash, row: PendingRow): PendingRow
    requires |h| > 0
  {
    row.(blockNumber := |h| - 1, blockTimestamp := h[|h| - 1].timestamp, status := Confirm)
  }

  function NoteConfirmedBy(h: Hash, row: NoteRow): NoteRow
    requires |h| > 0
  {
    row.(blockNumber := |h| - 1, blockTimestamp := h[|h| - 1].timestamp, status := Confirm)
  }

  /** Handling the first k transactions confirms exactly the rows they are for,
      with the number and timestamp of the block, and changes nothing else. */
  lemma {:induction false} HandleUpToRows(t: Tables, h: Hash, k: nat)
    requires |h| > 0 && k <= |BodyOf(h).txs|
    ensures var t' := HandleUpTo(t, h, k);
      && t'.pending == (map id | id in t.pending ::
           if MentionsUpTo(h, k, t.pending[id]) then ConfirmedBy(h, t.pending[id]) else t.pending[id])
      && t'.notes == (map id | id in t.notes ::
           if NotedUpTo(h, k, t.notes[id].outpoint) then NoteConfirmedBy(h, t.notes[id]) else t.notes[id])
    decreases k
  {
    if k > 0 {
      HandleUpToRows(t, h, k - 1);
      var tx := BodyOf(h).txs[k - 1];
      var before := HandleUpTo(t, h, k - 1);
      forall id | id in t.pending
        ensures MentionsUpTo(h, k, t.pending[id]) <==> MentionsUpTo(h, k - 1, t.pending[id]) || TxConfirms(tx, t.pending[id])
      {
      }
      forall id | id in t.notes
        ensures NotedUpTo(h, k, t.notes[id].outpoint)
           <==> NotedUpTo(h, k - 1, t.notes[id].outpoint) || (UpdatesKeyList(tx) && OutPoint0(tx.hash) == t.notes[id].outpoint)
      {
      }
    }
  }

  /** Table t' is table t after some of the handlings of block h have been cut short. */
  predicate Partly(t: Tables, t': Tables, h: Hash)
    requires |h| > 0
  {
    && t'.pending.Keys == t.pending.Keys && t'.notes.Keys == t.notes.Keys
    && (forall id :: id in t.pending ==>
          || t'.pending[id] == t.pending[id]
          || (Mentions(h, t.pending[id]) && t'.pending[id] == ConfirmedBy(h, t.pending[id])))
    && (forall id :: id in t.notes ==>
          || t'.notes[id] == t.notes[id]
          || (NotedUpTo(h, |BodyOf(h).txs|, t.notes[id].outpoint) && t'.notes[id] == NoteConfirmedBy(h, t.notes[id])))
  }

  /** A handling that may be interrupted leaves each row as it was or as the whole
      block leaves it; an uninterrupted one confirms every row the block is for. */
  lemma ParseBlockRows(t: Tables, h: Hash, fault: Fault)
    requires |h| > 0
    ensures var t' := ParseBlock(t, h, fault);
      && Partly(t, t', h)
      && (!Interrupts(fault, h) ==> forall id :: id in t.pending && Mentions(h, t.pending[id]) ==>
            t'.pending[id] == ConfirmedBy(h, t.pending[id]))
  {
    var k := if Interrupts(fault, h) then fault.tx else |BodyOf(h).txs|;
    HandleUpToRows(t, h, k);
    if Interrupts(fault, h) && fault.call.NotesUpdate? {
      forall id | id in t.pending && TxConfirms(BodyOf(h).txs[k], t.pending[id]) ensures Mentions(h, t.pending[id]) {
      }
    }
  }

  /** What a row waits for depends on its action and outpoint only. */
  lemma SameKeySameMentions(h: Hash, a: PendingRow, b: PendingRow)
    requires a.action == b.action && a.outpoint == b.outpoint
    ensures Mentions(h, a) <==> Mentions(h, b)
  {
    if |h| > 0 {
      forall j | 0 <= j < |BodyOf(h).txs|
        ensures TxConfirms(BodyOf(h).txs[j], a) <==> TxConfirms(BodyOf(h).txs[j], b)
      {
      }
    }
  }

  /** The rows differ at most in what a whole handling of block h overwrites. */
  predicate SameRowButFor(a: PendingRow, b: PendingRow, h: Hash) {
    && a.action == b.action && a.address == b.address && a.outpoint == b.outpoint
    && (!Mentions(h, a) ==> b == a)
  }

  predicate SameButFor(t: Tables, t': Tables, h: Hash)
    requires |h| > 0
  {
    && t'.pending.Keys == t.pending.Keys && t'.notes.Keys == t.notes.Keys
    && (forall id :: id in t.pending ==> SameRowButFor(t.pending[id], t'.pending[id], h))
    && (forall id :: id in t.notes ==>
          && t'.notes[id].outpoint == t.notes[id].outpoint
          && (!NotedUpTo(h, |BodyOf(h).txs|, t.notes[id].outpoint) ==> t'.notes[id] == t.notes[id]))
  }

  lemma SameAfterParse(t: Tables, t': Tables, h: Hash, fault: Fault)
    requires |h| > 0 && SameButFor(t, t', h)
    ensures SameButFor(t, ParseBlock(t', h, fault), h)
  {
    ParseBlockRows(t', h, fault);
    forall id | id in t.pending ensures Mentions(h, t.pending[id]) <==> Mentions(h, t'.pending[id]) {
      SameKeySameMentions(h, t.pending[id], t'.pending[id]);
    }
    hide ParseBlock, Mentions, NotedUpTo;
  }

  /** What a statement does to a row that is there. */
  function RowAfter(op: PendingOp, id: nat, row: PendingRow): PendingRow {
    match op
    case Create(_, _) => row
    case ConfirmByKey(action, outpoint, number, timestamp) =>
      if HasKey(row, action, outpoint) then Confirmed(row, number, timestamp) else row
    case ConfirmById(id', number, timestamp) => if id == id' then Confirmed(row, number, timestamp) else row
    case RejectBefore(timestamp) => if MaybeRejected(row, timestamp) then row.(status := Rejected) else row
  }

  lemma ApplyRowByRow(t: PendingTable, op: PendingOp)
    ensures var t' := Apply(t, op);
      && (forall id :: id in t ==> id in t' && t'[id] == RowAfter(op, id, t[id]))
      && (forall id :: id in t' && id !in t ==> op.Create? && CanCreate(t, op.id, op.row) && id == op.id && t'[id] == op.row)
      && (op.Create? && CanCreate(t, op.id, op.row) ==> op.id in t')
  {
  }

  lemma SameRowAfter(a: PendingRow, b: PendingRow, h: Hash, op: PendingOp, id: nat)
    requires SameRowButFor(a, b, h)
    ensures SameRowButFor(RowAfter(op, id, a), RowAfter(op, id, b), h)
  {
    SameKeySameMentions(h, a, RowAfter(op, id, a));
    hide Mentions;
  }

  lemma SameCanCreate(t: PendingTable, t': PendingTable, h: Hash, id: nat, row: PendingRow)
    requires t'.Keys == t.Keys && forall id :: id in t ==> SameRowButFor(t[id], t'[id], h)
    ensures CanCreate(t, id, row) <==> CanCreate(t', id, row)
  {
    hide Mentions;
    forall other | other in t ensures HasKey(t[other], row.action, row.outpoint) <==> HasKey(t'[other], row.action, row.outpoint) {
      assert SameRowButFor(t[other], t'[other], h);
    }
  }

  /** Every statement on the pending rows, of whichever writer. */
  lemma SameAfterStatement(t: Tables, t': Tables, h: Hash, op: PendingOp)
    requires |h| > 0 && SameButFor(t, t', h)
    ensures SameButFor(t.(pending := Apply(t.pending, op)), t'.(pending := Apply(t'.pending, op)), h)
  {
    hide Mentions, NotedUpTo, Apply, RowAfter, CanCreate, SameRowButFor;
    ApplyRowByRow(t.pending, op);
    ApplyRowByRow(t'.pending, op);
    if op.Create? { SameCanCreate(t.pending, t'.pending, h, op.id, op.row); }
    var u, u' := Apply(t.pending, op), Apply(t'.pending, op);
    forall id | id in u ensures id in u' && SameRowButFor(u[id], u'[id], h) {
      if id in t.pending { SameRowAfter(t.pending[id], t'.pending[id], h, op, id); } else { SameRowSelf(u[id], h); }
    }
    assert u'.Keys == u.Keys;
  }

  lemma SameRowSelf(row: PendingRow, h: Hash)
    ensures SameRowButFor(row, row, h)
  {
  }

  lemma {:induction false} SameAfterStatements(t: Tables, t': Tables, h: Hash, ops: seq<PendingOp>)
    requires |h| > 0 && SameButFor(t, t', h)
    ensures SameButFor(t.(pending := ApplyAll(t.pending, ops)), t'.(pending := ApplyAll(t'.pending, ops)), h)
    decreases |ops|
  {
    hide SameButFor;
    if ops == [] {
      assert t.(pending := ApplyAll(t.pending, ops)) == t && t'.(pending := ApplyAll(t'.pending, ops)) == t';
    } else {
      SameAfterStatement(t, t', h, ops[0]);
      SameAfterStatements(t.(pending := Apply(t.pending, ops[0])), t'.(pending := Apply(t'.pending, ops[0])), h, ops[1..]);
    }
  }

  /** A whole handling overwrites what handlings that were cut short have left. */
  lemma HandleAllOverwrites(t: Tables, t': Tables, h: Hash)
    requires |h| > 0 && SameButFor(t, t', h)
    ensures HandleAll(t', h) == HandleAll(t, h)
  {
    HandleUpToRows(t, h, |BodyOf(h).txs|);
    HandleUpToRows(t', h, |BodyOf(h).txs|);
    forall id | id in t.pending ensures Mentions(h, t.pending[id]) <==> Mentions(h, t'.pending[id]) {
      SameKeySameMentions(h, t.pending[id], t'.pending[id]);
    }
    hide HandleUpTo;
    assert HandleAll(t', h).pending == HandleAll(t, h).pending;
    assert HandleAll(t', h).notes == HandleAll(t, h).notes;
  }

  // ---------------------------------------------------------------- replay

  /** A round on one chain that may fail, after statements of the other writers. */
  datatype Attempt = Attempt(statements: seq<PendingOp>, fault: Fault)

  function Changed(s: ParserState, statements: seq<PendingOp>): ParserState {
    s.(tables := s.tables.(pending := ApplyAll(s.tables.pending, statements)))
  }

  function Attempts(s: ParserState, chain: Hash, tries: seq<Attempt>): ParserState
    decreases |tries|
  {
    if tries == [] then s
    else Attempts(SubStep(Changed(s, tries[0].statements), chain, tries[0].fault), chain, tries[1..])
  }

  /** The statements before all attempts, in order. */
  function AllStatements(tries: seq<Attempt>): seq<PendingOp>
    decreases |tries|
  {
    if tries == [] then [] else tries[0].statements + AllStatements(tries[1..])
  }

  /** No attempt gets as far as writing the row of the block. */
  predicate AllFail(s: ParserState, chain: Hash, tries: seq<Attempt>) {
    forall a :: a in tries ==> !Stores(s, chain, a.fault)
  }

  /** State s' is state s, but for handlings of the next block that were cut short. */
  predicate PartlyAt(s: ParserState, s': ParserState, chain: Hash)
    requires s.cur < |chain|
  {
    s'.cur == s.cur && s'.rows == s.rows && SameButFor(s.tables, s'.tables, BlockAt(chain, s.cur))
  }

  lemma FailedAttempt(s: ParserState, s': ParserState, chain: Hash, a: Attempt)
    requires PassesCheck(s, chain, NoFault) && PartlyAt(s, s', chain)
    requires !Stores(s, chain, a.fault)
    ensures PartlyAt(Changed(s, a.statements), SubStep(Changed(s', a.statements), chain, a.fault), chain)
  {
    var h := BlockAt(chain, s.cur);
    var before := Changed(s', a.statements);
    hide SameButFor, ParseBlock;
    SameAfterStatements(s.tables, s'.tables, h, a.statements);
    SameAfterParse(Changed(s, a.statements).tables, before.tables, h, a.fault);
  }

  lemma {:induction false} AttemptsArePartial(s: ParserState, s': ParserState, chain: Hash, tries: seq<Attempt>)
    requires PassesCheck(s, chain, NoFault) && PartlyAt(s, s', chain) && AllFail(s, chain, tries)
    ensures PartlyAt(Changed(s, AllStatements(tries)), Attempts(s', chain, tries), chain)
    decreases |tries|
  {
    hide SameButFor, SubStep;
    if tries != [] {
      assert tries[0] in tries;
      FailedAttempt(s, s', chain, tries[0]);
      var mid, mid' := Changed(s, tries[0].statements), SubStep(Changed(s', tries[0].statements), chain, tries[0].fault);
      forall a | a in tries[1..] ensures !Stores(mid, chain, a.fault) {
        assert a in tries;
      }
      AttemptsArePartial(mid, mid', chain, tries[1..]);
      ApplyAllAppend(s.tables.pending, tries[0].statements, AllStatements(tries[1..]));
    }
  }

  /** Replay is harmless: any number of rounds that fail anywhere before the block
      row is written, between statements of the sender and the sweep, followed by a
      successful round, leave the cursor and all tables as those statements and one
      uninterrupted round do. */
  lemma ReplayIsHarmless(s: ParserState, chain: Hash, tries: seq<Attempt>)
    requires PassesCheck(s, chain, NoFault) && AllFail(s, chain, tries)
    ensures var s' := Attempts(s, chain, tries);
      && s'.cur == s.cur && s'.rows == s.rows
      && SubStep(s', chain, NoFault) == SubStep(Changed(s, AllStatements(tries)), chain, NoFault)
  {
    var s', t := Attempts(s, chain, tries), Changed(s, AllStatements(tries));
    assert SameButFor(s.tables, s.tables, BlockAt(chain, s.cur));
    AttemptsArePartial(s, s, chain, tries);
    HandleAllOverwrites(t.tables, s'.tables, BlockAt(chain, s.cur));
    hide SameButFor, HandleAll, Attempts;
    assert Stores(s', chain, NoFault) && Stores(t, chain, NoFault);
  }
}
