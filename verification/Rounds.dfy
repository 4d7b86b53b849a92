/** What a round in sub mode does, call by call, and what becomes of a row the sender inserted. */
module Rounds {
  import opened Uint64
  import opened Wrappers
  import opened Chain
  import opened PendingTable
  import opened BlockTable
  import opened Dao
  import opened BlockParser
  import opened Handling

  /** The rows after the transactions before number k, and that at k as well if
      `withLast`, were handled: those they are for carry the block's number and time. */
  ghost predicate RowsHandled(t: Tables, t': Tables, h: Hash, k: nat, withLast: bool)
    requires |h| > 0 && k <= |BodyOf(h).txs| && (withLast ==> k < |BodyOf(h).txs|)
  {
    && t'.pending.Keys == t.pending.Keys
    && forall id :: id in t.pending ==>
         var row := t.pending[id];
         var txs := BodyOf(h).txs;
         t'.pending[id] ==
           if (exists j :: 0 <= j < k && TxConfirms(txs[j], row)) || (withLast && TxConfirms(txs[k], row))
           then row.(blockNumber := |h| - 1, blockTimestamp := BodyOf(h).timestamp, status := Confirm)
           else row
  }

  ghost predicate NotesHandled(t: Tables, t': Tables, h: Hash, k: nat)
    requires |h| > 0 && k <= |BodyOf(h).txs|
  {
    && t'.notes.Keys == t.notes.Keys
    && forall id :: id in t.notes ==>
         var note := t.notes[id];
         t'.notes[id] ==
           if NotedUpTo(h, k, note.outpoint)
           then note.(blockNumber := |h| - 1, blockTimestamp := BodyOf(h).timestamp, status := Confirm)
           else note
  }

  lemma HandledRows(t: Tables, h: Hash, k: nat)
    requires |h| > 0 && k <= |BodyOf(h).txs|
    ensures RowsHandled(t, HandleUpTo(t, h, k), h, k, false) && NotesHandled(t, HandleUpTo(t, h, k), h, k)
  {
    HandleUpToRows(t, h, k);
    hide HandleUpTo, TxConfirms, NotedUpTo;
  }

  lemma HandledRowsAndPending(t: Tables, h: Hash, k: nat)
    requires |h| > 0 && k < |BodyOf(h).txs| && UpdatesKeyList(BodyOf(h).txs[k])
    ensures var t' := ConfirmPending(HandleUpTo(t, h, k), h, BodyOf(h).txs[k]);
      RowsHandled(t, t', h, k, true) && NotesHandled(t, t', h, k)
  {
    HandleUpToRows(t, h, k);
    hide HandleUpTo, NotedUpTo;
  }

  /** A fault in the handler of transaction k: every later transaction is left out.
      The pending rows of transaction k are confirmed only if the statement on the
      notes is the one that fails; its notes never are. */
  lemma ErrorStopsBlock(t: Tables, h: Hash, k: nat, call: HandlerCall)
    requires |h| > 0 && k < |BodyOf(h).txs| && BodyOf(h).txs[k].action == Some(UpdateKeyList)
    requires call.VersionCheck? || BodyOf(h).txs[k].keyListOutput
    ensures Interrupts(HandleFails(k, call), h)
    ensures var t' := ParseBlock(t, h, HandleFails(k, call));
      RowsHandled(t, t', h, k, call.NotesUpdate?) && NotesHandled(t, t', h, k)
  {
    HandledRows(t, h, k);
    if call.NotesUpdate? { HandledRowsAndPending(t, h, k); }
    hide HandleUpTo, RowsHandled, NotesHandled, ConfirmPending;
  }

  /** Faults of calls that the block does not make change nothing: another handler, a
      transaction that is not there, or a statement for one that is not relevant. */
  lemma OtherFaultsDoNotStop(t: Tables, h: Hash, fault: Fault)
    requires |h| > 0
    requires fault.HandleFails? && fault.tx < |BodyOf(h).txs| && BodyOf(h).txs[fault.tx].action == Some(UpdateKeyList)
             ==> !fault.call.VersionCheck? && !BodyOf(h).txs[fault.tx].keyListOutput
    ensures !Interrupts(fault, h)
    ensures var n, t' := |BodyOf(h).txs|, ParseBlock(t, h, fault); RowsHandled(t, t', h, n, false) && NotesHandled(t, t', h, n)
  {
    HandledRows(t, h, |BodyOf(h).txs|);
    hide HandleUpTo, RowsHandled, NotesHandled;
  }

  /** The stored row below the cursor, if any, names the parent of the next block. */
  predicate ParentStored(s: ParserState, chain: Hash)
    requires 0 < s.cur < |chain|
  {
    s.cur - 1 in s.rows ==> s.rows[s.cur - 1].hash == chain[..s.cur]
  }

  /** A round, call by call.  Without a block or a lookup nothing happens; on a fork
      only the cursor steps back; an error while handling leaves cursor and block rows
      alone; so does a failed write of the row, after the whole block; and a failed
      prune only leaves old rows behind. */
  lemma RoundByCall(s: ParserState, chain: Hash, fault: Fault)
    requires 0 < s.cur
    ensures fault.FetchFails? || fault.FindFails? || |chain| <= s.cur ==> SubStep(s, chain, fault) == s
    ensures !fault.FetchFails? && !fault.FindFails? && s.cur < |chain| ==>
      var s', h := SubStep(s, chain, fault), chain[..s.cur + 1];
      if !ParentStored(s, chain) then s' == ParserState(s.cur - 1, s.rows, s.tables)
      else if Interrupts(fault, h) then s'.cur == s.cur && s'.rows == s.rows
      else if fault.CreateFails? then s' == ParserState(s.cur, s.rows, HandleAll(s.tables, h))
      else
        var filled := s.rows[s.cur := BlockRow(h, chain[..s.cur])];
        && s'.cur == s.cur + 1 && s'.tables == HandleAll(s.tables, h)
        && (fault.PruneFails? ==> s'.rows == filled)
        && (!fault.PruneFails? && 19 <= s.cur ==>
              && (forall n :: n in s'.rows <==> n in filled && s.cur <= n + 19)
              && (forall n :: n in s'.rows ==> s'.rows[n] == filled[n]))
  {
    if s.cur < |chain| { assert Parent(BlockAt(chain, s.cur)) == chain[..s.cur]; }
    hide HandleAll, HandleUpTo;
  }

  // ---------------------------------------------------------------- sender and parser

  /** The row that the sender inserts for a transaction is confirmed by a handled block
      exactly if the block has a key-list update with that hash, whatever the row's
      status by then; and then with the block's number and time. */
  lemma SentRowIsConfirmed(t: Tables, h: Hash, id: nat, hash: string)
    requires |h| > 0 && id in t.pending && HasKey(t.pending[id], UpdateKeyList, OutPoint0(hash))
    ensures id in HandleAll(t, h).pending
    ensures var row, included := t.pending[id], exists j :: 0 <= j < |BodyOf(h).txs| && IsUpdateWithHash(BodyOf(h).txs[j], hash);
      HandleAll(t, h).pending[id] ==
        if included then row.(blockNumber := |h| - 1, blockTimestamp := BodyOf(h).timestamp, status := Confirm) else row
  {
    HandledRows(t, h, |BodyOf(h).txs|);
    forall j | 0 <= j < |BodyOf(h).txs|
      ensures TxConfirms(BodyOf(h).txs[j], t.pending[id]) <==> IsUpdateWithHash(BodyOf(h).txs[j], hash)
    {
      if BodyOf(h).txs[j].hash != hash && OutPoint0(BodyOf(h).txs[j].hash) == OutPoint0(hash) {
        OutPoint0Injective(BodyOf(h).txs[j].hash, hash);
      }
    }
    hide HandleUpTo, TxConfirms, IsUpdateWithHash, OutPoint0;
  }

  /** The row that the sender inserts is the one that a status query by transaction
      hash finds, unless another row has the outpoint already. */
  lemma SentRowIsFound(t: PendingTable, id: nat, row: PendingRow, hash: string)
    requires row.outpoint == OutPoint0(hash) && id !in t && forall other :: other in t ==> t[other].outpoint != OutPoint0(hash)
    ensures var t' := Apply(t, Create(id, row));
      id in t' && t'[id] == row && forall other :: other in t' && t'[other].outpoint == hash + "-0" ==> other == id
  {
    assert CanCreate(t, id, row);
  }

  predicate IsUpdateWithHash(tx: Tx, hash: string) {
    tx.hash == hash && tx.action == Some(UpdateKeyList) && tx.keyListOutput
  }
}
