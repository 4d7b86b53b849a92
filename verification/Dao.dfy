/** The tables the service writes, and the statements on them. Each statement is one atomic step. */
module Dao {
  import opened Uint64
  import opened Wrappers
  import opened Chain
  import opened PendingTable
  import opened BlockTable

  /** A row of t_avatar_notes, with the columns the block parser writes. */
  datatype NoteRow = NoteRow(outpoint: string, blockNumber: uint64, blockTimestamp: uint64, status: Status)

  type NoteTable = map<nat, NoteRow>

  function ConfirmNotes(t: NoteTable, outpoint: string, number: uint64, timestamp: uint64): NoteTable {
    map id | id in t ::
      if t[id].outpoint == outpoint
      then t[id].(blockNumber := number, blockTimestamp := timestamp, status := Confirm)
      else t[id]
  }

  /** Confirming the notes of an outpoint changes three columns of its rows and nothing else. */
  lemma NotesByColumn(t: NoteTable, outpoint: string, number: uint64, timestamp: uint64, id: nat)
    ensures var t' := ConfirmNotes(t, outpoint, number, timestamp);
      && (id in t' <==> id in t)
      && (id in t ==>
            t'[id] == if t[id].outpoint == outpoint then NoteRow(outpoint, number, timestamp, Confirm) else t[id])
  {
  }

  /** What a search with the sweep's filter and a limit of 100 may return. */
  predicate SearchResult(t: PendingTable, timestamp: int, list: seq<nat>) {
    && |list| <= 100
    && (forall i :: 0 <= i < |list| ==> list[i] in t && MaybeRejected(t[list[i]], timestamp))
    && (forall i, j :: 0 <= i < j < |list| ==> list[i] != list[j])
    && (|list| < 100 ==> forall id :: id in t && MaybeRejected(t[id], timestamp) ==> id in list)
  }

  class DbDao {
    var blocks: BlockTable
    var pending: PendingTable
    var notes: NoteTable

    constructor ()
      ensures blocks == map[] && pending == map[] && notes == map[]
    {
      blocks, pending, notes := map[], map[], map[];
    }

    method FindBlockInfo() returns (found: Option<uint64>)
      ensures found.None? <==> blocks == map[]
      ensures found.Some? ==> found.value in blocks && forall n :: n in blocks ==> n <= found.value
    {
      if blocks.Keys == {} {
        return None;
      }
      found := Some(Highest(blocks));
    }

    method FindBlockInfoByBlockNumber(number: uint64) returns (found: Option<BlockRow>)
      ensures found == if number in blocks then Some(blocks[number]) else None
    {
      found := if number in blocks then Some(blocks[number]) else None;
    }

    method CreateBlockInfo(number: uint64, hash: Hash, parent: Hash)
      modifies this`blocks
      ensures blocks == Upsert(old(blocks), number, BlockRow(hash, parent))
    {
      blocks := blocks[number := BlockRow(hash, parent)];
    }

    method DeleteBlockInfo(number: uint64)
      modifies this`blocks
      ensures blocks == Prune(old(blocks), number)
    {
      blocks := map n | n in blocks && !(n < number) :: blocks[n];
    }

    method CreatePending(id: nat, row: PendingRow) returns (ok: bool)
      modifies this`pending
      ensures ok <==> CanCreate(old(pending), id, row)
      ensures pending == Apply(old(pending), PendingOp.Create(id, row))
    {
      ok := id !in pending && forall other :: other in pending.Keys ==> !HasKey(pending[other], row.action, row.outpoint);
      if ok {
        pending := pending[id := row];
      }
    }

    method UpdatePendingToConfirm(id: nat, number: uint64, timestamp: uint64)
      modifies this`pending
      ensures pending == Apply(old(pending), ConfirmById(id, number, timestamp))
    {
      if id in pending {
        pending := pending[id := pending[id].(blockNumber := number, status := Confirm, blockTimestamp := timestamp)];
      }
    }

    method UpdatePendingToRejected(timestamp: int)
      modifies this`pending
      ensures pending == Apply(old(pending), RejectBefore(timestamp))
    {
      pending := map id | id in pending ::
        if pending[id].blockNumber == 0 && pending[id].status == Pending && pending[id].blockTimestamp < timestamp
        then pending[id].(status := Rejected) else pending[id];
    }

    /** Which 100 rows a limited search returns is the database's choice. */
    method SearchMaybeRejectedPending(timestamp: int) returns (list: seq<nat>)
      ensures SearchResult(pending, timestamp, list)
      ensures forall id :: id in list ==>
        id in pending && pending[id].blockNumber == 0 && pending[id].status == Pending && pending[id].blockTimestamp < timestamp
    {
      list := [];
      var rest := pending.Keys;
      while rest != {} && |list| < 100
        invariant |list| <= 100 && rest <= pending.Keys
        invariant forall i :: 0 <= i < |list| ==>
          list[i] in pending && MaybeRejected(pending[list[i]], timestamp) && list[i] !in rest
        invariant forall i, j :: 0 <= i < j < |list| ==> list[i] != list[j]
        invariant forall id :: id in pending && MaybeRejected(pending[id], timestamp) ==> id in list || id in rest
        decreases |rest|
      {
        var id :| id in rest;
        rest := rest - {id};
        if MaybeRejected(pending[id], timestamp) {
          list := list + [id];
        }
      }
    }

    /** The first row, by id, of a transaction's output 0. */
    method GetTxStatusByOutpoint(txHash: string) returns (found: Option<nat>)
      ensures found.None? <==> forall id :: id in pending ==> pending[id].outpoint != txHash + "-0"
      ensures found.Some? ==>
        && found.value in pending && pending[found.value].outpoint == txHash + "-0"
        && forall id :: id in pending && pending[id].outpoint == txHash + "-0" ==> found.value <= id
    {
      found := None;
      var rest := pending.Keys;
      while rest != {}
        invariant rest <= pending.Keys
        invariant found.None? ==> forall id :: id in pending && id !in rest ==> pending[id].outpoint != txHash + "-0"
        invariant found.Some? ==>
          && found.value in pending && pending[found.value].outpoint == txHash + "-0"
          && forall id :: id in pending && id !in rest && pending[id].outpoint == txHash + "-0" ==> found.value <= id
        decreases |rest|
      {
        var id :| id in rest;
        rest := rest - {id};
        if pending[id].outpoint == txHash + "-0" && (found.None? || id < found.value) {
          found := Some(id);
        }
      }
    }

    method UpdatePendingStatusToConfirm(action: Action, outpoint: string, number: uint64, timestamp: uint64)
      modifies this`pending
      ensures pending == Apply(old(pending), ConfirmByKey(action, outpoint, number, timestamp))
    {
      pending := map id | id in pending ::
        if pending[id].action == action && pending[id].outpoint == outpoint
        then pending[id].(blockNumber := number, blockTimestamp := timestamp, status := Confirm)
        else pending[id];
    }

    method UpdateAvatarNotesToConfirm(outpoint: string, number: uint64, timestamp: uint64)
      modifies this`notes
      ensures notes == ConfirmNotes(old(notes), outpoint, number, timestamp)
    {
      notes := map id | id in notes ::
        if notes[id].outpoint == outpoint
        then notes[id].(blockNumber := number, blockTimestamp := timestamp, status := Confirm)
        else notes[id];
    }
  }
}
