/** Table t_webauthn_pending_info and the filtered updates that are the only writes to it. */
module PendingTable {
  import opened Uint64
  import opened Chain

  datatype Status = Pending | Rejected | Confirm

  datatype PendingRow = PendingRow(
    action: Action,
    address: string,
    outpoint: string,
    blockNumber: uint64,
    blockTimestamp: uint64,
    status: Status)

  /** Rows by id. */
  type PendingTable = map<nat, PendingRow>

  /** The unique key (action, outpoint). */
  predicate HasKey(row: PendingRow, action: Action, outpoint: string) {
    row.action == action && row.outpoint == outpoint
  }

  function Confirmed(row: PendingRow, blockNumber: uint64, blockTimestamp: uint64): PendingRow {
    row.(blockNumber := blockNumber, blockTimestamp := blockTimestamp, status := Confirm)
  }

  /** The filter shared by the sweep's search and its rejecting update. */
  predicate MaybeRejected(row: PendingRow, timestamp: int) {
    row.blockNumber == 0 && row.status == Pending && row.blockTimestamp < timestamp
  }

  /** One statement of some writer.  `Create` is the sender's insert, with the id
      the database assigns; it fails when the id or the unique key is taken. */
  datatype PendingOp =
    | Create(id: nat, row: PendingRow)
    | ConfirmByKey(action: Action, outpoint: string, blockNumber: uint64, blockTimestamp: uint64)
    | ConfirmById(id: nat, blockNumber: uint64, blockTimestamp: uint64)
    | RejectBefore(timestamp: int)

  predicate CanCreate(t: PendingTable, id: nat, row: PendingRow) {
    id !in t && forall other :: other in t ==> !HasKey(t[other], row.action, row.outpoint)
  }

  function Apply(t: PendingTable, op: PendingOp): PendingTable {
    match op
    case Create(id, row) =>
      if CanCreate(t, id, row) then t[id := row] else t
    case ConfirmByKey(action, outpoint, number, timestamp) =>
      map id | id in t :: if HasKey(t[id], action, outpoint) then Confirmed(t[id], number, timestamp) else t[id]
    case ConfirmById(id, number, timestamp) =>
      if id in t then t[id := Confirmed(t[id], number, timestamp)] else t
    case RejectBefore(timestamp) =>
      map id | id in t :: if MaybeRejected(t[id], timestamp) then t[id].(status := Rejected) else t[id]
  }

  /** Each statement by its columns: an insert adds its row if id and (action, outpoint)
      are free; confirming sets number, time and status of the rows of a key, or of
      one id, whatever their status; rejecting sets the status of pending rows without
      number that are older than the bound.  Nothing else changes. */
  lemma StatementByColumn(t: PendingTable, op: PendingOp, id: nat)
    ensures var t' := Apply(t, op);
      match op
      case Create(inserted, row) =>
        var free := inserted !in t && forall other :: other in t ==> t[other].action != row.action || t[other].outpoint != row.outpoint;
        && (id in t' <==> id in t || (free && id == inserted))
        && (id in t' ==> t'[id] == if free && id == inserted then row else t[id])
      case ConfirmByKey(action, outpoint, number, timestamp) =>
        && (id in t' <==> id in t)
        && (id in t ==> t'[id] == if t[id].action == action && t[id].outpoint == outpoint
                                  then PendingRow(action, t[id].address, outpoint, number, timestamp, Confirm) else t[id])
      case ConfirmById(confirmed, number, timestamp) =>
        && (id in t' <==> id in t)
        && (id in t ==> t'[id] == if id == confirmed
                                  then PendingRow(t[id].action, t[id].address, t[id].outpoint, number, timestamp, Confirm) else t[id])
      case RejectBefore(timestamp) =>
        && (id in t' <==> id in t)
        && (id in t ==> t'[id] == if t[id].blockNumber == 0 && t[id].status == Pending && t[id].blockTimestamp < timestamp
                                  then t[id].(status := Rejected) else t[id])
  {
  }

  function ApplyAll(t: PendingTable, ops: seq<PendingOp>): PendingTable
    decreases |ops|
  {
    if ops == [] then t else ApplyAll(Apply(t, ops[0]), ops[1..])
  }

  lemma {:induction false} ApplyAllAppend(t: PendingTable, a: seq<PendingOp>, b: seq<PendingOp>)
    ensures ApplyAll(t, a + b) == ApplyAll(ApplyAll(t, a), b)
    decreases |a|
  {
    if a == [] {
      assert a + b == b;
    } else {
      assert (a + b)[0] == a[0] && (a + b)[1..] == a[1..] + b;
      ApplyAllAppend(Apply(t, a[0]), a[1..], b);
    }
  }

  /** What the writers pass: the sender inserts a fresh pending row, and the chain
      has no relevant transaction in block 0. */
  predicate WellFormedOp(op: PendingOp) {
    match op
    case Create(_, row) => row.blockNumber == 0 && row.status == Pending
    case ConfirmByKey(_, _, number, _) => number > 0
    case ConfirmById(_, number, _) => number > 0
    case RejectBefore(_) => true
  }

  function Rank(s: Status): nat {
    match s case Pending => 0 case Rejected => 1 case Confirm => 2
  }

  /** Row b is what row a has become: the status did not move down, a confirmed
      row stays confirmed, and the identifying columns did not change. */
  predicate Advanced(a: PendingRow, b: PendingRow) {
    && Rank(a.status) <= Rank(b.status)
    && b.action == a.action && b.outpoint == a.outpoint && b.address == a.address
  }

  /** Ids and keys are unique, and a block number is recorded exactly on confirmed rows. */
  predicate Consistent(t: PendingTable) {
    && (forall id :: id in t ==> (t[id].blockNumber != 0 <==> t[id].status == Confirm))
    && (forall i, j :: i in t && j in t && HasKey(t[j], t[i].action, t[i].outpoint) ==> i == j)
  }

  lemma {:induction false} ApplyKeepsConsistent(t: PendingTable, op: PendingOp)
    requires Consistent(t) && WellFormedOp(op)
    ensures Consistent(Apply(t, op))
    ensures forall id :: id in t ==> id in Apply(t, op) && Advanced(t[id], Apply(t, op)[id])
  {
    if op.Create? && CanCreate(t, op.id, op.row) {
      assert forall i :: i in t ==> !HasKey(t[i], op.row.action, op.row.outpoint) && i != op.id;
    }
  }

  lemma {:induction false} ConsistentAfter(t: PendingTable, ops: seq<PendingOp>)
    requires Consistent(t) && forall op :: op in ops ==> WellFormedOp(op)
    ensures Consistent(ApplyAll(t, ops))
    decreases |ops|
  {
    if ops != [] {
      ApplyKeepsConsistent(t, ops[0]);
      ConsistentAfter(Apply(t, ops[0]), ops[1..]);
    }
  }

  /** Under every interleaving of sender, parser and sweep statements, including
      sweeps that act on a stale list, a row only moves up along
      Pending < Rejected < Confirm, and the table stays consistent. */
  lemma {:induction false} StatusOnlyMovesUp(t: PendingTable, ops: seq<PendingOp>, id: nat)
    requires Consistent(t) && forall op :: op in ops ==> WellFormedOp(op)
    requires id in t
    ensures Consistent(ApplyAll(t, ops))
    ensures id in ApplyAll(t, ops) && Advanced(t[id], ApplyAll(t, ops)[id])
    decreases |ops|
  {
    if ops != [] {
      ApplyKeepsConsistent(t, ops[0]);
      StatusOnlyMovesUp(Apply(t, ops[0]), ops[1..], id);
    }
  }

  /** A rejected row is one that some rejecting statement of the run found pending:
      without such a statement no row is ever rejected. */
  lemma {:induction false} OnlySweepsReject(t: PendingTable, ops: seq<PendingOp>, id: nat)
    requires Consistent(t) && forall op :: op in ops ==> WellFormedOp(op)
    requires id in ApplyAll(t, ops) && ApplyAll(t, ops)[id].status == Rejected
    requires id in t ==> t[id].status != Rejected
    ensures exists k :: 0 <= k < |ops| && ops[k].RejectBefore?
                     && id in ApplyAll(t, ops[..k]) && MaybeRejected(ApplyAll(t, ops[..k])[id], ops[k].timestamp)
    decreases |ops|
  {
    if ops != [] {
      ApplyKeepsConsistent(t, ops[0]);
      var t' := Apply(t, ops[0]);
      if id in t' && t'[id].status == Rejected {
        assert ops[..0] == [];
        assert ops[0].RejectBefore? && MaybeRejected(ApplyAll(t, ops[..0])[id], ops[0].timestamp);
      } else {
        OnlySweepsReject(t', ops[1..], id);
        var k :| 0 <= k < |ops[1..]| && ops[1..][k].RejectBefore?
              && id in ApplyAll(t', ops[1..][..k]) && MaybeRejected(ApplyAll(t', ops[1..][..k])[id], ops[1..][k].timestamp);
        assert ops[..k + 1] == [ops[0]] + ops[1..][..k];
        assert ApplyAll(t, ops[..k + 1]) == ApplyAll(t', ops[1..][..k]);
        assert ops[k + 1] == ops[1..][k];
      }
    }
  }
}
