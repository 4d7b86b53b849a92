/** The handlers that build, cache and send key-list transactions. */
module HttpHandle {
  import opened Uint64
  import opened Wrappers
  import opened Chain
  import opened PendingTable
  import opened Dao
  import opened KeyListCell
  import KL = KeyList

  datatype SignType = Webauthn | OtherSignType

  datatype SignData = SignData(signType: SignType, signMsg: seq<nat>)

  /** A cached transaction with the address of the master that asked for it. */
  datatype SignInfoCache = SignInfoCache(address: string, built: BuiltTx)

  /** The node's answer to a submitted transaction. */
  datatype NodeAnswer =
    | Accepted(hash: string)
    | OutPointNotLive
    | TooFrequent
    | OtherFailure

  datatype SendResult =
    | Sent(hash: string)
    | TxExpired
    | CacheError
    | PermissionDenied
    | SignatureFails
    | RejectedOutPoint
    | OperationFrequent
    | SendFails

  /** The message with one number appended, at which the list holds the signer's key:
      the first such position, and the only one if the list has no duplicates. */
  ghost predicate AppendsPosition(before: seq<nat>, after: seq<nat>, keys: seq<KL.Key>, signer: KL.Key) {
    && |after| == |before| + 1 && after[..|before|] == before
    && var idx := after[|before|];
       && KL.HeldAt(keys, signer, idx)
       && (forall j :: j < idx ==> !KL.HeldAt(keys, signer, j))
       && (KL.ListOk(keys) ==> forall j :: KL.HeldAt(keys, signer, j) ==> j == idx)
  }

  class HttpHandle {
    const dbDao: DbDao
    var signTxCache: map<string, SignInfoCache>

    constructor (dbDao: DbDao)
      ensures this.dbDao == dbDao && signTxCache == map[]
    {
      this.dbDao, signTxCache := dbDao, map[];
    }

    /** Builds the update of the list read at `outpoint`, takes the fee from the
        cell and caches the transaction under a fresh sign key. */
    method Authorize(address: string, outpoint: OutPoint, op: KL.Operation, slave: KL.Key, sizeInBlock: uint64, signKey: string)
      returns (r: KL.Result<BuiltTx>)
      modifies this`signTxCache
      ensures r == BuildTx(outpoint, op, slave, sizeInBlock)
      ensures var keys, capacity := KeysAt(outpoint), CapacityAt(outpoint);
        var present := exists i :: KL.HeldAt(keys, slave, i);
        && (r.Ok? <==> present == op.Delete? && (op.Add? ==> |keys| <= 9))
        && (r.Err? ==> r.error == if op.Delete? then KL.Missing else if 9 < |keys| then KL.TooMany else KL.Repeated)
        && (r.Ok? ==>
              && r.value.tx.input == outpoint && r.value.op == op && r.value.key == slave && r.value.size == sizeInBlock
              && (KL.ListOk(keys) ==> ValidChange(keys, r.value.tx.keys, op, slave))
              && (sizeInBlock + 1000 <= capacity ==> r.value.tx.capacity == capacity - sizeInBlock - 1000))
      ensures signTxCache == if r.Ok? then old(signTxCache)[signKey := SignInfoCache(address, r.value)] else old(signTxCache)
    {
      var updated := KL.UpdateKeyList(KeysAt(outpoint), op, slave);
      if updated.Err? {
        return KL.Err(updated.error);
      }
      var capacity := CapacityAt(outpoint);
      capacity := Sub(Sub(capacity, sizeInBlock), FEE);
      var built := BuiltTx(UpdateTx(outpoint, updated.value, capacity), op, slave, sizeInBlock, None);
      signTxCache := signTxCache[signKey := SignInfoCache(address, built)];
      r := KL.Ok(built);
      hide KL.HeldAt, KL.ListOk;
    }

    /** Sends a cached transaction.  `cacheFails` and `signFails` tell whether these
        calls return an error; `id` and `now` are what the database and the clock
        give a new row. */
    method TransactionSend(signKey: string, signer: KL.Key, signList: array<SignData>, cacheFails: bool, signFails: bool,
                           answer: NodeAnswer, id: nat, now: uint64)
      returns (r: SendResult)
      modifies signList, dbDao`pending
      ensures r.CacheError? <==> cacheFails
      ensures r.TxExpired? <==> !cacheFails && signKey !in signTxCache
      ensures r.PermissionDenied? <==>
        && !cacheFails && signKey in signTxCache
        && old(exists i :: 0 <= i < signList.Length && signList[i].signType.Webauthn?)
        && forall j :: !KL.HeldAt(KeysAt(signTxCache[signKey].built.tx.input), signer, j)
      ensures forall i :: 0 <= i < signList.Length ==>
        && signList[i].signType == old(signList[i].signType)
        && (r.CacheError? || r.TxExpired? || r.PermissionDenied? || !old(signList[i].signType.Webauthn?) ==>
              signList[i].signMsg == old(signList[i].signMsg))
        && (!(r.CacheError? || r.TxExpired? || r.PermissionDenied?) && old(signList[i].signType.Webauthn?) ==>
              AppendsPosition(old(signList[i].signMsg), signList[i].signMsg, KeysAt(signTxCache[signKey].built.tx.input), signer))
      ensures !(r.CacheError? || r.TxExpired? || r.PermissionDenied?) ==>
        forall i :: 0 <= i < signList.Length && old(signList[i].signType.Webauthn?) ==>
          var built, n := signTxCache[signKey].built, |old(signList[i].signMsg)|;
          && n < |signList[i].signMsg|
          && Sign(built, Some(signer)) == Some(built.(signature := Some(Signature(signer, signList[i].signMsg[n]))))
      ensures r.PermissionDenied? ==> Sign(signTxCache[signKey].built, Some(signer)).None?
      ensures var asked := !cacheFails && signKey in signTxCache && !r.PermissionDenied?;
        && (r.SignatureFails? <==> asked && signFails)
        && (r.RejectedOutPoint? <==> asked && !signFails && answer.OutPointNotLive?)
        && (r.OperationFrequent? <==> asked && !signFails && answer.TooFrequent?)
        && (r.SendFails? <==> asked && !signFails && answer.OtherFailure?)
        && (r.Sent? <==> asked && !signFails && answer.Accepted?)
        && (r.Sent? ==> r.hash == answer.hash)
      ensures dbDao.pending ==
        if r.Sent? && signTxCache[signKey].address != ""
        then Apply(old(dbDao.pending),
                   Create(id, PendingRow(UpdateKeyList, signTxCache[signKey].address, OutPoint0(answer.hash), 0, now, Pending)))
        else old(dbDao.pending)
    {
      if cacheFails { return CacheError; }
      if signKey !in signTxCache { return TxExpired; }
      var sic := signTxCache[signKey];
      var hasWebAuthn := false;
      for i := 0 to signList.Length
        invariant !hasWebAuthn && forall j :: 0 <= j < i ==> !signList[j].signType.Webauthn?
      {
        if signList[i].signType == Webauthn {
          hasWebAuthn := true;
          break;
        }
      }
      if hasWebAuthn {
        var idx := KL.IndexOf(KeysAt(sic.built.tx.input), signer);
        KL.IndexIsUniquePosition(KeysAt(sic.built.tx.input), signer);
        if idx.None? { return PermissionDenied; }
        for i := 0 to signList.Length
          invariant forall j :: 0 <= j < signList.Length ==> signList[j].signType == old(signList[j].signType)
          invariant forall j :: 0 <= j < signList.Length ==>
            signList[j].signMsg == old(signList[j].signMsg) + if j < i && signList[j].signType.Webauthn? then [idx.value] else []
          invariant dbDao.pending == old(dbDao.pending)
        {
          if signList[i].signType != Webauthn { continue; }
          signList[i] := signList[i].(signMsg := signList[i].signMsg + [idx.value]);
        }
      }
      hide KL.IndexOf;
      if signFails { return SignatureFails; }
      match answer
      case OutPointNotLive => return RejectedOutPoint;
      case TooFrequent => return OperationFrequent;
      case OtherFailure => return SendFails;
      case Accepted(hash) =>
        if sic.address != "" {
          var _ := dbDao.CreatePending(id, PendingRow(UpdateKeyList, sic.address, OutPoint0(hash), 0, now, Pending));
        }
        r := Sent(hash);
    }
  }
}
