/**
 The key-list cell as an optimistic object: `Authorize` reads the list at one
 outpoint, builds a transaction that consumes it, and caches it; it is sent and
 committed later, possibly in competition with others.

 A transaction hash commits to the input, the new list and the new capacity; it
 is modelled by these, and an outpoint by the transaction that created it.  Of
 the chain only two rules are used: a live cell is consumed once, and the
 capacity of the output does not exceed that of the input.
 */
module KeyListCell {
  import opened Uint64
  import opened Wrappers
  import opened KeyList

  datatype OutPoint =
    | Created(keys: seq<Key>, capacity: uint64, nonce: nat)
    | Output0(tx: UpdateTx)

  datatype UpdateTx = UpdateTx(input: OutPoint, keys: seq<Key>, capacity: uint64)

  /** The index that was appended to the signatures of a signer. */
  datatype Signature = Signature(signer: Key, index: nat)

  /** A transaction together with the request it was built for, and its webauthn
      signature once it is sent with one.  The hash does not cover the signature. */
  datatype BuiltTx = BuiltTx(tx: UpdateTx, op: Operation, key: Key, size: uint64, signature: Option<Signature>)

  const FEE: uint64 := 1000

  function KeysAt(o: OutPoint): seq<Key> {
    match o case Created(keys, _, _) => keys case Output0(tx) => tx.keys
  }

  function CapacityAt(o: OutPoint): uint64 {
    match o case Created(_, capacity, _) => capacity case Output0(tx) => tx.capacity
  }

  /** The capacity the cell keeps after its transaction, of the given size, is paid for. */
  function ChangeCapacity(capacity: uint64, size: uint64): uint64 {
    Sub(Sub(capacity, size), FEE)
  }

  /** The transaction built for a request from the list read at an outpoint. */
  function BuildTx(o: OutPoint, op: Operation, key: Key, size: uint64): Result<BuiltTx> {
    match Update(KeysAt(o), op, key)
    case Err(e) => Err(e)
    case Ok(keys) => Ok(BuiltTx(UpdateTx(o, keys, ChangeCapacity(CapacityAt(o), size)), op, key, size, None))
  }

  /** What an add and a delete mean for the list before and after. */
  ghost predicate ValidChange(before: seq<Key>, after: seq<Key>, op: Operation, key: Key) {
    match op
    case Add => |before| <= 9 && (forall i :: 0 <= i < |before| ==> !HeldAt(before, key, i)) && after == before + [key]
    case Delete => exists i :: HeldAt(before, key, i) && after == before[..i] + before[i + 1..]
  }

  /** What a built transaction is: it consumes the outpoint, keeps the request, and
      pays its size and 1000 from the cell. */
  lemma BuiltForRequest(o: OutPoint, op: Operation, key: Key, size: uint64)
    requires ListOk(KeysAt(o)) && size + 1000 < TWO_64
    ensures var r := BuildTx(o, op, key, size);
      && (r.Ok? <==> (exists i :: HeldAt(KeysAt(o), key, i)) == op.Delete? && (op.Add? ==> |KeysAt(o)| <= 9))
      && (r.Ok? ==>
            && r.value.tx.input == o && r.value.op == op && r.value.key == key && r.value.size == size && r.value.signature.None?
            && ValidChange(KeysAt(o), r.value.tx.keys, op, key)
            && (size + 1000 <= CapacityAt(o) ==> r.value.tx.capacity == CapacityAt(o) - size - 1000)
            && (CapacityAt(o) < size + 1000 ==> CapacityAt(o) < r.value.tx.capacity))
  {
    RequestOutcome(KeysAt(o), op, key);
    hide Update, HeldAt;
  }

  predicate WellBuilt(b: BuiltTx) {
    BuildTx(b.tx.input, b.op, b.key, b.size) == Ok(b.(signature := None)) && SignedByIndex(b)
  }

  predicate SignedByIndex(b: BuiltTx) {
    b.signature.Some? ==> IndexOf(KeysAt(b.tx.input), b.signature.value.signer) == Some(b.signature.value.index)
  }

  /** The transaction as it is sent, if its webauthn signer is in the list it consumes. */
  function Sign(b: BuiltTx, signer: Option<Key>): Option<BuiltTx> {
    match signer
    case None => Some(b)
    case Some(key) =>
      match IndexOf(KeysAt(b.tx.input), key)
      case None => None
      case Some(index) => Some(b.(signature := Some(Signature(key, index))))
  }

  /** `live` is the cell on the chain, `cache` the transactions waiting for a
      signature, `pool` those sent to the node, `log` the committed ones in order. */
  datatype Ledger = Ledger(live: OutPoint, cache: map<string, BuiltTx>, pool: set<BuiltTx>, log: seq<BuiltTx>)

  datatype LedgerStep =
    | Authorize(signKey: string, outpoint: OutPoint, op: Operation, key: Key, size: uint64)
    | Send(signKey: string, signer: Option<Key>)
    | Expire(signKey: string)
    | Commit(b: BuiltTx)

  /** What the chain requires of a transaction it commits. */
  predicate CanCommit(l: Ledger, b: BuiltTx) {
    b in l.pool && b.tx.input == l.live && b.tx.capacity <= CapacityAt(l.live)
  }

  function NextLedger(l: Ledger, step: LedgerStep): Ledger {
    match step
    case Authorize(signKey, outpoint, op, key, size) =>
      var r := BuildTx(outpoint, op, key, size);
      if r.Ok? then l.(cache := l.cache[signKey := r.value]) else l
    case Send(signKey, signer) =>
      if signKey !in l.cache then l
      else
        var sent := Sign(l.cache[signKey], signer);
        if sent.Some? then l.(pool := l.pool + {sent.value}) else l
    case Expire(signKey) => l.(cache := l.cache - {signKey})
    case Commit(b) => if CanCommit(l, b) then l.(live := Output0(b.tx), log := l.log + [b]) else l
  }

  function ExecLedger(l: Ledger, steps: seq<LedgerStep>): Ledger
    decreases |steps|
  {
    if steps == [] then l else ExecLedger(NextLedger(l, steps[0]), steps[1..])
  }

  function NewLedger(o: OutPoint): Ledger {
    Ledger(o, map[], {}, [])
  }

  // ---------------------------------------------------------------- linearizability

  /** The committed requests applied one after the other to a list; none if one of
      them fails its check at its turn. */
  function Serial(keys: seq<Key>, log: seq<BuiltTx>): Result<seq<Key>>
    decreases |log|
  {
    if log == [] then Ok(keys)
    else
      var before := Serial(keys, log[..|log| - 1]);
      var last := log[|log| - 1];
      if before.Err? then before else Update(before.value, last.op, last.key)
  }

  function Fees(log: seq<BuiltTx>): nat {
    if log == [] then 0 else Fees(log[..|log| - 1]) + log[|log| - 1].size + FEE
  }

  function Depth(o: OutPoint): nat {
    match o case Created(_, _, _) => 0 case Output0(tx) => 1 + Depth(tx.input)
  }

  predicate AllWellBuilt(l: Ledger) {
    && (forall k :: k in l.cache ==> WellBuilt(l.cache[k]))
    && (forall b :: b in l.pool ==> WellBuilt(b))
  }

  /** The outpoint that holds the list after the transactions of the log. */
  function LastOutPoint(o: OutPoint, log: seq<BuiltTx>): OutPoint {
    if log == [] then o else Output0(log[|log| - 1].tx)
  }

  predicate ConsumesInOrder(o: OutPoint, log: seq<BuiltTx>) {
    forall i :: 0 <= i < |log| ==> WellBuilt(log[i]) && log[i].tx.input == LastOutPoint(o, log[..i])
  }

  predicate Linear(l: Ledger, o: OutPoint) {
    && AllWellBuilt(l)
    && l.live == LastOutPoint(o, l.log) && ConsumesInOrder(o, l.log)
    && CapacityAt(l.live) + Fees(l.log) == CapacityAt(o)
  }

  /** A wrapped capacity exceeds the input's, so the chain never commits it. */
  lemma WrappedNeverCommits(capacity: uint64, size: uint64)
    requires size + FEE < TWO_64
    ensures ChangeCapacity(capacity, size) <= capacity <==> size + FEE <= capacity
    ensures size + FEE <= capacity ==> ChangeCapacity(capacity, size) == capacity - size - FEE
  {
  }

  lemma ConsumesOneMore(o: OutPoint, log: seq<BuiltTx>, b: BuiltTx)
    requires ConsumesInOrder(o, log) && WellBuilt(b) && b.tx.input == LastOutPoint(o, log)
    ensures ConsumesInOrder(o, log + [b]) && LastOutPoint(o, log + [b]) == Output0(b.tx)
  {
    hide WellBuilt, LastOutPoint;
    assert LastOutPoint(o, log + [b]) == Output0(b.tx) by { LastAdded(o, log, b); }
    forall i | 0 <= i < |log + [b]|
      ensures WellBuilt((log + [b])[i]) && (log + [b])[i].tx.input == LastOutPoint(o, (log + [b])[..i])
    {
      assert (log + [b])[..i] == if i < |log| then log[..i] else log;
    }
  }

  lemma LastOfNone(o: OutPoint)
    ensures LastOutPoint(o, []) == o
  {
  }

  lemma LastAdded(o: OutPoint, log: seq<BuiltTx>, b: BuiltTx)
    ensures LastOutPoint(o, log + [b]) == Output0(b.tx)
  {
  }

  lemma BuiltUpdate(b: BuiltTx)
    requires WellBuilt(b)
    ensures Update(KeysAt(b.tx.input), b.op, b.key) == Ok(b.tx.keys)
    ensures b.tx.capacity == ChangeCapacity(CapacityAt(b.tx.input), b.size)
  {
  }

  lemma LinearAfterCommit(l: Ledger, o: OutPoint, b: BuiltTx)
    requires Linear(l, o) && CanCommit(l, b) && b.size + FEE < TWO_64
    ensures Linear(NextLedger(l, Commit(b)), o)
  {
    hide BuildTx, LastOutPoint, ChangeCapacity;
    assert WellBuilt(b);
    BuiltUpdate(b);
    WrappedNeverCommits(CapacityAt(l.live), b.size);
    ConsumesOneMore(o, l.log, b);
    hide WellBuilt, ConsumesInOrder;
    assert Fees(l.log + [b]) == Fees(l.log) + b.size + FEE by { assert (l.log + [b])[..|l.log|] == l.log; }
    hide Fees;
  }

  lemma LinearAfterStep(l: Ledger, o: OutPoint, step: LedgerStep)
    requires Linear(l, o) && (step.Commit? ==> step.b.size + FEE < TWO_64)
    ensures Linear(NextLedger(l, step), o)
  {
    if step.Commit? && CanCommit(l, step.b) {
      LinearAfterCommit(l, o, step.b);
    }
  }

  predicate SizesFit(steps: seq<LedgerStep>) {
    forall step :: step in steps && step.Commit? ==> step.b.size + FEE < TWO_64
  }

  lemma {:induction false} LinearAfterRun(l: Ledger, o: OutPoint, steps: seq<LedgerStep>)
    requires Linear(l, o) && SizesFit(steps)
    ensures Linear(ExecLedger(l, steps), o)
    decreases |steps|
  {
    if steps != [] {
      LinearAfterStep(l, o, steps[0]);
      LinearAfterRun(NextLedger(l, steps[0]), o, steps[1..]);
    }
  }

  lemma {:induction false} ConsumedDepth(o: OutPoint, log: seq<BuiltTx>, i: nat)
    requires ConsumesInOrder(o, log) && i < |log|
    ensures Depth(log[i].tx.input) == Depth(o) + i
    decreases i
  {
    hide WellBuilt, LastOutPoint;
    assert log[i].tx.input == LastOutPoint(o, log[..i]);
    if i == 0 {
      assert LastOutPoint(o, []) == o by { LastOfNone(o); }
    } else {
      ConsumedDepth(o, log, i - 1);
      assert log[..i] == log[..i - 1] + [log[i - 1]];
      LastAdded(o, log[..i - 1], log[i - 1]);
    }
  }

  lemma ConsumesPrefix(o: OutPoint, log: seq<BuiltTx>, n: nat)
    requires ConsumesInOrder(o, log) && n <= |log|
    ensures ConsumesInOrder(o, log[..n])
  {
    hide WellBuilt, LastOutPoint;
    forall i | 0 <= i < n ensures WellBuilt(log[..n][i]) && log[..n][i].tx.input == LastOutPoint(o, log[..n][..i]) {
      assert log[..n][..i] == log[..i];
    }
  }

  /** The list at the last outpoint is what the requests made of the initial list. */
  lemma {:induction false} LastListIsSerial(o: OutPoint, log: seq<BuiltTx>)
    requires ListOk(KeysAt(o)) && ConsumesInOrder(o, log)
    ensures Serial(KeysAt(o), log) == Ok(KeysAt(LastOutPoint(o, log))) && ListOk(KeysAt(LastOutPoint(o, log)))
    decreases |log|
  {
    if log != [] {
      var front, b := log[..|log| - 1], log[|log| - 1];
      assert b.tx.input == LastOutPoint(o, front);
      BuiltUpdate(b);
      ConsumesPrefix(o, log, |log| - 1);
      hide ListOk, Update, WellBuilt, ConsumesInOrder;
      LastListIsSerial(o, front);
      UpdateKeepsListOk(KeysAt(b.tx.input), b.op, b.key);
    }
  }

  /** Updates are linearizable and none is lost.  For any interleaving of building
      (from any outpoint, however old), caching, sending and committing: the live
      list is the committed requests applied in commit order to the initial list,
      each of them valid at its turn; the list stays within ten distinct keys; and
      the capacity is the initial one less the sizes and fees, without wrapping. */
  lemma UpdatesAreLinearizable(o: OutPoint, steps: seq<LedgerStep>)
    requires ListOk(KeysAt(o)) && SizesFit(steps)
    ensures var l := ExecLedger(NewLedger(o), steps);
      && Serial(KeysAt(o), l.log) == Ok(KeysAt(l.live)) && ListOk(KeysAt(l.live))
      && CapacityAt(l.live) == CapacityAt(o) - Fees(l.log)
  {
    LinearAfterRun(NewLedger(o), o, steps);
    LastListIsSerial(o, ExecLedger(NewLedger(o), steps).log);
  }

  /** The list a committed transaction consumed is what the requests committed
      before it made of the initial list. */
  lemma ConsumedListIsSerial(o: OutPoint, log: seq<BuiltTx>, i: nat)
    requires ListOk(KeysAt(o)) && ConsumesInOrder(o, log) && i < |log|
    ensures Serial(KeysAt(o), log[..i]) == Ok(KeysAt(log[i].tx.input)) && ListOk(KeysAt(log[i].tx.input))
  {
    ConsumesPrefix(o, log, i);
    LastListIsSerial(o, log[..i]);
  }

  /** Each committed request was valid on the list that the earlier commits left, and
      made of it what was asked for: an add found the key absent and a place free and
      put it at the end; a delete found it and took it out, keeping the order. */
  lemma CommittedRequestsValid(o: OutPoint, steps: seq<LedgerStep>, i: nat)
    requires ListOk(KeysAt(o)) && SizesFit(steps) && i < |ExecLedger(NewLedger(o), steps).log|
    ensures var log := ExecLedger(NewLedger(o), steps).log;
      Serial(KeysAt(o), log[..i]).Ok? && ValidChange(Serial(KeysAt(o), log[..i]).value, log[i].tx.keys, log[i].op, log[i].key)
  {
    LinearAfterRun(NewLedger(o), o, steps);
    var log := ExecLedger(NewLedger(o), steps).log;
    ConsumedListIsSerial(o, log, i);
    BuiltUpdate(log[i]);
    hide ExecLedger, Serial, Update, ListOk;
    RequestOutcome(KeysAt(log[i].tx.input), log[i].op, log[i].key);
    hide HeldAt;
  }

  /** No outpoint is consumed twice: of all transactions built from the same list
      at most one commits, and it commits once. */
  lemma NoOutpointConsumedTwice(o: OutPoint, steps: seq<LedgerStep>, i: nat, j: nat)
    requires SizesFit(steps)
    requires i < j < |ExecLedger(NewLedger(o), steps).log|
    ensures var log := ExecLedger(NewLedger(o), steps).log;
      log[i].tx.input != log[j].tx.input && log[i].tx != log[j].tx
  {
    LinearAfterRun(NewLedger(o), o, steps);
    ConsumedDepth(o, ExecLedger(NewLedger(o), steps).log, i);
    ConsumedDepth(o, ExecLedger(NewLedger(o), steps).log, j);
  }

  lemma {:induction false} LogOnlyGrows(l: Ledger, steps: seq<LedgerStep>)
    ensures |l.log| <= |ExecLedger(l, steps).log| && ExecLedger(l, steps).log[..|l.log|] == l.log
    decreases |steps|
  {
    if steps != [] {
      var l' := NextLedger(l, steps[0]);
      LogOnlyGrows(l', steps[1..]);
      assert l'.log[..|l.log|] == l.log;
      assert ExecLedger(l, steps).log[..|l.log|] == ExecLedger(l, steps).log[..|l'.log|][..|l.log|];
    }
  }

  /** A transaction whose outpoint has been consumed never commits afterwards. */
  lemma StaleNeverCommits(o: OutPoint, before: seq<LedgerStep>, after: seq<LedgerStep>, b: BuiltTx, i: nat, j: nat)
    requires SizesFit(before) && SizesFit(after)
    requires var l := ExecLedger(NewLedger(o), before); i < |l.log| && l.log[i].tx.input == b.tx.input
    requires var l := ExecLedger(NewLedger(o), before); |l.log| <= j < |ExecLedger(l, after).log|
    ensures ExecLedger(ExecLedger(NewLedger(o), before), after).log[j].tx.input != b.tx.input
  {
    var l := ExecLedger(NewLedger(o), before);
    LinearAfterRun(NewLedger(o), o, before);
    LinearAfterRun(l, o, after);
    LogOnlyGrows(l, after);
    var log := ExecLedger(l, after).log;
    hide ExecLedger, SizesFit;
    assert log[..|l.log|][i] == l.log[i];
    ConsumedDepth(o, log, i);
    ConsumedDepth(o, log, j);
  }

  /** A key that was added stays until a committed request deletes it. */
  lemma {:induction false} AddedKeyStays(keys: seq<Key>, log: seq<BuiltTx>, i: nat, key: Key)
    requires ListOk(keys) && i < |log| && log[i].op.Add? && Same(log[i].key, key)
    requires Serial(keys, log).Ok?
    requires forall j :: i < j < |log| && log[j].op.Delete? ==> !Same(log[j].key, key)
    ensures Contains(Serial(keys, log).value, key)
    decreases |log|
  {
    var n := |log| - 1;
    var front := log[..n];
    var before := Serial(keys, front).value;
    if i == n {
      assert Same((before + [log[n].key])[|before|], key);
    } else {
      AddedKeyStays(keys, front, i, key);
      var k :| 0 <= k < |before| && Same(before[k], key);
      if log[n].op.Add? {
        assert Same((before + [log[n].key])[k], key);
      } else {
        SerialListOk(keys, front);
        WithoutKeeps(before, log[n].key, k);
      }
    }
  }

  lemma {:induction false} SerialListOk(keys: seq<Key>, log: seq<BuiltTx>)
    requires ListOk(keys) && Serial(keys, log).Ok?
    ensures ListOk(Serial(keys, log).value)
    decreases |log|
  {
    if log != [] {
      SerialListOk(keys, log[..|log| - 1]);
      UpdateKeepsListOk(Serial(keys, log[..|log| - 1]).value, log[|log| - 1].op, log[|log| - 1].key);
    }
  }

  lemma {:induction false} WithoutKeeps(keys: seq<Key>, gone: Key, k: nat)
    requires k < |keys| && !Same(keys[k], gone)
    ensures Contains(Without(keys, gone), keys[k])
    decreases |keys|
  {
    var n := |keys| - 1;
    var rest := Without(keys[..n], gone);
    if k == n {
      assert Same((rest + [keys[n]])[|rest|], keys[k]);
    } else {
      WithoutKeeps(keys[..n], gone, k);
      var j :| 0 <= j < |rest| && Same(rest[j], keys[k]);
      assert Same(Without(keys, gone)[j], keys[k]);
    }
  }

  /** When a transaction with a webauthn signature commits, the index that was
      appended at sending is the signer's only position in the list as the earlier
      commits left it. */
  lemma IndexAtCommit(o: OutPoint, steps: seq<LedgerStep>, i: nat)
    requires ListOk(KeysAt(o)) && SizesFit(steps)
    requires var log := ExecLedger(NewLedger(o), steps).log; i < |log| && log[i].signature.Some?
    ensures var log := ExecLedger(NewLedger(o), steps).log;
      var before, signature := Serial(KeysAt(o), log[..i]), log[i].signature.value;
      before.Ok? && forall j: int :: HeldAt(before.value, signature.signer, j) <==> j == signature.index
  {
    LinearAfterRun(NewLedger(o), o, steps);
    var log := ExecLedger(NewLedger(o), steps).log;
    ConsumedListIsSerial(o, log, i);
    assert WellBuilt(log[i]);
    IndexIsUniquePosition(KeysAt(log[i].tx.input), log[i].signature.value.signer);
    hide ExecLedger, Serial, IndexOf, BuildTx, HeldAt;
  }
}
