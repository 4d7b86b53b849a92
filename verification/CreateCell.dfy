/** The amounts of the transaction that creates a key-list cell. */
module CreateCell {
  import opened Uint64

  const ONE_CKB: uint64 := 100_000_000
  const FLOOR: uint64 := 161 * ONE_CKB
  const FEE_CAPACITY: uint64 := 10_000
  const FEE: uint64 := 1000

  /** No cell is larger than this many bytes. */
  const MAX_CELL: nat := 1_000_000

  function Sum(amounts: seq<uint64>): nat {
    if amounts == [] then 0 else Sum(amounts[..|amounts| - 1]) + amounts[|amounts| - 1]
  }

  function KeyListCapacity(occupied: nat): (c: nat)
    ensures 16_100_000_000 <= c && occupied * 100_000_000 <= c
    ensures c == 16_100_000_000 || c == occupied * 100_000_000
  {
    if occupied * ONE_CKB < FLOOR then FLOOR else occupied * ONE_CKB
  }

  function Need(occupied: nat): nat {
    FEE_CAPACITY + KeyListCapacity(occupied)
  }

  lemma {:induction false} SumConcat(a: seq<uint64>, b: seq<uint64>)
    ensures Sum(a + b) == Sum(a) + Sum(b)
    decreases |b|
  {
    if b == [] {
      assert a + b == a;
    } else {
      assert (a + b)[..|a + b| - 1] == a + b[..|b| - 1];
      SumConcat(a, b[..|b| - 1]);
    }
  }

  /** Builds the outputs for a key-list cell that occupies `occupied` bytes, paid
      from cells with `total` capacity; `changeList` is how the change is split.
      The selection of the cells provides the total needed, and the split neither
      loses nor adds capacity. */
  method BuildCreateKeyListCfgTx(occupied: nat, total: uint64, changeList: seq<uint64>) returns (outputs: seq<uint64>)
    requires occupied <= MAX_CELL && Need(occupied) <= total
    requires Need(occupied) < total ==> changeList != [] && Sum(changeList) == total - Need(occupied)
    ensures outputs == [KeyListCapacity(occupied)] + if Need(occupied) < total then changeList else []
    ensures Sum(outputs) == total - FEE_CAPACITY
  {
    var capacity: uint64 := occupied * ONE_CKB;
    if capacity < 161 * ONE_CKB {
      capacity := 161 * ONE_CKB;
    }
    outputs := [capacity];
    assert outputs[..0] == [];
    var needCapacity := Add(FEE_CAPACITY, capacity);
    var change := Sub(total, needCapacity);
    if change > 0 {
      ghost var first := outputs;
      for i := 0 to |changeList|
        invariant outputs == first + changeList[..i]
      {
        outputs := outputs + [changeList[i]];
      }
      assert changeList[..|changeList|] == changeList;
      SumConcat(first, changeList);
    }
  }

  /** Takes the size fee from the last output. */
  method PayFee(outputs: seq<uint64>, sizeInBlock: uint64) returns (paid: seq<uint64>)
    requires outputs != []
    ensures paid == outputs[|outputs| - 1 := Sub(Sub(outputs[|outputs| - 1], sizeInBlock), FEE)]
  {
    var changeFeeIdx := |outputs| - 1;
    var changeCapacity := Sub(Sub(outputs[changeFeeIdx], sizeInBlock), FEE);
    paid := outputs[changeFeeIdx := changeCapacity];
  }

  lemma FeeFromLast(outputs: seq<uint64>, size: uint64)
    requires outputs != [] && size + FEE < TWO_64
    ensures var last := outputs[|outputs| - 1];
      Sum(outputs[|outputs| - 1 := Sub(Sub(last, size), FEE)])
      == if size + FEE <= last then Sum(outputs) - size - FEE else Sum(outputs) - size - FEE + TWO_64
  {
  }

  /** Creates the cell.  Capacity is conserved - the inputs are the outputs plus the
      fixed fee, the size and 1000 - exactly when the last output can pay for the
      size; the key-list cell keeps its floor exactly when there is change, or it is
      large enough to pay for itself. */
  method CreateKeyListCfgCell(occupied: nat, total: uint64, changeList: seq<uint64>, sizeInBlock: uint64) returns (outputs: seq<uint64>)
    requires occupied <= MAX_CELL && Need(occupied) <= total && sizeInBlock + FEE < TWO_64
    requires Need(occupied) < total ==> changeList != [] && Sum(changeList) == total - Need(occupied)
    ensures var last := if Need(occupied) < total then changeList[|changeList| - 1] else KeyListCapacity(occupied);
      Sum(outputs) + 10_000 + sizeInBlock + 1000 == total <==> sizeInBlock + 1000 <= last
    ensures outputs != [] && (Need(occupied) < total ==> outputs[0] == KeyListCapacity(occupied) >= FLOOR)
    ensures Need(occupied) == total && sizeInBlock + FEE <= KeyListCapacity(occupied) ==>
      outputs == [KeyListCapacity(occupied) - sizeInBlock - FEE]
      && (FLOOR <= outputs[0] <==> FLOOR + sizeInBlock + FEE <= occupied * ONE_CKB)
  {
    outputs := BuildCreateKeyListCfgTx(occupied, total, changeList);
    FeeFromLast(outputs, sizeInBlock);
    outputs := PayFee(outputs, sizeInBlock);
  }
}
