/** The device key list: adding and deleting a key, and the list shown to the user. */
module KeyList {
  import opened Wrappers

  type Byte = b: int | 0 <= b < 256

  /** The ten bytes of a cid or of a public key digest. */
  type Bytes10 = s: seq<Byte> | |s| == 10 witness [0, 0, 0, 0, 0, 0, 0, 0, 0, 0]

  datatype Key = Key(mainAlg: Byte, subAlg: Byte, cid: Bytes10, pubKey: Bytes10)

  datatype Result<+T> = Ok(value: T) | Err(error: Error)

  datatype Error = TooMany | Repeated | Missing

  datatype Operation = Add | Delete

  /** Keys are compared by cid and public key only. */
  predicate Same(a: Key, b: Key) {
    a.cid == b.cid && a.pubKey == b.pubKey
  }

  predicate Contains(keys: seq<Key>, key: Key) {
    exists i :: 0 <= i < |keys| && Same(keys[i], key)
  }

  function Without(keys: seq<Key>, key: Key): seq<Key> {
    if keys == [] then []
    else
      var last := keys[|keys| - 1];
      Without(keys[..|keys| - 1], key) + if Same(last, key) then [] else [last]
  }

  function Update(keys: seq<Key>, op: Operation, key: Key): Result<seq<Key>> {
    match op
    case Add =>
      if |keys| > 9 then Err(TooMany)
      else if Contains(keys, key) then Err(Repeated)
      else Ok(keys + [key])
    case Delete =>
      if Contains(keys, key) then Ok(Without(keys, key)) else Err(Missing)
  }

  /** The key's cid and public key stand at position i. */
  predicate HeldAt(keys: seq<Key>, key: Key, i: int) {
    0 <= i < |keys| && keys[i].cid == key.cid && keys[i].pubKey == key.pubKey
  }

  /** When a request succeeds and what it makes of the list, and which error it gets
      otherwise: a full list is reported before a repeated key. */
  lemma RequestOutcome(keys: seq<Key>, op: Operation, key: Key)
    ensures var r, present := Update(keys, op, key), exists i :: HeldAt(keys, key, i);
      && (r.Ok? <==> present == op.Delete? && (op.Add? ==> |keys| <= 9))
      && (r.Err? ==> r.error == if op.Delete? then Missing else if 9 < |keys| then TooMany else Repeated)
      && (r.Ok? && op.Add? ==> r.value == keys + [key])
      && (r.Ok? && op.Delete? && ListOk(keys) ==>
            exists i :: HeldAt(keys, key, i) && r.value == keys[..i] + keys[i + 1..])
  {
    if i :| HeldAt(keys, key, i) { assert Same(keys[i], key); }
    if i :| 0 <= i < |keys| && Same(keys[i], key) {
      assert HeldAt(keys, key, i);
      if ListOk(keys) { WithoutPosition(keys, key, i); }
    }
    hide ListOk, Without;
  }

  /** What is left after a delete: the keys with another cid or public key, in order. */
  lemma DeleteKeepsOthers(a: seq<Key>, k: Key, b: seq<Key>, key: Key)
    ensures Without(a + [k] + b, key)
         == Without(a, key) + (if k.cid == key.cid && k.pubKey == key.pubKey then [] else [k]) + Without(b, key)
    ensures Without([], key) == []
  {
    WithoutConcat(a + [k], b, key);
    assert (a + [k])[..|a|] == a;
  }

  lemma {:induction false} WithoutConcat(a: seq<Key>, b: seq<Key>, key: Key)
    ensures Without(a + b, key) == Without(a, key) + Without(b, key)
    decreases |b|
  {
    if b == [] {
      assert a + b == a;
    } else {
      var front := b[..|b| - 1];
      assert (a + b)[..|a + b| - 1] == a + front;
      WithoutConcat(a, front, key);
    }
  }

  /** The list part of building an update transaction. */
  method UpdateKeyList(keys: seq<Key>, op: Operation, key: Key) returns (r: Result<seq<Key>>)
    ensures r == Update(keys, op, key)
    ensures var present := exists i :: HeldAt(keys, key, i);
      && (r.Ok? <==> present == op.Delete? && (op.Add? ==> |keys| <= 9))
      && (r.Err? ==> r.error == if op.Delete? then Missing else if 9 < |keys| then TooMany else Repeated)
      && (r.Ok? && op.Add? ==> r.value == keys + [key])
      && (r.Ok? && op.Delete? && ListOk(keys) ==>
            exists i :: HeldAt(keys, key, i) && r.value == keys[..i] + keys[i + 1..])
  {
    hide ListOk, HeldAt;
    RequestOutcome(keys, op, key);
    var nowKeyList, newKeyList := keys, [];
    if op == Add {
      if |nowKeyList| > 9 {
        return Err(TooMany);
      }
      for i := 0 to |nowKeyList|
        invariant !Contains(keys[..i], key)
      {
        if nowKeyList[i].cid == key.cid && nowKeyList[i].pubKey == key.pubKey {
          assert Same(keys[i], key);
          return Err(Repeated);
        }
      }
      assert keys[..|keys|] == keys;
      nowKeyList := nowKeyList + [key];
      newKeyList := nowKeyList;
    } else {
      var isExist := false;
      for i := 0 to |nowKeyList|
        invariant isExist == Contains(keys[..i], key)
        invariant newKeyList == Without(keys[..i], key)
      {
        assert keys[..i + 1][..i] == keys[..i];
        var v := nowKeyList[i];
        if v.cid == key.cid && v.pubKey == key.pubKey {
          assert Same(keys[..i + 1][i], key);
          isExist := true;
        } else {
          newKeyList := newKeyList + [v];
          assert Contains(keys[..i + 1], key) ==> Contains(keys[..i], key);
          assert forall j :: 0 <= j < i && Same(keys[..i][j], key) ==> Same(keys[..i + 1][j], key);
        }
      }
      assert keys[..|keys|] == keys;
      if !isExist {
        return Err(Missing);
      }
    }
    r := Ok(newKeyList);
  }

  // ---------------------------------------------------------------- what every update keeps

  /** At most ten keys, no two of them the same. */
  predicate ListOk(keys: seq<Key>) {
    |keys| <= 10 && forall i, j :: 0 <= i < j < |keys| ==> !Same(keys[i], keys[j])
  }

  lemma {:induction false} WithoutAbsent(keys: seq<Key>, key: Key)
    requires !Contains(keys, key)
    ensures Without(keys, key) == keys
    decreases |keys|
  {
    if keys != [] {
      var front := keys[..|keys| - 1];
      hide Same;
      assert !Contains(front, key) by {
        if j :| 0 <= j < |front| && Same(front[j], key) { assert Same(keys[j], key); }
      }
      WithoutAbsent(front, key);
    }
  }

  /** Deleting a key takes out its one position and keeps the others in order. */
  lemma {:induction false} WithoutPosition(keys: seq<Key>, key: Key, i: nat)
    requires ListOk(keys) && i < |keys| && Same(keys[i], key)
    ensures Without(keys, key) == keys[..i] + keys[i + 1..]
    decreases |keys|
  {
    var n := |keys| - 1;
    var front := keys[..n];
    if i == n {
      forall j | 0 <= j < |front| ensures !Same(front[j], key) {
        assert !Same(keys[j], keys[n]);
      }
      WithoutAbsent(front, key);
    } else {
      assert !Same(keys[i], keys[n]);
      WithoutPosition(front, key, i);
      assert front[i + 1..] + [keys[n]] == keys[i + 1..];
      assert front[..i] == keys[..i];
    }
  }

  lemma RestOk(keys: seq<Key>, i: nat, key: Key)
    requires ListOk(keys) && i < |keys| && Same(keys[i], key)
    ensures ListOk(keys[..i] + keys[i + 1..]) && !Contains(keys[..i] + keys[i + 1..], key)
  {
    var rest := keys[..i] + keys[i + 1..];
    assert forall j :: 0 <= j < |rest| ==> rest[j] == keys[if j < i then j else j + 1];
  }

  lemma UpdateKeepsListOk(keys: seq<Key>, op: Operation, key: Key)
    requires ListOk(keys) && Update(keys, op, key).Ok?
    ensures ListOk(Update(keys, op, key).value)
    ensures op.Add? ==> Contains(Update(keys, op, key).value, key)
    ensures op.Delete? ==> !Contains(Update(keys, op, key).value, key)
  {
    if op.Add? {
      assert Same((keys + [key])[|keys|], key);
    } else {
      var i :| 0 <= i < |keys| && Same(keys[i], key);
      WithoutPosition(keys, key, i);
      RestOk(keys, i, key);
    }
  }

  datatype Request = Request(op: Operation, key: Key)

  /** The list after a sequence of requests; those that fail change nothing. */
  function UpdateAll(keys: seq<Key>, requests: seq<Request>): seq<Key>
    decreases |requests|
  {
    if requests == [] then keys
    else
      var r := Update(keys, requests[0].op, requests[0].key);
      UpdateAll(if r.Ok? then r.value else keys, requests[1..])
  }

  /** From a list with the master key alone, every sequence of requests leaves
      between zero and ten keys without duplicates. */
  lemma {:induction false} ListStaysOk(keys: seq<Key>, requests: seq<Request>)
    requires ListOk(keys)
    ensures ListOk(UpdateAll(keys, requests))
    decreases |requests|
  {
    if requests != [] {
      var r := Update(keys, requests[0].op, requests[0].key);
      if r.Ok? { UpdateKeepsListOk(keys, requests[0].op, requests[0].key); }
      ListStaysOk(if r.Ok? then r.value else keys, requests[1..]);
    }
  }

  /** An update that succeeds and its inverse: adding then deleting restores the
      list; deleting then adding moves the key to the end. */
  lemma UpdateAndInverse(keys: seq<Key>, key: Key)
    requires ListOk(keys)
    ensures Update(keys, Add, key).Ok? ==> Update(Update(keys, Add, key).value, Delete, key) == Ok(keys)
    ensures forall i :: 0 <= i < |keys| && keys[i] == key ==>
              && Update(keys, Delete, key).Ok?
              && Update(Update(keys, Delete, key).value, Add, key) == Ok(keys[..i] + keys[i + 1..] + [key])
  {
    if Update(keys, Add, key).Ok? {
      var longer := keys + [key];
      UpdateKeepsListOk(keys, Add, key);
      assert Same(longer[|keys|], key);
      WithoutPosition(longer, key, |keys|);
      assert longer[..|keys|] + longer[|keys| + 1..] == keys;
    }
    forall i | 0 <= i < |keys| && keys[i] == key
      ensures Update(keys, Delete, key).Ok?
      ensures Update(Update(keys, Delete, key).value, Add, key) == Ok(keys[..i] + keys[i + 1..] + [key])
    {
      assert Same(keys[i], key);
      WithoutPosition(keys, key, i);
      UpdateKeepsListOk(keys, Delete, key);
    }
  }

  // ---------------------------------------------------------------- listing

  /** The payload of an address: the cid followed by the public key. */
  function Payload(key: Key): seq<Byte> {
    key.cid + key.pubKey
  }

  lemma PayloadDeterminesKey(a: Key, b: Key)
    ensures Payload(a) == Payload(b) <==> Same(a, b)
  {
    assert Payload(a)[..10] == a.cid && Payload(a)[10..] == a.pubKey;
    assert Payload(b)[..10] == b.cid && Payload(b)[10..] == b.pubKey;
  }

  /** What the listing shows of a key: its address, and notes and device by cid. */
  datatype Entry = Entry(mainAlg: Byte, subAlg: Byte, payload: seq<Byte>, info: string)

  function EntryOf(key: Key, infos: map<seq<Byte>, string>): Entry {
    Entry(key.mainAlg, key.subAlg, Payload(key), if key.cid in infos then infos[key.cid] else "")
  }

  /** The listing leaves out the entry of the master's own address. */
  predicate IsMaster(key: Key, master: Key) {
    key.subAlg == master.subAlg && Same(key, master)
  }

  function Listing(keys: seq<Key>, master: Key, infos: map<seq<Byte>, string>): seq<Entry> {
    if keys == [] then []
    else
      var last := keys[|keys| - 1];
      Listing(keys[..|keys| - 1], master, infos) + if IsMaster(last, master) then [] else [EntryOf(last, infos)]
  }

  method ListAuthorized(keys: seq<Key>, master: Key, infos: map<seq<Byte>, string>) returns (authorizeList: seq<Entry>)
    ensures authorizeList == Listing(keys, master, infos)
  {
    authorizeList := [];
    for i := 0 to |keys|
      invariant authorizeList == Listing(keys[..i], master, infos)
    {
      assert keys[..i + 1][..i] == keys[..i];
      var key := keys[i];
      PayloadDeterminesKey(key, master);
      if master.subAlg == key.subAlg && Payload(master) == Payload(key) {
        continue;
      }
      var info := "";
      if key.cid in infos {
        info := infos[key.cid];
      }
      authorizeList := authorizeList + [Entry(key.mainAlg, key.subAlg, Payload(key), info)];
    }
    assert keys[..|keys|] == keys;
  }

  /** Listing distributes over concatenation. */
  lemma {:induction false} ListingConcat(a: seq<Key>, b: seq<Key>, master: Key, infos: map<seq<Byte>, string>)
    ensures Listing(a + b, master, infos) == Listing(a, master, infos) + Listing(b, master, infos)
    decreases |b|
  {
    if b == [] {
      assert a + b == a;
    } else {
      var front := b[..|b| - 1];
      assert (a + b)[..|a + b| - 1] == a + front;
      ListingConcat(a, front, master, infos);
    }
  }

  /** The listing shows each key in its place, between what it shows of the keys
      before and after it: by its algorithms, its cid followed by its public key, and
      the notes and device recorded for its cid, if any; but the master's own address
      not at all. */
  lemma ListingShowsEach(a: seq<Key>, k: Key, b: seq<Key>, master: Key, infos: map<seq<Byte>, string>)
    ensures Listing([], master, infos) == []
    ensures Listing(a + [k] + b, master, infos) == Listing(a, master, infos)
      + (if k.subAlg == master.subAlg && k.cid == master.cid && k.pubKey == master.pubKey then []
         else [Entry(k.mainAlg, k.subAlg, k.cid + k.pubKey, if k.cid in infos then infos[k.cid] else "")])
      + Listing(b, master, infos)
  {
    ListingConcat(a + [k], b, master, infos);
    assert (a + [k])[..|a|] == a;
  }

  /** The listing is the list without the master, in order: it shows one entry for
      each key that is not the master's and nothing else. */
  lemma {:induction false} ListingShows(keys: seq<Key>, master: Key, infos: map<seq<Byte>, string>)
    requires ListOk(keys)
    requires forall i :: 0 <= i < |keys| && Same(keys[i], master) ==> keys[i].subAlg == master.subAlg
    ensures |Listing(keys, master, infos)| == |Without(keys, master)|
    ensures forall i :: 0 <= i < |Without(keys, master)| ==>
              Listing(keys, master, infos)[i] == EntryOf(Without(keys, master)[i], infos)
    decreases |keys|
  {
    if keys != [] {
      ListingShows(keys[..|keys| - 1], master, infos);
    }
  }

  lemma ListingSplit(keys: seq<Key>, i: nat, master: Key, infos: map<seq<Byte>, string>)
    requires i < |keys| && !IsMaster(keys[i], master)
    ensures Listing(keys, master, infos)
         == Listing(keys[..i], master, infos) + [EntryOf(keys[i], infos)] + Listing(keys[i + 1..], master, infos)
  {
    assert keys == keys[..i] + [keys[i]] + keys[i + 1..];
    ListingConcat(keys[..i] + [keys[i]], keys[i + 1..], master, infos);
    ListingConcat(keys[..i], [keys[i]], master, infos);
    assert [keys[i]][..0] == [];
    assert Listing([keys[i]], master, infos) == [EntryOf(keys[i], infos)];
  }

  /** Adding a key of another device appends exactly its entry to the listing. */
  lemma ListingAfterAdd(keys: seq<Key>, key: Key, master: Key, infos: map<seq<Byte>, string>)
    requires Update(keys, Add, key).Ok? && !IsMaster(key, master)
    ensures Listing(Update(keys, Add, key).value, master, infos) == Listing(keys, master, infos) + [EntryOf(key, infos)]
  {
  }

  /** Deleting a listed key takes out exactly its entry. */
  lemma ListingAfterDelete(keys: seq<Key>, i: nat, key: Key, master: Key, infos: map<seq<Byte>, string>)
    requires ListOk(keys) && i < |keys| && Same(keys[i], key) && !IsMaster(keys[i], master)
    ensures Update(keys, Delete, key).Ok?
    ensures var before, after := Listing(keys, master, infos), Listing(Update(keys, Delete, key).value, master, infos);
      exists j :: 0 <= j < |before| && before[j] == EntryOf(keys[i], infos) && after == before[..j] + before[j + 1..]
  {
    WithoutPosition(keys, key, i);
    hide Listing, EntryOf, ListOk;
    ListingSplit(keys, i, master, infos);
    ListingConcat(keys[..i], keys[i + 1..], master, infos);
    OneTakenOut(Listing(keys[..i], master, infos), EntryOf(keys[i], infos), Listing(keys[i + 1..], master, infos));
  }

  lemma OneTakenOut(a: seq<Entry>, e: Entry, b: seq<Entry>)
    ensures (a + [e] + b)[|a|] == e
    ensures (a + [e] + b)[..|a|] + (a + [e] + b)[|a| + 1..] == a + b
  {
  }

  // ---------------------------------------------------------------- the signer's position

  /** The position of a key in the list: the first entry with its cid and public key. */
  function IndexOf(keys: seq<Key>, signer: Key): Option<nat> {
    if keys == [] then None
    else if Same(keys[0], signer) then Some(0)
    else
      match IndexOf(keys[1..], signer)
      case None => None
      case Some(i) => Some(i + 1)
  }

  /** The index of a signer is the first position that holds its cid and public key,
      and in a list without duplicates the only one; there is none exactly for keys
      outside the list. */
  lemma {:induction false} IndexIsUniquePosition(keys: seq<Key>, signer: Key)
    ensures match IndexOf(keys, signer)
      case None => forall j :: !HeldAt(keys, signer, j)
      case Some(i) =>
        && HeldAt(keys, signer, i)
        && (forall j :: j < i ==> !HeldAt(keys, signer, j))
        && (ListOk(keys) ==> forall j :: HeldAt(keys, signer, j) ==> j == i)
    decreases |keys|
  {
    if keys != [] {
      IndexIsUniquePosition(keys[1..], signer);
      forall j | 0 < j ensures HeldAt(keys, signer, j) <==> HeldAt(keys[1..], signer, j - 1) {}
      var idx := IndexOf(keys, signer);
      if idx.Some? && ListOk(keys) {
        forall j | idx.value < j < |keys| ensures !HeldAt(keys, signer, j) { assert !Same(keys[idx.value], keys[j]); }
      }
    }
  }
}
