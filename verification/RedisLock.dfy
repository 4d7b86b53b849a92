/** The expiring lock in Redis that guards the creation of a key-list cell. */
module RedisLock {

  /** Four minutes, in milliseconds. */
  const EXPIRATION: nat := 240_000

  /** `expiry` holds, for each key that was set and not deleted, when it expires. */
  datatype Store = Store(now: nat, expiry: map<string, nat>)

  predicate Present(s: Store, key: string) {
    key in s.expiry && s.now < s.expiry[key]
  }

  function SetIfAbsent(s: Store, key: string, expiration: nat): Store {
    if Present(s, key) then s else s.(expiry := s.expiry[key := s.now + expiration])
  }

  function Del(s: Store, key: string): Store {
    s.(expiry := s.expiry - {key})
  }

  class RedisCache {
    var store: Store

    constructor (now: nat)
      ensures store == Store(now, map[])
    {
      store := Store(now, map[]);
    }

    method LockWithRedis(key: string, expiration: nat, fails: bool) returns (ok: bool)
      modifies this
      ensures ok <==> !fails && !Present(old(store), key)
      ensures store == if fails then old(store) else SetIfAbsent(old(store), key, expiration)
    {
      if fails { return false; }
      ok := !(key in store.expiry && store.now < store.expiry[key]);
      if ok {
        store := store.(expiry := store.expiry[key := store.now + expiration]);
      }
    }

    /** The function the lock returns: deletes the key, whoever set it. */
    method Unlock(key: string)
      modifies this
      ensures store == Del(old(store), key)
    {
      store := store.(expiry := map k | k in store.expiry && k != key :: store.expiry[k]);
    }
  }

  // ---------------------------------------------------------------- workers

  type Worker = nat

  /** A worker in the creation section for a key, since when. */
  datatype Holding = Holding(key: string, since: nat)

  datatype System = System(store: Store, holding: map<Worker, Holding>)

  datatype Step =
    | Acquire(worker: Worker, key: string)
    | Tick(elapsed: nat)
    | Release(worker: Worker)

  function Act(s: System, step: Step): System {
    match step
    case Acquire(worker, key) =>
      if worker in s.holding || Present(s.store, key) then s
      else System(SetIfAbsent(s.store, key, EXPIRATION), s.holding[worker := Holding(key, s.store.now)])
    case Tick(elapsed) => s.(store := s.store.(now := s.store.now + elapsed))
    case Release(worker) =>
      if worker in s.holding then System(Del(s.store, s.holding[worker].key), s.holding - {worker}) else s
  }

  function Perform(s: System, steps: seq<Step>): System
    decreases |steps|
  {
    if steps == [] then s else Perform(Act(s, steps[0]), steps[1..])
  }

  /** Time passes only as far as no worker overruns its lock. */
  predicate InTime(s: System, step: Step) {
    step.Tick? ==> forall w :: w in s.holding ==> s.store.now + step.elapsed < s.holding[w].since + EXPIRATION
  }

  predicate InTimeRun(s: System, steps: seq<Step>)
    decreases |steps|
  {
    steps == [] || (InTime(s, steps[0]) && InTimeRun(Act(s, steps[0]), steps[1..]))
  }

  /** At most one worker is in the creation section for a key. */
  predicate Exclusive(s: System) {
    forall v, w :: v in s.holding && w in s.holding && s.holding[v].key == s.holding[w].key ==> v == w
  }

  /** Every holder's lock is still the one it set. */
  predicate Guarded(s: System) {
    && Exclusive(s)
    && forall w :: w in s.holding ==>
         s.holding[w].key in s.store.expiry
         && s.store.expiry[s.holding[w].key] == s.holding[w].since + EXPIRATION > s.store.now
  }

  lemma GuardedAfterStep(s: System, step: Step)
    requires Guarded(s) && InTime(s, step)
    ensures Guarded(Act(s, step))
  {
  }

  lemma {:induction false} ExclusiveInTime(s: System, steps: seq<Step>)
    requires Guarded(s) && InTimeRun(s, steps)
    ensures Guarded(Perform(s, steps))
    decreases |steps|
  {
    if steps != [] {
      hide Act, Guarded, InTime;
      GuardedAfterStep(s, steps[0]);
      ExclusiveInTime(Act(s, steps[0]), steps[1..]);
    }
  }

  /** Over all interleavings of acquire, tick and release by any number of workers:
      if every holder releases before its lock expires, at most one worker is in
      the creation section of a key. */
  lemma LockIsExclusive(now: nat, steps: seq<Step>)
    requires InTimeRun(System(Store(now, map[]), map[]), steps)
    ensures Exclusive(Perform(System(Store(now, map[]), map[]), steps))
  {
    ExclusiveInTime(System(Store(now, map[]), map[]), steps);
  }

  /** Every key in the store is some holder's. */
  ghost predicate OnlyHeldKeys(s: System) {
    forall key :: key in s.store.expiry ==> exists w :: w in s.holding && s.holding[w].key == key
  }

  lemma OnlyHeldAfterStep(s: System, step: Step)
    requires Guarded(s) && OnlyHeldKeys(s) && InTime(s, step)
    ensures OnlyHeldKeys(Act(s, step))
  {
    var s' := Act(s, step);
    forall key | key in s'.store.expiry ensures exists w :: w in s'.holding && s'.holding[w].key == key {
      if key in s.store.expiry {
        var w :| w in s.holding && s.holding[w].key == key;
        assert w in s'.holding && s'.holding[w].key == key;
      } else {
        assert step.worker in s'.holding && s'.holding[step.worker].key == key;
      }
    }
  }

  lemma {:induction false} OnlyHeldAfterRun(s: System, steps: seq<Step>)
    requires Guarded(s) && OnlyHeldKeys(s) && InTimeRun(s, steps)
    ensures Guarded(Perform(s, steps)) && OnlyHeldKeys(Perform(s, steps))
    decreases |steps|
  {
    if steps != [] {
      hide Act, Guarded, OnlyHeldKeys, InTime;
      OnlyHeldAfterStep(s, steps[0]);
      GuardedAfterStep(s, steps[0]);
      OnlyHeldAfterRun(Act(s, steps[0]), steps[1..]);
    }
  }

  /** If every holder releases in time, a worker that asks for a key gets it exactly
      when no other worker is in the section of that key: a lock on one key leaves
      the others free, and a released lock can be taken again. */
  lemma AcquiredExactlyWhenFree(now: nat, steps: seq<Step>, worker: Worker, key: string)
    requires InTimeRun(System(Store(now, map[]), map[]), steps)
    requires worker !in Perform(System(Store(now, map[]), map[]), steps).holding
    ensures var s := Perform(System(Store(now, map[]), map[]), steps);
      var s' := Act(s, Acquire(worker, key));
      && (worker in s'.holding <==> forall w :: w in s.holding ==> s.holding[w].key != key)
      && (worker in s'.holding ==> s'.holding[worker] == Holding(key, s.store.now))
      && forall w :: w in s.holding ==> w in s'.holding && s'.holding[w] == s.holding[w]
  {
    OnlyHeldAfterRun(System(Store(now, map[]), map[]), steps);
    hide Perform, InTimeRun;
  }

  /** Every holder releases before it has held its lock for d. */
  predicate HeldUnder(s: System, step: Step, d: nat) {
    step.Tick? ==> forall w :: w in s.holding ==> s.store.now + step.elapsed < s.holding[w].since + d
  }

  predicate HeldUnderRun(s: System, steps: seq<Step>, d: nat)
    decreases |steps|
  {
    steps == [] || (HeldUnder(s, steps[0], d) && HeldUnderRun(Act(s, steps[0]), steps[1..], d))
  }

  lemma {:induction false} ShorterIsInTime(s: System, steps: seq<Step>, d: nat)
    requires d <= EXPIRATION && HeldUnderRun(s, steps, d)
    ensures InTimeRun(s, steps)
    decreases |steps|
  {
    if steps != [] {
      ShorterIsInTime(Act(s, steps[0]), steps[1..], d);
    }
  }

  /** A holder that keeps its lock until it expires is joined by a second one. */
  lemma HoldingToExpiryOverlaps(s: System, key: string, d: nat)
    requires s.holding == map[] && s.store.expiry == map[] && EXPIRATION < d
    ensures var steps := [Acquire(0, key), Tick(EXPIRATION), Acquire(1, key)];
      HeldUnderRun(s, steps, d) && !Exclusive(Perform(s, steps))
  {
    var t := [Acquire(0, key), Tick(EXPIRATION), Acquire(1, key)];
    assert t[1..] == [t[1], t[2]] && [t[1], t[2]][1..] == [t[2]] && [t[2]][1..] == [];
    var s1 := Act(s, t[0]);
    var s2 := Act(s1, t[1]);
    var s3 := Act(s2, t[2]);
    assert HeldUnderRun(s2, [t[2]], d) && HeldUnderRun(s1, [t[1], t[2]], d);
    assert Perform(s, t) == Perform(s1, [t[1], t[2]]) == Perform(s2, [t[2]]) == s3;
    assert 0 in s3.holding && 1 in s3.holding && s3.holding[0].key == s3.holding[1].key;
  }

  /** Four minutes are exactly how long a lock may be held: all runs in which every
      holder releases before it has held its lock for d are exclusive if and only
      if d is at most four minutes. */
  lemma HoldTimeIsExact(now: nat, d: nat)
    ensures (forall steps :: HeldUnderRun(System(Store(now, map[]), map[]), steps, d)
                             ==> Exclusive(Perform(System(Store(now, map[]), map[]), steps)))
       <==> d <= 4 * 60 * 1000
  {
    var s := System(Store(now, map[]), map[]);
    if d <= EXPIRATION {
      forall steps | HeldUnderRun(s, steps, d) ensures Exclusive(Perform(s, steps)) {
        ShorterIsInTime(s, steps, d);
        LockIsExclusive(now, steps);
      }
    } else {
      HoldingToExpiryOverlaps(s, "", d);
    }
  }

  /** A holder that overruns deletes the lock of the next one, and lets a third in. */
  lemma OverrunFreesAnothersLock(now: nat, a: Worker, b: Worker, c: Worker, key: string)
    requires a != b && b != c && c != a
    ensures var s := Perform(System(Store(now, map[]), map[]),
                             [Acquire(a, key), Tick(EXPIRATION), Acquire(b, key), Release(a), Acquire(c, key)]);
      b in s.holding && c in s.holding && s.holding[b].key == s.holding[c].key == key && !Exclusive(s)
  {
    var t := [Acquire(a, key), Tick(EXPIRATION), Acquire(b, key), Release(a), Acquire(c, key)];
    var s0 := System(Store(now, map[]), map[]);
    var s1 := Act(s0, t[0]);
    var s2 := Act(s1, t[1]);
    var s3 := Act(s2, t[2]);
    var s4 := Act(s3, t[3]);
    assert t[1..] == [t[1], t[2], t[3], t[4]] && [t[1], t[2], t[3], t[4]][1..] == [t[2], t[3], t[4]]
        && [t[2], t[3], t[4]][1..] == [t[3], t[4]] && [t[3], t[4]][1..] == [t[4]];
    assert Perform(s0, t) == Perform(s1, [t[1], t[2], t[3], t[4]]) == Perform(s2, [t[2], t[3], t[4]])
        == Perform(s3, [t[3], t[4]]) == Perform(s4, [t[4]]) == Act(s4, t[4]);
  }
}
