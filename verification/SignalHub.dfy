/**
 The signalling hub: two shared maps, `PeersMap` from cid to connection and
 `Conn2Cid` back.  A join runs in two phases: under the write lock it tells every
 peer and enters the maps; later, under the read lock, it takes a snapshot of the
 peers and replies with it.  Other connections may act in between.
 */
module SignalHub {

  type Cid = string

  /** Connections, told apart by a number that is never reused. */
  type Conn = nat

  datatype Message =
    | Joined(cid: Cid)
    | Peers(cids: set<Cid>)
    | Signal(from: Cid, kind: string, data: string)

  class Hub {
    var PeersMap: map<Cid, Conn>
    var Conn2Cid: map<Conn, Cid>
    /** Counts the steps that write, and numbers their messages. */
    var clock: nat
    /** The messages written to each connection.  Writes are taken to succeed. */
    var sent: set<(nat, Conn, Message)>

    constructor ()
      ensures State() == EMPTY.hub
    {
      PeersMap, Conn2Cid, clock, sent := map[], map[], 0, {};
    }

    ghost function State(): HubState
      reads this
    {
      HubState(PeersMap, Conn2Cid, clock, sent)
    }

    /** First phase of a join, under the write lock. */
    method JoinBroadcast(conn: Conn, from: Cid)
      modifies this
      ensures State() == Broadcast(old(State()), conn, from)
    {
      var todo := PeersMap.Keys;
      while todo != {}
        invariant todo <= PeersMap.Keys
        invariant PeersMap == old(PeersMap) && Conn2Cid == old(Conn2Cid) && clock == old(clock)
        invariant sent == old(sent) + set k | k in PeersMap.Keys - todo :: (clock, PeersMap[k], Joined(from))
        decreases |todo|
      {
        var k: Cid :| k in todo;
        todo := todo - {k};
        sent := sent + {(clock, PeersMap[k], Joined(from))};
      }
      clock := clock + 1;
      PeersMap := PeersMap[from := conn];
      Conn2Cid := Conn2Cid[conn := from];
    }

    /** Second phase of a join: the snapshot and the reply, which is left out when it is empty. */
    method JoinReply(conn: Conn, from: Cid)
      modifies this`clock, this`sent
      ensures State() == Reply(old(State()), conn, from)
    {
      var cids: set<Cid> := {};
      var todo := PeersMap.Keys;
      while todo != {}
        invariant todo <= PeersMap.Keys
        invariant forall k :: k in cids <==> k in PeersMap && k !in todo && k != from
        decreases |todo|
      {
        var k: Cid :| k in todo;
        todo := todo - {k};
        if k == from { continue; }
        cids := cids + {k};
      }
      assert cids == PeersMap.Keys - {from};
      if |cids| == 0 {
        return;
      }
      sent := sent + {(clock, conn, Peers(cids))};
      clock := clock + 1;
    }

    method Relay(to: Cid, message: Message) returns (ok: bool)
      modifies this`clock, this`sent
      ensures ok <==> to in PeersMap
      ensures State() == Relayed(old(State()), to, message)
      ensures PeersMap == old(PeersMap) && Conn2Cid == old(Conn2Cid)
      ensures sent == if ok then old(sent) + {(old(clock), PeersMap[to], message)} else old(sent)
    {
      ok := to in PeersMap;
      if ok {
        sent := sent + {(clock, PeersMap[to], message)};
        clock := clock + 1;
      }
    }

    /** The deferred clean-up of a connection; a missing entry reads as the empty cid. */
    method Leave(conn: Conn)
      modifies this`PeersMap, this`Conn2Cid
      ensures State() == Left(old(State()), conn)
    {
      var cid := if conn in Conn2Cid then Conn2Cid[conn] else "";
      Conn2Cid := map c | c in Conn2Cid && c != conn :: Conn2Cid[c];
      PeersMap := map k | k in PeersMap && k != cid :: PeersMap[k];
    }
  }

  // ---------------------------------------------------------------- the hub as a state machine

  datatype HubState = HubState(peers: map<Cid, Conn>, cids: map<Conn, Cid>, clock: nat, sent: set<(nat, Conn, Message)>)

  function Broadcast(h: HubState, conn: Conn, from: Cid): HubState {
    HubState(h.peers[from := conn], h.cids[conn := from], h.clock + 1,
             h.sent + set k | k in h.peers :: (h.clock, h.peers[k], Joined(from)))
  }

  function Reply(h: HubState, conn: Conn, from: Cid): HubState {
    var others := h.peers.Keys - {from};
    if others == {} then h else h.(clock := h.clock + 1, sent := h.sent + {(h.clock, conn, Peers(others))})
  }

  /** The message reaches the connection that its addressee maps to, or nobody. */
  function Relayed(h: HubState, to: Cid, message: Message): HubState {
    if to in h.peers then h.(clock := h.clock + 1, sent := h.sent + {(h.clock, h.peers[to], message)}) else h
  }

  function CidOf(h: HubState, conn: Conn): Cid {
    if conn in h.cids then h.cids[conn] else ""
  }

  function Left(h: HubState, conn: Conn): HubState {
    h.(peers := map k | k in h.peers && k != CidOf(h, conn) :: h.peers[k],
       cids := map c | c in h.cids && c != conn :: h.cids[c])
  }

  /** The two maps are inverse to each other. */
  predicate Inverse(h: HubState) {
    && (forall k :: k in h.peers ==> h.peers[k] in h.cids && h.cids[h.peers[k]] == k)
    && (forall c :: c in h.cids ==> h.cids[c] in h.peers && h.peers[h.cids[c]] == c)
  }

  /** A join keeps the maps inverse exactly when neither the cid nor the connection
      is already paired with another. */
  lemma JoinKeepsInverse(h: HubState, conn: Conn, cid: Cid)
    requires Inverse(h)
    ensures Inverse(Broadcast(h, conn, cid))
       <==> (cid in h.peers ==> h.peers[cid] == conn) && (conn in h.cids ==> h.cids[conn] == cid)
  {
    var h' := Broadcast(h, conn, cid);
    if cid in h.peers && h.peers[cid] != conn {
      assert h.peers[cid] in h'.cids && h'.cids[h.peers[cid]] == cid && h'.peers[cid] == conn;
    }
    if conn in h.cids && h.cids[conn] != cid {
      assert h.cids[conn] in h'.peers && h'.peers[h.cids[conn]] == conn && h'.cids[conn] == cid;
    }
  }

  /** A leave keeps them inverse exactly when the connection had joined or no peer
      uses the empty cid; no entry of the connection is left. */
  lemma LeaveKeepsInverse(h: HubState, conn: Conn)
    requires Inverse(h)
    ensures Inverse(Left(h, conn)) <==> conn in h.cids || "" !in h.peers
    ensures Inverse(Left(h, conn)) ==>
      conn !in Left(h, conn).cids && forall k :: k in Left(h, conn).peers ==> Left(h, conn).peers[k] != conn
  {
    var h' := Left(h, conn);
    if conn !in h.cids && "" in h.peers {
      assert h.peers[""] in h'.cids && "" !in h'.peers;
    }
  }

  // ---------------------------------------------------------------- runs

  /** Where a connection is: between the phases of its join, after its reply, or gone. */
  datatype Phase = Entered(cid: Cid) | Replied(cid: Cid) | Gone

  /** The hub and the phase of every connection that has joined. */
  datatype Room = Room(hub: HubState, phase: map<Conn, Phase>)

  datatype Step =
    | Join(conn: Conn, cid: Cid)
    | Answer(conn: Conn)
    | Forward(to: Cid, message: Message)
    | Disconnect(conn: Conn)

  const EMPTY: Room := Room(HubState(map[], map[], 0, {}), map[])

  /** Each connection joins at most once, with a non-empty cid that is not in use,
      and replies between its join and its leave. */
  predicate Orderly(r: Room, step: Step) {
    match step
    case Join(conn, cid) => conn !in r.phase && cid != "" && cid !in r.hub.peers
    case Answer(conn) => conn in r.phase && r.phase[conn].Entered?
    case Forward(_, message) => message.Signal?
    case Disconnect(conn) => conn in r.phase ==> !r.phase[conn].Gone?
  }

  function Act(r: Room, step: Step): Room {
    match step
    case Join(conn, cid) => Room(Broadcast(r.hub, conn, cid), r.phase[conn := Entered(cid)])
    case Answer(conn) =>
      if conn in r.phase && r.phase[conn].Entered?
      then Room(Reply(r.hub, conn, r.phase[conn].cid), r.phase[conn := Replied(r.phase[conn].cid)])
      else r
    case Forward(to, message) => r.(hub := Relayed(r.hub, to, message))
    case Disconnect(conn) => Room(Left(r.hub, conn), r.phase[conn := Gone])
  }

  function Perform(r: Room, steps: seq<Step>): Room
    decreases |steps|
  {
    if steps == [] then r else Perform(Act(r, steps[0]), steps[1..])
  }

  predicate OrderlyRun(r: Room, steps: seq<Step>)
    decreases |steps|
  {
    steps == [] || (Orderly(r, steps[0]) && OrderlyRun(Act(r, steps[0]), steps[1..]))
  }

  predicate Live(r: Room, conn: Conn) {
    conn in r.phase && !r.phase[conn].Gone?
  }

  /** The connection was told that cid is present, by a broadcast or in a reply, in
      the steps numbered from `since` on. */
  ghost predicate ToldOf(h: HubState, since: nat, conn: Conn, cid: Cid) {
    || (exists t :: since <= t && (t, conn, Joined(cid)) in h.sent)
    || (exists t, cids :: since <= t && (t, conn, Peers(cids)) in h.sent && cid in cids)
  }

  /** Exactly the live connections are in the maps, under their own cid. */
  ghost predicate Mapped(r: Room) {
    && Inverse(r.hub) && "" !in r.hub.peers
    && (forall c :: c in r.hub.cids <==> Live(r, c))
    && (forall c :: Live(r, c) ==> r.hub.cids[c] == r.phase[c].cid)
  }

  /** Neither connection had joined, or only one of them, in room `before`. */
  predicate JoinedSince(before: Room, a: Conn, b: Conn) {
    a !in before.phase || b !in before.phase
  }

  /** Of two live connections that were not both there before, at least one has
      since been told of the other by the broadcast, and one that has had its reply
      has been told of the other. */
  ghost predicate Discovered(before: Room, r: Room) {
    forall a, b :: Live(r, a) && Live(r, b) && a != b && JoinedSince(before, a, b) ==>
      && (ToldOf(r.hub, before.hub.clock, a, r.phase[b].cid) || ToldOf(r.hub, before.hub.clock, b, r.phase[a].cid))
      && (r.phase[a].Replied? ==> ToldOf(r.hub, before.hub.clock, a, r.phase[b].cid))
  }

  lemma MappedAfterStep(r: Room, step: Step)
    requires Mapped(r) && Orderly(r, step)
    ensures Mapped(Act(r, step))
  {
    assert step.Forward? || step.Answer? ==> Inverse(Act(r, step).hub);
    hide Inverse;
    match step
    case Join(conn, cid) => JoinKeepsInverse(r.hub, conn, cid);
    case Disconnect(conn) => LeaveKeepsInverse(r.hub, conn);
    case Answer(_) =>
    case Forward(_, _) =>
  }

  /** What a connection was told stays told. */
  lemma ToldStays(before: Room, r: Room, step: Step, conn: Conn, cid: Cid)
    requires ToldOf(r.hub, before.hub.clock, conn, cid)
    ensures ToldOf(Act(r, step).hub, before.hub.clock, conn, cid)
  {
    assert r.hub.sent <= Act(r, step).hub.sent;
  }

  lemma DiscoveredAfterStep(before: Room, r: Room, step: Step)
    requires Mapped(r) && Discovered(before, r) && Orderly(r, step) && before.hub.clock <= r.hub.clock
    ensures Discovered(before, Act(r, step)) && before.hub.clock <= Act(r, step).hub.clock
  {
    var r', t := Act(r, step), r.hub.clock;
    MappedAfterStep(r, step);
    forall a, b | Live(r', a) && Live(r', b) && a != b && JoinedSince(before, a, b)
      ensures ToldOf(r'.hub, before.hub.clock, a, r'.phase[b].cid) || ToldOf(r'.hub, before.hub.clock, b, r'.phase[a].cid)
      ensures r'.phase[a].Replied? ==> ToldOf(r'.hub, before.hub.clock, a, r'.phase[b].cid)
    {
      if step.Join? && b == step.conn {
        assert r.hub.cids[a] in r.hub.peers && (t, a, Joined(step.cid)) in r'.hub.sent;
      } else if step.Join? && a == step.conn {
        assert r.hub.cids[b] in r.hub.peers && (t, b, Joined(step.cid)) in r'.hub.sent;
      } else if step.Answer? && a == step.conn {
        assert r.hub.cids[b] in r.hub.peers.Keys - {r.phase[a].cid};
        assert (t, a, Peers(r.hub.peers.Keys - {r.phase[a].cid})) in r'.hub.sent;
      } else {
        assert Live(r, a) && Live(r, b);
        if ToldOf(r.hub, before.hub.clock, a, r.phase[b].cid) { ToldStays(before, r, step, a, r.phase[b].cid); }
        if ToldOf(r.hub, before.hub.clock, b, r.phase[a].cid) { ToldStays(before, r, step, b, r.phase[a].cid); }
      }
    }
  }

  lemma {:induction false} MappedAfterRun(r: Room, steps: seq<Step>)
    requires Mapped(r) && OrderlyRun(r, steps)
    ensures Mapped(Perform(r, steps))
    decreases |steps|
  {
    if steps != [] {
      MappedAfterStep(r, steps[0]);
      MappedAfterRun(Act(r, steps[0]), steps[1..]);
    }
  }

  lemma {:induction false} DiscoveredAfterRun(before: Room, r: Room, steps: seq<Step>)
    requires Mapped(r) && Discovered(before, r) && before.hub.clock <= r.hub.clock && OrderlyRun(r, steps)
    ensures Discovered(before, Perform(r, steps))
    decreases |steps|
  {
    if steps != [] {
      MappedAfterStep(r, steps[0]);
      DiscoveredAfterStep(before, r, steps[0]);
      DiscoveredAfterRun(before, Act(r, steps[0]), steps[1..]);
    }
  }

  lemma {:induction false} PerformAppend(r: Room, a: seq<Step>, b: seq<Step>)
    ensures Perform(r, a + b) == Perform(Perform(r, a), b)
    ensures OrderlyRun(r, a + b) <==> OrderlyRun(r, a) && OrderlyRun(Perform(r, a), b)
    decreases |a|
  {
    hide Act, Orderly;
    if a == [] {
      assert a + b == b;
    } else {
      assert (a + b)[0] == a[0] && (a + b)[1..] == a[1..] + b;
      PerformAppend(Act(r, a[0]), a[1..], b);
    }
  }

  /** Peer maps stay inverse in every reachable state, hold no entry of a connection
      that left, and a message relayed to a cid reaches exactly the live connection
      that joined as it. */
  lemma PeerMapsStayInverse(steps: seq<Step>, to: Cid)
    requires OrderlyRun(EMPTY, steps)
    ensures var r := Perform(EMPTY, steps);
      && Inverse(r.hub)
      && (to in r.hub.peers ==> Live(r, r.hub.peers[to]) && r.phase[r.hub.peers[to]].cid == to)
      && (forall c :: Live(r, c) && r.phase[c].cid == to ==> to in r.hub.peers && r.hub.peers[to] == c)
  {
    MappedAfterRun(EMPTY, steps);
  }

  lemma EmptyIsMapped()
    ensures Mapped(EMPTY)
  {
  }

  /** Mutual discovery: over all interleavings of the two phases of joins, any two
      live connections that have had their replies have each been told of the
      other, and not before both had joined: for every split of the run at which
      not both had joined yet, in the steps after it. */
  lemma MutualDiscovery(first: seq<Step>, rest: seq<Step>, a: Conn, b: Conn)
    requires OrderlyRun(EMPTY, first + rest)
    requires JoinedSince(Perform(EMPTY, first), a, b)
    requires var r := Perform(EMPTY, first + rest);
      a != b && Live(r, a) && Live(r, b) && r.phase[a].Replied? && r.phase[b].Replied?
    ensures var since, r := Perform(EMPTY, first).hub.clock, Perform(EMPTY, first + rest);
      ToldOf(r.hub, since, a, r.phase[b].cid) && ToldOf(r.hub, since, b, r.phase[a].cid)
  {
    hide Perform, OrderlyRun, ToldOf, Inverse;
    PerformAppend(EMPTY, first, rest);
    var before := Perform(EMPTY, first);
    EmptyIsMapped();
    MappedAfterRun(EMPTY, first);
    assert Discovered(before, before);
    DiscoveredAfterRun(before, before, rest);
  }

  // ---------------------------------------------------------------- who is written to

  /** The messages of a step are numbered with the clock, so they are new. */
  ghost predicate Stamped(h: HubState) {
    forall t, c, m :: (t, c, m) in h.sent ==> t < h.clock
  }

  lemma {:induction false} StampedAfterRun(r: Room, steps: seq<Step>)
    requires Stamped(r.hub)
    ensures Stamped(Perform(r, steps).hub)
    decreases |steps|
  {
    if steps != [] {
      assert Stamped(Act(r, steps[0]).hub);
      hide Act, Stamped;
      StampedAfterRun(Act(r, steps[0]), steps[1..]);
    }
  }

  lemma ReachedRoom(steps: seq<Step>)
    requires OrderlyRun(EMPTY, steps)
    ensures Mapped(Perform(EMPTY, steps)) && Stamped(Perform(EMPTY, steps).hub)
  {
    MappedAfterRun(EMPTY, steps);
    StampedAfterRun(EMPTY, steps);
  }

  /** The messages written in a step. */
  function Written(r: Room, step: Step): set<(nat, Conn, Message)> {
    Act(r, step).hub.sent - r.hub.sent
  }

  /** In every orderly run, a forwarded message is written exactly once, to the live
      connection that joined as its addressee, and to nobody if there is none. */
  lemma ForwardReachesExactly(steps: seq<Step>, to: Cid, message: Message)
    requires OrderlyRun(EMPTY, steps)
    ensures var r := Perform(EMPTY, steps);
      && r.hub.sent <= Act(r, Forward(to, message)).hub.sent
      && (forall c :: Live(r, c) && r.phase[c].cid == to ==> Written(r, Forward(to, message)) == {(r.hub.clock, c, message)})
      && ((forall c :: Live(r, c) ==> r.phase[c].cid != to) ==> Written(r, Forward(to, message)) == {})
  {
    ReachedRoom(steps);
    hide Perform, OrderlyRun;
  }

  /** A join is told to every live connection, once each, and to no other. */
  lemma JoinTellsExactly(steps: seq<Step>, conn: Conn, cid: Cid)
    requires OrderlyRun(EMPTY, steps) && Orderly(Perform(EMPTY, steps), Join(conn, cid))
    ensures var r := Perform(EMPTY, steps);
      && r.hub.sent <= Act(r, Join(conn, cid)).hub.sent
      && Written(r, Join(conn, cid)) == set c | c in r.phase && Live(r, c) :: (r.hub.clock, c, Joined(cid))
  {
    ReachedRoom(steps);
    hide Perform, OrderlyRun;
    var r := Perform(EMPTY, steps);
    forall c | c in r.phase && Live(r, c) ensures (r.hub.clock, c, Joined(cid)) in Written(r, Join(conn, cid)) {
      assert r.hub.cids[c] in r.hub.peers;
    }
  }

  /** The reply names exactly the other live connections, not the joiner itself, and is
      written to the joiner only; there is none if the joiner is alone. */
  lemma AnswerTellsExactly(steps: seq<Step>, conn: Conn)
    requires OrderlyRun(EMPTY, steps) && Orderly(Perform(EMPTY, steps), Answer(conn))
    ensures var r := Perform(EMPTY, steps);
      var others := set c | c in r.phase && Live(r, c) && c != conn :: r.phase[c].cid;
      && r.hub.sent <= Act(r, Answer(conn)).hub.sent
      && Written(r, Answer(conn)) == if others == {} then {} else {(r.hub.clock, conn, Peers(others))}
  {
    ReachedRoom(steps);
    hide Perform, OrderlyRun;
    var r := Perform(EMPTY, steps);
    var others := set c | c in r.phase && Live(r, c) && c != conn :: r.phase[c].cid;
    forall k ensures k in r.hub.peers.Keys - {r.phase[conn].cid} <==> k in others {
      if k in r.hub.peers { assert Live(r, r.hub.peers[k]); }
    }
    assert r.hub.peers.Keys - {r.phase[conn].cid} == others;
  }

  /** A second join by one connection leaves an entry behind when it disconnects. */
  lemma RejoinLeavesEntry(conn: Conn, first: Cid, second: Cid)
    requires first != second
    ensures var r := Perform(EMPTY, [Join(conn, first), Answer(conn), Join(conn, second), Disconnect(conn)]);
      !Live(r, conn) && first in r.hub.peers && r.hub.peers[first] == conn
  {
    var s := [Join(conn, first), Answer(conn), Join(conn, second), Disconnect(conn)];
    assert s[1..] == [s[1], s[2], s[3]] && s[1..][1..] == [s[2], s[3]] && s[1..][1..][1..] == [s[3]];
    var r1 := Act(EMPTY, s[0]);
    var r2 := Act(r1, s[1]);
    var r3 := Act(r2, s[2]);
    assert Perform(EMPTY, s) == Perform(r1, [s[1], s[2], s[3]]) == Perform(r2, [s[2], s[3]]) == Perform(r3, [s[3]]) == Act(r3, s[3]);
  }

  /** When two connections share a cid, the leave of the first cuts off the second. */
  lemma SharedCidCutsOff(a: Conn, b: Conn, cid: Cid)
    requires a != b
    ensures var r := Perform(EMPTY, [Join(a, cid), Join(b, cid), Disconnect(a)]);
      Live(r, b) && r.phase[b].cid == cid && cid !in r.hub.peers
  {
    var s := [Join(a, cid), Join(b, cid), Disconnect(a)];
    assert s[1..] == [s[1], s[2]] && s[1..][1..] == [s[2]];
    var r1 := Act(EMPTY, s[0]);
    var r2 := Act(r1, s[1]);
    assert Perform(EMPTY, s) == Perform(r1, [s[1], s[2]]) == Perform(r2, [s[2]]) == Act(r2, s[2]);
  }
}
