/** The connection registry: competing handshakes, upgrades, and teardown by the owner only. */
module Registry {
  import opened Graph

  datatype Transport = Rns | WebSocket

  /** One connection, inbound or outbound. */
  datatype Conn = Conn(id: nat, peer: NodeId, transport: Transport)

  /** What the daemon keeps about a peer; every handshake brings a new one. */
  datatype PeerState = PeerState(online: bool, transport: Transport, sessionKey: Option<string>)

  /** The peers, and the registered connections. */
  datatype State = State(peers: map<NodeId, PeerState>, clients: map<NodeId, Conn>)

  /** A connection that has passed the handshake asks to be registered, or its handler ends. */
  datatype Event = Handshake(c: Conn, key: string) | Teardown(c: Conn)

  const START := State(map[], map[])

  predicate IsConnected(st: State, p: NodeId) {
    p in st.peers && st.peers[p].online && p in st.clients
  }

  predicate IsUpgrade(st: State, c: Conn) {
    IsConnected(st, c.peer) && c.transport == WebSocket && st.peers[c.peer].transport == Rns
  }

  predicate Admits(st: State, c: Conn) {
    !IsConnected(st, c.peer) || IsUpgrade(st, c)
  }

  function Apply(st: State, e: Event): State {
    match e
    case Handshake(c, key) =>
      if Admits(st, c) then
        State(st.peers[c.peer := PeerState(true, c.transport, Some(key))], st.clients[c.peer := c])
      else st
    case Teardown(c) =>
      if c.peer in st.clients && st.clients[c.peer] == c then
        State(if c.peer !in st.peers then st.peers
              else st.peers[c.peer := st.peers[c.peer].(online := false, sessionKey := None)],
              st.clients - {c.peer})
      else st
  }

  type Log = seq<Event>

  function ReplayFrom(st: State, log: Log): State {
    if log == [] then st else Apply(ReplayFrom(st, log[..|log| - 1]), log[|log| - 1])
  }

  function Replay(log: Log): State {
    ReplayFrom(START, log)
  }

  // ----- The registry itself -----

  class ConnectionRegistry {
    var peers: map<NodeId, PeerState>
    var clients: map<NodeId, Conn>

    ghost function Abstract(): State
      reads this
    {
      State(peers, clients)
    }

    constructor ()
      ensures Abstract() == START
    {
      peers, clients := map[], map[];
    }

    /** The critical section of both handshakes, with the transport recorded right after it. */
    method Register(c: Conn, key: string) returns (admitted: bool, closed: Option<Conn>)
      modifies this
      ensures Abstract() == Apply(old(Abstract()), Handshake(c, key))
      ensures admitted == Admits(old(Abstract()), c)
      ensures closed == if IsUpgrade(old(Abstract()), c) then Some(old(clients)[c.peer]) else None
    {
      closed := None;
      if c.peer in peers && peers[c.peer].online && c.peer in clients {
        if c.transport != Rns && peers[c.peer].transport == Rns {
          closed := Some(clients[c.peer]);
          clients := clients - {c.peer};
        } else {
          return false, None;
        }
      }
      peers := peers[c.peer := PeerState(true, c.transport, Some(key))];
      clients := clients[c.peer := c];
      admitted := true;
    }

    /** The end of a handler: clears the entry only if it is its own. */
    method Unregister(c: Conn) returns (owned: bool)
      modifies this
      ensures Abstract() == Apply(old(Abstract()), Teardown(c))
      ensures owned == (c.peer in old(clients) && old(clients)[c.peer] == c)
    {
      owned := c.peer in clients && clients[c.peer] == c;
      if owned {
        clients := clients - {c.peer};
        if c.peer in peers {
          peers := peers[c.peer := peers[c.peer].(online := false, sessionKey := None)];
        }
      }
    }
  }

  // ----- Every reachable state -----

  /** A peer is online, with a key and the transport of its connection, exactly when a connection of its
      own is registered. */
  ghost predicate Coherent(st: State) {
    forall p ::
      && (p in st.clients ==> st.clients[p].peer == p && p in st.peers && st.peers[p].online
                              && st.peers[p].transport == st.clients[p].transport && st.peers[p].sessionKey.Some?)
      && (p !in st.clients && p in st.peers ==> !st.peers[p].online && st.peers[p].sessionKey == None)
  }

  lemma {:induction false} ReachableIsCoherent(log: Log)
    ensures Coherent(Replay(log))
  {
    if log != [] {
      ReachableIsCoherent(log[..|log| - 1]);
    }
  }

  // ----- No connection is left open and forgotten -----

  /** The connection that admitting `c` closes. */
  function ClosedBy(st: State, c: Conn): set<Conn> {
    if IsUpgrade(st, c) then {st.clients[c.peer]} else {}
  }

  /** The connections whose handshake was admitted, less those torn down and those an upgrade closed. */
  function Open(log: Log): set<Conn> {
    if log == [] then {}
    else
      var before, e := log[..|log| - 1], log[|log| - 1];
      match e
      case Teardown(c) => Open(before) - {c}
      case Handshake(c, _) =>
        if Admits(Replay(before), c) then Open(before) - ClosedBy(Replay(before), c) + {c} else Open(before)
  }

  predicate IsRegistered(st: State, c: Conn) {
    c.peer in st.clients && st.clients[c.peer] == c
  }

  /** Whatever the interleaving, the open connections are exactly the registered ones: at most one for a
      peer. */
  lemma {:induction false} OpenAreRegistered(log: Log)
    ensures forall c :: c in Open(log) <==> IsRegistered(Replay(log), c)
    ensures forall c, d :: c in Open(log) && d in Open(log) && c.peer == d.peer ==> c == d
  {
    if log != [] {
      OpenAreRegistered(log[..|log| - 1]);
      ReachableIsCoherent(log[..|log| - 1]);
    }
  }

  // ----- Whose key it is -----

  /** The key of the connection's last handshake that was admitted. */
  function AdmittedKey(log: Log, c: Conn): Option<string> {
    if log == [] then None
    else
      var before, e := log[..|log| - 1], log[|log| - 1];
      if e.Handshake? && e.c == c && Admits(Replay(before), c) then Some(e.key) else AdmittedKey(before, c)
  }

  /** In every run a registered connection's peer is online under the key of that connection's own last
      admitted handshake, upgrades included, and a peer without a connection has no key. */
  lemma {:induction false} KeyIsTheOwners(log: Log, p: NodeId)
    ensures var st := Replay(log);
            && (p in st.clients ==>
                  && p in st.peers && AdmittedKey(log, st.clients[p]).Some?
                  && st.peers[p] == PeerState(true, st.clients[p].transport, AdmittedKey(log, st.clients[p])))
            && (p !in st.clients && p in st.peers ==> !st.peers[p].online && st.peers[p].sessionKey == None)
  {
    if log != [] {
      KeyIsTheOwners(log[..|log| - 1], p);
      ReachableIsCoherent(log[..|log| - 1]);
    }
  }

  // ----- Who keeps the registration -----

  /** The connection's own teardown, or, if it runs over RNS, a WebSocket for the same peer. */
  predicate Displaces(e: Event, c: Conn) {
    match e
    case Teardown(d) => d == c
    case Handshake(d, _) => d.peer == c.peer && d.transport == WebSocket && c.transport == Rns
  }

  /** One event, from any reachable state: a registered connection loses its entry, its status or its
      key exactly to what displaces it, and a WebSocket that does closes it. */
  lemma KeepsUnlessDisplaced(st: State, e: Event, c: Conn)
    requires Coherent(st) && IsRegistered(st, c)
    ensures !Displaces(e, c) ==> IsRegistered(Apply(st, e), c) && Apply(st, e).peers[c.peer] == st.peers[c.peer]
    ensures Displaces(e, c) ==> !IsRegistered(Apply(st, e), c)
    ensures Displaces(e, c) && e.Handshake? ==> IsRegistered(Apply(st, e), e.c) && ClosedBy(st, e.c) == {c}
  {
  }

  /** In every run, the handler of a connection that was refused, displaced or torn down before changes
      nothing when it ends: no entry, status or key of the connection that won. */
  lemma LosersLeaveNoTrace(log: Log, c: Conn)
    requires c !in Open(log)
    ensures Replay(log + [Teardown(c)]) == Replay(log)
  {
    OpenAreRegistered(log);
    assert (log + [Teardown(c)])[..|log|] == log;
  }

  /** Over any further run in which it does not shake hands again, a registered connection is still
      registered, with the same status and session key, if and only if its own handler has not ended
      and, for an RNS link, no WebSocket for that peer has been admitted. */
  lemma {:induction false} OwnershipIsKeptExactly(log: Log, more: Log, c: Conn)
    requires IsRegistered(Replay(log), c)
    requires forall i :: 0 <= i < |more| && more[i].Handshake? ==> more[i].c != c
    ensures var st, st' := Replay(log), ReplayFrom(Replay(log), more);
            && (IsRegistered(st', c) <==> forall i :: 0 <= i < |more| ==> !Displaces(more[i], c))
            && (IsRegistered(st', c) ==>
                  && c.peer in st.peers && c.peer in st'.peers && st'.peers[c.peer] == st.peers[c.peer]
                  && st'.peers[c.peer].online && st'.peers[c.peer].transport == c.transport
                  && st'.peers[c.peer].sessionKey == AdmittedKey(log, c))
  {
    ReachableIsCoherent(log);
    KeyIsTheOwners(log, c.peer);
    if more != [] {
      var before, e := more[..|more| - 1], more[|more| - 1];
      OwnershipIsKeptExactly(log, before, c);
      var mid := ReplayFrom(Replay(log), before);
      FromReachableIsCoherent(Replay(log), before);
      assert more == before + [e];
      if IsRegistered(mid, c) {
        KeepsUnlessDisplaced(mid, e, c);
      }
    }
  }

  lemma {:induction false} FromReachableIsCoherent(st: State, log: Log)
    requires Coherent(st)
    ensures Coherent(ReplayFrom(st, log))
  {
    if log != [] {
      FromReachableIsCoherent(st, log[..|log| - 1]);
    }
  }

  // ----- A race -----

  predicate WinsAt(log: Log, c: Conn, i: nat)
    requires i < |log|
  {
    && log[i].c == c
    && if c.transport == WebSocket then forall j :: 0 <= j < i ==> log[j].c.transport == Rns
       else i == 0 && forall j :: 0 <= j < |log| ==> log[j].c.transport == Rns
  }

  /** `c` is the first WebSocket among these handshakes, or the first of all if none is one, and `key` is
      what that handshake negotiated. */
  ghost predicate Wins(log: Log, c: Conn, key: string) {
    exists i: nat :: i < |log| && WinsAt(log, c, i) && log[i].Handshake? && log[i].key == key
  }

  lemma WinsStep(log: Log, e: Event, c: Conn, key: string)
    requires Wins(log, c, key) && e.Handshake?
    ensures var better := c.transport == Rns && e.c.transport == WebSocket;
            Wins(log + [e], if better then e.c else c, if better then e.key else key)
  {
    var i: nat :| i < |log| && WinsAt(log, c, i) && log[i].Handshake? && log[i].key == key;
    if c.transport == Rns && e.c.transport == WebSocket {
      assert WinsAt(log + [e], e.c, |log|);
    } else {
      assert WinsAt(log + [e], c, i);
    }
  }

  /** Any number of handshakes for one peer, in any order, with none torn down meanwhile: the first
      WebSocket ends up registered, or the first connection if all run over RNS, and the session key is
      the one that handshake negotiated. */
  lemma {:induction false} RaceHasOneWinner(log: Log, p: NodeId)
    requires forall i :: 0 <= i < |log| ==> log[i].Handshake? && log[i].c.peer == p
    ensures var st := Replay(log);
            log != [] ==> && p in st.clients && p in st.peers && st.peers[p].sessionKey.Some?
                          && Wins(log, st.clients[p], st.peers[p].sessionKey.value)
    ensures log == [] ==> p !in Replay(log).clients
  {
    if log != [] {
      var before, e := log[..|log| - 1], log[|log| - 1];
      RaceHasOneWinner(before, p);
      ReachableIsCoherent(before);
      assert log == before + [e] && log[|log| - 1].c == e.c;
      hide Wins;
      if before == [] {
        AloneWins(e);
      } else {
        var st := Replay(before);
        WinsStep(before, e, st.clients[p], st.peers[p].sessionKey.value);
      }
    }
  }

  lemma AloneWins(e: Event)
    requires e.Handshake?
    ensures Wins([e], e.c, e.key)
  {
    assert WinsAt([e], e.c, 0);
  }
}
