/** The mesh router: learning from announcements, choosing a next hop, relaying a frame. */
module Router {
  import opened Graph
  import opened RoutingTables
  import opened Dedup
  import Breaker

  datatype Mode = Off | Passive | Relay

  /** Frames older than a day are not relayed. */
  const FRESHNESS_WINDOW := 86400

  datatype FrameView = FrameView(source: NodeId, destination: NodeId, id: MsgId, timestamp: Option<int>,
                                 ttl: int, hops: seq<NodeId>)

  /** What became of a frame handed to `relay_message`; only `Sent` reports success. Without a route
      the source is told, through `notice` if there is a way back. */
  datatype Outcome = NotRelaying | Stale | DuplicateDropped | TtlExpired | Loop | NoRoute(notice: Option<NodeId>)
                   | Sent(next: NodeId) | SendFailed(next: NodeId)

  /** Everything a relay decision depends on. */
  datatype NodeState = NodeState(id: NodeId, mode: Mode, table: Table, clients: set<NodeId>,
                                 log: Log, limits: Limits, peers: Breaker.Peers, settings: Breaker.Settings)

  // ----- Announcements as they arrive -----

  datatype WireCost = Missing | NotAnInteger | Integer(value: int)
  datatype WireEntry = Junk | Fields(destination: Option<NodeId>, cost: WireCost)
  datatype Payload = TooLarge | Undecodable | NotAnObject | RoutesNotAList | Routes(entries: seq<WireEntry>)

  /** The usable lines of an announcement: a named destination and an integer cost, which
      defaults to infinity. */
  function Usable(w: WireEntry): Option<Entry> {
    if w.Junk? || w.cost.NotAnInteger? || w.destination.None? || w.destination.value.name == "" then None
    else Some(Entry(w.destination.value, if w.cost.Missing? then INFINITY_COST else w.cost.value))
  }

  function UsableEntries(ws: seq<WireEntry>): seq<Entry> {
    if ws == [] then []
    else
      var before := UsableEntries(ws[..|ws| - 1]);
      match Usable(ws[|ws| - 1])
      case None => before
      case Some(e) => before + [e]
  }

  /** How many of these offers from `from` change the table. */
  function Changes(self: NodeId, t: Table, entries: seq<Entry>, from: NodeId, now: int): nat {
    if entries == [] then 0
    else
      var init, e := entries[..|entries| - 1], entries[|entries| - 1];
      var written := e.destination.name != ""
                     && Writes(self, ApplyAll(self, t, init, from, now), e.destination, e.cost + 1, from);
      Changes(self, t, init, from, now) + if written then 1 else 0
  }

  lemma NoOffers(self: NodeId, t: Table, from: NodeId, now: int)
    ensures ApplyAll(self, t, [], from, now) == t && Changes(self, t, [], from, now) == 0
  {
  }

  /** The table after one line, and whether the line changed it. */
  function AfterLine(self: NodeId, t: Table, w: WireEntry, from: NodeId, now: int): Table {
    match Usable(w)
    case None => t
    case Some(e) => AddRoute(self, t, e.destination, Route(from, e.cost + 1, from, now))
  }

  predicate LineWrites(self: NodeId, t: Table, w: WireEntry, from: NodeId) {
    Usable(w).Some? && Writes(self, t, Usable(w).value.destination, Usable(w).value.cost + 1, from)
  }

  /** What a line does to its destination's route: a cost that is missing counts as infinity, a line without
      a name or an integer cost, or about this node, is ignored. */
  lemma LineExactly(self: NodeId, t: Table, w: WireEntry, from: NodeId, now: int, dst: NodeId)
    ensures var after := Lookup(AfterLine(self, t, w, from, now), dst);
            var named := w.Fields? && w.destination == Some(dst) && dst.name != "" && dst != self;
            && (!named || w.cost.NotAnInteger? ==> after == Lookup(t, dst))
            && (named && w.cost.Missing? ==>
                  after == if dst in t && t[dst].learnedFrom == from then None else Lookup(t, dst))
            && (named && w.cost.Integer? && 0 <= w.cost.value < 15
                && (dst !in t || t[dst].learnedFrom == from || w.cost.value + 1 < t[dst].cost) ==>
                  after == Some(Route(from, w.cost.value + 1, from, now)))
  {
  }

  /** How many lines would be written to the table as it was. */
  function WrittenTo(self: NodeId, t: Table, entries: seq<Entry>, from: NodeId): nat {
    if entries == [] then 0
    else
      var e := entries[|entries| - 1];
      WrittenTo(self, t, entries[..|entries| - 1], from)
      + if Writes(self, t, e.destination, e.cost + 1, from) then 1 else 0
  }

  /** The learned count is the number of lines that are written, each judged against the table as it was. */
  lemma {:induction false} ChangesCountWrites(self: NodeId, t: Table, entries: seq<Entry>, from: NodeId, now: int)
    requires DistinctDestinations(entries) && forall i :: 0 <= i < |entries| ==> entries[i].destination.name != ""
    ensures Changes(self, t, entries, from, now) == WrittenTo(self, t, entries, from)
  {
    if entries != [] {
      var n := |entries| - 1;
      ChangesCountWrites(self, t, entries[..n], from, now);
      ApplyAllElsewhere(self, t, entries[..n], from, now, entries[n].destination);
      var after := ApplyAll(self, t, entries[..n], from, now);
      assert Lookup(after, entries[n].destination) == Lookup(t, entries[n].destination);
      hide ApplyAll, DistinctDestinations;
    }
  }

  lemma OneMoreLine(self: NodeId, t: Table, ws: seq<WireEntry>, i: nat, from: NodeId, now: int)
    requires i < |ws|
    ensures var before, after := UsableEntries(ws[..i]), UsableEntries(ws[..i + 1]);
            var t' := ApplyAll(self, t, before, from, now);
            && ApplyAll(self, t, after, from, now) == AfterLine(self, t', ws[i], from, now)
            && Changes(self, t, after, from, now)
               == Changes(self, t, before, from, now) + if LineWrites(self, t', ws[i], from) then 1 else 0
  {
    assert ws[..i + 1][..i] == ws[..i];
    var before, u := UsableEntries(ws[..i]), Usable(ws[i]);
    if u.Some? {
      assert (before + [u.value])[..|before|] == before;
    }
  }

  /** The table after an announcement payload from `from`. */
  function Learned(self: NodeId, mode: Mode, t: Table, p: Payload, from: NodeId, now: int): Table {
    if mode == Off || !p.Routes? then t else ApplyAll(self, t, UsableEntries(p.entries), from, now)
  }

  function Wire(entries: seq<Entry>): seq<WireEntry> {
    seq(|entries|, i requires 0 <= i < |entries| => Fields(Some(entries[i].destination), Integer(entries[i].cost)))
  }

  /** Serialising an announcement of named nodes and parsing it back loses nothing. */
  lemma {:induction false} WireRoundTrip(entries: seq<Entry>)
    requires forall i :: 0 <= i < |entries| ==> entries[i].destination.name != ""
    ensures UsableEntries(Wire(entries)) == entries
  {
    if entries != [] {
      var init := entries[..|entries| - 1];
      assert Wire(entries)[..|entries| - 1] == Wire(init);
      WireRoundTrip(init);
      assert entries == init + [entries[|entries| - 1]];
    }
  }

  // ----- Choosing the next hop -----

  predicate Closed(st: NodeState, peer: NodeId, now: int) {
    !Breaker.IsOpen(Breaker.StateOf(st.peers, peer), now, st.settings)
  }

  /** A connected destination is preferred to its route; a route counts only through a connected
      neighbour whose breaker is closed. */
  function RouteTo(st: NodeState, dst: NodeId, now: int): Option<NodeId> {
    if dst == st.id then None
    else if dst in st.clients && Closed(st, dst, now) then Some(dst)
    else if dst in st.table && Closed(st, st.table[dst].nextHop, now) && st.table[dst].nextHop in st.clients then
      Some(st.table[dst].nextHop)
    else None
  }

  /** The breakers after that choice: asking about one may close it. */
  function PeersAfterRoute(st: NodeState, dst: NodeId, now: int): Breaker.Peers {
    if dst == st.id then st.peers
    else
      var direct := if dst in st.clients then Breaker.PeersAsked(st.peers, dst, now, st.settings) else st.peers;
      if (dst in st.clients && Closed(st, dst, now)) || dst !in st.table then direct
      else Breaker.PeersAsked(direct, st.table[dst].nextHop, now, st.settings)
  }

  /** A peer that a frame can be handed to: connected, without a trip younger than the cooldown. */
  predicate Reaches(st: NodeState, hop: NodeId, now: int) {
    && hop in st.clients
    && (hop in st.peers && st.peers[hop].openedAt.Some? ==>
          now - st.peers[hop].openedAt.value > st.settings.cooldown)
  }

  /** Exactly which hop is chosen, in any state: never the node itself as a destination, never a hop behind
      an open breaker or without a connection, and the route only if the destination cannot be reached. */
  lemma RouteExactly(st: NodeState, dst: NodeId, now: int, hop: NodeId)
    ensures RouteTo(st, dst, now) == Some(hop)
       <==> && dst != st.id && Reaches(st, hop, now)
            && (hop == dst || (!Reaches(st, dst, now) && dst in st.table && st.table[dst].nextHop == hop))
  {
  }

  /** Looking for a route asks at most the destination's breaker and the next hop's, and changes no other;
      a breaker it closes had been open for longer than the cooldown. */
  lemma RouteAsksOnly(st: NodeState, dst: NodeId, now: int, p: NodeId)
    ensures var after := PeersAfterRoute(st, dst, now);
            && (p in after <==> p in st.peers)
            && (p in after && after[p] != st.peers[p] ==>
                  && after[p] == Breaker.PeerState([], None)
                  && st.peers[p].openedAt.Some? && now - st.peers[p].openedAt.value > st.settings.cooldown
                  && (p == dst || (dst in st.table && p == st.table[dst].nextHop)))
  {
  }

  /** The node once it has looked for a route to `dst`. */
  function Asked(st: NodeState, dst: NodeId, now: int): NodeState {
    st.(peers := PeersAfterRoute(st, dst, now))
  }

  /** The duplicate cache has no say in routing. */
  lemma RouteIgnoresLog(st: NodeState, log: Log, dst: NodeId, now: int)
    ensures RouteTo(st.(log := log), dst, now) == RouteTo(st, dst, now)
    ensures PeersAfterRoute(st.(log := log), dst, now) == PeersAfterRoute(st, dst, now)
  {
  }

  // ----- Relaying -----

  lemma RoutingIgnoresLog(st: NodeState, log: Log, f: FrameView, now: int, sendOk: bool)
    ensures var st' := st.(log := log);
            var o := Handed(st, f.source, f.destination, now, sendOk);
            && Handed(st', f.source, f.destination, now, sendOk) == o
            && (IsRouted(o) ==> PeersAfter(st', f, o, now) == PeersAfter(st, f, o, now))
  {
    RouteIgnoresLog(st, log, f.destination, now);
    RouteIgnoresLog(Asked(st, f.destination, now), log, f.source, now);
    hide RouteTo, PeersAfterRoute, Breaker.Failed, Breaker.StateOf;
  }

  predicate TooOld(f: FrameView, now: int) {
    f.timestamp.Some? && now - f.timestamp.value > FRESHNESS_WINDOW
  }

  /** A relay refuses a frame as too old if and only if it carries a timestamp more than a day back; the
      frame is then neither recorded nor changed, whatever its ttl, hops and destination. */
  lemma FreshnessExactly(st: NodeState, f: FrameView, now: int, sendOk: bool, stamp: Stamp)
    requires st.mode == Relay
    ensures var o := OutcomeOf(st, f, now, sendOk);
            && (o == Stale <==> f.timestamp.Some? && now - f.timestamp.value > 86400)
            && (o == Stale ==> NodeAfter(st, f, o, stamp, now) == st && FrameAfter(st, f, o) == f)
  {
  }

  predicate Seen(st: NodeState, f: FrameView) {
    Contains(Replay(st.log, st.limits), f.source, f.id)
  }

  /** Without a route to the destination, the unreachable notice goes to whatever reaches the source, by the
      same rule; looking for the destination first makes no difference to it. */
  lemma NoticeGoesBack(st: NodeState, f: FrameView, now: int, sendOk: bool, hop: NodeId)
    requires OutcomeOf(st, f, now, sendOk).NoRoute?
    ensures OutcomeOf(st, f, now, sendOk).notice == Some(hop)
       <==> && f.source != st.id && Reaches(st, hop, now)
            && (hop == f.source
                || (!Reaches(st, f.source, now) && f.source in st.table && st.table[f.source].nextHop == hop))
  {
    var asked := Asked(st, f.destination, now);
    RouteExactly(asked, f.source, now, hop);
    forall p ensures Reaches(asked, p, now) == Reaches(st, p, now) {
      RouteAsksOnly(st, f.destination, now, p);
    }
    hide RouteTo, PeersAfterRoute, Replay, Contains;
  }

  /** The frame as it leaves the node: one less to live, one more hop. */
  function Forwarded(st: NodeState, f: FrameView): FrameView {
    f.(ttl := f.ttl - 1, hops := f.hops + [st.id])
  }

  function OutcomeOf(st: NodeState, f: FrameView, now: int, sendOk: bool): Outcome {
    if st.mode != Relay then NotRelaying
    else if TooOld(f, now) then Stale
    else if Seen(st, f) then DuplicateDropped
    else if f.ttl <= 0 then TtlExpired
    else if st.id in f.hops then Loop
    else Handed(st, f.source, f.destination, now, sendOk)
  }

  /** What becomes of a frame once it looks for its next hop. */
  function Handed(st: NodeState, source: NodeId, destination: NodeId, now: int, sendOk: bool): Outcome {
    match RouteTo(st, destination, now)
    case None => NoRoute(RouteTo(Asked(st, destination, now), source, now))
    case Some(next) => if sendOk then Sent(next) else SendFailed(next)
  }

  /** The history after the call: an unseen frame is recorded even if it then goes nowhere. */
  function LogAfter(st: NodeState, f: FrameView, o: Outcome, stamp: Stamp): Log {
    if o.NotRelaying? || o.Stale? || o.DuplicateDropped? then st.log
    else st.log + [Event.Add(f.source, f.id, stamp)]
  }

  /** The breakers after the call: a send sets or clears the next hop's record; without a route, the way
      back to the source has been looked for as well. */
  function PeersAfter(st: NodeState, f: FrameView, o: Outcome, now: int): Breaker.Peers {
    var asked := PeersAfterRoute(st, f.destination, now);
    match o
    case Sent(next) => asked[next := Breaker.UNSET]
    case SendFailed(next) => asked[next := Breaker.Failed(Breaker.StateOf(asked, next), now, st.settings)]
    case NoRoute(_) => PeersAfterRoute(Asked(st, f.destination, now), f.source, now)
    case _ => st.peers
  }

  function NodeAfter(st: NodeState, f: FrameView, o: Outcome, stamp: Stamp, now: int): NodeState {
    st.(log := LogAfter(st, f, o, stamp), peers := PeersAfter(st, f, o, now))
  }

  function StampOf(transport: Option<string>, now: int): Stamp {
    if transport.Some? then Tagged(now, transport.value) else Plain(now)
  }

  function FrameAfter(st: NodeState, f: FrameView, o: Outcome): FrameView {
    if o.NoRoute? || o.Sent? || o.SendFailed? then Forwarded(st, f) else f
  }

  /** The frame got as far as a look for its next hop. */
  predicate IsRouted(o: Outcome) {
    o.NoRoute? || o.Sent? || o.SendFailed?
  }

  predicate EndsWith(logs: Breaker.Logs, peer: NodeId, e: Breaker.Event) {
    var log := Breaker.LogOf(logs, peer);
    log != [] && log[|log| - 1] == e
  }

  class Frame {
    const source: NodeId
    const destination: NodeId
    const id: MsgId
    const timestamp: Option<int>
    var ttl: int
    var hops: seq<NodeId>

    constructor (view: FrameView)
      ensures View() == view
    {
      source, destination, id, timestamp := view.source, view.destination, view.id, view.timestamp;
      ttl, hops := view.ttl, view.hops;
    }

    function View(): FrameView
      reads this
    {
      FrameView(source, destination, id, timestamp, ttl, hops)
    }
  }

  class MeshRouter {
    const nodeId: NodeId
    const mode: Mode
    const table: RoutingTable
    const dedup: DedupCache
    const breaker: Breaker.CircuitBreaker
    /** The peers with a live connection. */
    var clients: set<NodeId>
    /** The peers the daemon keeps a state for, and those of them known to relay. */
    var known: set<NodeId>
    var relayCapable: set<NodeId>

    constructor (nodeId: NodeId, mode: Mode, ttl: int, limits: Limits, settings: Breaker.Settings)
      ensures Valid() && fresh(table) && fresh(dedup) && fresh(breaker)
      ensures View() == NodeState(nodeId, mode, map[], {}, [], limits, map[], settings) && relayCapable == {}
    {
      this.nodeId := nodeId;
      this.mode := mode;
      table := new RoutingTable(nodeId, ttl);
      dedup := new DedupCache(limits);
      breaker := new Breaker.CircuitBreaker(settings);
      clients, known, relayCapable := {}, {}, {};
    }

    ghost predicate Valid()
      reads this, table, dedup, breaker
    {
      table.myNodeId == nodeId && dedup.Valid() && breaker.Valid()
    }

    ghost function View(): NodeState
      reads this, table, dedup, breaker
    {
      NodeState(nodeId, mode, table.routes, clients, dedup.log, dedup.limits, breaker.state, breaker.settings)
    }

    /** Processes one line of an announcement. */
    method LearnLine(w: WireEntry, peer: NodeId, now: int) returns (changed: bool)
      requires Valid()
      modifies table
      ensures Valid() && table.routes == AfterLine(nodeId, old(table.routes), w, peer, now)
      ensures changed == LineWrites(nodeId, old(table.routes), w, peer)
    {
      if w.Junk? || w.cost.NotAnInteger? || w.destination.None? || w.destination.value.name == "" {
        return false;
      }
      var dst := w.destination.value;
      var cost := if w.cost.Missing? then INFINITY_COST else w.cost.value;
      if dst == nodeId {
        return false;
      }
      changed := table.Add(dst, peer, cost + 1, peer, now);
    }

    /** Processes an announcement payload from a directly connected peer. */
    method HandleRouteAnnounce(peer: NodeId, payload: Payload, now: int) returns (learned: nat)
      requires Valid()
      modifies table, this`relayCapable
      ensures Valid() && table.routes == Learned(nodeId, mode, old(table.routes), payload, peer, now)
      ensures relayCapable == old(relayCapable) + if mode != Off && payload.Routes? then {peer} * known else {}
      ensures mode == Off || !payload.Routes? ==> table.routes == old(table.routes)
      ensures learned == if mode == Off || !payload.Routes? then 0
                         else Changes(nodeId, old(table.routes), UsableEntries(payload.entries), peer, now)
    {
      learned := 0;
      if mode == Off || !payload.Routes? {
        return;
      }
      if peer in known {
        relayCapable := relayCapable + {peer};
      }
      var ws := payload.entries;
      NoOffers(nodeId, table.routes, peer, now);
      ghost var t := table.routes;
      assert UsableEntries(ws[..0]) == [];
      hide ApplyAll, Changes, UsableEntries, AfterLine, LineWrites;
      for i := 0 to |ws|
        invariant Valid() && relayCapable == old(relayCapable) + {peer} * known
        invariant learned == Changes(nodeId, t, UsableEntries(ws[..i]), peer, now)
        invariant table.routes == ApplyAll(nodeId, t, UsableEntries(ws[..i]), peer, now)
      {
        OneMoreLine(nodeId, t, ws, i, peer, now);
        var changed := LearnLine(ws[i], peer, now);
        if changed {
          learned := learned + 1;
        }
      }
      assert ws[..|ws|] == ws;
    }

    /** The next hop for `dst`, or nothing if it is unreachable or behind an open breaker. */
    method GetRoute(dst: NodeId, now: int) returns (hop: Option<NodeId>)
      requires Valid()
      modifies breaker
      ensures Valid() && hop == RouteTo(old(View()), dst, now)
      ensures breaker.state == PeersAfterRoute(old(View()), dst, now)
      ensures dst != nodeId && dst in clients ==> EndsWith(breaker.logs, dst, Breaker.Ask(now))
      ensures dst != nodeId && hop != Some(dst) && dst in table.routes ==>
                EndsWith(breaker.logs, table.routes[dst].nextHop, Breaker.Ask(now))
    {
      hide Breaker.Agree, Breaker.TrippedAt, Breaker.TimesOf, Breaker.Sorted;
      if dst == nodeId {
        return None;
      }
      if dst in clients {
        var open := breaker.Open(dst, now);
        if !open {
          return Some(dst);
        }
      }
      if dst !in table.routes {
        return None;
      }
      var next := table.routes[dst].nextHop;
      var open := breaker.Open(next, now);
      if open || next !in clients {
        return None;
      }
      return Some(next);
    }

    /** Test-and-add in the duplicate cache, with the transport if it is known. */
    method SeenBefore(source: NodeId, id: MsgId, transport: Option<string>, now: int) returns (duplicate: bool)
      requires Valid()
      modifies dedup
      ensures Valid() && duplicate == Contains(Replay(old(dedup.log), dedup.limits), source, id)
      ensures dedup.log == if duplicate then old(dedup.log)
                           else old(dedup.log) + [Event.Add(source, id, StampOf(transport, now))]
      ensures !duplicate && transport.Some? ==>
                dedup.log == old(dedup.log) + [Event.Add(source, id, Tagged(now, transport.value))]
      ensures !duplicate && transport.None? ==>
                dedup.log == old(dedup.log) + [Event.Add(source, id, Plain(now))]
    {
      if transport.Some? {
        var r := dedup.CheckAndAddWithTransport(source, id, transport.value, now);
        return r.Duplicate?;
      } else {
        duplicate := dedup.CheckAndAdd(source, id, now);
      }
    }

    /** Forwards a frame that is not for this node. `sendOk` is what the connection reports. */
    method RelayMessage(frame: Frame, transport: Option<string>, now: int, sendOk: bool) returns (o: Outcome)
      requires Valid()
      modifies frame, dedup, breaker
      ensures Valid()
      ensures o == OutcomeOf(old(View()), old(frame.View()), now, sendOk)
      ensures frame.View() == FrameAfter(old(View()), old(frame.View()), o)
      ensures View() == NodeAfter(old(View()), old(frame.View()), o, StampOf(transport, now), now)
      ensures o.NotRelaying? <==> mode != Relay
      ensures o.Stale? <==> mode == Relay && frame.timestamp.Some? && now - frame.timestamp.value > 86400
      ensures o.DuplicateDropped? <==>
                !o.NotRelaying? && !o.Stale? && Contains(old(dedup.sources), frame.source, frame.id)
      ensures o.TtlExpired? <==>
                !o.NotRelaying? && !o.Stale? && !o.DuplicateDropped? && old(frame.ttl) <= 0
      ensures o.Loop? <==>
                !o.NotRelaying? && !o.Stale? && !o.DuplicateDropped? && !o.TtlExpired? && nodeId in old(frame.hops)
      ensures frame.ttl == old(frame.ttl) - if IsRouted(o) then 1 else 0
      ensures frame.hops == old(frame.hops) + if IsRouted(o) then [nodeId] else []
      ensures dedup.log == old(dedup.log) + if o.NotRelaying? || o.Stale? || o.DuplicateDropped? then []
                                            else [Event.Add(frame.source, frame.id, StampOf(transport, now))]
      ensures o.Sent? ==> sendOk && EndsWith(breaker.logs, o.next, Breaker.Success)
      ensures o.SendFailed? ==> !sendOk && EndsWith(breaker.logs, o.next, Breaker.Failure(now))
      ensures !IsRouted(o) ==> breaker.logs == old(breaker.logs)
      ensures o.NoRoute? && frame.source != nodeId && frame.source in clients ==>
                EndsWith(breaker.logs, frame.source, Breaker.Ask(now))
    {
      hide Replay, Contains, RouteTo, PeersAfterRoute, Breaker.Failed, Breaker.StateOf, StampOf;
      hide Breaker.Agree, Breaker.TrippedAt, Breaker.TimesOf, Breaker.Sorted;
      if mode != Relay {
        return NotRelaying;
      }
      if frame.timestamp.Some? && now - frame.timestamp.value > FRESHNESS_WINDOW {
        return Stale;
      }
      var duplicate := SeenBefore(frame.source, frame.id, transport, now);
      if duplicate {
        return DuplicateDropped;
      }
      if frame.ttl <= 0 {
        return TtlExpired;
      }
      if nodeId in frame.hops {
        return Loop;
      }
      frame.ttl := frame.ttl - 1;
      frame.hops := frame.hops + [nodeId];
      assert View() == old(View()).(log := dedup.log);
      RoutingIgnoresLog(old(View()), dedup.log, frame.View(), now, sendOk);
      o := HandOn(frame, now, sendOk);
    }

    /** Looks for the next hop and hands the frame to it; without one, looks for the way back. */
    method HandOn(frame: Frame, now: int, sendOk: bool) returns (o: Outcome)
      requires Valid()
      modifies breaker
      ensures Valid() && IsRouted(o) && o == Handed(old(View()), frame.source, frame.destination, now, sendOk)
      ensures breaker.state == PeersAfter(old(View()), frame.View(), o, now)
      ensures o.Sent? ==> sendOk && EndsWith(breaker.logs, o.next, Breaker.Success)
      ensures o.SendFailed? ==> !sendOk && EndsWith(breaker.logs, o.next, Breaker.Failure(now))
      ensures o.NoRoute? && frame.source != nodeId && frame.source in clients ==>
                EndsWith(breaker.logs, frame.source, Breaker.Ask(now))
    {
      hide RouteTo, PeersAfterRoute, Breaker.Failed, Breaker.StateOf;
      hide Breaker.Agree, Breaker.TrippedAt, Breaker.TimesOf, Breaker.Sorted;
      var next := GetRoute(frame.destination, now);
      if next.None? {
        assert View() == Asked(old(View()), frame.destination, now);
        var notice := GetRoute(frame.source, now);
        return NoRoute(notice);
      }
      if sendOk {
        breaker.RecordSuccess(next.value);
        return Sent(next.value);
      }
      var tripped := breaker.RecordFailure(next.value, now);
      return SendFailed(next.value);
    }
  }
}
