/** End-to-end delivery over a converged mesh. */
module Delivery {
  import opened Graph
  import opened RoutingTables
  import opened Dedup
  import opened Router
  import Breaker
  import opened MeshNetwork

  type World = map<NodeId, NodeState>

  /** How a frame's journey ended: at its destination, or at a node that did not pass it on. */
  datatype Journey = Arrived(frame: FrameView, relays: nat) | Lost(at: NodeId, why: Outcome, relays: nat)

  /** The journey of a frame that has reached `at` after `relays` relays, when every send works.
      `clock(i)` is the time of the relay that follows `i` others. */
  function Travel(w: World, at: NodeId, f: FrameView, clock: nat -> int, relays: nat): Journey
    requires at in w
    decreases if f.ttl <= 0 then 0 else f.ttl
  {
    if at == f.destination then Arrived(f, relays)
    else
      var o := OutcomeOf(w[at], f, clock(relays), true);
      if o.Sent? && o.next in w then
        Travel(w[at := NodeAfter(w[at], f, o, Plain(clock(relays)), clock(relays))], o.next,
               FrameAfter(w[at], f, o), clock, relays + 1)
      else Lost(at, o, relays)
  }

  /** `origin` sends: the frame goes, unchanged, to the next hop. */
  function Send(w: World, origin: NodeId, f: FrameView, clock: nat -> int): Option<Journey>
    requires origin in w
  {
    match RouteTo(w[origin], f.destination, clock(0))
    case None => None
    case Some(next) => if next in w then Some(Travel(w, next, f, clock, 0)) else None
  }

  /** Every node relays, is connected to exactly its neighbours, and has no tripped breaker. */
  ghost predicate Healthy(g: Topology, w: World) {
    && w.Keys == g.nodes
    && forall n :: n in g.nodes ==>
         && w[n].id == n && w[n].mode == Relay
         && (forall m :: m in w[n].clients <==> (n, m) in g.edges)
         && (forall m :: Breaker.StateOf(w[n].peers, m).openedAt.None?)
  }

  /** The frame carries no timestamp, or one at most a day back. */
  predicate IsRecent(f: FrameView, now: int) {
    f.timestamp.Some? ==> now - f.timestamp.value <= 86400
  }

  ghost function TablesOf(w: World): map<NodeId, Table> {
    map n | n in w :: w[n].table
  }

  ghost predicate UnseenWithin(g: Topology, w: World, f: FrameView, k: nat) {
    forall n, d: nat :: n in w && d <= k && Distance(g, n, f.destination, d) ==>
      !Contains(Replay(w[n].log, w[n].limits), f.source, f.id)
  }

  /** Consecutive nodes are neighbours, and the last is a neighbour of `dst`. */
  ghost predicate PathTo(g: Topology, p: seq<NodeId>, dst: NodeId) {
    && p != []
    && (forall i :: 0 <= i < |p| - 1 ==> (p[i], p[i + 1]) in g.edges)
    && (p[|p| - 1], dst) in g.edges
  }

  /** In a converged mesh the next hop is a connected neighbour one hop closer. */
  lemma NextHopIsCloser(g: Topology, w: World, n: NodeId, dst: NodeId, k: nat, d: nat, now: int)
    requires g.Valid() && Healthy(g, w) && n in g.nodes
    requires SoundTables(g, TablesOf(w)) && Converged(g, TablesOf(w), k)
    requires 1 <= d <= k && d < INFINITY_COST && Distance(g, n, dst, d)
    ensures RouteTo(w[n], dst, now).Some?
    ensures var next := RouteTo(w[n], dst, now).value;
            (n, next) in g.edges && next in w && Distance(g, next, dst, d - 1)
  {
    assert Shortest(g, TablesOf(w), n, dst, d);
    assert SoundRoute(g, n, dst, w[n].table[dst]);
    if dst == n {
      BeingThere(g, n, d);
    }
    if (n, dst) in g.edges {
      NeighbourIsOneAway(g, n, dst, d);
    }
    hide Walk, Distance;
  }

  lemma NeighbourIsOneAway(g: Topology, n: NodeId, dst: NodeId, d: nat)
    requires g.Valid() && (n, dst) in g.edges && Distance(g, n, dst, d) && d >= 1
    ensures d == 1 && Distance(g, dst, dst, 0)
  {
    assert Walk(g, dst, dst, 0);
    WalkStep(g, n, dst, dst, 0);
    DistanceIsLeast(g, n, dst, d, 1);
    CloserByOne(g, n, dst, dst, d);
  }

  /** No breaker is tripped by asking, or by a send that works. */
  lemma NoTrip(st: NodeState, f: FrameView, o: Outcome, now: int, m: NodeId)
    requires forall p :: Breaker.StateOf(st.peers, p).openedAt.None?
    requires o.Sent?
    ensures Breaker.StateOf(PeersAfter(st, f, o, now), m).openedAt.None?
  {
    forall p
      ensures p in st.peers ==> Breaker.Apply(st.peers[p], Breaker.Ask(now), st.settings) == st.peers[p]
    {
      assert Breaker.StateOf(st.peers, p).openedAt.None?;
    }
    assert forall p :: Breaker.PeersAsked(st.peers, p, now, st.settings) == st.peers;
    assert Breaker.StateOf(st.peers, m).openedAt.None?;
  }

  /** The state one relay leaves behind is as healthy as before. */
  lemma RelayKeepsHealthy(g: Topology, w: World, n: NodeId, f: FrameView, o: Outcome, now: int)
    requires Healthy(g, w) && n in g.nodes && o.Sent?
    ensures Healthy(g, w[n := NodeAfter(w[n], f, o, Plain(now), now)])
    ensures TablesOf(w[n := NodeAfter(w[n], f, o, Plain(now), now)]) == TablesOf(w)
  {
    forall m
      ensures Breaker.StateOf(NodeAfter(w[n], f, o, Plain(now), now).peers, m).openedAt.None?
    {
      NoTrip(w[n], f, o, now, m);
    }
  }

  /** One relay of an unseen frame at a node `d` hops from its destination. */
  lemma OneRelay(g: Topology, w: World, at: NodeId, f: FrameView, now: int, k: nat, d: nat)
    requires g.Valid() && Healthy(g, w) && at in g.nodes
    requires SoundTables(g, TablesOf(w)) && Converged(g, TablesOf(w), k)
    requires 1 <= d <= k && d < INFINITY_COST && Distance(g, at, f.destination, d)
    requires UnseenWithin(g, w, f, d) && IsRecent(f, now)
    requires f.ttl >= 0 && forall h, e: nat :: h in f.hops && Distance(g, h, f.destination, e) ==> e > d
    ensures at != f.destination
    ensures var o := OutcomeOf(w[at], f, now, true);
            && (f.ttl == 0 ==> o == TtlExpired)
            && (f.ttl > 0 ==>
                  o.Sent? && (at, o.next) in g.edges && o.next in w && Distance(g, o.next, f.destination, d - 1))
  {
    if at == f.destination {
      BeingThere(g, at, d);
    }
    assert !Contains(Replay(w[at].log, w[at].limits), f.source, f.id);
    assert at !in f.hops;
    assert w[at].mode == Relay && w[at].id == at;
    NextHopIsCloser(g, w, at, f.destination, k, d, now);
    hide Healthy, Walk, Distance, SoundTables, Converged, RouteTo, UnseenWithin, Contains, Replay, OutcomeOf;
    ClearToRelay(w[at], f, now);
  }

  /** A recent, unseen frame whose hop list does not name the node. */
  lemma ClearToRelay(st: NodeState, f: FrameView, now: int)
    requires st.mode == Relay && IsRecent(f, now) && st.id !in f.hops
    requires !Contains(Replay(st.log, st.limits), f.source, f.id)
    ensures var o := OutcomeOf(st, f, now, true);
            && (f.ttl <= 0 ==> o == TtlExpired)
            && (f.ttl > 0 && RouteTo(st, f.destination, now).Some? ==>
                  o == Sent(RouteTo(st, f.destination, now).value))
  {
  }

  ghost predicate Home(g: Topology, j: Journey, at: NodeId, f: FrameView, relays: nat, d: nat) {
    && (d <= f.ttl ==>
          && j.Arrived? && j.relays == relays + d && j.frame.ttl == f.ttl - d
          && f.hops <= j.frame.hops
          && |j.frame.hops| == |f.hops| + d
          && (d > 0 ==> j.frame.hops[|f.hops|] == at && PathTo(g, j.frame.hops[|f.hops|..], f.destination)))
    && (d > f.ttl ==> j.Lost? && j.why == TtlExpired && j.relays == relays + f.ttl)
  }

  lemma HomeOneHopEarlier(g: Topology, j: Journey, at: NodeId, f: FrameView, next: NodeId, f': FrameView, relays: nat,
                          d: nat)
    requires d > 0 && f.ttl > 0 && Home(g, j, next, f', relays + 1, d - 1) && (at, next) in g.edges
    requires f' == f.(ttl := f.ttl - 1, hops := f.hops + [at])
    requires d == 1 ==> next == f.destination
    ensures Home(g, j, at, f, relays, d)
  {
    if d <= f.ttl {
      PathGrows(g, f, f', j.frame.hops, at, next, d);
    }
  }

  /** The heart of delivery: a fresh frame at a relay `d` hops from its destination gets there if
      and only if it may still be relayed `d` times; it then takes exactly `d` relays, along a
      shortest path, each of whose nodes has signed the hop list. */
  lemma {:induction false} RelayedHome(g: Topology, w: World, at: NodeId, f: FrameView, clock: nat -> int, relays: nat,
                                       k: nat, d: nat)
    requires g.Valid() && Healthy(g, w) && at in g.nodes && at in w
    requires SoundTables(g, TablesOf(w)) && Converged(g, TablesOf(w), k)
    requires d <= k && d < INFINITY_COST && Distance(g, at, f.destination, d)
    requires UnseenWithin(g, w, f, d) && forall i :: IsRecent(f, clock(i))
    requires f.ttl >= 0 && forall h, e: nat :: h in f.hops && Distance(g, h, f.destination, e) ==> e > d
    ensures Home(g, Travel(w, at, f, clock, relays), at, f, relays, d)
    decreases d
  {
    hide Walk, Healthy, SoundTables, Converged, UnseenWithin, NodeAfter, OutcomeOf;
    if d == 0 {
      DistanceZero(g, at, f.destination);
    } else {
      var now := clock(relays);
      assert IsRecent(f, now);
      OneRelay(g, w, at, f, now, k, d);
      var o := OutcomeOf(w[at], f, now, true);
      if f.ttl > 0 {
        var w' := w[at := NodeAfter(w[at], f, o, Plain(now), now)];
        var f' := FrameAfter(w[at], f, o);
        HealthyIds(g, w, at);
        RelayKeepsHealthy(g, w, at, f, o, now);
        HopFurtherAway(g, at, f, f', d);
        StillUnseen(g, w, w', at, f, f', d);
        SameAge(f, f', clock);
        KnownNodes(g, w, o.next);
        RelayedHome(g, w', o.next, f', clock, relays + 1, k, d - 1);
        if d == 1 {
          DistanceZero(g, o.next, f.destination);
        }
        HomeOneHopEarlier(g, Travel(w', o.next, f', clock, relays + 1), at, f, o.next, f', relays, d);
      }
    }
  }

  lemma HealthyIds(g: Topology, w: World, n: NodeId)
    requires Healthy(g, w) && n in w
    ensures w[n].id == n
  {
  }

  lemma KnownNodes(g: Topology, w: World, n: NodeId)
    requires Healthy(g, w) && n in w
    ensures n in g.nodes
  {
  }

  lemma SameAge(f: FrameView, f': FrameView, clock: nat -> int)
    requires f'.timestamp == f.timestamp && forall i :: IsRecent(f, clock(i))
    ensures forall i :: IsRecent(f', clock(i))
  {
    forall i: nat
      ensures IsRecent(f', clock(i))
    {
      assert IsRecent(f, clock(i));
    }
  }

  lemma HopFurtherAway(g: Topology, at: NodeId, f: FrameView, f': FrameView, d: nat)
    requires d > 0 && Distance(g, at, f.destination, d) && f'.hops == f.hops + [at] && f'.destination == f.destination
    requires forall h, e: nat :: h in f.hops && Distance(g, h, f.destination, e) ==> e > d
    ensures forall h, e: nat :: h in f'.hops && Distance(g, h, f'.destination, e) ==> e > d - 1
  {
  }

  lemma StillUnseen(g: Topology, w: World, w': World, at: NodeId, f: FrameView, f': FrameView, d: nat)
    requires d > 0 && at in w && at in w' && Distance(g, at, f.destination, d) && UnseenWithin(g, w, f, d)
    requires w' == w[at := w'[at]] && f' == f.(ttl := f'.ttl, hops := f'.hops)
    ensures UnseenWithin(g, w', f', d - 1)
  {
    forall n, e: nat | n in w' && e <= d - 1 && Distance(g, n, f'.destination, e)
      ensures !Contains(Replay(w'[n].log, w'[n].limits), f'.source, f'.id)
    {
      assert n != at;
      assert !Contains(Replay(w[n].log, w[n].limits), f.source, f.id);
    }
  }

  lemma PathGrows(g: Topology, f: FrameView, f': FrameView, hops: seq<NodeId>, at: NodeId, next: NodeId, d: nat)
    requires d > 0 && f'.hops == f.hops + [at] && f'.destination == f.destination && (at, next) in g.edges
    requires f'.hops <= hops && |hops| == |f'.hops| + d - 1
    requires d - 1 > 0 ==> hops[|f'.hops|] == next && PathTo(g, hops[|f'.hops|..], f.destination)
    requires d - 1 == 0 ==> next == f.destination
    ensures f.hops <= hops && hops[|f.hops|] == at && PathTo(g, hops[|f.hops|..], f.destination)
  {
    var tail := hops[|f'.hops|..];
    assert hops[|f.hops|..] == [at] + tail;
  }

  /** End-to-end delivery: in a converged, healthy mesh, a frame nobody has seen, sent with time
      to live `ttl` to a destination `d` hops away, arrives if and only if `d <= ttl + 1`; then
      after exactly `d - 1` relays, its hop list being the interior of a shortest path. Otherwise
      it dies of old age after `ttl` relays. */
  lemma EndToEndDelivery(g: Topology, w: World, origin: NodeId, f: FrameView, clock: nat -> int, k: nat, d: nat)
    requires g.Valid() && Healthy(g, w) && origin in g.nodes
    requires SoundTables(g, TablesOf(w)) && Converged(g, TablesOf(w), k)
    requires 1 <= d <= k && d < INFINITY_COST && Distance(g, origin, f.destination, d)
    requires UnseenWithin(g, w, f, d - 1) && (forall i :: IsRecent(f, clock(i)))
    requires f.ttl >= 0 && f.hops == []
    ensures var r := Send(w, origin, f, clock);
            && r.Some?
            && (d <= f.ttl + 1 <==> r.value.Arrived?)
            && (r.value.Arrived? ==>
                  && r.value.relays == d - 1 == |r.value.frame.hops|
                  && r.value.frame.ttl == f.ttl - (d - 1)
                  && PathTo(g, [origin] + r.value.frame.hops, f.destination))
            && (r.value.Lost? ==> r.value.why == TtlExpired && r.value.relays == f.ttl)
  {
    hide Walk, RouteTo, OutcomeOf, Travel, SoundTables, Converged;
    NextHopIsCloser(g, w, origin, f.destination, k, d, clock(0));
    var next := RouteTo(w[origin], f.destination, clock(0)).value;
    RelayedHome(g, w, next, f, clock, 0, k, d - 1);
    var j := Travel(w, next, f, clock, 0);
    if j.Arrived? {
      assert j.frame.hops[0..] == j.frame.hops;
      if d == 1 {
        DistanceZero(g, next, f.destination);
      }
    }
  }

  /** The same from empty tables: `d` rounds of announcements are enough. */
  lemma DeliveryAfterRounds(g: Topology, rounds: seq<seq<MeshNetwork.Event>>, later: seq<MeshNetwork.Event>, w: World,
                            origin: NodeId, f: FrameView, clock: nat -> int, d: nat)
    requires g.Valid() && AreRounds(g, Initial(g), rounds)
    requires IsOrderlyRun(g, AfterRounds(g, Initial(g), rounds), later)
    requires Healthy(g, w) && TablesOf(w) == Final(g, AfterRounds(g, Initial(g), rounds), later).tables
    requires origin in g.nodes && 1 <= d <= 15 && d <= |rounds| && Distance(g, origin, f.destination, d)
    requires UnseenWithin(g, w, f, d - 1) && (forall i :: IsRecent(f, clock(i)))
    requires f.ttl >= 0 && f.hops == []
    ensures Send(w, origin, f, clock).Some?
    ensures Send(w, origin, f, clock).value.Arrived? <==> d <= f.ttl + 1
  {
    hide Walk, IsRun, AreRounds, AfterRounds, Final, Initial, IsOrderlyRun;
    Convergence(g, rounds, later);
    EndToEndDelivery(g, w, origin, f, clock, |rounds|, d);
  }
}
