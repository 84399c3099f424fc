/** The distance-vector routing table: acceptance rule, expiry and announcements. */
module RoutingTables {
  import opened Graph

  /** RIP-style infinity. */
  const INFINITY_COST := 16

  datatype Route = Route(nextHop: NodeId, cost: int, learnedFrom: NodeId, updated: int)

  type Table = map<NodeId, Route>

  /** One line of a routing announcement. */
  datatype Entry = Entry(destination: NodeId, cost: int)

  function Lookup<K, V>(m: map<K, V>, k: K): Option<V> {
    if k in m then Some(m[k]) else None
  }

  function Store<K, V>(m: map<K, V>, k: K, v: Option<V>): map<K, V> {
    match v
    case None => m - {k}
    case Some(x) => m[k := x]
  }

  // ----- The acceptance rule -----

  /** What a node keeps for one destination after an offer for it: an offer at infinity only
      withdraws a route the same neighbour taught; a finite one replaces that neighbour's own
      route unconditionally, and another neighbour's only when strictly cheaper. */
  function Decide(existing: Option<Route>, offer: Route): Option<Route> {
    if offer.cost <= 0 || offer.cost >= INFINITY_COST then
      if existing.Some? && existing.value.learnedFrom == offer.learnedFrom then None else existing
    else if existing.None? || existing.value.learnedFrom == offer.learnedFrom || offer.cost < existing.value.cost then
      Some(offer)
    else
      existing
  }

  /** The table of `self` after an offer for `dst`. */
  function AddRoute(self: NodeId, t: Table, dst: NodeId, offer: Route): Table {
    if dst == self then t else Store(t, dst, Decide(Lookup(t, dst), offer))
  }

  /** An offer is written if it installs, refreshes or withdraws a route. */
  predicate Writes(self: NodeId, t: Table, dst: NodeId, cost: int, from: NodeId) {
    && dst != self
    && var taught := dst in t && t[dst].learnedFrom == from;
       taught || (0 < cost < INFINITY_COST && (dst !in t || cost < t[dst].cost))
  }

  /** The table of `self` after every entry of an announcement that arrived from `from`. */
  function ApplyAll(self: NodeId, t: Table, entries: seq<Entry>, from: NodeId, now: int): Table {
    if entries == [] then t
    else
      var e := entries[|entries| - 1];
      var before := ApplyAll(self, t, entries[..|entries| - 1], from, now);
      if e.destination.name == "" then before
      else AddRoute(self, before, e.destination, Route(from, e.cost + 1, from, now))
  }

  /** The routes that are not older than `ttl` at time `now`. */
  function Unexpired(t: Table, ttl: int, now: int): Table {
    map dst | dst in t && now - t[dst].updated <= ttl :: t[dst]
  }

  // ----- Announcements -----

  /** The cost at which a route is advertised to `peer`: poisoned if `peer` taught it. */
  function Advertised(r: Route, peer: Option<NodeId>): int {
    if peer == Some(r.learnedFrom) then INFINITY_COST else r.cost
  }

  /** `out` is an announcement of `t` for `peer`: the own node at cost 0, then every route
      except the one to `peer` itself, once each, in some order. */
  ghost predicate IsAnnouncement(self: NodeId, t: Table, peer: Option<NodeId>, out: seq<Entry>) {
    && |out| >= 1 && out[0] == Entry(self, 0)
    && (forall i :: 1 <= i < |out| ==>
          && out[i].destination in t
          && peer != Some(out[i].destination)
          && out[i].cost == Advertised(t[out[i].destination], peer))
    && (forall i, j :: 1 <= i < j < |out| ==> out[i].destination != out[j].destination)
    && (forall dst :: dst in t && peer != Some(dst) ==>
          exists i :: 1 <= i < |out| && out[i].destination == dst)
  }

  ghost predicate DistinctDestinations(entries: seq<Entry>) {
    forall i, j :: 0 <= i < j < |entries| ==> entries[i].destination != entries[j].destination
  }

  /** An announcement names each destination once. */
  lemma AnnouncementIsDistinct(self: NodeId, t: Table, peer: Option<NodeId>, out: seq<Entry>)
    requires self !in t && IsAnnouncement(self, t, peer, out)
    ensures DistinctDestinations(out)
  {
    forall i, j | 0 <= i < j < |out|
      ensures out[i].destination != out[j].destination
    {
      assert out[j].destination in t;
    }
  }

  /** A destination that no entry names keeps its route. */
  lemma {:induction false} ApplyAllElsewhere(self: NodeId, t: Table, entries: seq<Entry>, from: NodeId, now: int,
                                             dst: NodeId)
    requires forall i :: 0 <= i < |entries| ==> entries[i].destination != dst
    ensures Lookup(ApplyAll(self, t, entries, from, now), dst) == Lookup(t, dst)
  {
    if entries != [] {
      ApplyAllElsewhere(self, t, entries[..|entries| - 1], from, now, dst);
    }
  }

  /** A destination named exactly once is decided by that entry alone, whatever the order. */
  lemma {:induction false} ApplyAllAt(self: NodeId, t: Table, entries: seq<Entry>, from: NodeId, now: int, i: nat)
    requires i < |entries| && DistinctDestinations(entries)
    requires entries[i].destination != self && entries[i].destination.name != ""
    ensures Lookup(ApplyAll(self, t, entries, from, now), entries[i].destination)
         == Decide(Lookup(t, entries[i].destination), Route(from, entries[i].cost + 1, from, now))
  {
    var n := |entries| - 1;
    var init := entries[..n];
    if i == n {
      ApplyAllElsewhere(self, t, init, from, now, entries[i].destination);
    } else {
      assert entries[i].destination != entries[n].destination;
      ApplyAllAt(self, t, init, from, now, i);
    }
  }

  /** A node never installs a route to itself. */
  lemma {:induction false} ApplyAllKeepsSelfOut(self: NodeId, t: Table, entries: seq<Entry>, from: NodeId, now: int)
    requires self !in t
    ensures self !in ApplyAll(self, t, entries, from, now)
  {
    if entries != [] {
      ApplyAllKeepsSelfOut(self, t, entries[..|entries| - 1], from, now);
    }
  }

  // ----- The mutable table -----

  class RoutingTable {
    const myNodeId: NodeId
    const ttl: int
    var routes: Table

    constructor (myNodeId: NodeId, ttl: int)
      ensures this.myNodeId == myNodeId && this.ttl == ttl && routes == map[]
    {
      this.myNodeId := myNodeId;
      this.ttl := ttl;
      routes := map[];
    }

    /** Installs, refreshes or withdraws one route; `changed` reports a write. */
    method Add(dst: NodeId, nextHop: NodeId, cost: int, learnedFrom: NodeId, now: int) returns (changed: bool)
      modifies this
      ensures routes == AddRoute(myNodeId, old(routes), dst, Route(nextHop, cost, learnedFrom, now))
      ensures !changed ==> routes == old(routes)
      ensures changed && 0 < cost < INFINITY_COST ==>
                dst in routes && routes[dst] == Route(nextHop, cost, learnedFrom, now)
      ensures changed && !(0 < cost < INFINITY_COST) ==> dst in old(routes) && dst !in routes
      ensures changed <==> Writes(myNodeId, old(routes), dst, cost, learnedFrom)
    {
      if dst == myNodeId {
        return false;
      }
      if cost <= 0 || cost >= INFINITY_COST {
        if dst in routes && routes[dst].learnedFrom == learnedFrom {
          routes := routes - {dst};
          return true;
        }
        return false;
      }
      if dst !in routes {
        routes := routes[dst := Route(nextHop, cost, learnedFrom, now)];
        return true;
      }
      var existing := routes[dst];
      if existing.learnedFrom == learnedFrom {
        routes := routes[dst := existing.(nextHop := nextHop, cost := cost, updated := now)];
        return true;
      }
      if cost < existing.cost {
        routes := routes[dst := Route(nextHop, cost, learnedFrom, now)];
        return true;
      }
      return false;
    }

    /** Removes every route older than the table's time-to-live and reports which. */
    method ExpireOld(now: int) returns (expired: set<NodeId>)
      modifies this
      ensures routes == Unexpired(old(routes), ttl, now)
      ensures expired == old(routes).Keys - routes.Keys
    {
      expired := set dst | dst in routes && now - routes[dst].updated > ttl;
      routes := routes - expired;
    }

    /** Builds the announcement for one neighbour, with split horizon and poisoned reverse. */
    method ToAnnouncement(excludePeer: Option<NodeId>) returns (out: seq<Entry>)
      ensures IsAnnouncement(myNodeId, routes, excludePeer, out)
      ensures |out| >= 1 && out[0] == Entry(myNodeId, 0)
      ensures forall dst :: dst in routes && excludePeer != Some(dst) ==>
                Entry(dst, if excludePeer == Some(routes[dst].learnedFrom) then 16 else routes[dst].cost) in out
      ensures forall i :: 1 <= i < |out| ==>
                out[i].destination in routes && excludePeer != Some(out[i].destination)
    {
      out := [Entry(myNodeId, 0)];
      var todo := routes.Keys;
      while todo != {}
        invariant todo <= routes.Keys
        invariant |out| >= 1 && out[0] == Entry(myNodeId, 0)
        invariant forall i :: 1 <= i < |out| ==>
                    && out[i].destination in routes && out[i].destination !in todo
                    && excludePeer != Some(out[i].destination)
                    && out[i].cost == Advertised(routes[out[i].destination], excludePeer)
        invariant forall i, j :: 1 <= i < j < |out| ==> out[i].destination != out[j].destination
        invariant forall dst :: dst in routes && dst !in todo && excludePeer != Some(dst) ==>
                    exists i :: 1 <= i < |out| && out[i].destination == dst
        decreases todo
      {
        var dst :| dst in todo;
        todo := todo - {dst};
        if excludePeer == Some(dst) {
          continue;
        }
        ghost var before := out;
        if excludePeer == Some(routes[dst].learnedFrom) {
          out := out + [Entry(dst, INFINITY_COST)];
        } else {
          out := out + [Entry(dst, routes[dst].cost)];
        }
        assert out[|before|].destination == dst;
        forall d | d in routes && d !in todo && excludePeer != Some(d)
          ensures exists i :: 1 <= i < |out| && out[i].destination == d
        {
          if d != dst {
            var i :| 1 <= i < |before| && before[i].destination == d;
            assert out[i].destination == d;
          }
        }
      }
    }
  }
}
