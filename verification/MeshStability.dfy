/** What can spoil converged tables, exactly, over channels that also duplicate, delay and reorder. */
module MeshStability {
  import opened Graph
  import opened RoutingTables
  import opened MeshNetwork

  /** `b` has its shortest route to `dst`, `d` hops away, from `a`, and `a` now tells it a cost other
      than its distance: an old announcement, or one about a table of its own that was spoiled. */
  ghost predicate Misleads(g: Topology, tables: map<NodeId, Table>, k: nat, a: NodeId, b: NodeId, entries: seq<Entry>,
                           dst: NodeId, d: nat) {
    && 1 <= d <= k && d < INFINITY_COST && Distance(g, b, dst, d)
    && b in tables && dst in tables[b] && tables[b][dst].learnedFrom == a
    && exists i :: 0 <= i < |entries| && entries[i].destination == dst && entries[i].cost != d - 1
  }

  /** At one destination: a shortest route survives an announcement exactly when it does not mislead. */
  lemma SurvivesExactly(g: Topology, tables: map<NodeId, Table>, k: nat, a: NodeId, b: NodeId, entries: seq<Entry>,
                        now: int, dst: NodeId, d: nat)
    requires g.Valid() && SoundTables(g, tables) && (a, b) in g.edges && b in g.nodes && SoundEntries(g, a, entries)
    requires 1 <= d <= k && d < INFINITY_COST && Distance(g, b, dst, d) && Shortest(g, tables, b, dst, d)
    ensures Shortest(g, tables[b := ApplyAll(b, tables[b], entries, a, now)], b, dst, d)
       <==> !Misleads(g, tables, k, a, b, entries, dst, d)
  {
    hide Walk;
    var t := tables[b];
    assert SoundRoute(g, b, dst, t[dst]);
    if i :| 0 <= i < |entries| && entries[i].destination == dst {
      ApplyAllAt(b, t, entries, a, now, i);
      if t[dst].learnedFrom != a && entries[i].cost < INFINITY_COST {
        WalkStep(g, b, a, dst, entries[i].cost);
        DistanceIsLeast(g, b, dst, d, entries[i].cost + 1);
      }
    } else {
      ApplyAllElsewhere(b, t, entries, a, now, dst);
    }
  }

  /** One delivery, of any announcement, however old: the tables stay converged if and only if it
      misleads its receiver at no destination. */
  lemma DeliveryKeepsConvergedExactly(g: Topology, tables: map<NodeId, Table>, k: nat, a: NodeId, b: NodeId,
                                      entries: seq<Entry>, now: int)
    requires g.Valid() && SoundTables(g, tables) && tables.Keys == g.nodes && (a, b) in g.edges
    requires SoundEntries(g, a, entries) && Converged(g, tables, k)
    ensures Converged(g, tables[b := ApplyAll(b, tables[b], entries, a, now)], k)
       <==> forall dst, d: nat :: !Misleads(g, tables, k, a, b, entries, dst, d)
  {
    hide Walk, ApplyAll, Distance, SoundEntries, SoundTables;
    var tables' := tables[b := ApplyAll(b, tables[b], entries, a, now)];
    if dst, d: nat :| Misleads(g, tables, k, a, b, entries, dst, d) {
      SurvivesExactly(g, tables, k, a, b, entries, now, dst, d);
    } else {
      forall n, dst, d: nat | n in g.nodes && 1 <= d <= k && d < INFINITY_COST && Distance(g, n, dst, d)
        ensures Shortest(g, tables', n, dst, d)
      {
        assert Shortest(g, tables, n, dst, d);
        if n == b {
          SurvivesExactly(g, tables, k, a, b, entries, now, dst, d);
        }
      }
    }
  }

  /** An expiry drops the shortest route to a destination within the radius. */
  ghost predicate Drops(g: Topology, tables: map<NodeId, Table>, k: nat, n: NodeId, ttl: int, time: int) {
    exists dst, d: nat ::
      && 1 <= d <= k && d < INFINITY_COST && Distance(g, n, dst, d)
      && n in tables && dst in tables[n] && time - tables[n][dst].updated > ttl
  }

  lemma ExpiryKeepsConvergedExactly(g: Topology, tables: map<NodeId, Table>, k: nat, n: NodeId, ttl: int, time: int)
    requires n in tables && n in g.nodes && Converged(g, tables, k)
    ensures Converged(g, tables[n := Unexpired(tables[n], ttl, time)], k) <==> !Drops(g, tables, k, n, ttl, time)
  {
    hide Distance;
    var tables' := tables[n := Unexpired(tables[n], ttl, time)];
    forall m, dst, d: nat | m in g.nodes && 1 <= d <= k && d < INFINITY_COST && Distance(g, m, dst, d)
      ensures Shortest(g, tables', m, dst, d) <==> m != n || time - tables[n][dst].updated <= ttl
      ensures dst in tables[m]
    {
      assert Shortest(g, tables, m, dst, d);
    }
  }

  ghost predicate Keeps(g: Topology, k: nat, s: Net, e: Event)
    requires WellFormed(g, s) && Enabled(g, s, e)
  {
    match e
    case Deliver(a, b, i, _, _) =>
      forall dst, d: nat :: !Misleads(g, s.tables, k, a, b, s.queues[(a, b)][i].entries, dst, d)
    case Expire(n, ttl, time) => !Drops(g, s.tables, k, n, ttl, time)
    case _ => true
  }

  /** Nothing misleads when it is delivered, and no route within the radius expires. */
  ghost predicate AllKeep(g: Topology, k: nat, s: Net, evs: seq<Event>)
    requires WellFormed(g, s) && IsRun(g, s, evs)
    decreases |evs|
  {
    evs == [] || (Keeps(g, k, s, evs[0]) && AllKeep(g, k, Next(g, s, evs[0]), evs[1..]))
  }

  ghost predicate AlwaysConverged(g: Topology, k: nat, s: Net, evs: seq<Event>)
    requires WellFormed(g, s) && IsRun(g, s, evs)
    decreases |evs|
  {
    Converged(g, s.tables, k) && (evs != [] ==> AlwaysConverged(g, k, Next(g, s, evs[0]), evs[1..]))
  }

  lemma ConvergedStep(g: Topology, k: nat, s: Net, e: Event)
    requires g.Valid() && Sound(g, s) && Converged(g, s.tables, k) && Enabled(g, s, e)
    ensures Converged(g, Next(g, s, e).tables, k) <==> Keeps(g, k, s, e)
  {
    hide Walk, Converged, SoundRoute, Misleads, Drops, ApplyAll;
    match e
    case Deliver(a, b, i, _, now) =>
      var entries := s.queues[(a, b)][i].entries;
      assert SoundEntries(g, a, entries);
      DeliveryKeepsConvergedExactly(g, s.tables, k, a, b, entries, now);
    case Expire(n, ttl, time) => ExpiryKeepsConvergedExactly(g, s.tables, k, n, ttl, time);
    case _ =>
  }

  /** Stability, exactly: in every run in which announcements are lost, duplicated, delayed and reordered
      and routes expire, converged tables stay converged throughout if and only if no delivery misleads
      and no expiry drops a route within the radius. */
  lemma {:induction false} ConvergedExactly(g: Topology, k: nat, s: Net, evs: seq<Event>)
    requires g.Valid() && WellFormed(g, s) && Sound(g, s) && Converged(g, s.tables, k) && IsRun(g, s, evs)
    ensures AlwaysConverged(g, k, s, evs) <==> AllKeep(g, k, s, evs)
    decreases |evs|
  {
    hide Walk, Sound, Converged, Enabled, Keeps, WellFormed;
    if evs != [] {
      SoundStep(g, s, evs[0]);
      ConvergedStep(g, k, s, evs[0]);
      var s' := Next(g, s, evs[0]);
      if Converged(g, s'.tables, k) {
        ConvergedExactly(g, k, s', evs[1..]);
      }
    }
  }
}
