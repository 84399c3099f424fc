/** A network of distance-vector nodes that exchange announcements over queued channels:
    what every run keeps, and how fast the tables become shortest-path tables. */
module MeshNetwork {
  import opened Graph
  import opened RoutingTables

  /** An announcement in flight, stamped with the step at which it was built. */
  datatype Message = Message(entries: seq<Entry>, built: nat)

  datatype Net = Net(tables: map<NodeId, Table>, queues: map<Edge, seq<Message>>, steps: nat)

  /** One step. Channels may lose, duplicate, delay and reorder: `Deliver` takes the message at
      any position, and may leave it in place to be delivered again. */
  datatype Event =
    | Announce(src: NodeId, dst: NodeId, entries: seq<Entry>)
    | Deliver(src: NodeId, dst: NodeId, position: nat, keep: bool, now: int)
    | Lose(src: NodeId, dst: NodeId, position: nat)
    | Expire(node: NodeId, ttl: int, time: int)

  function Without<T>(s: seq<T>, i: nat): seq<T>
    requires i < |s|
  {
    s[..i] + s[i + 1..]
  }

  ghost predicate WellFormed(g: Topology, s: Net) {
    s.tables.Keys == g.nodes && s.queues.Keys == g.edges
  }

  ghost predicate Enabled(g: Topology, s: Net, e: Event)
    requires WellFormed(g, s)
  {
    match e
    case Announce(a, b, entries) =>
      (a, b) in g.edges && a in g.nodes && IsAnnouncement(a, s.tables[a], Some(b), entries)
    case Deliver(a, b, i, _, _) => (a, b) in g.edges && b in g.nodes && i < |s.queues[(a, b)]|
    case Lose(a, b, i) => (a, b) in g.edges && i < |s.queues[(a, b)]|
    case Expire(n, _, _) => n in g.nodes
  }

  ghost function Next(g: Topology, s: Net, e: Event): (s': Net)
    requires WellFormed(g, s) && Enabled(g, s, e)
    ensures WellFormed(g, s')
  {
    match e
    case Announce(a, b, entries) =>
      s.(queues := s.queues[(a, b) := s.queues[(a, b)] + [Message(entries, s.steps)]], steps := s.steps + 1)
    case Deliver(a, b, i, keep, now) =>
      var q := s.queues[(a, b)];
      Net(s.tables[b := ApplyAll(b, s.tables[b], q[i].entries, a, now)],
          s.queues[(a, b) := if keep then q else Without(q, i)],
          s.steps + 1)
    case Lose(a, b, i) =>
      s.(queues := s.queues[(a, b) := Without(s.queues[(a, b)], i)], steps := s.steps + 1)
    case Expire(n, ttl, time) =>
      s.(tables := s.tables[n := Unexpired(s.tables[n], ttl, time)], steps := s.steps + 1)
  }

  /** Every event of `evs` is enabled when its turn comes. */
  ghost predicate IsRun(g: Topology, s: Net, evs: seq<Event>)
    requires WellFormed(g, s)
    decreases |evs|
  {
    evs == [] || (Enabled(g, s, evs[0]) && IsRun(g, Next(g, s, evs[0]), evs[1..]))
  }

  ghost function Final(g: Topology, s: Net, evs: seq<Event>): (s': Net)
    requires WellFormed(g, s) && IsRun(g, s, evs)
    ensures WellFormed(g, s')
    decreases |evs|
  {
    if evs == [] then s else Final(g, Next(g, s, evs[0]), evs[1..])
  }

  /** Empty tables, nothing in flight. */
  ghost function Initial(g: Topology): (s: Net)
    ensures WellFormed(g, s)
  {
    Net(map n | n in g.nodes :: map[], map e | e in g.edges :: [], 0)
  }

  ghost predicate Reachable(g: Topology, s: Net)
    requires WellFormed(g, s)
  {
    exists evs :: IsRun(g, Initial(g), evs) && Final(g, Initial(g), evs) == s
  }

  lemma InitialIsReachable(g: Topology)
    ensures Reachable(g, Initial(g))
  {
    assert IsRun(g, Initial(g), []);
  }

  lemma {:induction false} RunThenStep(g: Topology, s: Net, evs: seq<Event>, e: Event)
    requires WellFormed(g, s) && IsRun(g, s, evs) && Enabled(g, Final(g, s, evs), e)
    ensures IsRun(g, s, evs + [e]) && Final(g, s, evs + [e]) == Next(g, Final(g, s, evs), e)
    decreases |evs|
  {
    hide Enabled, Next;
    if evs == [] {
      assert [e][1..] == [];
    } else {
      RunThenStep(g, Next(g, s, evs[0]), evs[1..], e);
      assert (evs + [e])[1..] == evs[1..] + [e];
    }
  }

  lemma ReachableStep(g: Topology, s: Net, e: Event)
    requires WellFormed(g, s) && Reachable(g, s) && Enabled(g, s, e)
    ensures Reachable(g, Next(g, s, e))
  {
    hide Enabled, Next;
    var evs :| IsRun(g, Initial(g), evs) && Final(g, Initial(g), evs) == s;
    RunThenStep(g, Initial(g), evs, e);
  }

  // ----- Soundness: what unreliable channels and expiry cannot break -----

  /** A route of `n` to `dst` that reflects the topology: its learner is a neighbour from which
      a real walk of `cost - 1` edges leads to `dst`. */
  ghost predicate SoundRoute(g: Topology, n: NodeId, dst: NodeId, r: Route) {
    && dst != n && dst in g.nodes
    && 1 <= r.cost < INFINITY_COST
    && r.nextHop == r.learnedFrom
    && (n, r.learnedFrom) in g.edges
    && Walk(g, r.learnedFrom, dst, r.cost - 1)
  }

  ghost predicate SoundTables(g: Topology, tables: map<NodeId, Table>) {
    forall n, dst :: n in tables && dst in tables[n] ==> SoundRoute(g, n, dst, tables[n][dst])
  }

  /** What `a` may say to others: costs that are lengths of walks from `a`, or infinity. */
  ghost predicate SoundEntries(g: Topology, a: NodeId, entries: seq<Entry>) {
    && DistinctDestinations(entries)
    && forall i :: 0 <= i < |entries| ==>
         && entries[i].destination in g.nodes
         && entries[i].cost >= 0
         && (entries[i].cost < INFINITY_COST ==> Walk(g, a, entries[i].destination, entries[i].cost))
  }

  ghost predicate Sound(g: Topology, s: Net) {
    && WellFormed(g, s)
    && SoundTables(g, s.tables)
    && forall e, i :: e in g.edges && 0 <= i < |s.queues[e]| ==> SoundEntries(g, e.0, s.queues[e][i].entries)
  }

  lemma AnnouncementIsSound(g: Topology, tables: map<NodeId, Table>, a: NodeId, b: NodeId, entries: seq<Entry>)
    requires g.Valid() && SoundTables(g, tables) && a in tables && a in g.nodes
    requires IsAnnouncement(a, tables[a], Some(b), entries)
    ensures SoundEntries(g, a, entries)
  {
    AnnouncementIsDistinct(a, tables[a], Some(b), entries);
    forall i | 1 <= i < |entries| && entries[i].cost < INFINITY_COST
      ensures Walk(g, a, entries[i].destination, entries[i].cost)
    {
      var r := tables[a][entries[i].destination];
      WalkStep(g, a, r.learnedFrom, entries[i].destination, r.cost - 1);
    }
  }

  /** What happens at one destination when `b` handles `a`'s announcement. */
  lemma DeliveryAt(b: NodeId, t: Table, entries: seq<Entry>, a: NodeId, now: int, dst: NodeId)
    requires DistinctDestinations(entries) && dst != b && dst.name != ""
    ensures var after := Lookup(ApplyAll(b, t, entries, a, now), dst);
            || ((forall i :: 0 <= i < |entries| ==> entries[i].destination != dst) && after == Lookup(t, dst))
            || (exists i :: 0 <= i < |entries| && entries[i].destination == dst
                            && after == Decide(Lookup(t, dst), Route(a, entries[i].cost + 1, a, now)))
  {
    if i :| 0 <= i < |entries| && entries[i].destination == dst {
      ApplyAllAt(b, t, entries, a, now, i);
    } else {
      ApplyAllElsewhere(b, t, entries, a, now, dst);
    }
  }

  lemma DeliveryKeepsSoundRoutes(g: Topology, tables: map<NodeId, Table>, a: NodeId, b: NodeId, entries: seq<Entry>,
                                 now: int, dst: NodeId)
    requires g.Valid() && SoundTables(g, tables) && b in tables && (a, b) in g.edges
    requires SoundEntries(g, a, entries)
    requires dst in ApplyAll(b, tables[b], entries, a, now)
    ensures SoundRoute(g, b, dst, ApplyAll(b, tables[b], entries, a, now)[dst])
  {
    var t := tables[b];
    ApplyAllKeepsSelfOut(b, t, entries, a, now);
    if dst in g.nodes {
      DeliveryAt(b, t, entries, a, now, dst);
    } else {
      ApplyAllElsewhere(b, t, entries, a, now, dst);
    }
  }

  lemma DeliveryIsSound(g: Topology, tables: map<NodeId, Table>, a: NodeId, b: NodeId, entries: seq<Entry>, now: int)
    requires g.Valid() && SoundTables(g, tables) && b in tables && (a, b) in g.edges
    requires SoundEntries(g, a, entries)
    ensures SoundTables(g, tables[b := ApplyAll(b, tables[b], entries, a, now)])
  {
    hide Walk, ApplyAll, SoundRoute, SoundEntries;
    forall dst | dst in ApplyAll(b, tables[b], entries, a, now)
      ensures SoundRoute(g, b, dst, ApplyAll(b, tables[b], entries, a, now)[dst])
    {
      DeliveryKeepsSoundRoutes(g, tables, a, b, entries, now, dst);
    }
  }

  lemma SoundStep(g: Topology, s: Net, e: Event)
    requires g.Valid() && Sound(g, s) && Enabled(g, s, e)
    ensures Sound(g, Next(g, s, e))
  {
    hide Walk, ApplyAll, SoundRoute, SoundEntries, IsAnnouncement;
    var s' := Next(g, s, e);
    match e
    case Announce(a, b, entries) =>
      AnnouncementIsSound(g, s.tables, a, b, entries);
    case Deliver(a, b, i, keep, now) =>
      DeliveryIsSound(g, s.tables, a, b, s.queues[(a, b)][i].entries, now);
    case Lose(a, b, i) =>
    case Expire(n, ttl, time) =>
  }

  /** Route soundness: in every run from empty tables, with announcements lost, duplicated,
      delayed or reordered and routes expired at any time, every installed cost is in 1..15 and
      is the length of a real walk whose first hop is the next hop, which is the learner. */
  lemma {:induction false} RoutesAreSound(g: Topology, s: Net, evs: seq<Event>)
    requires g.Valid() && Sound(g, s) && IsRun(g, s, evs)
    ensures Sound(g, Final(g, s, evs))
    decreases |evs|
  {
    if evs != [] {
      SoundStep(g, s, evs[0]);
      RoutesAreSound(g, Next(g, s, evs[0]), evs[1..]);
    }
  }

  lemma RoutesFromEmptyTables(g: Topology, evs: seq<Event>, n: NodeId, dst: NodeId)
    requires g.Valid() && IsRun(g, Initial(g), evs) && n in g.nodes
    requires dst in Final(g, Initial(g), evs).tables[n]
    ensures var r := Final(g, Initial(g), evs).tables[n][dst];
            && dst != n && 1 <= r.cost <= 15
            && r.nextHop == r.learnedFrom && (n, r.nextHop) in g.edges
            && Walk(g, r.nextHop, dst, r.cost - 1) && Walk(g, n, dst, r.cost)
  {
    hide Walk, Next, Enabled, IsRun;
    RoutesAreSound(g, Initial(g), evs);
    var r := Final(g, Initial(g), evs).tables[n][dst];
    WalkStep(g, n, r.nextHop, dst, r.cost - 1);
  }

  // ----- Convergence over first-in first-out channels -----

  /** The events of a run without expiry whose channels may lose messages but keep their order. */
  predicate Orderly(e: Event) {
    match e
    case Announce(_, _, _) => true
    case Deliver(_, _, i, keep, _) => i == 0 && !keep
    case Lose(_, _, _) => true
    case Expire(_, _, _) => false
  }

  ghost predicate IsOrderlyRun(g: Topology, s: Net, evs: seq<Event>)
    requires WellFormed(g, s)
  {
    IsRun(g, s, evs) && forall i :: 0 <= i < |evs| ==> Orderly(evs[i])
  }

  /** The edges over which `evs` delivers an announcement built no earlier than step `start`. */
  ghost function FreshlyDelivered(g: Topology, start: nat, s: Net, evs: seq<Event>): set<Edge>
    requires WellFormed(g, s) && IsRun(g, s, evs)
    decreases |evs|
  {
    if evs == [] then {}
    else DeliversFresh(g, start, s, evs[0]) + FreshlyDelivered(g, start, Next(g, s, evs[0]), evs[1..])
  }

  ghost function DeliversFresh(g: Topology, start: nat, s: Net, e: Event): set<Edge>
    requires WellFormed(g, s) && Enabled(g, s, e)
  {
    if e.Deliver? && s.queues[(e.src, e.dst)][e.position].built >= start then {(e.src, e.dst)} else {}
  }

  /** A round: every directed edge delivers at least one announcement built within the round. */
  ghost predicate IsRound(g: Topology, s: Net, evs: seq<Event>)
    requires WellFormed(g, s)
  {
    IsOrderlyRun(g, s, evs) && g.edges <= FreshlyDelivered(g, s.steps, s, evs)
  }

  ghost predicate AreRounds(g: Topology, s: Net, rounds: seq<seq<Event>>)
    requires WellFormed(g, s)
    decreases |rounds|
  {
    rounds == [] || (IsRound(g, s, rounds[0]) && AreRounds(g, Final(g, s, rounds[0]), rounds[1..]))
  }

  ghost function AfterRounds(g: Topology, s: Net, rounds: seq<seq<Event>>): (s': Net)
    requires WellFormed(g, s) && AreRounds(g, s, rounds)
    ensures WellFormed(g, s')
    decreases |rounds|
  {
    if rounds == [] then s else AfterRounds(g, Final(g, s, rounds[0]), rounds[1..])
  }

  /** `n` routes to `dst`, `d` hops away, at cost exactly `d` through a neighbour one hop closer. */
  ghost predicate Shortest(g: Topology, tables: map<NodeId, Table>, n: NodeId, dst: NodeId, d: nat) {
    && n in tables && dst in tables[n]
    && tables[n][dst].cost == d
    && (n, tables[n][dst].learnedFrom) in g.edges
    && d >= 1 && Distance(g, tables[n][dst].learnedFrom, dst, d - 1)
  }

  /** All pairs at distance `1..k`, and below infinity, have shortest routes. */
  ghost predicate Converged(g: Topology, tables: map<NodeId, Table>, k: nat) {
    forall n, dst, d: nat :: n in g.nodes && 1 <= d <= k && d < INFINITY_COST && Distance(g, n, dst, d) ==>
      Shortest(g, tables, n, dst, d)
  }

  /** What `a` tells `b` once its own routes up to distance `k` are shortest: the exact distance
      of every destination that is one hop further from `b`. */
  ghost predicate Informative(g: Topology, k: int, a: NodeId, b: NodeId, entries: seq<Entry>) {
    forall dst, d: nat :: d <= k && d < INFINITY_COST - 1 && Distance(g, a, dst, d) && Distance(g, b, dst, d + 1) ==>
      exists i :: 0 <= i < |entries| && entries[i] == Entry(dst, d)
  }

  /** The invariant inside round `k + 1`, which began at step `start`. `done` are the edges that
      have delivered an announcement of this round. */
  ghost predicate InRound(g: Topology, k: nat, start: nat, s: Net, done: set<Edge>) {
    && WellFormed(g, s)
    && Sound(g, s)
    && start <= s.steps
    && Converged(g, s.tables, k)
    && Queues(g, k, start, s, done)
    && Advanced(g, k, s.tables, done)
  }

  ghost predicate Queues(g: Topology, k: nat, start: nat, s: Net, done: set<Edge>)
    requires WellFormed(g, s)
  {
    forall e :: e in g.edges ==> QueueInRound(g, k, start, s.steps, e, s.queues[e], e in done)
  }

  /** In order of building; informative to `k - 1`, and to `k` if built in this round. */
  ghost predicate QueueInRound(g: Topology, k: nat, start: nat, steps: nat, e: Edge, q: seq<Message>, isDone: bool) {
    && (forall i, j :: 0 <= i < j < |q| ==> q[i].built <= q[j].built)
    && (forall i :: 0 <= i < |q| ==> q[i].built < steps && Informative(g, k as int - 1, e.0, e.1, q[i].entries))
    && (forall i :: 0 <= i < |q| && q[i].built >= start ==> Informative(g, k, e.0, e.1, q[i].entries))
    && (isDone ==> forall i :: 0 <= i < |q| ==> q[i].built >= start)
  }

  /** Pairs `k + 1` hops apart that have heard everything relevant have their shortest route. */
  ghost predicate Advanced(g: Topology, k: nat, tables: map<NodeId, Table>, done: set<Edge>) {
    var d := k + 1;
    d < INFINITY_COST ==>
      forall n, dst :: n in g.nodes && Distance(g, n, dst, d) && AllHeard(g, n, dst, k, done) ==>
        Shortest(g, tables, n, dst, d)
  }

  /** `n` has heard this round from every neighbour that is `k` hops from `dst`. */
  ghost predicate AllHeard(g: Topology, n: NodeId, dst: NodeId, k: nat, done: set<Edge>) {
    forall m :: (m, n) in g.edges && Distance(g, m, dst, k) ==> (m, n) in done
  }

  lemma AnnouncementIsInformative(g: Topology, k: nat, tables: map<NodeId, Table>, a: NodeId, b: NodeId,
                                  entries: seq<Entry>)
    requires g.Valid() && Converged(g, tables, k)
    requires a in g.nodes && a in tables && IsAnnouncement(a, tables[a], Some(b), entries)
    ensures Informative(g, k, a, b, entries)
    ensures k >= 1 ==> Informative(g, k - 1, a, b, entries)
  {
    hide Walk;
    forall dst, d: nat | d <= k && d < INFINITY_COST - 1 && Distance(g, a, dst, d) && Distance(g, b, dst, d + 1)
      ensures exists i :: 0 <= i < |entries| && entries[i] == Entry(dst, d)
    {
      if d == 0 {
        DistanceZero(g, a, dst);
        assert entries[0] == Entry(dst, d);
      } else {
        assert Shortest(g, tables, a, dst, d);
        // The learner is d - 1 hops away and b is d + 1, so b is not the learner: no poison.
        assert b != tables[a][dst].learnedFrom;
        assert dst != b by {
          if dst == b { BeingThere(g, b, d + 1); }
        }
        var i :| 1 <= i < |entries| && entries[i].destination == dst;
        assert entries[i] == Entry(dst, d);
      }
    }
  }

  /** A node's shortest route survives any sound announcement, unless the announcer is the
      learner and says something else than its distance. */
  lemma ShortestSurvives(g: Topology, tables: map<NodeId, Table>, a: NodeId, b: NodeId, entries: seq<Entry>,
                         now: int, dst: NodeId, d: nat)
    requires g.Valid() && SoundTables(g, tables) && (a, b) in g.edges && b in g.nodes
    requires 1 <= d < INFINITY_COST && Distance(g, b, dst, d) && Shortest(g, tables, b, dst, d)
    requires SoundEntries(g, a, entries)
    requires Distance(g, a, dst, d - 1) ==> exists i :: 0 <= i < |entries| && entries[i] == Entry(dst, d - 1)
    ensures Shortest(g, tables[b := ApplyAll(b, tables[b], entries, a, now)], b, dst, d)
  {
    hide Walk;
    var t := tables[b];
    assert SoundRoute(g, b, dst, t[dst]);
    DeliveryAt(b, t, entries, a, now, dst);
    if i :| 0 <= i < |entries| && entries[i].destination == dst {
      ApplyAllAt(b, t, entries, a, now, i);
      if t[dst].learnedFrom == a {
        var j :| 0 <= j < |entries| && entries[j] == Entry(dst, d - 1);
        assert i == j;
      } else if entries[i].cost < INFINITY_COST {
        WalkStep(g, b, a, dst, entries[i].cost);
        DistanceIsLeast(g, b, dst, d, entries[i].cost + 1);
      }
    }
  }

  /** An informative announcement gives its receiver a shortest route, whatever it held before. */
  lemma ShortestIsLearned(g: Topology, tables: map<NodeId, Table>, a: NodeId, b: NodeId, entries: seq<Entry>,
                          now: int, dst: NodeId, d: nat)
    requires g.Valid() && SoundTables(g, tables) && (a, b) in g.edges && b in tables
    requires 1 <= d < INFINITY_COST && Distance(g, b, dst, d) && Distance(g, a, dst, d - 1)
    requires SoundEntries(g, a, entries)
    requires exists i :: 0 <= i < |entries| && entries[i] == Entry(dst, d - 1)
    ensures Shortest(g, tables[b := ApplyAll(b, tables[b], entries, a, now)], b, dst, d)
  {
    hide Walk;
    var t := tables[b];
    var i :| 0 <= i < |entries| && entries[i] == Entry(dst, d - 1);
    assert dst != b by {
      if dst == b { BeingThere(g, b, d); }
    }
    ApplyAllAt(b, t, entries, a, now, i);
    assert (b, a) in g.edges;
    if dst in t {
      var r := t[dst];
      assert SoundRoute(g, b, dst, r);
      WalkStep(g, b, r.learnedFrom, dst, r.cost - 1);
      DistanceIsLeast(g, b, dst, d, r.cost);
      if r.cost == d {
        CloserByOne(g, b, r.learnedFrom, dst, d);
      }
    }
  }

  /** A step that changes one queue keeps the others in order. */
  lemma OneQueueChanges(g: Topology, k: nat, start: nat, s: Net, s': Net, done: set<Edge>, done': set<Edge>, x: Edge)
    requires WellFormed(g, s) && WellFormed(g, s') && x in g.edges
    requires Queues(g, k, start, s, done) && s'.steps == s.steps + 1
    requires s'.queues == s.queues[x := s'.queues[x]] && done' - {x} == done - {x}
    requires QueueInRound(g, k, start, s'.steps, x, s'.queues[x], x in done')
    ensures Queues(g, k, start, s', done')
  {
    forall e | e in g.edges
      ensures QueueInRound(g, k, start, s'.steps, e, s'.queues[e], e in done')
    {
      if e != x {
        assert e in done' - {x} <==> e in done - {x};
        QueueLater(g, k, start, s.steps, e, s.queues[e], e in done);
      }
    }
  }

  lemma QueueLater(g: Topology, k: nat, start: nat, steps: nat, e: Edge, q: seq<Message>, isDone: bool)
    requires QueueInRound(g, k, start, steps, e, q, isDone)
    ensures QueueInRound(g, k, start, steps + 1, e, q, isDone)
  {
    hide Informative;
  }

  lemma QueueGrows(g: Topology, k: nat, start: nat, steps: nat, e: Edge, q: seq<Message>, isDone: bool,
                   entries: seq<Entry>)
    requires QueueInRound(g, k, start, steps, e, q, isDone) && start <= steps
    requires Informative(g, k, e.0, e.1, entries) && Informative(g, k as int - 1, e.0, e.1, entries)
    ensures QueueInRound(g, k, start, steps + 1, e, q + [Message(entries, steps)], isDone)
  {
    hide Informative;
  }

  lemma AnnounceInRound(g: Topology, k: nat, start: nat, s: Net, done: set<Edge>, e: Event)
    requires g.Valid() && InRound(g, k, start, s, done) && Enabled(g, s, e) && e.Announce?
    ensures InRound(g, k, start, Next(g, s, e), done)
  {
    hide Walk, Sound, Converged, Advanced, Informative, IsAnnouncement, QueueInRound;
    var s' := Next(g, s, e);
    var x := (e.src, e.dst);
    SoundStep(g, s, e);
    AnnouncementIsInformative(g, k, s.tables, e.src, e.dst, e.entries);
    InformativeDownward(g, k, e.src, e.dst, e.entries);
    QueueGrows(g, k, start, s.steps, x, s.queues[x], x in done, e.entries);
    OneQueueChanges(g, k, start, s, s', done, done, x);
  }

  lemma InformativeAt(g: Topology, k: nat, a: NodeId, b: NodeId, entries: seq<Entry>, dst: NodeId, d: nat)
    requires Informative(g, k, a, b, entries)
    requires d <= k && d < INFINITY_COST - 1 && Distance(g, a, dst, d) && Distance(g, b, dst, d + 1)
    ensures exists i :: 0 <= i < |entries| && entries[i] == Entry(dst, d)
  {
  }

  lemma InformativeDownward(g: Topology, k: nat, a: NodeId, b: NodeId, entries: seq<Entry>)
    requires Informative(g, k, a, b, entries)
    ensures Informative(g, k as int - 1, a, b, entries)
  {
  }

  lemma WithoutInRound(g: Topology, k: nat, start: nat, steps: nat, e: Edge, q: seq<Message>, isDone: bool, i: nat)
    requires QueueInRound(g, k, start, steps, e, q, isDone) && i < |q|
    ensures QueueInRound(g, k, start, steps + 1, e, Without(q, i), isDone)
  {
    hide Informative;
  }

  lemma LoseInRound(g: Topology, k: nat, start: nat, s: Net, done: set<Edge>, e: Event)
    requires g.Valid() && InRound(g, k, start, s, done) && Enabled(g, s, e) && e.Lose?
    ensures InRound(g, k, start, Next(g, s, e), done)
  {
    hide Walk, Sound, Converged, Advanced, QueueInRound;
    var x := (e.src, e.dst);
    SoundStep(g, s, e);
    WithoutInRound(g, k, start, s.steps, x, s.queues[x], x in done, e.position);
    OneQueueChanges(g, k, start, s, Next(g, s, e), done, done, x);
  }

  lemma DeliverKeepsConverged(g: Topology, k: nat, start: nat, s: Net, done: set<Edge>, e: Event)
    requires g.Valid() && InRound(g, k, start, s, done) && Enabled(g, s, e) && e.Deliver? && Orderly(e)
    ensures Converged(g, Next(g, s, e).tables, k)
  {
    hide Walk, ApplyAll, SoundRoute;
    var s' := Next(g, s, e);
    var m := s.queues[(e.src, e.dst)][0];
    assert QueueInRound(g, k, start, s.steps, (e.src, e.dst), s.queues[(e.src, e.dst)], (e.src, e.dst) in done);
    forall n, dst, d: nat | n in g.nodes && 1 <= d <= k && d < INFINITY_COST && Distance(g, n, dst, d)
      ensures Shortest(g, s'.tables, n, dst, d)
    {
      assert Shortest(g, s.tables, n, dst, d);
      if n == e.dst {
        ShortestSurvives(g, s.tables, e.src, e.dst, m.entries, e.now, dst, d);
      }
    }
  }

  /** A delivery advances the round: `done'` may gain only its own edge, and then only when the
      announcement is one of this round. */
  lemma DeliverAdvances(g: Topology, k: nat, tables: map<NodeId, Table>, a: NodeId, b: NodeId, entries: seq<Entry>,
                        now: int, done: set<Edge>, done': set<Edge>)
    requires g.Valid() && SoundTables(g, tables) && SoundEntries(g, a, entries)
    requires (a, b) in g.edges && b in g.nodes && b in tables
    requires Advanced(g, k, tables, done) && done <= done' <= done + {(a, b)}
    requires (a, b) in done' ==> Informative(g, k, a, b, entries)
    ensures Advanced(g, k, tables[b := ApplyAll(b, tables[b], entries, a, now)], done')
  {
    hide Walk, ApplyAll, SoundRoute, SoundEntries, Informative, Shortest;
    var tables' := tables[b := ApplyAll(b, tables[b], entries, a, now)];
    var d := k + 1;
    if d < INFINITY_COST {
      forall n, dst | n in g.nodes && Distance(g, n, dst, d) && AllHeard(g, n, dst, k, done')
        ensures Shortest(g, tables', n, dst, d)
      {
        DeliverAdvancesAt(g, k, tables, a, b, entries, now, done, done', n, dst);
      }
    }
  }

  lemma DeliverAdvancesAt(g: Topology, k: nat, tables: map<NodeId, Table>, a: NodeId, b: NodeId, entries: seq<Entry>,
                          now: int, done: set<Edge>, done': set<Edge>, n: NodeId, dst: NodeId)
    requires g.Valid() && SoundTables(g, tables) && SoundEntries(g, a, entries)
    requires (a, b) in g.edges && b in g.nodes && b in tables
    requires Advanced(g, k, tables, done) && done <= done' <= done + {(a, b)}
    requires (a, b) in done' ==> Informative(g, k, a, b, entries)
    requires k + 1 < INFINITY_COST && n in g.nodes && Distance(g, n, dst, k + 1) && AllHeard(g, n, dst, k, done')
    ensures Shortest(g, tables[b := ApplyAll(b, tables[b], entries, a, now)], n, dst, k + 1)
  {
    hide Walk, ApplyAll, SoundRoute, SoundEntries, Shortest, Informative;
    if n == b && Distance(g, a, dst, k) {
      InformativeAt(g, k, a, b, entries, dst, k);
      ShortestIsLearned(g, tables, a, b, entries, now, dst, k + 1);
    } else {
      assert AllHeard(g, n, dst, k, done);
      if n == b {
        ShortestSurvives(g, tables, a, b, entries, now, dst, k + 1);
      } else {
        OthersKeepShortest(g, tables, n, dst, k + 1, b, ApplyAll(b, tables[b], entries, a, now));
      }
    }
  }

  lemma OthersKeepShortest(g: Topology, tables: map<NodeId, Table>, n: NodeId, dst: NodeId, d: nat, other: NodeId,
                           t: Table)
    requires Shortest(g, tables, n, dst, d) && n != other
    ensures Shortest(g, tables[other := t], n, dst, d)
  {
  }

  lemma DeliverInRound(g: Topology, k: nat, start: nat, s: Net, done: set<Edge>, e: Event)
    requires g.Valid() && InRound(g, k, start, s, done) && Enabled(g, s, e) && e.Deliver? && Orderly(e)
    ensures InRound(g, k, start, Next(g, s, e), done + DeliversFresh(g, start, s, e))
  {
    var x := (e.src, e.dst);
    var s' := Next(g, s, e);
    var done' := done + DeliversFresh(g, start, s, e);
    assert QueueInRound(g, k, start, s'.steps, x, s'.queues[x], x in done') by {
      DeliveredQueue(g, k, start, s, done, e);
    }
    assert x in done' ==> Informative(g, k, e.src, e.dst, s.queues[x][0].entries) by {
      assert QueueInRound(g, k, start, s.steps, x, s.queues[x], x in done);
    }
    assert SoundEntries(g, e.src, s.queues[x][0].entries);
    hide Walk, Sound, Converged, Advanced, QueueInRound, ApplyAll;
    SoundStep(g, s, e);
    DeliverKeepsConverged(g, k, start, s, done, e);
    DeliverAdvances(g, k, s.tables, e.src, e.dst, s.queues[x][0].entries, e.now, done, done');
    OneQueueChanges(g, k, start, s, s', done, done', x);
  }

  lemma DeliveredQueue(g: Topology, k: nat, start: nat, s: Net, done: set<Edge>, e: Event)
    requires WellFormed(g, s) && Queues(g, k, start, s, done) && Enabled(g, s, e) && e.Deliver? && Orderly(e)
    ensures var x := (e.src, e.dst); var s' := Next(g, s, e);
            QueueInRound(g, k, start, s'.steps, x, s'.queues[x], x in done + DeliversFresh(g, start, s, e))
  {
    hide Informative, ApplyAll;
    var x := (e.src, e.dst);
    var q := s.queues[x];
    assert QueueInRound(g, k, start, s.steps, x, q, x in done);
    WithoutInRound(g, k, start, s.steps, x, q, x in done, 0);
    assert forall i :: 0 <= i < |q| ==> q[0].built <= q[i].built;
  }

  lemma StepInRound(g: Topology, k: nat, start: nat, s: Net, done: set<Edge>, e: Event)
    requires g.Valid() && InRound(g, k, start, s, done) && Enabled(g, s, e) && Orderly(e)
    ensures InRound(g, k, start, Next(g, s, e), done + DeliversFresh(g, start, s, e))
  {
    hide InRound, Next, Enabled;
    match e
    case Announce(_, _, _) =>
      AnnounceInRound(g, k, start, s, done, e);
      assert done + {} == done;
    case Deliver(_, _, _, _, _) =>
      DeliverInRound(g, k, start, s, done, e);
    case Lose(_, _, _) =>
      LoseInRound(g, k, start, s, done, e);
      assert done + {} == done;
  }

  /** Inside a round, the invariant holds after any events, with the edges they have served. */
  lemma {:induction false} RoundProgresses(g: Topology, k: nat, start: nat, s: Net, evs: seq<Event>, done: set<Edge>)
    requires WellFormed(g, s)
    requires g.Valid() && InRound(g, k, start, s, done) && IsOrderlyRun(g, s, evs)
    ensures InRound(g, k, start, Final(g, s, evs), done + FreshlyDelivered(g, start, s, evs))
    decreases |evs|
  {
    hide InRound, Next, Enabled, DeliversFresh, WellFormed, Topology.Valid;
    if evs == [] {
      assert done + {} == done;
    } else {
      var s' := Next(g, s, evs[0]);
      var arrived := DeliversFresh(g, start, s, evs[0]);
      var rest := FreshlyDelivered(g, start, s', evs[1..]);
      StepInRound(g, k, start, s, done, evs[0]);
      assert IsOrderlyRun(g, s', evs[1..]);
      RoundProgresses(g, k, start, s', evs[1..], done + arrived);
      assert (done + arrived) + rest == done + (arrived + rest);
    }
  }

  lemma NothingHeardYet(g: Topology, n: NodeId, dst: NodeId, k: nat)
    requires g.Valid() && Distance(g, n, dst, k + 1)
    ensures !AllHeard(g, n, dst, k, {})
  {
    var m := SomeNeighbourIsCloser(g, n, dst, k + 1);
    assert (m, n) in g.edges;
  }

  lemma NothingAdvancedYet(g: Topology, k: nat, tables: map<NodeId, Table>)
    requires g.Valid()
    ensures Advanced(g, k, tables, {})
  {
    var d := k + 1;
    forall n, dst | n in g.nodes && Distance(g, n, dst, d)
      ensures !AllHeard(g, n, dst, k, {})
    {
      NothingHeardYet(g, n, dst, k);
    }
  }

  /** A completed round is the start of the next one, one hop further. */
  lemma RoundCompletes(g: Topology, k: nat, start: nat, s: Net, done: set<Edge>)
    requires g.Valid() && InRound(g, k, start, s, done) && g.edges <= done
    ensures InRound(g, k + 1, s.steps, s, {})
  {
    hide Walk, Sound, Informative, Shortest;
    forall n, dst, d: nat | n in g.nodes && 1 <= d <= k + 1 && d < INFINITY_COST && Distance(g, n, dst, d)
      ensures Shortest(g, s.tables, n, dst, d)
    {
      if d == k + 1 {
        assert AllHeard(g, n, dst, k, done);
      }
    }
    forall e | e in g.edges
      ensures QueueInRound(g, k + 1, s.steps, s.steps, e, s.queues[e], e in {})
    {
      assert QueueInRound(g, k, start, s.steps, e, s.queues[e], e in done);
    }
    NothingAdvancedYet(g, k + 1, s.tables);
  }

  lemma {:induction false} RoundsConverge(g: Topology, k: nat, s: Net, rounds: seq<seq<Event>>)
    requires WellFormed(g, s)
    requires g.Valid() && InRound(g, k, s.steps, s, {}) && AreRounds(g, s, rounds)
    ensures InRound(g, k + |rounds|, AfterRounds(g, s, rounds).steps, AfterRounds(g, s, rounds), {})
    decreases |rounds|
  {
    hide InRound, IsRun, FreshlyDelivered, Final;
    if rounds != [] {
      var s' := Final(g, s, rounds[0]);
      var served := FreshlyDelivered(g, s.steps, s, rounds[0]);
      RoundProgresses(g, k, s.steps, s, rounds[0], {});
      assert {} + served == served;
      RoundCompletes(g, k, s.steps, s', served);
      RoundsConverge(g, k + 1, s', rounds[1..]);
    }
  }

  lemma InitialIsInRound(g: Topology)
    requires g.Valid()
    ensures InRound(g, 0, 0, Initial(g), {})
  {
    hide Walk;
    NothingAdvancedYet(g, 0, Initial(g).tables);
  }

  /** Convergence: from empty tables, after `k` rounds every pair at distance `d`, 1 <= d <= min(k, 15),
      has a route of cost exactly `d` whose learner is a neighbour at distance `d - 1`, and no
      later traffic breaks this: not split horizon, not poisoned reverse, not the overwrite by the
      same learner, not announcements still in flight from before. */
  lemma Convergence(g: Topology, rounds: seq<seq<Event>>, later: seq<Event>)
    requires g.Valid() && AreRounds(g, Initial(g), rounds)
    requires IsOrderlyRun(g, AfterRounds(g, Initial(g), rounds), later)
    ensures Converged(g, Final(g, AfterRounds(g, Initial(g), rounds), later).tables, |rounds|)
    ensures Sound(g, Final(g, AfterRounds(g, Initial(g), rounds), later))
  {
    hide Walk, IsRun, AreRounds, AfterRounds, Final, Initial, FreshlyDelivered, Converged, Sound;
    InitialIsInRound(g);
    assert Initial(g).steps == 0 by { InitialSteps(g); }
    RoundsConverge(g, 0, Initial(g), rounds);
    var s := AfterRounds(g, Initial(g), rounds);
    RoundProgresses(g, |rounds|, s.steps, s, later, {});
  }

  lemma InitialSteps(g: Topology)
    ensures Initial(g).steps == 0
  {
  }

  /** After fifteen rounds the tables are exact: there is a route if and only if the destination
      is 1..15 hops away, and its cost is the distance. */
  lemma TablesAreExact(g: Topology, rounds: seq<seq<Event>>, later: seq<Event>, n: NodeId, dst: NodeId)
    requires g.Valid() && AreRounds(g, Initial(g), rounds) && |rounds| >= 15 && n in g.nodes
    requires IsOrderlyRun(g, AfterRounds(g, Initial(g), rounds), later)
    ensures var t := Final(g, AfterRounds(g, Initial(g), rounds), later).tables[n];
            && (dst in t <==> exists d: nat :: 1 <= d <= 15 && Distance(g, n, dst, d))
            && (dst in t ==> t[dst].cost >= 0 && Distance(g, n, dst, t[dst].cost))
  {
    hide Walk, IsRun, AreRounds, AfterRounds, Final, Initial, FreshlyDelivered;
    Convergence(g, rounds, later);
    ConvergedIsExact(g, Final(g, AfterRounds(g, Initial(g), rounds), later), |rounds|, n, dst);
  }

  lemma ConvergedIsExact(g: Topology, s: Net, k: nat, n: NodeId, dst: NodeId)
    requires Sound(g, s) && Converged(g, s.tables, k) && k >= 15 && n in g.nodes
    ensures dst in s.tables[n] <==> exists d: nat :: 1 <= d <= 15 && Distance(g, n, dst, d)
    ensures dst in s.tables[n] ==> s.tables[n][dst].cost >= 0 && Distance(g, n, dst, s.tables[n][dst].cost)
  {
    if dst in s.tables[n] {
      var r := s.tables[n][dst];
      assert SoundRoute(g, n, dst, r);
      WalkStep(g, n, r.learnedFrom, dst, r.cost - 1);
      var d := DistanceExists(g, n, dst, r.cost);
      assert d != 0 by {
        if d == 0 { DistanceZero(g, n, dst); }
      }
      assert Shortest(g, s.tables, n, dst, d);
    }
    if d: nat :| 1 <= d <= 15 && Distance(g, n, dst, d) {
      assert Shortest(g, s.tables, n, dst, d);
    }
  }
}
