/** Two-node routing loops: excluded by poisoned reverse when an announcement is applied as it is
    built, and reachable as soon as announcements wait in a channel. */
module MeshLoops {
  import opened Graph
  import opened RoutingTables
  import opened MeshNetwork

  /** `a` and `b` each learned their route to `dst` from the other. */
  predicate MutualLearners(tables: map<NodeId, Table>, a: NodeId, b: NodeId, dst: NodeId) {
    && a in tables && dst in tables[a] && tables[a][dst].learnedFrom == b
    && b in tables && dst in tables[b] && tables[b][dst].learnedFrom == a
  }

  ghost predicate LoopFree(tables: map<NodeId, Table>) {
    && (forall a, b, dst :: !MutualLearners(tables, a, b, dst))
    && (forall n :: n in tables ==> n !in tables[n])
  }

  /** A run in which every announcement is delivered in the step after it is built. Routes may
      expire in between. */
  ghost predicate IsPromptRun(g: Topology, s: Net, evs: seq<Event>)
    requires WellFormed(g, s)
    decreases |evs|
  {
    || evs == []
    || (evs[0].Expire? && Enabled(g, s, evs[0]) && IsPromptRun(g, Next(g, s, evs[0]), evs[1..]))
    || (|evs| >= 2 && IsExchange(g, s, evs[0], evs[1]) && IsPromptRun(g, AfterExchange(g, s, evs[0], evs[1]), evs[2..]))
  }

  ghost predicate IsExchange(g: Topology, s: Net, e: Event, e': Event)
    requires WellFormed(g, s)
  {
    && e.Announce? && Enabled(g, s, e) && s.queues[(e.src, e.dst)] == []
    && e'.Deliver? && e' == Deliver(e.src, e.dst, 0, false, e'.now) && Enabled(g, Next(g, s, e), e')
  }

  ghost function AfterExchange(g: Topology, s: Net, e: Event, e': Event): (s': Net)
    requires WellFormed(g, s) && IsExchange(g, s, e, e')
    ensures WellFormed(g, s')
  {
    Next(g, Next(g, s, e), e')
  }

  lemma {:induction false} PromptRunsAreRuns(g: Topology, s: Net, evs: seq<Event>)
    requires WellFormed(g, s) && IsPromptRun(g, s, evs)
    ensures IsRun(g, s, evs)
    decreases |evs|
  {
    if evs == [] {
    } else if evs[0].Expire? {
      PromptRunsAreRuns(g, Next(g, s, evs[0]), evs[1..]);
    } else {
      PromptRunsAreRuns(g, AfterExchange(g, s, evs[0], evs[1]), evs[2..]);
      assert evs[1..][0] == evs[1] && evs[1..][1..] == evs[2..];
    }
  }

  // ----- When a delivery closes a loop -----

  /** `a` tells `b` of a way to `dst` that `a` has learned from `b`, and that `b` would take. */
  predicate Crosses(tables: map<NodeId, Table>, a: NodeId, b: NodeId, entries: seq<Entry>, dst: NodeId) {
    && dst != b && a in tables && b in tables
    && dst in tables[a] && tables[a][dst].learnedFrom == b
    && exists i :: 0 <= i < |entries| && entries[i].destination == dst && IsTakenAt(tables[b], entries[i])
  }

  /** The offer is finite, and cheaper than what the table has, if it has anything. */
  predicate IsTakenAt(t: Table, e: Entry) {
    0 <= e.cost < INFINITY_COST - 1 && (e.destination !in t || e.cost + 1 < t[e.destination].cost)
  }

  /** At one destination: `b` comes to route through `a`, which routes through `b`, exactly when the
      announcement crosses. */
  lemma CrossesAt(tables: map<NodeId, Table>, a: NodeId, b: NodeId, entries: seq<Entry>, now: int, dst: NodeId)
    requires LoopFree(tables) && a in tables && b in tables
    requires dst != b && dst in tables[a] && tables[a][dst].learnedFrom == b
    requires DistinctDestinations(entries) && forall i :: 0 <= i < |entries| ==> entries[i].destination.name != ""
    ensures var after := ApplyAll(b, tables[b], entries, a, now);
            dst in after && after[dst].learnedFrom == a <==> Crosses(tables, a, b, entries, dst)
  {
    assert !MutualLearners(tables, a, b, dst);
    if i :| 0 <= i < |entries| && entries[i].destination == dst {
      ApplyAllAt(b, tables[b], entries, a, now, i);
    } else {
      ApplyAllElsewhere(b, tables[b], entries, a, now, dst);
    }
  }

  /** What `b` routes to after the announcement is learned from `a`, or as before. */
  lemma LearnedOrKept(tables: map<NodeId, Table>, a: NodeId, b: NodeId, entries: seq<Entry>, now: int, dst: NodeId)
    requires b in tables && dst != b && dst in ApplyAll(b, tables[b], entries, a, now)
    requires DistinctDestinations(entries) && forall i :: 0 <= i < |entries| ==> entries[i].destination.name != ""
    ensures var r := ApplyAll(b, tables[b], entries, a, now)[dst];
            r.learnedFrom == a || (dst in tables[b] && r == tables[b][dst])
  {
    if i :| 0 <= i < |entries| && entries[i].destination == dst {
      ApplyAllAt(b, tables[b], entries, a, now, i);
    } else {
      ApplyAllElsewhere(b, tables[b], entries, a, now, dst);
    }
  }

  /** One delivery, of any announcement, however old: two-node loops stay out if and only if it crosses
      at no destination. */
  lemma DeliveryClosesLoopExactly(tables: map<NodeId, Table>, a: NodeId, b: NodeId, entries: seq<Entry>, now: int)
    requires LoopFree(tables) && a in tables && b in tables && a != b
    requires DistinctDestinations(entries) && forall i :: 0 <= i < |entries| ==> entries[i].destination.name != ""
    ensures LoopFree(tables[b := ApplyAll(b, tables[b], entries, a, now)])
       <==> forall dst :: !Crosses(tables, a, b, entries, dst)
  {
    var after := ApplyAll(b, tables[b], entries, a, now);
    var tables' := tables[b := after];
    ApplyAllKeepsSelfOut(b, tables[b], entries, a, now);
    hide ApplyAll;
    if dst :| Crosses(tables, a, b, entries, dst) {
      CrossesAt(tables, a, b, entries, now, dst);
      assert MutualLearners(tables', a, b, dst);
    } else {
      forall x, y, dst ensures !MutualLearners(tables', x, y, dst) {
        NoLoopWithoutCrossing(tables, a, b, entries, now, x, y, dst);
      }
    }
  }

  lemma NoLoopWithoutCrossing(tables: map<NodeId, Table>, a: NodeId, b: NodeId, entries: seq<Entry>, now: int,
                              x: NodeId, y: NodeId, dst: NodeId)
    requires LoopFree(tables) && a in tables && b in tables && a != b && !Crosses(tables, a, b, entries, dst)
    requires DistinctDestinations(entries) && forall i :: 0 <= i < |entries| ==> entries[i].destination.name != ""
    ensures !MutualLearners(tables[b := ApplyAll(b, tables[b], entries, a, now)], x, y, dst)
  {
    var after := ApplyAll(b, tables[b], entries, a, now);
    assert !MutualLearners(tables, x, y, dst);
    ApplyAllKeepsSelfOut(b, tables[b], entries, a, now);
    hide ApplyAll, Crosses;
    if dst in after {
      LearnedOrKept(tables, a, b, entries, now, dst);
      if dst in tables[a] && tables[a][dst].learnedFrom == b {
        CrossesAt(tables, a, b, entries, now, dst);
      }
    }
  }

  lemma ExpiryKeepsLoopFree(tables: map<NodeId, Table>, n: NodeId, ttl: int, time: int)
    requires LoopFree(tables) && n in tables
    ensures LoopFree(tables[n := Unexpired(tables[n], ttl, time)])
  {
    var tables' := tables[n := Unexpired(tables[n], ttl, time)];
    forall a, b, dst
      ensures !MutualLearners(tables', a, b, dst)
    {
      assert !MutualLearners(tables, a, b, dst);
    }
  }

  // ----- Whole runs -----

  ghost predicate Harmless(g: Topology, s: Net, e: Event)
    requires WellFormed(g, s) && Enabled(g, s, e)
  {
    e.Deliver? ==> forall dst :: !Crosses(s.tables, e.src, e.dst, s.queues[(e.src, e.dst)][e.position].entries, dst)
  }

  /** No announcement crosses when it is delivered. */
  ghost predicate NoneCrosses(g: Topology, s: Net, evs: seq<Event>)
    requires WellFormed(g, s) && IsRun(g, s, evs)
    decreases |evs|
  {
    evs == [] || (Harmless(g, s, evs[0]) && NoneCrosses(g, Next(g, s, evs[0]), evs[1..]))
  }

  /** Every state of the run is free of two-node loops. */
  ghost predicate AlwaysLoopFree(g: Topology, s: Net, evs: seq<Event>)
    requires WellFormed(g, s) && IsRun(g, s, evs)
    decreases |evs|
  {
    LoopFree(s.tables) && (evs != [] ==> AlwaysLoopFree(g, Next(g, s, evs[0]), evs[1..]))
  }

  lemma LoopFreeStep(g: Topology, s: Net, e: Event)
    requires g.Valid() && Sound(g, s) && LoopFree(s.tables) && Enabled(g, s, e)
    ensures LoopFree(Next(g, s, e).tables) <==> Harmless(g, s, e)
  {
    hide Walk, LoopFree, SoundRoute, Crosses, ApplyAll;
    match e
    case Deliver(a, b, i, _, now) =>
      var entries := s.queues[(a, b)][i].entries;
      assert SoundEntries(g, a, entries);
      DeliveryClosesLoopExactly(s.tables, a, b, entries, now);
    case Expire(n, ttl, time) => ExpiryKeepsLoopFree(s.tables, n, ttl, time);
    case _ =>
  }

  /** Two-node loops, exactly: in every run in which announcements are lost, duplicated, delayed and
      reordered and routes expire, all states are free of them if and only if no announcement crosses
      when it is delivered. */
  lemma {:induction false} LoopFreeExactly(g: Topology, s: Net, evs: seq<Event>)
    requires g.Valid() && WellFormed(g, s) && Sound(g, s) && LoopFree(s.tables) && IsRun(g, s, evs)
    ensures AlwaysLoopFree(g, s, evs) <==> NoneCrosses(g, s, evs)
    decreases |evs|
  {
    hide Walk, Sound, LoopFree, Enabled, Harmless, WellFormed;
    if evs != [] {
      SoundStep(g, s, evs[0]);
      LoopFreeStep(g, s, evs[0]);
      var s' := Next(g, s, evs[0]);
      if LoopFree(s'.tables) {
        LoopFreeExactly(g, s', evs[1..]);
      }
    }
  }

  lemma {:induction false} LoopFreeAtTheEnd(g: Topology, s: Net, evs: seq<Event>)
    requires WellFormed(g, s) && IsRun(g, s, evs) && AlwaysLoopFree(g, s, evs)
    ensures LoopFree(Final(g, s, evs).tables)
    decreases |evs|
  {
    hide LoopFree, Enabled, WellFormed;
    if evs != [] {
      LoopFreeAtTheEnd(g, Next(g, s, evs[0]), evs[1..]);
    }
  }

  // ----- Prompt runs -----

  /** An announcement that is applied as it was built does not cross: poisoned reverse. */
  lemma PromptDoesNotCross(tables: map<NodeId, Table>, a: NodeId, b: NodeId, entries: seq<Entry>, dst: NodeId)
    requires LoopFree(tables) && a in tables && IsAnnouncement(a, tables[a], Some(b), entries)
    ensures !Crosses(tables, a, b, entries, dst)
  {
  }

  lemma PromptExchange(g: Topology, s: Net, e: Event, e': Event)
    requires g.Valid() && WellFormed(g, s) && LoopFree(s.tables) && IsExchange(g, s, e, e')
    ensures Harmless(g, s, e) && Harmless(g, Next(g, s, e), e')
  {
    hide Walk, LoopFree, Crosses;
    var s' := Next(g, s, e);
    assert s'.tables == s.tables && s'.queues[(e.src, e.dst)][0].entries == e.entries;
    forall dst ensures !Crosses(s.tables, e.src, e.dst, e.entries, dst) {
      PromptDoesNotCross(s.tables, e.src, e.dst, e.entries, dst);
    }
  }

  lemma {:induction false} PromptRunsNeverCross(g: Topology, s: Net, evs: seq<Event>)
    requires g.Valid() && WellFormed(g, s) && Sound(g, s) && LoopFree(s.tables) && IsPromptRun(g, s, evs)
    ensures IsRun(g, s, evs) && NoneCrosses(g, s, evs)
    decreases |evs|
  {
    PromptRunsAreRuns(g, s, evs);
    hide Walk, Sound, LoopFree, Enabled, IsExchange, WellFormed;
    if evs == [] {
    } else if evs[0].Expire? {
      SoundStep(g, s, evs[0]);
      LoopFreeStep(g, s, evs[0]);
      PromptRunsNeverCross(g, Next(g, s, evs[0]), evs[1..]);
    } else {
      var s' := Next(g, s, evs[0]);
      PromptExchange(g, s, evs[0], evs[1]);
      SoundStep(g, s, evs[0]);
      LoopFreeStep(g, s, evs[0]);
      SoundStep(g, s', evs[1]);
      LoopFreeStep(g, s', evs[1]);
      PromptRunsNeverCross(g, AfterExchange(g, s, evs[0], evs[1]), evs[2..]);
      assert evs[1..][0] == evs[1] && evs[1..][1..] == evs[2..];
    }
  }

  /** Poisoned reverse: with each announcement applied as it is built, no reachable state has two
      nodes that are each other's learner for a destination, through refresh, withdrawal and expiry. */
  lemma PoisonedReverseExcludesTwoNodeLoops(g: Topology, s: Net, evs: seq<Event>)
    requires g.Valid() && WellFormed(g, s) && Sound(g, s) && LoopFree(s.tables) && IsPromptRun(g, s, evs)
    ensures IsRun(g, s, evs) && AlwaysLoopFree(g, s, evs) && LoopFree(Final(g, s, evs).tables)
  {
    PromptRunsNeverCross(g, s, evs);
    LoopFreeExactly(g, s, evs);
    LoopFreeAtTheEnd(g, s, evs);
  }

  // ----- Why promptness matters -----

  const A := NodeId("a")
  const B := NodeId("b")
  const D := NodeId("d")

  /** Three nodes, all connected to each other. */
  const TRIANGLE := Topology({A, B, D}, {(A, B), (B, A), (A, D), (D, A), (B, D), (D, B)})

  /** The triangle with given routes to `d` at `a` and `b`, and given messages from `a` to `b`,
      from `b` to `a`, and from `d` to each. */
  ghost function State(ra: Table, rb: Table, ab: seq<Message>, ba: seq<Message>, da: seq<Message>, db: seq<Message>,
                       steps: nat): (s: Net)
    ensures WellFormed(TRIANGLE, s)
  {
    Net(map[A := ra, B := rb, D := map[]],
        map[(A, B) := ab, (B, A) := ba, (A, D) := [], (D, A) := da, (B, D) := [], (D, B) := db],
        steps)
  }

  /** What a node without routes makes of `d`'s announcement, heard from `from`. */
  lemma Learns(self: NodeId, entries: seq<Entry>, from: NodeId, now: int)
    requires self != D && self != from && self.name != "" && from.name != ""
    requires entries == [Entry(D, 0)] || (entries == [Entry(from, 0), Entry(D, 1)] && from != D)
    ensures var t := ApplyAll(self, map[], entries, from, now);
            D in t && t[D].learnedFrom == from && t[D].cost == |entries| && t[D].updated == now
            && (from == D ==> t == map[D := Route(D, 1, D, now)])
  {
    if |entries| == 1 {
      assert entries[..0] == [];
    } else {
      ApplyAllAt(self, map[], entries, from, now, 1);
    }
  }

  const FROM_A := [Entry(A, 0), Entry(D, 1)]
  const FROM_B := [Entry(B, 0), Entry(D, 1)]
  const DIRECT: Table := map[D := Route(D, 1, D, 0)]

  lemma AnnouncesUnpoisoned(self: NodeId, peer: NodeId)
    requires self != peer && self != D && peer != D
    ensures IsAnnouncement(self, DIRECT, Some(peer), [Entry(self, 0), Entry(D, 1)])
  {
    assert [Entry(self, 0), Entry(D, 1)][1].destination == D;
  }

  /** The states of the run: `d` greets `a`, then `b`; they tell each other; both routes expire;
      then both announcements arrive. */
  ghost function Hello(i: nat): (s: Net)
    ensures WellFormed(TRIANGLE, s)
  {
    if i == 0 then State(map[], map[], [], [], [], [], 0)
    else if i == 1 then State(map[], map[], [], [], [Message([Entry(D, 0)], 0)], [], 1)
    else if i == 2 then State(DIRECT, map[], [], [], [], [], 2)
    else if i == 3 then State(DIRECT, map[], [], [], [], [Message([Entry(D, 0)], 2)], 3)
    else State(DIRECT, DIRECT, [], [], [], [], 4)
  }

  ghost function Cross(i: nat): (s: Net)
    ensures WellFormed(TRIANGLE, s)
  {
    var ab, ba := [Message(FROM_A, 4)], [Message(FROM_B, 5)];
    if i == 0 then State(DIRECT, DIRECT, ab, [], [], [], 5)
    else if i == 1 then State(DIRECT, DIRECT, ab, ba, [], [], 6)
    else if i == 2 then State(map[], DIRECT, ab, ba, [], [], 7)
    else State(map[], map[], ab, ba, [], [], 8)
  }

  lemma GreetA()
    ensures Reachable(TRIANGLE, Hello(2))
  {
    hide Reachable, IsRun, Final;
    InitialIsReachable(TRIANGLE);
    assert Initial(TRIANGLE) == Hello(0);
    assert [] + [Message([Entry(D, 0)], 0)] == [Message([Entry(D, 0)], 0)];
    assert Next(TRIANGLE, Hello(0), Announce(D, A, [Entry(D, 0)])) == Hello(1);
    ReachableStep(TRIANGLE, Hello(0), Announce(D, A, [Entry(D, 0)]));
    Learns(A, [Entry(D, 0)], D, 0);
    assert Next(TRIANGLE, Hello(1), Deliver(D, A, 0, false, 0)) == Hello(2);
    ReachableStep(TRIANGLE, Hello(1), Deliver(D, A, 0, false, 0));
  }

  lemma DGreetsB()
    ensures var e := Announce(D, B, [Entry(D, 0)]);
            Enabled(TRIANGLE, Hello(2), e) && Next(TRIANGLE, Hello(2), e) == Hello(3)
  {
    assert [] + [Message([Entry(D, 0)], 2)] == [Message([Entry(D, 0)], 2)];
  }

  lemma BHearsD()
    ensures var e := Deliver(D, B, 0, false, 0);
            Enabled(TRIANGLE, Hello(3), e) && Next(TRIANGLE, Hello(3), e) == Hello(4)
  {
    Learns(B, [Entry(D, 0)], D, 0);
  }

  lemma GreetB()
    ensures Reachable(TRIANGLE, Hello(4))
  {
    hide Reachable, IsRun, Final, Next, Enabled, Hello;
    GreetA();
    DGreetsB();
    ReachableStep(TRIANGLE, Hello(2), Announce(D, B, [Entry(D, 0)]));
    BHearsD();
    ReachableStep(TRIANGLE, Hello(3), Deliver(D, B, 0, false, 0));
  }

  lemma AToldB()
    ensures var e := Announce(A, B, FROM_A);
            Enabled(TRIANGLE, Hello(4), e) && Next(TRIANGLE, Hello(4), e) == Cross(0)
  {
    AnnouncesUnpoisoned(A, B);
    hide IsAnnouncement, ApplyAll, DIRECT, FROM_A;
    assert [] + [Message(FROM_A, 4)] == [Message(FROM_A, 4)];
  }

  lemma ATells()
    ensures Reachable(TRIANGLE, Cross(0))
  {
    hide Reachable, IsRun, Final, Next, Enabled, Hello, Cross;
    GreetB();
    AToldB();
    ReachableStep(TRIANGLE, Hello(4), Announce(A, B, FROM_A));
  }

  lemma TellEachOther()
    ensures Reachable(TRIANGLE, Cross(1))
  {
    hide Reachable, IsRun, Final;
    ATells();
    AnnouncesUnpoisoned(B, A);
    assert [] + [Message(FROM_B, 5)] == [Message(FROM_B, 5)];
    assert Next(TRIANGLE, Cross(0), Announce(B, A, FROM_B)) == Cross(1);
    ReachableStep(TRIANGLE, Cross(0), Announce(B, A, FROM_B));
  }

  lemma BothExpire()
    ensures Reachable(TRIANGLE, Cross(3))
  {
    hide Reachable, IsRun, Final;
    TellEachOther();
    assert Next(TRIANGLE, Cross(1), Expire(A, 90, 91)) == Cross(2);
    ReachableStep(TRIANGLE, Cross(1), Expire(A, 90, 91));
    assert Next(TRIANGLE, Cross(2), Expire(B, 90, 91)) == Cross(3);
    ReachableStep(TRIANGLE, Cross(2), Expire(B, 90, 91));
  }

  /** `b` hears `a`'s announcement and routes to `d` through `a`. */
  lemma FirstArrives() returns (s: Net)
    ensures WellFormed(TRIANGLE, s) && Reachable(TRIANGLE, s)
    ensures s.tables[A] == map[] && s.queues[(B, A)] == [Message(FROM_B, 5)]
    ensures D in s.tables[B] && s.tables[B][D].learnedFrom == A
  {
    hide Reachable, IsRun, Final;
    BothExpire();
    var e := Deliver(A, B, 0, false, 91);
    s := Next(TRIANGLE, Cross(3), e);
    Learns(B, FROM_A, A, 91);
    ReachableStep(TRIANGLE, Cross(3), e);
  }

  /** Poisoned reverse does not exclude two-node loops once announcements can wait in a channel:
      two unpoisoned ones may cross while both routes expire. */
  lemma CrossingAnnouncementsLoop()
    ensures TRIANGLE.Valid()
    ensures exists s :: WellFormed(TRIANGLE, s) && Reachable(TRIANGLE, s) && MutualLearners(s.tables, A, B, D)
  {
    hide Reachable, IsRun, Final;
    var s1 := FirstArrives();
    var e := Deliver(B, A, 0, false, 91);
    var s := Next(TRIANGLE, s1, e);
    Learns(A, FROM_B, B, 91);
    ReachableStep(TRIANGLE, s1, e);
    assert MutualLearners(s.tables, A, B, D);
  }
}
