/** What relaying cannot amplify, in a network that may duplicate, delay, reorder and lose. */
module Amplification {
  import opened Graph
  import opened RoutingTables
  import opened Dedup
  import opened Router
  import Breaker

  type World = map<NodeId, NodeState>

  /** A copy in the network, addressed to `to`, with the frame it descends from. */
  datatype Copy = Copy(to: NodeId, frame: FrameView, origin: FrameView, relays: nat)

  datatype Forward = Forward(node: NodeId, source: NodeId, id: MsgId)

  /** Copies never leave `copies`: any of them may be handled never, once, or again and again. */
  datatype Mesh = Mesh(world: World, copies: set<Copy>, forwards: seq<Forward>)

  /** `Change` is anything else that happens at a node: routes, connections and breakers come and
      go. Only its identity, mode and duplicate cache stay. */
  datatype Event =
    | Inject(to: NodeId, frame: FrameView)
    | Handle(copy: Copy, transport: Option<string>, now: int, sendOk: bool)
    | Accept(copy: Copy, now: int)
    | Clean(node: NodeId, now: int)
    | Change(node: NodeId, table: Table, clients: set<NodeId>, peers: Breaker.Peers)

  predicate Enabled(m: Mesh, e: Event) {
    match e
    case Inject(to, f) => to in m.world
    case Handle(c, _, _, _) => c in m.copies && c.to in m.world && c.frame.destination != c.to
    case Accept(c, _) => c in m.copies && c.to in m.world && c.frame.destination == c.to
    case Clean(n, _) => n in m.world
    case Change(n, _, _, _) => n in m.world
  }

  /** A relayed copy on its way to `next`. */
  function Child(st: NodeState, c: Copy, next: NodeId): Copy {
    Copy(next, Forwarded(st, c.frame), c.origin, c.relays + 1)
  }

  function Next(m: Mesh, e: Event): Mesh
    requires Enabled(m, e)
  {
    match e
    case Inject(to, f) => m.(copies := m.copies + {Copy(to, f, f, 0)})
    case Handle(c, transport, now, sendOk) =>
      var st := m.world[c.to];
      var o := OutcomeOf(st, c.frame, now, sendOk);
      var world := m.world[c.to := NodeAfter(st, c.frame, o, StampOf(transport, now), now)];
      if o.Sent? then
        Mesh(world, m.copies + {Child(st, c, o.next)}, m.forwards + [Forward(c.to, c.frame.source, c.frame.id)])
      else m.(world := world)
    case Accept(c, now) =>
      var st := m.world[c.to];
      if Seen(st, c.frame) then m
      else m.(world := m.world[c.to := st.(log := st.log + [Dedup.Event.Add(c.frame.source, c.frame.id, Plain(now))])])
    case Clean(n, now) =>
      m.(world := m.world[n := m.world[n].(log := m.world[n].log + [Sweep(now)])])
    case Change(n, table, clients, peers) =>
      m.(world := m.world[n := m.world[n].(table := table, clients := clients, peers := peers)])
  }

  predicate IsRun(m: Mesh, evs: seq<Event>)
    decreases |evs|
  {
    evs == [] || (Enabled(m, evs[0]) && IsRun(Next(m, evs[0]), evs[1..]))
  }

  function Final(m: Mesh, evs: seq<Event>): Mesh
    requires IsRun(m, evs)
    decreases |evs|
  {
    if evs == [] then m else Final(Next(m, evs[0]), evs[1..])
  }

  ghost predicate NoRepeats<T>(q: seq<T>) {
    forall i, j :: 0 <= i < j < |q| ==> q[i] != q[j]
  }

  // ----- Every copy, in every run -----

  /** Relaying trades one unit of time to live for one hop; so a copy is relayed at most as often
      as its origin had to live, and never lists a node twice unless the origin did. */
  ghost predicate Bounded(c: Copy) {
    && c.frame.ttl + |c.frame.hops| == c.origin.ttl + |c.origin.hops|
    && c.relays == |c.frame.hops| - |c.origin.hops|
    && (c.relays > 0 ==> c.frame.ttl >= 0)
    && c.origin.hops <= c.frame.hops
    && (NoRepeats(c.origin.hops) ==> NoRepeats(c.frame.hops))
    && c.frame.source == c.origin.source && c.frame.destination == c.origin.destination && c.frame.id == c.origin.id
  }

  ghost predicate AllBounded(m: Mesh) {
    && (forall c :: c in m.copies ==> Bounded(c))
    && (forall n :: n in m.world ==> m.world[n].id == n)
  }

  lemma ChildIsBounded(st: NodeState, c: Copy, next: NodeId)
    requires Bounded(c) && c.frame.ttl > 0 && st.id !in c.frame.hops
    ensures Bounded(Child(st, c, next))
  {
    var hops := c.frame.hops + [st.id];
    if NoRepeats(c.frame.hops) {
      forall i, j | 0 <= i < j < |hops|
        ensures hops[i] != hops[j]
      {
        assert hops[i] == c.frame.hops[i];
      }
    }
  }

  lemma BoundedStep(m: Mesh, e: Event)
    requires AllBounded(m) && Enabled(m, e)
    ensures AllBounded(Next(m, e))
  {
    match e
    case Handle(c, _, now, sendOk) =>
      var st := m.world[c.to];
      var o := OutcomeOf(st, c.frame, now, sendOk);
      if o.Sent? {
        ChildIsBounded(st, c, o.next);
      }
    case _ =>
  }

  /** No amplification along a path: in every run, whatever happens to routes, connections,
      breakers and caches, every copy satisfies `Bounded`. */
  lemma {:induction false} CopiesStayBounded(m: Mesh, evs: seq<Event>)
    requires AllBounded(m) && IsRun(m, evs)
    ensures AllBounded(Final(m, evs))
    decreases |evs|
  {
    if evs != [] {
      BoundedStep(m, evs[0]);
      CopiesStayBounded(Next(m, evs[0]), evs[1..]);
    }
  }

  /** In particular no copy is relayed more often than its initial time to live. */
  lemma RelaysWithinTtl(m: Mesh, evs: seq<Event>, c: Copy)
    requires AllBounded(m) && IsRun(m, evs) && c in Final(m, evs).copies
    ensures c.relays <= if c.origin.ttl < 0 then 0 else c.origin.ttl
  {
    CopiesStayBounded(m, evs);
    assert Bounded(c);
  }

  // ----- The whole network, while duplicates are remembered -----

  /** Every node still remembers what it has forwarded. */
  ghost predicate Mindful(m: Mesh) {
    forall k :: 0 <= k < |m.forwards| ==> RemembersForward(m, m.forwards[k])
  }

  ghost predicate RemembersForward(m: Mesh, f: Forward) {
    f.node in m.world && Remembered(m.world[f.node].log, f.source, f.id, m.world[f.node].limits)
  }

  ghost predicate AlwaysMindful(m: Mesh, evs: seq<Event>)
    requires IsRun(m, evs)
    decreases |evs|
  {
    Mindful(m) && (evs != [] ==> AlwaysMindful(Next(m, evs[0]), evs[1..]))
  }

  lemma ForwardIsNew(m: Mesh, e: Event)
    requires Enabled(m, e) && Mindful(m) && NoRepeats(m.forwards)
    ensures NoRepeats(Next(m, e).forwards)
    ensures m.world.Keys == Next(m, e).world.Keys
  {
    if e.Handle? {
      var c := e.copy;
      var st := m.world[c.to];
      var o := OutcomeOf(st, c.frame, e.now, e.sendOk);
      if o.Sent? {
        var f := Forward(c.to, c.frame.source, c.frame.id);
        forall k | 0 <= k < |m.forwards|
          ensures m.forwards[k] != f
        {
          assert RemembersForward(m, m.forwards[k]);
          if m.forwards[k] == f {
            RememberedIsReported(st.log, f.source, f.id, st.limits);
          }
        }
      }
    }
  }

  /** While no node forgets what it forwarded, no node forwards the same message twice. */
  lemma {:induction false} ForwardsOnce(m: Mesh, evs: seq<Event>)
    requires IsRun(m, evs) && AlwaysMindful(m, evs) && NoRepeats(m.forwards)
    ensures NoRepeats(Final(m, evs).forwards) && Final(m, evs).world.Keys == m.world.Keys && Mindful(Final(m, evs))
    decreases |evs|
  {
    if evs != [] {
      ForwardIsNew(m, evs[0]);
      ForwardsOnce(Next(m, evs[0]), evs[1..]);
    }
  }

  /** How often the network forwarded one message. */
  function TimesForwarded(q: seq<Forward>, source: NodeId, id: MsgId): nat {
    if q == [] then 0
    else
      TimesForwarded(q[..|q| - 1], source, id)
      + (if q[|q| - 1].source == source && q[|q| - 1].id == id then 1 else 0)
  }

  lemma {:induction false} TimesForwardedBound(q: seq<Forward>, source: NodeId, id: MsgId, nodes: set<NodeId>)
    requires NoRepeats(q)
    requires forall k :: 0 <= k < |q| && q[k].source == source && q[k].id == id ==> q[k].node in nodes
    ensures TimesForwarded(q, source, id) <= |nodes|
  {
    if q != [] {
      var init, last := q[..|q| - 1], q[|q| - 1];
      if last.source == source && last.id == id {
        assert last.node in nodes;
        TimesForwardedBound(init, source, id, nodes - {last.node});
      } else {
        TimesForwardedBound(init, source, id, nodes);
      }
    }
  }

  /** No amplification across the network: while the duplicate window holds at every node, the
      whole network relays one message at most once per node, however many copies circulate. */
  lemma NetworkRelaysOncePerNode(m: Mesh, evs: seq<Event>, source: NodeId, id: MsgId)
    requires IsRun(m, evs) && AlwaysMindful(m, evs) && m.forwards == []
    ensures TimesForwarded(Final(m, evs).forwards, source, id) <= |m.world|
  {
    ForwardsOnce(m, evs);
    var q := Final(m, evs).forwards;
    forall k | 0 <= k < |q|
      ensures q[k].node in m.world.Keys
    {
      assert RemembersForward(Final(m, evs), q[k]);
    }
    TimesForwardedBound(q, source, id, m.world.Keys);
  }
}
