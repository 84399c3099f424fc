/** The per-source sharded duplicate cache: a two-level bounded LRU, against an exact seen-set. */
module Dedup {
  import opened Graph
  import opened OrderedDicts

  datatype MsgId = MsgId(text: string)

  /** When an id was recorded, and over which transport if the caller said. */
  datatype Stamp = Plain(at: int) | Tagged(at: int, transport: string)

  type Bucket = OrderedDict<MsgId, Stamp>
  type Cache = OrderedDict<NodeId, Bucket>

  datatype Limits = Limits(sourcesMax: nat, perSourceMax: nat, ttl: int)

  predicate Contains(c: Cache, source: NodeId, id: MsgId) {
    source in c.items && id in c.items[source].items
  }

  // ----- Updates -----

  function BucketOf(c: Cache, source: NodeId): Bucket {
    if source in c.items then c.items[source] else Empty()
  }

  function Inserted(c: Cache, source: NodeId, id: MsgId, stamp: Stamp, lim: Limits): Cache {
    c.PutLast(source, BucketOf(c, source).PutLast(id, stamp).Newest(lim.perSourceMax)).Newest(lim.sourcesMax)
  }

  function IsFresh(b: Bucket, ttl: int, now: int): MsgId -> bool {
    id => id in b.items && now - b.items[id].at <= ttl
  }

  function Unstale(b: Bucket, ttl: int, now: int): Bucket {
    var p := IsFresh(b, ttl, now);
    OrderedDict(Keep(b.keys, p), map id | id in b.items && p(id) :: b.items[id])
  }

  function HasFresh(c: Cache, ttl: int, now: int): NodeId -> bool {
    s => s in c.items && Unstale(c.items[s], ttl, now).keys != []
  }

  function Cleaned(c: Cache, ttl: int, now: int): Cache {
    var p := HasFresh(c, ttl, now);
    OrderedDict(Keep(c.keys, p), map s | s in c.items && p(s) :: Unstale(c.items[s], ttl, now))
  }

  // ----- The history of a cache, and what an exact seen-set says about it -----

  /** What changed a cache: an id recorded, or a sweep. A call that only reports a duplicate
      changes nothing and is not an event. */
  datatype Event = Add(source: NodeId, id: MsgId, stamp: Stamp) | Sweep(now: int)

  type Log = seq<Event>

  function Apply(c: Cache, e: Event, lim: Limits): Cache {
    match e
    case Add(s, i, stamp) => Inserted(c, s, i, stamp, lim)
    case Sweep(now) => Cleaned(c, lim.ttl, now)
  }

  function Replay(log: Log, lim: Limits): Cache {
    if log == [] then Empty() else Apply(Replay(log[..|log| - 1], lim), log[|log| - 1], lim)
  }

  /** The time of the last add of `(source, id)`. */
  function LastAdd(log: Log, source: NodeId, id: MsgId): Option<int> {
    if log == [] then None
    else
      var e := log[|log| - 1];
      if e.Add? && e.source == source && e.id == id then Some(e.stamp.at)
      else LastAdd(log[..|log| - 1], source, id)
  }

  /** The other ids of `source` added since the last add of `(source, id)`. */
  function IdsSince(log: Log, source: NodeId, id: MsgId): set<MsgId> {
    if log == [] then {}
    else
      var e := log[|log| - 1];
      if !e.Add? || e.source != source then IdsSince(log[..|log| - 1], source, id)
      else if e.id == id then {}
      else IdsSince(log[..|log| - 1], source, id) + {e.id}
  }

  /** The other sources that had an add since the last add of `source`. */
  function SourcesSince(log: Log, source: NodeId): set<NodeId> {
    if log == [] then {}
    else
      var e := log[|log| - 1];
      if !e.Add? then SourcesSince(log[..|log| - 1], source)
      else if e.source == source then {}
      else SourcesSince(log[..|log| - 1], source) + {e.source}
  }

  /** The pair was added, and at no moment since its last add have `perSourceMax` other ids of
      its source come after it, or `sourcesMax` other sources after its source's own last add,
      or a sweep found it older than the time-to-live. */
  predicate Remembered(log: Log, source: NodeId, id: MsgId, lim: Limits) {
    if log == [] then false
    else
      var e, before := log[|log| - 1], log[..|log| - 1];
      match e
      case Add(s, i, _) =>
        && ((s == source && i == id) || Remembered(before, source, id, lim))
        && |IdsSince(log, source, id)| < lim.perSourceMax
        && |SourcesSince(log, source)| < lim.sourcesMax
      case Sweep(now) =>
        && Remembered(before, source, id, lim)
        && LastAdd(before, source, id).Some?
        && now - LastAdd(before, source, id).value <= lim.ttl
  }

  function TimeOf(e: Event): int {
    match e
    case Add(_, _, stamp) => stamp.at
    case Sweep(now) => now
  }

  /** The clock never ran backwards. */
  ghost predicate Nondecreasing(log: Log) {
    forall i, j :: 0 <= i < j < |log| ==> TimeOf(log[i]) <= TimeOf(log[j])
  }

  // ----- The invariant between history and cache -----

  ghost predicate WellFormed(c: Cache) {
    c.Valid() && forall s :: s in c.items ==> c.items[s].Valid()
  }

  /** Whatever is in the cache was added, and only later adds are behind it. */
  ghost predicate Tracks(log: Log, c: Cache) {
    && WellFormed(c)
    && (forall s :: s in c.items ==> TracksBucket(log, s, c.items[s]))
    && (forall s :: s in c.items ==> After(c.keys, s) <= SourcesSince(log, s))
  }

  ghost predicate TracksBucket(log: Log, s: NodeId, b: Bucket) {
    forall i :: i in b.items ==>
      LastAdd(log, s, i) == Some(b.items[i].at) && After(b.keys, i) <= IdsSince(log, s, i)
  }

  lemma UnstaleValid(b: Bucket, ttl: int, now: int)
    requires b.Valid()
    ensures Unstale(b, ttl, now).Valid()
  {
    KeepMembers(b.keys, IsFresh(b, ttl, now));
    KeepDistinct(b.keys, IsFresh(b, ttl, now));
  }

  lemma CleanedWellFormed(c: Cache, ttl: int, now: int)
    requires WellFormed(c)
    ensures WellFormed(Cleaned(c, ttl, now))
  {
    KeepMembers(c.keys, HasFresh(c, ttl, now));
    KeepDistinct(c.keys, HasFresh(c, ttl, now));
    forall s | s in Cleaned(c, ttl, now).items
      ensures Cleaned(c, ttl, now).items[s].Valid()
    {
      UnstaleValid(c.items[s], ttl, now);
    }
  }

  lemma InsertedWellFormed(c: Cache, s: NodeId, i: MsgId, stamp: Stamp, lim: Limits)
    requires WellFormed(c)
    ensures WellFormed(Inserted(c, s, i, stamp, lim))
  {
    var b := BucketOf(c, s).PutLast(i, stamp).Newest(lim.perSourceMax);
    PutNewestValid(BucketOf(c, s), i, stamp, lim.perSourceMax);
    PutNewestValid(c, s, b, lim.sourcesMax);
  }

  /** An insert, pair by pair. */
  lemma InsertedAt(c: Cache, s: NodeId, i: MsgId, stamp: Stamp, lim: Limits, t: NodeId)
    requires WellFormed(c)
    ensures var c' := Inserted(c, s, i, stamp, lim);
            && (t in c'.items <==> (t == s || t in c.items) && |PutAfter(c.keys, s, t)| < lim.sourcesMax)
            && (t in c'.items ==> After(c'.keys, t) == PutAfter(c.keys, s, t))
            && (t in c'.items && t != s ==> c'.items[t] == c.items[t])
            && (t in c'.items && t == s ==> c'.items[t] == BucketOf(c, s).PutLast(i, stamp).Newest(lim.perSourceMax))
  {
    PutNewestAt(c, s, BucketOf(c, s).PutLast(i, stamp).Newest(lim.perSourceMax), lim.sourcesMax, t);
  }

  lemma BucketTracksAdd(log: Log, log': Log, b: Bucket, e: Event, lim: Limits)
    requires e.Add? && log' == log + [e] && b.Valid() && TracksBucket(log, e.source, b)
    ensures TracksBucket(log', e.source, b.PutLast(e.id, e.stamp).Newest(lim.perSourceMax))
  {
    assert log'[..|log'| - 1] == log;
    var b' := b.PutLast(e.id, e.stamp).Newest(lim.perSourceMax);
    forall i | i in b'.items
      ensures LastAdd(log', e.source, i) == Some(b'.items[i].at) && After(b'.keys, i) <= IdsSince(log', e.source, i)
    {
      PutNewestAt(b, e.id, e.stamp, lim.perSourceMax, i);
    }
  }

  lemma BucketTracksOther(log: Log, log': Log, s: NodeId, b: Bucket, e: Event)
    requires log' == log + [e] && TracksBucket(log, s, b) && (e.Add? ==> e.source != s)
    ensures TracksBucket(log', s, b)
  {
    assert log'[..|log'| - 1] == log;
  }

  lemma TracksAdd(log: Log, log': Log, c: Cache, e: Event, lim: Limits)
    requires e.Add? && log' == log + [e] && Tracks(log, c)
    ensures Tracks(log', Apply(c, e, lim))
  {
    assert log'[..|log'| - 1] == log;
    var c' := Apply(c, e, lim);
    InsertedWellFormed(c, e.source, e.id, e.stamp, lim);
    forall s | s in c'.items
      ensures TracksBucket(log', s, c'.items[s]) && After(c'.keys, s) <= SourcesSince(log', s)
    {
      InsertedAt(c, e.source, e.id, e.stamp, lim, s);
      if s == e.source {
        BucketTracksAdd(log, log', BucketOf(c, s), e, lim);
      } else {
        BucketTracksOther(log, log', s, c.items[s], e);
      }
    }
  }

  lemma UnstaleAt(b: Bucket, ttl: int, now: int, i: MsgId)
    requires b.Valid()
    ensures var b' := Unstale(b, ttl, now);
            && (i in b'.items <==> i in b.items && now - b.items[i].at <= ttl)
            && (i in b'.items ==> b'.items[i] == b.items[i])
            && (i in b'.items ==> After(b'.keys, i) == set j | j in After(b.keys, i) && IsFresh(b, ttl, now)(j))
  {
    if IsFresh(b, ttl, now)(i) {
      KeepAfter(b.keys, IsFresh(b, ttl, now), i);
    }
  }

  lemma CleanedAt(c: Cache, ttl: int, now: int, s: NodeId)
    requires WellFormed(c)
    ensures var c' := Cleaned(c, ttl, now);
            && (s in c'.items <==> s in c.items && Unstale(c.items[s], ttl, now).keys != [])
            && (s in c'.items ==> c'.items[s] == Unstale(c.items[s], ttl, now))
            && (s in c'.items ==> After(c'.keys, s) == set t | t in After(c.keys, s) && HasFresh(c, ttl, now)(t))
  {
    if HasFresh(c, ttl, now)(s) {
      KeepAfter(c.keys, HasFresh(c, ttl, now), s);
    }
  }

  lemma BucketTracksSweep(log: Log, log': Log, s: NodeId, b: Bucket, ttl: int, now: int)
    requires log' == log + [Sweep(now)] && b.Valid() && TracksBucket(log, s, b)
    ensures TracksBucket(log', s, Unstale(b, ttl, now))
  {
    assert log'[..|log'| - 1] == log;
    forall i | i in Unstale(b, ttl, now).items
      ensures LastAdd(log', s, i) == Some(b.items[i].at) && After(Unstale(b, ttl, now).keys, i) <= IdsSince(log', s, i)
    {
      UnstaleAt(b, ttl, now, i);
    }
  }

  lemma TracksSweep(log: Log, log': Log, c: Cache, now: int, lim: Limits)
    requires log' == log + [Sweep(now)] && Tracks(log, c)
    ensures Tracks(log', Apply(c, Sweep(now), lim))
  {
    assert log'[..|log'| - 1] == log;
    var c' := Cleaned(c, lim.ttl, now);
    CleanedWellFormed(c, lim.ttl, now);
    forall s | s in c'.items
      ensures TracksBucket(log', s, c'.items[s]) && After(c'.keys, s) <= SourcesSince(log', s)
    {
      CleanedAt(c, lim.ttl, now, s);
      BucketTracksSweep(log, log', s, c.items[s], lim.ttl, now);
    }
  }

  lemma {:induction false} ReplayTracks(log: Log, lim: Limits)
    ensures Tracks(log, Replay(log, lim))
  {
    if log != [] {
      var before, e := log[..|log| - 1], log[|log| - 1];
      assert log == before + [e];
      ReplayTracks(before, lim);
      match e
      case Add(_, _, _) => TracksAdd(before, log, Replay(before, lim), e, lim);
      case Sweep(now) => TracksSweep(before, log, Replay(before, lim), now, lim);
    }
  }

  // ----- With a clock that never runs backwards, the order is exact -----

  /** The time of the most recent entry. */
  function Recent(b: Bucket): int {
    if b.keys != [] && b.keys[|b.keys| - 1] in b.items then b.items[b.keys[|b.keys| - 1]].at else 0
  }

  ghost predicate InOrder(log: Log, c: Cache, time: int) {
    forall s :: s in c.items ==> ShardInOrder(log, c, s, time)
  }

  /** Behind a source are exactly the sources added to since, and they are more recent. */
  ghost predicate ShardInOrder(log: Log, c: Cache, s: NodeId, time: int)
    requires s in c.items
  {
    && BucketInOrder(log, s, c.items[s], time)
    && SourcesSince(log, s) <= After(c.keys, s)
    && (forall t :: t in c.items && t in After(c.keys, s) ==> Recent(c.items[s]) <= Recent(c.items[t]))
  }

  ghost predicate BucketInOrder(log: Log, s: NodeId, b: Bucket, time: int) {
    && b.Valid()
    && b.keys != []
    && (forall i :: i in b.items ==> IdsSince(log, s, i) <= After(b.keys, i) && b.items[i].at <= time)
    && (forall i, j :: i in b.items && j in b.items && j in After(b.keys, i) ==> b.items[i].at <= b.items[j].at)
  }

  lemma BucketInOrderAdd(log: Log, log': Log, b: Bucket, e: Event, lim: Limits, time: int)
    requires e.Add? && log' == log + [e] && b.Valid() && time <= e.stamp.at && lim.perSourceMax >= 1
    requires b.keys == [] || BucketInOrder(log, e.source, b, time)
    ensures b.PutLast(e.id, e.stamp).Newest(lim.perSourceMax).Valid()
    ensures BucketInOrder(log', e.source, b.PutLast(e.id, e.stamp).Newest(lim.perSourceMax), e.stamp.at)
    ensures Recent(b.PutLast(e.id, e.stamp).Newest(lim.perSourceMax)) == e.stamp.at
  {
    assert log'[..|log'| - 1] == log;
    PutNewestValid(b, e.id, e.stamp, lim.perSourceMax);
    PutNewestLast(b, e.id, e.stamp, lim.perSourceMax);
    var b' := b.PutLast(e.id, e.stamp).Newest(lim.perSourceMax);
    forall i | i in b'.items
      ensures IdsSince(log', e.source, i) <= After(b'.keys, i) && b'.items[i].at <= e.stamp.at
    {
      PutNewestAt(b, e.id, e.stamp, lim.perSourceMax, i);
    }
    forall i, j | i in b'.items && j in b'.items && j in After(b'.keys, i)
      ensures b'.items[i].at <= b'.items[j].at
    {
      PutNewestAt(b, e.id, e.stamp, lim.perSourceMax, i);
      PutNewestAt(b, e.id, e.stamp, lim.perSourceMax, j);
    }
  }

  lemma BucketInOrderOther(log: Log, log': Log, s: NodeId, b: Bucket, e: Event, time: int, time': int)
    requires log' == log + [e] && (e.Add? ==> e.source != s) && time <= time'
    requires b.Valid() && BucketInOrder(log, s, b, time)
    ensures BucketInOrder(log', s, b, time')
  {
    assert log'[..|log'| - 1] == log;
  }

  lemma ShardInOrderAdd(log: Log, log': Log, c: Cache, e: Event, lim: Limits, time: int, s: NodeId)
    requires e.Add? && log' == log + [e] && time <= e.stamp.at && lim.perSourceMax >= 1
    requires WellFormed(c) && InOrder(log, c, time) && s in Apply(c, e, lim).items
    ensures ShardInOrder(log', Apply(c, e, lim), s, e.stamp.at)
  {
    hide Inserted;
    assert log'[..|log'| - 1] == log;
    var c' := Apply(c, e, lim);
    InsertedAt(c, e.source, e.id, e.stamp, lim, s);
    BucketInOrderAddAny(log, log', c, e, lim, time, s);
    forall t | t in c'.items && t in After(c'.keys, s)
      ensures Recent(c'.items[s]) <= Recent(c'.items[t])
    {
      InsertedAt(c, e.source, e.id, e.stamp, lim, t);
      BucketInOrderAddAny(log, log', c, e, lim, time, t);
      if t != e.source {
        assert ShardInOrder(log, c, s, time);
      } else {
        RecentIsBounded(log', s, c'.items[s], e.stamp.at);
      }
    }
    if s != e.source {
      assert ShardInOrder(log, c, s, time);
    }
  }

  lemma RecentIsBounded(log: Log, s: NodeId, b: Bucket, time: int)
    requires BucketInOrder(log, s, b, time)
    ensures Recent(b) <= time
  {
  }

  lemma BucketInOrderAddAny(log: Log, log': Log, c: Cache, e: Event, lim: Limits, time: int, s: NodeId)
    requires e.Add? && log' == log + [e] && time <= e.stamp.at && lim.perSourceMax >= 1
    requires WellFormed(c) && InOrder(log, c, time) && s in Apply(c, e, lim).items
    ensures BucketInOrder(log', s, Apply(c, e, lim).items[s], e.stamp.at)
    ensures s == e.source ==> Recent(Apply(c, e, lim).items[s]) == e.stamp.at
  {
    hide Inserted, BucketInOrder;
    InsertedAt(c, e.source, e.id, e.stamp, lim, s);
    if s in c.items {
      assert ShardInOrder(log, c, s, time);
    }
    if s == e.source {
      BucketInOrderAdd(log, log', BucketOf(c, s), e, lim, time);
    } else {
      BucketInOrderOther(log, log', s, c.items[s], e, time, e.stamp.at);
    }
  }

  lemma InOrderAdd(log: Log, log': Log, c: Cache, e: Event, lim: Limits, time: int)
    requires e.Add? && log' == log + [e] && time <= e.stamp.at && lim.perSourceMax >= 1
    requires WellFormed(c) && InOrder(log, c, time)
    ensures WellFormed(Apply(c, e, lim)) && InOrder(log', Apply(c, e, lim), e.stamp.at)
  {
    InsertedWellFormed(c, e.source, e.id, e.stamp, lim);
    hide ShardInOrder, Apply;
    forall s | s in Apply(c, e, lim).items
      ensures ShardInOrder(log', Apply(c, e, lim), s, e.stamp.at)
    {
      ShardInOrderAdd(log, log', c, e, lim, time, s);
    }
  }

  /** A sweep that leaves anything in a bucket leaves its most recent entry. */
  lemma SweepKeepsRecent(log: Log, s: NodeId, b: Bucket, ttl: int, now: int, time: int)
    requires b.Valid() && BucketInOrder(log, s, b, time)
    ensures Unstale(b, ttl, now).Valid()
    ensures Unstale(b, ttl, now).keys != [] <==> now - Recent(b) <= ttl
    ensures Unstale(b, ttl, now).keys != [] ==> Recent(Unstale(b, ttl, now)) == Recent(b)
  {
    UnstaleValid(b, ttl, now);
    var last := b.keys[|b.keys| - 1];
    var p := IsFresh(b, ttl, now);
    if p(last) {
      KeepLast(b.keys, p);
    } else {
      forall k | 0 <= k < |b.keys|
        ensures !p(b.keys[k])
      {
        if b.keys[k] != last {
          LastIsAfter(b.keys, b.keys[k]);
        }
      }
      KeepNone(b.keys, p);
    }
  }

  lemma BucketInOrderSweep(log: Log, log': Log, s: NodeId, b: Bucket, ttl: int, now: int, time: int)
    requires log' == log + [Sweep(now)] && time <= now
    requires b.Valid() && BucketInOrder(log, s, b, time) && Unstale(b, ttl, now).keys != []
    ensures Unstale(b, ttl, now).Valid() && BucketInOrder(log', s, Unstale(b, ttl, now), now)
  {
    assert log'[..|log'| - 1] == log;
    UnstaleValid(b, ttl, now);
    var b' := Unstale(b, ttl, now);
    forall i | i in b'.items
      ensures IdsSince(log', s, i) <= After(b'.keys, i) && b'.items[i].at <= now
    {
      UnstaleAt(b, ttl, now, i);
      AfterMembers(b.keys, i);
      // Whatever is behind a fresh id is at least as fresh.
      assert forall j :: j in After(b.keys, i) ==> j in b.keys && j in b.items && IsFresh(b, ttl, now)(j);
    }
    forall i, j | i in b'.items && j in b'.items && j in After(b'.keys, i)
      ensures b'.items[i].at <= b'.items[j].at
    {
      UnstaleAt(b, ttl, now, i);
    }
  }

  lemma ShardInOrderSweep(log: Log, log': Log, c: Cache, now: int, lim: Limits, time: int, s: NodeId)
    requires log' == log + [Sweep(now)] && time <= now
    requires WellFormed(c) && InOrder(log, c, time) && s in Cleaned(c, lim.ttl, now).items
    ensures ShardInOrder(log', Cleaned(c, lim.ttl, now), s, now)
  {
    hide BucketInOrder, Unstale, Cleaned;
    assert log'[..|log'| - 1] == log;
    var c' := Cleaned(c, lim.ttl, now);
    CleanedAt(c, lim.ttl, now, s);
    assert ShardInOrder(log, c, s, time);
    BucketInOrderSweep(log, log', s, c.items[s], lim.ttl, now, time);
    SourcesBehindSurvive(log, c, s, lim.ttl, now, time);
    forall t | t in c'.items && t in After(c'.keys, s)
      ensures Recent(c'.items[s]) <= Recent(c'.items[t])
    {
      CleanedAt(c, lim.ttl, now, t);
      assert ShardInOrder(log, c, t, time);
      SweepKeepsRecent(log, s, c.items[s], lim.ttl, now, time);
      SweepKeepsRecent(log, t, c.items[t], lim.ttl, now, time);
    }
  }

  lemma InOrderSweep(log: Log, log': Log, c: Cache, now: int, lim: Limits, time: int)
    requires log' == log + [Sweep(now)] && time <= now
    requires WellFormed(c) && InOrder(log, c, time)
    ensures WellFormed(Cleaned(c, lim.ttl, now)) && InOrder(log', Cleaned(c, lim.ttl, now), now)
  {
    CleanedWellFormed(c, lim.ttl, now);
    hide ShardInOrder, Cleaned;
    forall s | s in Cleaned(c, lim.ttl, now).items
      ensures ShardInOrder(log', Cleaned(c, lim.ttl, now), s, now)
    {
      ShardInOrderSweep(log, log', c, now, lim, time, s);
    }
  }

  /** A source behind a surviving one survives too. */
  lemma SourcesBehindSurvive(log: Log, c: Cache, s: NodeId, ttl: int, now: int, time: int)
    requires WellFormed(c) && InOrder(log, c, time) && s in c.items && Unstale(c.items[s], ttl, now).keys != []
    ensures After(Cleaned(c, ttl, now).keys, s) == After(c.keys, s)
  {
    CleanedAt(c, ttl, now, s);
    AfterMembers(c.keys, s);
    assert ShardInOrder(log, c, s, time);
    SweepKeepsRecent(log, s, c.items[s], ttl, now, time);
    forall t | t in After(c.keys, s)
      ensures HasFresh(c, ttl, now)(t)
    {
      assert t in c.keys && t in c.items;
      assert ShardInOrder(log, c, t, time);
      SweepKeepsRecent(log, t, c.items[t], ttl, now, time);
    }
  }

  lemma {:induction false} ReplayInOrder(log: Log, lim: Limits)
    requires Nondecreasing(log) && lim.perSourceMax >= 1
    ensures WellFormed(Replay(log, lim))
    ensures log != [] ==> InOrder(log, Replay(log, lim), TimeOf(log[|log| - 1]))
  {
    if log != [] {
      var before, e := log[..|log| - 1], log[|log| - 1];
      assert log == before + [e];
      ReplayInOrder(before, lim);
      var c := Replay(before, lim);
      var time := if before == [] then TimeOf(e) else TimeOf(before[|before| - 1]);
      assert InOrder(before, c, time);
      match e
      case Add(_, _, _) => InOrderAdd(before, log, c, e, lim, time);
      case Sweep(now) => InOrderSweep(before, log, c, now, lim, time);
    }
  }

  // ----- The theorems -----

  lemma SubsetSize<T>(a: set<T>, b: set<T>)
    requires a <= b
    ensures |a| <= |b|
  {
    assert b == a + (b - a);
  }

  ghost predicate Bounded(c: Cache, lim: Limits) {
    && |c.keys| <= lim.sourcesMax
    && (forall s :: s in c.items ==> |c.items[s].keys| <= lim.perSourceMax)
    && (forall s :: lim.perSourceMax >= 1 && s in c.items ==> c.items[s].keys != [])
  }

  lemma BoundedAdd(c: Cache, e: Event, lim: Limits)
    requires e.Add? && WellFormed(c) && Bounded(c, lim)
    ensures Bounded(Apply(c, e, lim), lim)
  {
    var b := BucketOf(c, e.source);
    PutNewestValid(c, e.source, b.PutLast(e.id, e.stamp).Newest(lim.perSourceMax), lim.sourcesMax);
    PutNewestValid(b, e.id, e.stamp, lim.perSourceMax);
    if lim.perSourceMax >= 1 {
      PutNewestLast(b, e.id, e.stamp, lim.perSourceMax);
    }
    hide OrderedDict.Newest, OrderedDict.PutLast;
    forall t | t in Apply(c, e, lim).items
      ensures |Apply(c, e, lim).items[t].keys| <= lim.perSourceMax
      ensures lim.perSourceMax >= 1 ==> Apply(c, e, lim).items[t].keys != []
    {
      InsertedAt(c, e.source, e.id, e.stamp, lim, t);
    }
  }

  lemma BoundedSweep(c: Cache, now: int, lim: Limits)
    requires WellFormed(c) && Bounded(c, lim)
    ensures Bounded(Apply(c, Sweep(now), lim), lim)
  {
    KeepNoLonger(c.keys, HasFresh(c, lim.ttl, now));
    forall s | s in Cleaned(c, lim.ttl, now).items
      ensures |Cleaned(c, lim.ttl, now).items[s].keys| <= lim.perSourceMax
          && Cleaned(c, lim.ttl, now).items[s].keys != []
    {
      CleanedAt(c, lim.ttl, now, s);
      KeepNoLonger(c.items[s].keys, IsFresh(c.items[s], lim.ttl, now));
    }
  }

  /** Bounds: never more sources, or ids per source, than configured; never an empty bucket. */
  lemma {:induction false} CacheIsBounded(log: Log, lim: Limits)
    ensures Bounded(Replay(log, lim), lim)
  {
    if log != [] {
      var before, e := log[..|log| - 1], log[|log| - 1];
      CacheIsBounded(before, lim);
      ReplayTracks(before, lim);
      hide Bounded, Apply;
      match e
      case Add(_, _, _) => BoundedAdd(Replay(before, lim), e, lim);
      case Sweep(now) => BoundedSweep(Replay(before, lim), now, lim);
    }
  }

  /** A "duplicate" answer is never wrong: the pair was added before. */
  lemma DuplicateWasAdded(log: Log, source: NodeId, id: MsgId, lim: Limits)
    requires Contains(Replay(log, lim), source, id)
    ensures exists k :: 0 <= k < |log| && log[k].Add? && log[k].source == source && log[k].id == id
  {
    ReplayTracks(log, lim);
    LastAddHappened(log, source, id);
  }

  lemma {:induction false} LastAddHappened(log: Log, source: NodeId, id: MsgId)
    requires LastAdd(log, source, id).Some?
    ensures exists k :: 0 <= k < |log| && log[k].Add? && log[k].source == source && log[k].id == id
  {
    var before, e := log[..|log| - 1], log[|log| - 1];
    if !(e.Add? && e.source == source && e.id == id) {
      LastAddHappened(before, source, id);
      var k :| 0 <= k < |before| && before[k].Add? && before[k].source == source && before[k].id == id;
      assert log[k] == before[k];
    }
  }

  lemma ReportedAfterSweep(c: Cache, source: NodeId, id: MsgId, ttl: int, now: int)
    requires WellFormed(c)
    ensures Contains(Cleaned(c, ttl, now), source, id)
       <==> Contains(c, source, id) && now - c.items[source].items[id].at <= ttl
  {
    CleanedAt(c, ttl, now, source);
    if source in c.items {
      UnstaleAt(c.items[source], ttl, now, id);
      UnstaleValid(c.items[source], ttl, now);
    }
  }

  /** What is remembered is reported, however the clock behaves. */
  lemma {:induction false} RememberedIsReported(log: Log, source: NodeId, id: MsgId, lim: Limits)
    requires Remembered(log, source, id, lim)
    ensures Contains(Replay(log, lim), source, id)
  {
    var before, e := log[..|log| - 1], log[|log| - 1];
    var c := Replay(before, lim);
    ReplayTracks(before, lim);
    match e {
      case Add(s, i, stamp) =>
        InsertedAt(c, s, i, stamp, lim, source);
        if s != source {
          RememberedIsReported(before, source, id, lim);
          SubsetSize(After(c.keys, source) + {s}, SourcesSince(log, source));
        } else {
          PutNewestAt(BucketOf(c, s), i, stamp, lim.perSourceMax, id);
          if i != id {
            RememberedIsReported(before, source, id, lim);
            SubsetSize(After(c.items[s].keys, id) + {i}, IdsSince(log, source, id));
          }
        }
      case Sweep(now) =>
        RememberedIsReported(before, source, id, lim);
        ReportedAfterSweep(c, source, id, lim.ttl, now);
    }
  }

  lemma {:induction false} RememberedWithinWindow(log: Log, source: NodeId, id: MsgId, lim: Limits)
    requires Remembered(log, source, id, lim)
    ensures |IdsSince(log, source, id)| < lim.perSourceMax && |SourcesSince(log, source)| < lim.sourcesMax
  {
    if log[|log| - 1].Sweep? {
      RememberedWithinWindow(log[..|log| - 1], source, id, lim);
    }
  }

  lemma NondecreasingPrefix(log: Log)
    requires Nondecreasing(log) && log != []
    ensures Nondecreasing(log[..|log| - 1])
  {
  }

  /** Before an add of something else, the pair was there already, with the window to spare. */
  lemma ReportedBeforeAdd(before: Log, c: Cache, e: Event, source: NodeId, id: MsgId, lim: Limits, time: int)
    requires e.Add? && !(e.source == source && e.id == id)
    requires Tracks(before, c) && InOrder(before, c, time)
    requires Contains(Apply(c, e, lim), source, id)
    ensures Contains(c, source, id)
    ensures e.source == source ==> |IdsSince(before, source, id) + {e.id}| < lim.perSourceMax
    ensures e.source != source ==> |SourcesSince(before, source) + {e.source}| < lim.sourcesMax
  {
    hide OrderedDict.Newest, OrderedDict.PutLast;
    InsertedAt(c, e.source, e.id, e.stamp, lim, source);
    if source in c.items {
      assert ShardInOrder(before, c, source, time);
    }
    if e.source == source {
      PutNewestAt(BucketOf(c, source), e.id, e.stamp, lim.perSourceMax, id);
      assert After(c.items[source].keys, id) == IdsSince(before, source, id);
    } else {
      assert After(c.keys, source) == SourcesSince(before, source);
    }
  }

  /** While the clock does not run backwards, what is reported is exactly what is remembered. */
  lemma {:induction false} ReportedIsRemembered(log: Log, source: NodeId, id: MsgId, lim: Limits)
    requires Nondecreasing(log) && Contains(Replay(log, lim), source, id)
    ensures Remembered(log, source, id, lim)
  {
    hide Apply, Tracks, InOrder, Nondecreasing;
    LimitsArePositive(log, source, id, lim);
    var before, e := log[..|log| - 1], log[|log| - 1];
    var c := Replay(before, lim);
    NondecreasingPrefix(log);
    ReplayTracks(before, lim);
    ReplayInOrder(before, lim);
    match e {
      case Add(s, i, _) =>
        if !(s == source && i == id) {
          ReportedBefore(before, e, source, id, lim);
          ReportedIsRemembered(before, source, id, lim);
          RememberedWithinWindow(before, source, id, lim);
        }
      case Sweep(now) =>
        SweptIsFresh(before, now, source, id, lim);
        ReportedIsRemembered(before, source, id, lim);
    }
  }

  lemma LimitsArePositive(log: Log, source: NodeId, id: MsgId, lim: Limits)
    requires Contains(Replay(log, lim), source, id)
    ensures lim.perSourceMax >= 1 && lim.sourcesMax >= 1
  {
    var c := Replay(log, lim);
    CacheIsBounded(log, lim);
    ReplayTracks(log, lim);
    assert source in c.keys && id in c.items[source].keys;
  }

  lemma ReportedBefore(before: Log, e: Event, source: NodeId, id: MsgId, lim: Limits)
    requires e.Add? && !(e.source == source && e.id == id)
    requires Nondecreasing(before) && Contains(Apply(Replay(before, lim), e, lim), source, id) && lim.perSourceMax >= 1
    ensures Contains(Replay(before, lim), source, id)
    ensures e.source == source ==> |IdsSince(before, source, id) + {e.id}| < lim.perSourceMax
    ensures e.source != source ==> |SourcesSince(before, source) + {e.source}| < lim.sourcesMax
  {
    ReplayTracks(before, lim);
    ReplayInOrder(before, lim);
    var c := Replay(before, lim);
    if before == [] {
      assert InOrder(before, c, 0);
      ReportedBeforeAdd(before, c, e, source, id, lim, 0);
    } else {
      ReportedBeforeAdd(before, c, e, source, id, lim, TimeOf(before[|before| - 1]));
    }
  }

  lemma SweptIsFresh(before: Log, now: int, source: NodeId, id: MsgId, lim: Limits)
    requires Contains(Apply(Replay(before, lim), Sweep(now), lim), source, id)
    ensures Contains(Replay(before, lim), source, id)
    ensures LastAdd(before, source, id).Some? && now - LastAdd(before, source, id).value <= lim.ttl
  {
    ReplayTracks(before, lim);
    ReportedAfterSweep(Replay(before, lim), source, id, lim.ttl, now);
  }

  /** The cache refines the exact seen-set: with a nondecreasing clock it reports a pair as a
      duplicate if and only if the history remembers it. */
  lemma CacheIsExact(log: Log, source: NodeId, id: MsgId, lim: Limits)
    requires Nondecreasing(log)
    ensures Contains(Replay(log, lim), source, id) <==> Remembered(log, source, id, lim)
  {
    if Contains(Replay(log, lim), source, id) {
      ReportedIsRemembered(log, source, id, lim);
    }
    if Remembered(log, source, id, lim) {
      RememberedIsReported(log, source, id, lim);
    }
  }

  // ----- Isolation between sources -----

  /** An add to a tracked source leaves every other source as it was. */
  lemma TrackedAddIsIsolated(log: Log, e: Event, lim: Limits, t: NodeId)
    requires e.Add? && e.source in Replay(log, lim).items && t != e.source
    ensures var c, c' := Replay(log, lim), Replay(log + [e], lim);
            && (t in c'.items <==> t in c.items)
            && (t in c.items ==> c'.items[t] == c.items[t])
  {
    var c := Replay(log, lim);
    assert (log + [e])[..|log|] == log;
    ReplayTracks(log, lim);
    CacheIsBounded(log, lim);
    InsertedAt(c, e.source, e.id, e.stamp, lim, t);
    if t in c.items {
      AfterMembers(c.keys, t);
      SizeOfMembers(c.keys, After(c.keys, t) + {e.source} + {t});
      assert |After(c.keys, t) + {e.source} + {t}| == |After(c.keys, t) + {e.source}| + 1;
    }
  }

  /** A new source evicts at most one bucket, and only the one whose source was added to least
      recently: every other tracked source has had an add since. */
  lemma NewSourceEvictsOldest(log: Log, e: Event, lim: Limits, t: NodeId)
    requires e.Add? && e.source !in Replay(log, lim).items && t in Replay(log, lim).items
    ensures var c, c' := Replay(log, lim), Replay(log + [e], lim);
            && (t in c'.items ==> c'.items[t] == c.items[t])
            && (t !in c'.items ==>
                  && |c.keys| >= 1 && |c.keys| == lim.sourcesMax && t == c.keys[0]
                  && forall u :: u in c.items && u != t ==> u in SourcesSince(log, t))
  {
    var c := Replay(log, lim);
    assert (log + [e])[..|log|] == log;
    ReplayTracks(log, lim);
    CacheIsBounded(log, lim);
    InsertedAt(c, e.source, e.id, e.stamp, lim, t);
    AfterMembers(c.keys, t);
    BehindMostOthers(c.keys, t);
    AfterHead(c.keys);
  }

  // ----- Transport tags change nothing but the report -----

  function Untag(stamp: Stamp): Stamp { Plain(stamp.at) }

  function UntagBucket(b: Bucket): Bucket {
    OrderedDict(b.keys, map i | i in b.items :: Untag(b.items[i]))
  }

  function UntagCache(c: Cache): Cache {
    OrderedDict(c.keys, map s | s in c.items :: UntagBucket(c.items[s]))
  }

  function UntagEvent(e: Event): Event {
    if e.Add? then e.(stamp := Untag(e.stamp)) else e
  }

  function UntagLog(log: Log): Log {
    seq(|log|, i requires 0 <= i < |log| => UntagEvent(log[i]))
  }

  lemma UntagUnstale(b: Bucket, ttl: int, now: int)
    ensures Unstale(UntagBucket(b), ttl, now) == UntagBucket(Unstale(b, ttl, now))
  {
    KeepSame(b.keys, IsFresh(b, ttl, now), IsFresh(UntagBucket(b), ttl, now));
  }

  lemma UntagNewest(b: Bucket, n: nat)
    ensures UntagBucket(b).Newest(n) == UntagBucket(b.Newest(n))
  {
    hide Untag, Trim;
    assert UntagBucket(b).Newest(n).items == UntagBucket(b.Newest(n)).items;
  }

  lemma UntagPut(b: Bucket, i: MsgId, stamp: Stamp, n: nat)
    ensures UntagBucket(b).PutLast(i, Untag(stamp)).Newest(n) == UntagBucket(b.PutLast(i, stamp).Newest(n))
  {
    UntagNewest(b.PutLast(i, stamp), n);
    hide Untag, Remove;
    assert UntagBucket(b).PutLast(i, Untag(stamp)).items == UntagBucket(b.PutLast(i, stamp)).items;
  }

  lemma UntagPutShard(c: Cache, s: NodeId, b: Bucket, n: nat)
    ensures UntagCache(c).PutLast(s, UntagBucket(b)).Newest(n) == UntagCache(c.PutLast(s, b).Newest(n))
  {
    hide UntagBucket;
    var p := c.PutLast(s, b);
    assert UntagCache(c).PutLast(s, UntagBucket(b)) == UntagCache(p);
    hide Remove;
    assert UntagCache(p).Newest(n).items == UntagCache(p.Newest(n)).items;
  }

  lemma UntagInsert(c: Cache, s: NodeId, i: MsgId, stamp: Stamp, lim: Limits)
    ensures Inserted(UntagCache(c), s, i, Untag(stamp), lim) == UntagCache(Inserted(c, s, i, stamp, lim))
  {
    assert BucketOf(UntagCache(c), s) == UntagBucket(BucketOf(c, s));
    UntagPut(BucketOf(c, s), i, stamp, lim.perSourceMax);
    UntagPutShard(c, s, BucketOf(c, s).PutLast(i, stamp).Newest(lim.perSourceMax), lim.sourcesMax);
  }

  lemma UntagSweepAt(c: Cache, ttl: int, now: int, s: NodeId)
    ensures HasFresh(c, ttl, now)(s) == HasFresh(UntagCache(c), ttl, now)(s)
    ensures s in c.items ==>
              Unstale(UntagCache(c).items[s], ttl, now) == UntagBucket(Unstale(c.items[s], ttl, now))
  {
    if s in c.items {
      UntagUnstale(c.items[s], ttl, now);
    }
  }

  lemma UntagSweep(c: Cache, ttl: int, now: int)
    ensures Cleaned(UntagCache(c), ttl, now) == UntagCache(Cleaned(c, ttl, now))
  {
    forall s
      ensures HasFresh(c, ttl, now)(s) == HasFresh(UntagCache(c), ttl, now)(s)
      ensures s in c.items ==>
                Unstale(UntagCache(c).items[s], ttl, now) == UntagBucket(Unstale(c.items[s], ttl, now))
    {
      UntagSweepAt(c, ttl, now, s);
    }
    KeepSame(c.keys, HasFresh(c, ttl, now), HasFresh(UntagCache(c), ttl, now));
    hide Unstale, UntagBucket;
    assert Cleaned(UntagCache(c), ttl, now).items == UntagCache(Cleaned(c, ttl, now)).items;
  }

  lemma UntagApply(c: Cache, e: Event, lim: Limits)
    ensures Apply(UntagCache(c), UntagEvent(e), lim) == UntagCache(Apply(c, e, lim))
  {
    match e
    case Add(s, i, stamp) => UntagInsert(c, s, i, stamp, lim);
    case Sweep(now) => UntagSweep(c, lim.ttl, now);
  }

  /** On any mix of plain and transport-aware adds, the cache is the plain one with tags. */
  lemma {:induction false} TagsAreInert(log: Log, lim: Limits)
    ensures Replay(UntagLog(log), lim) == UntagCache(Replay(log, lim))
  {
    if log == [] {
    } else {
      var before, e := log[..|log| - 1], log[|log| - 1];
      assert UntagLog(log)[..|log| - 1] == UntagLog(before);
      TagsAreInert(before, lim);
      UntagApply(Replay(before, lim), e, lim);
    }
  }

  // ----- The mutable cache -----

  /** What a transport-aware check reports. */
  datatype Report = New | Duplicate(original: Option<string>, this_: string, crossTransport: bool, timeDelta: int)

  /** The number of entries in the first `j` buckets. */
  function SizeUpTo(c: Cache, j: nat): nat
    requires j <= |c.keys|
  {
    if j == 0 then 0
    else SizeUpTo(c, j - 1) + (if c.keys[j - 1] in c.items then |c.items[c.keys[j - 1]].keys| else 0)
  }

  function Size(c: Cache): nat {
    SizeUpTo(c, |c.keys|)
  }

  /** The entries of the first `j` buckets. */
  function EntriesUpTo(c: Cache, j: nat): set<(NodeId, MsgId)>
    requires WellFormed(c) && j <= |c.keys|
  {
    if j == 0 then {}
    else
      EntriesUpTo(c, j - 1) + EntriesOf(c.keys[j - 1], c.items[c.keys[j - 1]])
  }

  function EntriesOf(s: NodeId, b: Bucket): set<(NodeId, MsgId)> {
    set i | i in b.items :: (s, i)
  }

  lemma BucketCount(s: NodeId, b: Bucket)
    requires b.Valid()
    ensures |EntriesOf(s, b)| == |b.keys|
  {
    PairedCount(s, b.items.Keys);
    assert EntriesOf(s, b) == set i | i in b.items.Keys :: (s, i);
    DistinctCount(b.keys, b.items.Keys);
  }

  lemma {:induction false} PairedCount(s: NodeId, ids: set<MsgId>)
    ensures |set i | i in ids :: (s, i)| == |ids|
  {
    if ids == {} {
      assert (set i | i in ids :: (s, i)) == {};
    } else {
      var x :| x in ids;
      PairedCount(s, ids - {x});
      assert (set i | i in ids :: (s, i)) == (set i | i in ids - {x} :: (s, i)) + {(s, x)};
    }
  }

  lemma {:induction false} DistinctCount<K>(q: seq<K>, members: set<K>)
    requires Distinct(q) && forall k :: k in members <==> k in q
    ensures |q| == |members|
  {
    if q == [] {
      assert members == {};
    } else {
      var init, last := q[..|q| - 1], q[|q| - 1];
      assert q == init + [last];
      assert last !in init;
      DistinctCount(init, members - {last});
    }
  }

  lemma {:induction false} EntriesAreOfSources(c: Cache, j: nat, e: (NodeId, MsgId))
    requires WellFormed(c) && j <= |c.keys|
    ensures e in EntriesUpTo(c, j) ==> e.0 in c.keys[..j] && e.0 in c.items && e.1 in c.items[e.0].items
    ensures e.0 in c.keys[..j] && e.0 in c.items && e.1 in c.items[e.0].items ==> e in EntriesUpTo(c, j)
  {
    if j > 0 {
      EntriesAreOfSources(c, j - 1, e);
      assert c.keys[..j] == c.keys[..j - 1] + [c.keys[j - 1]];
    }
  }

  lemma EarlierSources(c: Cache, j: nat, e: (NodeId, MsgId))
    requires WellFormed(c) && 1 <= j <= |c.keys| && e in EntriesUpTo(c, j - 1)
    ensures e.0 != c.keys[j - 1]
  {
    EntriesAreOfSources(c, j - 1, e);
  }

  /** The size is the number of pairs held, counted one by one. */
  lemma {:induction false} SizeCountsEntries(c: Cache, j: nat)
    requires WellFormed(c) && j <= |c.keys|
    ensures SizeUpTo(c, j) == |EntriesUpTo(c, j)|
  {
    if j > 0 {
      SizeCountsEntries(c, j - 1);
      BucketCount(c.keys[j - 1], c.items[c.keys[j - 1]]);
      forall e | e in EntriesUpTo(c, j - 1) ensures e.0 != c.keys[j - 1] {
        EarlierSources(c, j, e);
      }
      hide WellFormed;
      assert EntriesUpTo(c, j - 1) !! EntriesOf(c.keys[j - 1], c.items[c.keys[j - 1]]);
    }
  }

  /** The whole size: one for each source and id that the cache reports. */
  lemma SizeIsExact(c: Cache)
    requires WellFormed(c)
    ensures Size(c) == |EntriesUpTo(c, |c.keys|)|
    ensures forall s, i :: (s, i) in EntriesUpTo(c, |c.keys|) <==> Contains(c, s, i)
  {
    SizeCountsEntries(c, |c.keys|);
    assert c.keys[..|c.keys|] == c.keys;
    forall s, i ensures (s, i) in EntriesUpTo(c, |c.keys|) <==> Contains(c, s, i) {
      EntriesAreOfSources(c, |c.keys|, (s, i));
    }
  }

  lemma {:induction false} SizeUpToSame(c: Cache, c': Cache, j: nat)
    requires j <= |c.keys| && j <= |c'.keys|
    requires forall i :: 0 <= i < j ==> c.keys[i] == c'.keys[i]
    requires forall i :: 0 <= i < j ==>
        c.keys[i] in c.items && c.keys[i] in c'.items && c.items[c.keys[i]] == c'.items[c.keys[i]]
    ensures SizeUpTo(c, j) == SizeUpTo(c', j)
  {
    if j > 0 {
      SizeUpToSame(c, c', j - 1);
    }
  }

  lemma KeepPrefix<K>(q: seq<K>, p: K -> bool, n: nat)
    requires n < |q|
    ensures Keep(q[..n + 1], p) == Keep(q[..n], p) + (if p(q[n]) then [q[n]] else [])
  {
    assert q[..n + 1][..n] == q[..n];
  }

  /** The sweep of the first `j` sources. */
  function CleanedUpTo(c: Cache, ttl: int, now: int, j: nat): Cache
    requires j <= |c.keys| && forall i :: 0 <= i < |c.keys| ==> c.keys[i] in c.items
  {
    if j == 0 then Empty()
    else Filed(CleanedUpTo(c, ttl, now, j - 1), c.keys[j - 1], Unstale(c.items[c.keys[j - 1]], ttl, now))
  }

  /** `c` with `b` appended for `s`, unless `b` is empty. */
  function Filed(c: Cache, s: NodeId, b: Bucket): Cache {
    if b.keys == [] then c else OrderedDict(c.keys + [s], c.items[s := b])
  }

  lemma SizeOfFiled(c: Cache, s: NodeId, b: Bucket)
    requires s !in c.keys && forall i :: 0 <= i < |c.keys| ==> c.keys[i] in c.items
    ensures Size(Filed(c, s, b)) == Size(c) + |b.keys|
  {
    if b.keys != [] {
      SizeUpToSame(c, Filed(c, s, b), |c.keys|);
    }
  }

  lemma {:induction false} CleanedUpToKeys(c: Cache, ttl: int, now: int, j: nat)
    requires c.Valid() && j <= |c.keys|
    ensures CleanedUpTo(c, ttl, now, j).keys == Keep(c.keys[..j], HasFresh(c, ttl, now))
  {
    if j > 0 {
      CleanedUpToKeys(c, ttl, now, j - 1);
      KeepPrefix(c.keys, HasFresh(c, ttl, now), j - 1);
    }
  }

  lemma {:induction false} CleanedUpToItems(c: Cache, ttl: int, now: int, j: nat)
    requires c.Valid() && j <= |c.keys|
    ensures var m := CleanedUpTo(c, ttl, now, j).items;
            && (forall s :: s in m ==> s in c.items && m[s] == Unstale(c.items[s], ttl, now) && m[s].keys != [])
            && (forall k :: 0 <= k < j && HasFresh(c, ttl, now)(c.keys[k]) ==> c.keys[k] in m)
  {
    hide Unstale;
    if j > 0 {
      CleanedUpToItems(c, ttl, now, j - 1);
    }
  }

  lemma CleanedUpToAt(c: Cache, ttl: int, now: int, s: NodeId)
    requires c.Valid()
    ensures var m := CleanedUpTo(c, ttl, now, |c.keys|).items;
            && (s in m <==> s in c.items && HasFresh(c, ttl, now)(s))
            && (s in m ==> m[s] == Unstale(c.items[s], ttl, now))
  {
    hide Unstale, CleanedUpTo;
    CleanedUpToItems(c, ttl, now, |c.keys|);
    if s in c.items {
      var k :| 0 <= k < |c.keys| && c.keys[k] == s;
    }
  }

  lemma CleanedUpToAll(c: Cache, ttl: int, now: int)
    requires c.Valid()
    ensures CleanedUpTo(c, ttl, now, |c.keys|) == Cleaned(c, ttl, now)
  {
    hide Unstale, CleanedUpTo, Keep, HasFresh;
    CleanedUpToKeys(c, ttl, now, |c.keys|);
    assert c.keys[..|c.keys|] == c.keys;
    var m, m' := CleanedUpTo(c, ttl, now, |c.keys|).items, Cleaned(c, ttl, now).items;
    forall s ensures (s in m <==> s in m') && (s in m ==> m[s] == m'[s]) {
      CleanedUpToAt(c, ttl, now, s);
    }
    assert m.Keys == m'.Keys;
  }

  /** The keys filed so far come from the sources swept so far. */
  lemma {:induction false} CleanedUpToFrom(c: Cache, ttl: int, now: int, j: nat)
    requires c.Valid() && j <= |c.keys|
    ensures var d := CleanedUpTo(c, ttl, now, j);
            && (forall i :: 0 <= i < |d.keys| ==> d.keys[i] in d.items)
            && (forall k :: j <= k < |c.keys| ==> c.keys[k] !in d.keys)
  {
    if j > 0 {
      CleanedUpToFrom(c, ttl, now, j - 1);
    }
  }

  lemma KeptIsUnstale(b: Bucket, ttl: int, now: int, kept: Bucket)
    requires b.Valid() && kept.keys == Keep(b.keys, IsFresh(b, ttl, now))
    requires forall i :: i in kept.items <==> i in kept.keys
    requires forall i :: i in kept.items ==> i in b.items && kept.items[i] == b.items[i]
    ensures kept == Unstale(b, ttl, now)
  {
    KeepMembers(b.keys, IsFresh(b, ttl, now));
    assert kept.items.Keys == Unstale(b, ttl, now).items.Keys;
  }

  class DedupCache {
    const limits: Limits
    var sources: Cache
    /** Everything that has changed the cache since it was made. */
    ghost var log: Log

    ghost predicate Valid()
      reads this
    {
      sources == Replay(log, limits)
    }

    constructor (limits: Limits)
      ensures Valid() && this.limits == limits && log == []
    {
      this.limits := limits;
      sources := Empty();
      log := [];
    }

    /** Whether the pair is held; with a clock that never ran backwards, exactly when the
        history remembers it. */
    method IsDuplicate(source: NodeId, id: MsgId) returns (duplicate: bool)
      requires Valid()
      ensures duplicate == Contains(sources, source, id)
      ensures Remembered(log, source, id, limits) ==> duplicate
      ensures Nondecreasing(log) && duplicate ==> Remembered(log, source, id, limits)
    {
      if Remembered(log, source, id, limits) {
        RememberedIsReported(log, source, id, limits);
      }
      if source !in sources.items || sources.items[source].keys == [] {
        duplicate := false;
        assert !Contains(sources, source, id) by {
          ReplayTracks(log, limits);
        }
        return;
      }
      duplicate := id in sources.items[source].items;
      if duplicate && Nondecreasing(log) {
        ReportedIsRemembered(log, source, id, limits);
      }
    }

    /** Records the pair as the most recent of its source, and its source as the most recent,
        then evicts down to the bounds. */
    method AddLocked(source: NodeId, id: MsgId, stamp: Stamp)
      requires Valid()
      modifies this
      ensures Valid() && log == old(log) + [Event.Add(source, id, stamp)]
    {
      ReplayTracks(log, limits);
      var current := sources;
      var bucket := if source in current.items then current.items[source] else Empty();
      PutLastValid(bucket, id, stamp);
      bucket := EvictOldest(bucket.PutLast(id, stamp), limits.perSourceMax);
      PutLastValid(current, source, bucket);
      var all := EvictOldest(current.PutLast(source, bucket), limits.sourcesMax);
      assert all == Inserted(current, source, id, stamp, limits);
      sources := all;
      log := log + [Event.Add(source, id, stamp)];
      assert log[..|log| - 1] == old(log);
    }

    method Add(source: NodeId, id: MsgId, now: int)
      requires Valid()
      modifies this
      ensures Valid() && log == old(log) + [Event.Add(source, id, Plain(now))]
    {
      AddLocked(source, id, Plain(now));
    }

    /** Test-and-add: a duplicate changes nothing, anything else is recorded. */
    method CheckAndAdd(source: NodeId, id: MsgId, now: int) returns (duplicate: bool)
      requires Valid()
      modifies this
      ensures Valid() && duplicate == Contains(old(sources), source, id)
      ensures log == if duplicate then old(log) else old(log) + [Event.Add(source, id, Plain(now))]
    {
      if source in sources.items && id in sources.items[source].items {
        return true;
      }
      AddLocked(source, id, Plain(now));
      return false;
    }

    /** Test-and-add that also says over which transport a duplicate was first seen. */
    method CheckAndAddWithTransport(source: NodeId, id: MsgId, transport: string, now: int) returns (r: Report)
      requires Valid()
      modifies this
      ensures Valid() && (r.Duplicate? <==> Contains(old(sources), source, id))
      ensures log == if r.Duplicate? then old(log) else old(log) + [Event.Add(source, id, Tagged(now, transport))]
      ensures r.Duplicate? ==>
                var stamp := old(sources).items[source].items[id];
                && LastAdd(log, source, id) == Some(stamp.at)
                && r.original == (if stamp.Tagged? then Some(stamp.transport) else None)
                && r.crossTransport == (stamp.Tagged? && stamp.transport != transport)
                && r.this_ == transport && r.timeDelta == if now < stamp.at then 0 else now - stamp.at
    {
      if source in sources.items && id in sources.items[source].items {
        ReplayTracks(log, limits);
        var stored := sources.items[source].items[id];
        var original := if stored.Tagged? then Some(stored.transport) else None;
        var cross := original.Some? && original.value != transport;
        return Duplicate(original, transport, cross, if now - stored.at > 0 then now - stored.at else 0);
      }
      AddLocked(source, id, Tagged(now, transport));
      return New;
    }

    /** Drops the entries of one bucket that are older than the time-to-live. */
    method SweepBucket(bucket: Bucket, now: int) returns (kept: Bucket, removed: nat)
      requires bucket.Valid()
      ensures kept == Unstale(bucket, limits.ttl, now)
      ensures removed == |bucket.keys| - |kept.keys|
    {
      ghost var p := IsFresh(bucket, limits.ttl, now);
      var keys: seq<MsgId> := [];
      removed := 0;
      for j := 0 to |bucket.keys|
        invariant keys == Keep(bucket.keys[..j], p) && removed == j - |keys|
      {
        KeepPrefix(bucket.keys, p, j);
        if now - bucket.items[bucket.keys[j]].at > limits.ttl {
          removed := removed + 1;
        } else {
          keys := keys + [bucket.keys[j]];
        }
      }
      assert bucket.keys[..|bucket.keys|] == bucket.keys;
      KeepMembers(bucket.keys, p);
      kept := OrderedDict(keys, map id | id in keys :: bucket.items[id]);
      KeptIsUnstale(bucket, limits.ttl, now, kept);
    }

    method SweepSources(current: Cache, now: int) returns (kept: Cache, removed: nat)
      requires WellFormed(current)
      ensures kept == CleanedUpTo(current, limits.ttl, now, |current.keys|)
      ensures removed == Size(current) - Size(kept)
    {
      hide Unstale;
      kept := Empty();
      removed := 0;
      for j := 0 to |current.keys|
        invariant kept == CleanedUpTo(current, limits.ttl, now, j)
        invariant removed == SizeUpTo(current, j) - Size(kept)
      {
        var source := current.keys[j];
        var bucket, dropped := SweepBucket(current.items[source], now);
        removed := removed + dropped;
        CleanedUpToFrom(current, limits.ttl, now, j);
        SizeOfFiled(kept, source, bucket);
        if bucket.keys != [] {
          kept := OrderedDict(kept.keys + [source], kept.items[source := bucket]);
        }
      }
    }

    /** Drops every entry older than the time-to-live, and every source left without entries. */
    method CleanupExpired(now: int) returns (removed: nat)
      requires Valid()
      modifies this
      ensures Valid() && log == old(log) + [Sweep(now)]
      ensures removed == Size(old(sources)) - Size(sources)
    {
      ReplayTracks(log, limits);
      CleanedUpToAll(sources, limits.ttl, now);
      sources, removed := SweepSources(sources, now);
      log := log + [Sweep(now)];
      assert log[..|log| - 1] == old(log);
    }
  }
}
