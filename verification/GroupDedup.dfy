/** Deduplication of group broadcasts: an ordered dictionary whose order is not that of its stamps. */
module GroupDedup {
  import opened Graph
  import opened OrderedDicts

  const GROUP_DEDUP_MAX: nat := 10000
  const GROUP_DEDUP_TTL := 60

  type Digest = string

  /** When each digest was last handled, in the order they were last seen. */
  type Seen = OrderedDict<Digest, int>

  predicate IsStale(d: Seen, k: Digest, now: int) {
    k in d.items && now - d.items[k] > GROUP_DEDUP_TTL
  }

  /** Drops stale entries from the front, up to the first that is not. */
  function PopStale(d: Seen, now: int): Seen
    decreases |d.keys|
  {
    if d.keys == [] || !IsStale(d, d.keys[0], now) then d else PopStale(d.PopFirst(), now)
  }

  /** A payload's digest, and when it arrived. */
  datatype Arrival = Arrival(digest: Digest, at: int)

  predicate Handles(d: Seen, e: Arrival) {
    e.digest !in PopStale(d, e.at).items
  }

  function Apply(d: Seen, e: Arrival): Seen {
    var kept := PopStale(d, e.at);
    if e.digest in kept.items then kept.PutLast(e.digest, kept.items[e.digest])
    else kept.PutLast(e.digest, e.at).Newest(GROUP_DEDUP_MAX)
  }

  type Log = seq<Arrival>

  function Replay(log: Log): Seen {
    if log == [] then Empty() else Apply(Replay(log[..|log| - 1]), log[|log| - 1])
  }

  // ----- The history -----

  /** When the digest was last handled. */
  function LastHandled(log: Log, k: Digest): Option<int> {
    if log == [] then None
    else
      var before, e := log[..|log| - 1], log[|log| - 1];
      if e.digest == k && Handles(Replay(before), e) then Some(e.at) else LastHandled(before, k)
  }

  /** The other digests that arrived since this one last did. */
  function OthersSince(log: Log, k: Digest): set<Digest> {
    if log == [] || log[|log| - 1].digest == k then {}
    else OthersSince(log[..|log| - 1], k) + {log[|log| - 1].digest}
  }

  ghost predicate Nondecreasing(log: Log) {
    forall i, j :: 0 <= i < j < |log| ==> log[i].at <= log[j].at
  }

  // ----- Popping -----

  /** The entry, or one seen less recently, is not stale. */
  ghost predicate Survives(d: Seen, now: int, k: Digest) {
    k in d.items && exists q :: q in d.items && (q == k || k in After(d.keys, q)) && !IsStale(d, q, now)
  }

  lemma TailSurvivors(d: Seen, now: int, k: Digest)
    requires d.Valid() && d.keys != [] && IsStale(d, d.keys[0], now)
    ensures Survives(d.PopFirst(), now, k) <==> Survives(d, now, k)
    ensures k in d.PopFirst().items ==>
              d.PopFirst().items[k] == d.items[k] && After(d.PopFirst().keys, k) == After(d.keys, k)
  {
    var head, tail := d.keys[0], d.PopFirst();
    PopFirstValid(d);
    forall q | q in tail.items ensures After(tail.keys, q) == After(d.keys, q) {
      assert q in tail.keys;
      AfterTail(d.keys, q);
    }
    if k == head {
      forall q | q in d.items ensures head !in After(d.keys, q) {
        assert q in d.keys;
        HeadIsNotBehind(d.keys, q);
      }
    }
  }

  /** Exactly the entries with a fresh one at or before them survive. */
  lemma {:induction false} PopStaleKeeps(d: Seen, now: int, k: Digest)
    requires d.Valid()
    ensures PopStale(d, now).Valid() && |PopStale(d, now).keys| <= |d.keys|
    ensures var p := PopStale(d, now);
            && (k in p.items <==> Survives(d, now, k))
            && (k in p.items ==> p.items[k] == d.items[k] && After(p.keys, k) == After(d.keys, k))
    decreases |d.keys|
  {
    if d.keys != [] {
      var head := d.keys[0];
      if IsStale(d, head, now) {
        hide After, Survives;
        PopFirstValid(d);
        TailSurvivors(d, now, k);
        PopStaleKeeps(d.PopFirst(), now, k);
      } else {
        AfterHead(d.keys);
        assert head in d.items && (k in d.items && k != head ==> k in After(d.keys, head));
      }
    }
  }

  // ----- One arrival -----

  /** `k` after an arrival of another digest: gone only if stale, or crowded out. */
  lemma OtherArrival(d: Seen, e: Arrival, k: Digest)
    requires d.Valid() && k != e.digest
    ensures var d' := Apply(d, e);
            && (k in d'.items ==>
                  k in d.items && d'.items[k] == d.items[k] && After(d'.keys, k) == After(d.keys, k) + {e.digest})
            && (k in d.items && k !in d'.items ==>
                  IsStale(d, k, e.at) || |After(d.keys, k) + {e.digest}| >= GROUP_DEDUP_MAX)
  {
    var p := PopStale(d, e.at);
    PopStaleKeeps(d, e.at, k);
    assert k in d.items && !IsStale(d, k, e.at) ==> Survives(d, e.at, k);
    hide PopStale, Survives, After;
    if e.digest in p.items {
      PutLastAfter(p, e.digest, p.items[e.digest], k);
    } else {
      PutNewestAt(p, e.digest, e.at, GROUP_DEDUP_MAX, k);
    }
  }

  /** The digest that arrived is last; its stamp is that of its last handling. */
  lemma OwnArrival(d: Seen, e: Arrival)
    requires d.Valid()
    ensures var d' := Apply(d, e);
            && d'.Valid() && (|d.keys| <= GROUP_DEDUP_MAX ==> |d'.keys| <= GROUP_DEDUP_MAX)
            && e.digest in d'.items && After(d'.keys, e.digest) == {}
            && (Handles(d, e) ==> d'.items[e.digest] == e.at)
            && (!Handles(d, e) ==> e.digest in d.items && d'.items[e.digest] == d.items[e.digest])
  {
    var k, p := e.digest, PopStale(d, e.at);
    PopStaleKeeps(d, e.at, k);
    hide PopStale, After;
    if k in p.items {
      PutLastValid(p, k, p.items[k]);
      PutLastAfter(p, k, p.items[k], k);
      MoveToEndLength(p, k);
    } else {
      PutNewestValid(p, k, e.at, GROUP_DEDUP_MAX);
      PutNewestLast(p, k, e.at, GROUP_DEDUP_MAX);
      PutNewestAt(p, k, e.at, GROUP_DEDUP_MAX, k);
    }
  }

  lemma MoveToEndLength(d: Seen, k: Digest)
    requires d.Valid() && k in d.items
    ensures |d.PutLast(k, d.items[k]).keys| <= |d.keys|
  {
    assert k in d.keys;
    KeepDrops(d.keys, OtherThan(k), k);
  }

  // ----- Whole runs -----

  /** Every entry is stamped with its last handling, and what is behind it arrived after it did. */
  ghost predicate Stamped(d: Seen, log: Log) {
    && d.Valid() && |d.keys| <= GROUP_DEDUP_MAX
    && (forall k :: k in d.items ==> LastHandled(log, k) == Some(d.items[k]) && After(d.keys, k) <= OthersSince(log, k))
  }

  /** Every digest without an entry is stale or was crowded out. */
  ghost predicate Forgettable(log: Log, k: Digest) {
    LastHandled(log, k).Some? ==>
      && log != []
      && (log[|log| - 1].at - LastHandled(log, k).value > GROUP_DEDUP_TTL || |OthersSince(log, k)| >= GROUP_DEDUP_MAX)
  }

  ghost predicate Complete(d: Seen, log: Log) {
    forall k :: k !in d.items ==> Forgettable(log, k)
  }

  lemma HistorySnoc(log: Log, e: Arrival, k: Digest)
    requires k != e.digest
    ensures LastHandled(log + [e], k) == LastHandled(log, k)
    ensures OthersSince(log + [e], k) == OthersSince(log, k) + {e.digest}
  {
    assert (log + [e])[..|log|] == log;
  }

  lemma OwnHistory(log: Log, e: Arrival)
    ensures LastHandled(log + [e], e.digest)
         == if Handles(Replay(log), e) then Some(e.at) else LastHandled(log, e.digest)
    ensures OthersSince(log + [e], e.digest) == {}
  {
    assert (log + [e])[..|log|] == log;
  }

  lemma StampedStep(d: Seen, log: Log, e: Arrival)
    requires Stamped(d, log) && d == Replay(log)
    ensures Stamped(Apply(d, e), log + [e])
  {
    var log', d' := log + [e], Apply(d, e);
    hide Apply, After, LastHandled, OthersSince, Replay, Handles;
    OwnArrival(d, e);
    OwnHistory(log, e);
    forall k | k in d'.items
      ensures LastHandled(log', k) == Some(d'.items[k]) && After(d'.keys, k) <= OthersSince(log', k)
    {
      if k != e.digest {
        OtherArrival(d, e, k);
        HistorySnoc(log, e, k);
      }
    }
  }

  lemma CompleteStep(d: Seen, log: Log, e: Arrival)
    requires Stamped(d, log) && Complete(d, log) && Nondecreasing(log + [e])
    ensures Complete(Apply(d, e), log + [e])
  {
    OwnArrival(d, e);
    Earlier(log, e);
    hide Apply, After, LastHandled, OthersSince, Nondecreasing;
    forall k | k !in Apply(d, e).items ensures Forgettable(log + [e], k) {
      OtherArrival(d, e, k);
      HistorySnoc(log, e, k);
      if k in d.items {
        NoMore(After(d.keys, k) + {e.digest}, OthersSince(log + [e], k));
      } else {
        assert Forgettable(log, k);
        NoMore(OthersSince(log, k), OthersSince(log + [e], k));
      }
    }
  }

  lemma NoMore(a: set<Digest>, b: set<Digest>)
    requires a <= b
    ensures |a| <= |b|
  {
    if a != {} {
      var x :| x in a;
      NoMore(a - {x}, b - {x});
    }
  }

  /** Whatever the clock does. */
  lemma {:induction false} ReplayIsStamped(log: Log)
    ensures Stamped(Replay(log), log)
  {
    if log != [] {
      var before := log[..|log| - 1];
      assert log == before + [log[|log| - 1]];
      ReplayIsStamped(before);
      StampedStep(Replay(before), before, log[|log| - 1]);
    }
  }

  lemma {:induction false} ReplayIsComplete(log: Log)
    requires Nondecreasing(log)
    ensures Complete(Replay(log), log)
  {
    if log != [] {
      var before := log[..|log| - 1];
      assert log == before + [log[|log| - 1]];
      ReplayIsStamped(before);
      ReplayIsComplete(before);
      CompleteStep(Replay(before), before, log[|log| - 1]);
    }
  }

  /** At most once: a payload is not handled again within the window, as long as fewer than the cap of
      other payloads have arrived since it was last seen. */
  lemma HandledAtMostOnce(log: Log, e: Arrival)
    requires Nondecreasing(log + [e]) && LastHandled(log, e.digest).Some?
    requires e.at - LastHandled(log, e.digest).value <= 60
    requires |OthersSince(log, e.digest)| < 10000
    ensures !Handles(Replay(log), e)
  {
    Earlier(log, e);
    ReplayIsStamped(log);
    ReplayIsComplete(log);
    PopStaleKeeps(Replay(log), e.at, e.digest);
  }

  lemma Earlier(log: Log, e: Arrival)
    requires Nondecreasing(log + [e])
    ensures Nondecreasing(log) && (log != [] ==> log[|log| - 1].at <= e.at)
  {
    var log' := log + [e];
    assert forall i :: 0 <= i < |log| ==> log'[i] == log[i];
    assert log'[|log|] == e;
  }

  /** The map never ends a call above its cap, and holds only payloads that were handled, each with the
      time it last was, whatever the clock does. */
  lemma MapIsBounded(log: Log)
    ensures |Replay(log).keys| <= 10000
    ensures forall k :: k in Replay(log).items ==> LastHandled(log, k) == Some(Replay(log).items[k])
  {
    ReplayIsStamped(log);
  }

  /** When a payload is suppressed, exactly: it, or one in the map that was not seen after it, was
      handled within the window. A duplicate is moved behind fresher entries with its old stamp, so
      "it" alone will not do. */
  lemma SuppressedExactly(log: Log, e: Arrival)
    ensures !Handles(Replay(log), e) <==>
            && e.digest in Replay(log).items
            && exists q :: q in Replay(log).items && (q == e.digest || e.digest in After(Replay(log).keys, q))
                           && LastHandled(log, q).Some? && e.at - LastHandled(log, q).value <= 60
  {
    var d := Replay(log);
    ReplayIsStamped(log);
    PopStaleKeeps(d, e.at, e.digest);
    assert forall q :: q in d.items ==> LastHandled(log, q) == Some(d.items[q]);
    assert forall q :: q in d.items ==> (!IsStale(d, q, e.at) <==> e.at - LastHandled(log, q).value <= GROUP_DEDUP_TTL);
  }

  lemma ReplaySnoc(log: Log, e: Arrival)
    ensures Replay(log + [e]) == Apply(Replay(log), e)
  {
    assert (log + [e])[..|log|] == log;
  }

  /** A new digest in a small map without stale entries. */
  lemma ApplyNew(d: Seen, e: Arrival)
    requires d.Valid() && |d.keys| < 10 && e.digest !in d.items && (d.keys != [] ==> !IsStale(d, d.keys[0], e.at))
    ensures Apply(d, e) == OrderedDict(d.keys + [e.digest], d.items[e.digest := e.at])
  {
    SmallPut(d, e.digest, e.at);
  }

  // Two other payloads, in turns, keep a repeated one in the map for ever.

  /** `x` with its first stamp, behind `o` and `l`. */
  function Behind(o: Digest, oAt: int, l: Digest, lAt: int, x: Digest): Seen {
    OrderedDict([o, l, x], map[o := oAt, l := lAt, x := 0])
  }

  /** A duplicate in the last place but one of a small map without a stale head. */
  lemma MovedToEnd(d: Seen, x: Digest, at: int)
    requires d.Valid() && x in d.items && d.keys != [] && !IsStale(d, d.keys[0], at)
    requires |d.keys| >= 2 && d.keys[|d.keys| - 2] == x
    ensures Apply(d, Arrival(x, at)) == OrderedDict(d.keys[..|d.keys| - 2] + [d.keys[|d.keys| - 1], x], d.items)
  {
    var n := |d.keys|;
    var front := d.keys[..n - 2];
    var p := OtherThan(x);
    assert d.keys[..n - 1][..n - 2] == front && d.keys[..n - 1][n - 2] == x;
    KeepAll(front, p);
    assert Keep(d.keys[..n - 1], p) == front;
    assert Remove(d.keys, x) == front + [d.keys[n - 1]];
  }

  /** The older of the two others has become stale: it is popped, and comes back as the newest. */
  lemma OlderReturns(o: Digest, oAt: int, l: Digest, lAt: int, x: Digest, at: int)
    requires o != l && o != x && l != x && at - oAt > GROUP_DEDUP_TTL >= at - lAt
    ensures Apply(Behind(o, oAt, l, lAt, x), Arrival(o, at)) == OrderedDict([l, x, o], map[l := lAt, x := 0, o := at])
  {
    var d := Behind(o, oAt, l, lAt, x);
    var popped: Seen := OrderedDict([l, x], map[l := lAt, x := 0]);
    assert d.PopFirst() == popped;
    assert PopStale(popped, at) == popped;
    assert PopStale(d, at) == popped;
    assert popped.Valid();
    hide PopStale;
    SmallPut(popped, o, at);
    assert [l, x] + [o] == [l, x, o];
  }

  lemma OneRound(o: Digest, oAt: int, l: Digest, lAt: int, x: Digest, at: int)
    requires o != l && o != x && l != x && at - oAt > GROUP_DEDUP_TTL >= at + 5 - lAt
    ensures Apply(Apply(Behind(o, oAt, l, lAt, x), Arrival(o, at)), Arrival(x, at + 5)) == Behind(l, lAt, o, at, x)
  {
    OlderReturns(o, oAt, l, lAt, x, at);
    var d: Seen := OrderedDict([l, x, o], map[l := lAt, x := 0, o := at]);
    assert d.Valid();
    hide Apply;
    MovedToEnd(d, x, at + 5);
    assert d.keys[..1] + [o, x] == [l, o, x];
  }

  /** After `n` rounds, the older and the newer of the two others. */
  function Turns(x: Digest, y: Digest, z: Digest, n: nat): (Log, Digest, Digest) {
    if n == 0 then ([Arrival(x, 0), Arrival(y, 0), Arrival(x, 5), Arrival(z, 50), Arrival(x, 55)], y, z)
    else
      var (log, o, l) := Turns(x, y, z, n - 1);
      (log + [Arrival(o, 50 * n + 50)] + [Arrival(x, 50 * n + 55)], l, o)
  }

  lemma AfterOne(x: Digest)
    ensures Replay([Arrival(x, 0)]) == OrderedDict([x], map[x := 0])
  {
    assert [Arrival(x, 0)][..0] == [];
    SmallPut(Empty(), x, 0);
    assert [] + [x] == [x];
  }

  lemma ApplySecond(x: Digest, y: Digest)
    requires x != y
    ensures Apply(OrderedDict([x], map[x := 0]), Arrival(y, 0)) == OrderedDict([x, y], map[x := 0, y := 0])
  {
    var d: Seen := OrderedDict([x], map[x := 0]);
    assert d.Valid();
    ApplyNew(d, Arrival(y, 0));
    assert [x] + [y] == [x, y];
  }

  lemma ApplyThird(x: Digest, y: Digest)
    requires x != y
    ensures Apply(OrderedDict([x, y], map[x := 0, y := 0]), Arrival(x, 5)) == OrderedDict([y, x], map[x := 0, y := 0])
  {
    var d: Seen := OrderedDict([x, y], map[x := 0, y := 0]);
    assert d.Valid();
    hide Apply;
    MovedToEnd(d, x, 5);
    assert d.keys[..0] + [y, x] == [y, x];
  }

  lemma ApplyFourth(x: Digest, y: Digest, z: Digest)
    requires x != y && x != z && y != z
    ensures Apply(OrderedDict([y, x], map[x := 0, y := 0]), Arrival(z, 50))
         == OrderedDict([y, x, z], map[x := 0, y := 0, z := 50])
  {
    var d: Seen := OrderedDict([y, x], map[x := 0, y := 0]);
    assert d.Valid();
    ApplyNew(d, Arrival(z, 50));
    assert [y, x] + [z] == [y, x, z];
  }

  lemma ApplyFifth(x: Digest, y: Digest, z: Digest)
    requires x != y && x != z && y != z
    ensures Apply(OrderedDict([y, x, z], map[x := 0, y := 0, z := 50]), Arrival(x, 55)) == Behind(y, 0, z, 50, x)
  {
    var d: Seen := OrderedDict([y, x, z], map[x := 0, y := 0, z := 50]);
    assert d.Valid();
    hide Apply;
    MovedToEnd(d, x, 55);
    assert d.keys[..1] + [z, x] == [y, z, x];
  }

  lemma FirstTurns(x: Digest, y: Digest, z: Digest)
    requires x != y && x != z && y != z
    ensures Replay(Turns(x, y, z, 0).0) == Behind(y, 0, z, 50, x)
  {
    hide Replay, Apply;
    var a, b, c, d, e := Arrival(x, 0), Arrival(y, 0), Arrival(x, 5), Arrival(z, 50), Arrival(x, 55);
    assert [a] + [b] == [a, b] && [a, b] + [c] == [a, b, c];
    assert [a, b, c] + [d] == [a, b, c, d] && [a, b, c, d] + [e] == [a, b, c, d, e];
    AfterOne(x);
    ReplaySnoc([a], b);
    ApplySecond(x, y);
    ReplaySnoc([a, b], c);
    ApplyThird(x, y);
    ReplaySnoc([a, b, c], d);
    ApplyFourth(x, y, z);
    ReplaySnoc([a, b, c, d], e);
    ApplyFifth(x, y, z);
  }

  lemma {:induction false} TurnsReach(x: Digest, y: Digest, z: Digest, n: nat)
    requires x != y && x != z && y != z
    ensures var (log, o, l) := Turns(x, y, z, n);
            o != l && o != x && l != x && Replay(log) == Behind(o, 50 * n, l, 50 * n + 50, x)
  {
    hide Replay, Apply, Behind;
    if n == 0 {
      FirstTurns(x, y, z);
    } else {
      TurnsReach(x, y, z, n - 1);
      var (log, o, l) := Turns(x, y, z, n - 1);
      ReplaySnoc(log, Arrival(o, 50 * n + 50));
      ReplaySnoc(log + [Arrival(o, 50 * n + 50)], Arrival(x, 50 * n + 55));
      OneRound(o, 50 * n - 50, l, 50 * n, x, 50 * n + 50);
    }
  }

  lemma {:induction false} TurnsInOrder(x: Digest, y: Digest, z: Digest, n: nat)
    ensures var log := Turns(x, y, z, n).0;
            Nondecreasing(log) && log != [] && log[|log| - 1].at == 50 * n + 55
  {
    if n > 0 {
      TurnsInOrder(x, y, z, n - 1);
    }
  }

  /** The order is not that of the stamps, and the window is no bound: for every time there is a run in
      which a payload last handled at 0 is still suppressed after it. */
  lemma SuppressedPastTheWindow(x: Digest, y: Digest, z: Digest, t: nat)
    requires x != y && x != z && y != z
    ensures exists log, at: int ::
              && at > t && Nondecreasing(log + [Arrival(x, at)])
              && LastHandled(log, x) == Some(0) && !Handles(Replay(log), Arrival(x, at))
  {
    hide Replay, LastHandled, Turns, Handles, Nondecreasing;
    var (log, o, l) := Turns(x, y, z, t);
    var at := 50 * t + 60;
    TurnsReach(x, y, z, t);
    TurnsInOrder(x, y, z, t);
    MapIsBounded(log);
    BehindSuppresses(o, 50 * t, l, 50 * t + 50, x, at);
    OneLater(log, Arrival(x, at));
    assert at > t && Nondecreasing(log + [Arrival(x, at)]);
  }

  lemma BehindSuppresses(o: Digest, oAt: int, l: Digest, lAt: int, x: Digest, at: int)
    requires o != l && o != x && l != x && at - oAt <= GROUP_DEDUP_TTL
    ensures x in Behind(o, oAt, l, lAt, x).items && Behind(o, oAt, l, lAt, x).items[x] == 0
    ensures !Handles(Behind(o, oAt, l, lAt, x), Arrival(x, at))
  {
    assert PopStale(Behind(o, oAt, l, lAt, x), at) == Behind(o, oAt, l, lAt, x);
  }

  lemma OneLater(log: Log, e: Arrival)
    requires Nondecreasing(log) && log != [] && log[|log| - 1].at <= e.at
    ensures Nondecreasing(log + [e])
  {
  }

  /** A put well below the cap evicts nothing. */
  lemma SmallPut(d: Seen, k: Digest, at: int)
    requires d.Valid() && |d.keys| < 10 && k !in d.items
    ensures d.PutLast(k, at).Newest(GROUP_DEDUP_MAX) == OrderedDict(d.keys + [k], d.items[k := at])
  {
    PutLastValid(d, k, at);
    KeepNoLonger(d.keys, OtherThan(k));
    KeepAll(d.keys, OtherThan(k));
    NewestDone(d.PutLast(k, at), GROUP_DEDUP_MAX);
  }

  // ----- The handler -----

  lemma NextArrival(log: Log, e: Arrival)
    ensures Replay(log).Valid() && Replay(log + [e]) == Apply(Replay(log), e)
  {
    ReplayIsStamped(log);
    ReplaySnoc(log, e);
  }

  class GroupReceiver {
    /** The digest of a payload. */
    const sha256: string -> Digest
    var seen: Seen
    /** Every non-empty payload since the start. */
    ghost var log: Log

    ghost predicate Valid()
      reads this
    {
      seen == Replay(log)
    }

    constructor (sha256: string -> Digest)
      ensures Valid() && this.sha256 == sha256 && log == []
    {
      this.sha256 := sha256;
      seen, log := Empty(), [];
    }

    /** Drops stale entries from the front. */
    method DropStale(d: Seen, now: int) returns (kept: Seen)
      requires d.Valid()
      ensures kept == PopStale(d, now) && kept.Valid()
    {
      kept := d;
      while kept.keys != [] && now - kept.items[kept.keys[0]] > GROUP_DEDUP_TTL
        invariant kept.Valid() && PopStale(kept, now) == PopStale(d, now)
        decreases |kept.keys|
      {
        PopFirstValid(kept);
        kept := kept.PopFirst();
      }
    }

    /** Handles a payload, unless it is empty or was seen before. The clock may have stepped back. */
    method OnGroupMessage(payload: string, now: int) returns (handled: bool)
      requires Valid()
      modifies this
      ensures Valid()
      ensures payload == "" ==> !handled && log == old(log)
      ensures payload != "" ==> log == old(log) + [Arrival(sha256(payload), now)]
      ensures payload != "" ==> handled == Handles(old(seen), Arrival(sha256(payload), now))
    {
      if payload == "" {
        return false;
      }
      var digest := sha256(payload);
      hide Replay, PopStale, Trim, Remove;
      NextArrival(log, Arrival(digest, now));
      var d := DropStale(seen, now);
      if digest in d.items {
        d := d.PutLast(digest, d.items[digest]);
        handled := false;
      } else {
        PutLastValid(d, digest, now);
        d := EvictOldest(d.PutLast(digest, now), GROUP_DEDUP_MAX);
        handled := true;
      }
      seen := d;
      log := log + [Arrival(digest, now)];
    }
  }
}
