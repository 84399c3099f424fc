/** The per-peer circuit breaker: a pruned failure list against the full failure history. */
module Breaker {
  import opened Graph
  import opened OrderedDicts

  datatype Settings = Settings(threshold: int, window: int, cooldown: int)

  datatype PeerState = PeerState(failures: seq<int>, openedAt: Option<int>)

  const UNSET := PeerState([], None)

  function Within(window: int, now: int): int -> bool {
    t => now - t <= window
  }

  // ----- The breaker, with its pruned list -----

  function Failed(st: PeerState, now: int, cfg: Settings): PeerState {
    var recent := Keep(st.failures + [now], Within(cfg.window, now));
    PeerState(recent, if |recent| >= cfg.threshold && st.openedAt.None? then Some(now) else st.openedAt)
  }

  predicate IsOpen(st: PeerState, now: int, cfg: Settings) {
    st.openedAt.Some? && now - st.openedAt.value <= cfg.cooldown
  }

  /** Asking whether the breaker is open closes it when its cooldown has passed. */
  function Asked(st: PeerState, now: int, cfg: Settings): PeerState {
    if st.openedAt.Some? && !IsOpen(st, now, cfg) then UNSET else st
  }

  // ----- The full history -----

  datatype Event = Failure(at: int) | Success | Ask(at: int)

  function Apply(st: PeerState, e: Event, cfg: Settings): PeerState {
    match e
    case Failure(at) => Failed(st, at, cfg)
    case Success => UNSET
    case Ask(at) => Asked(st, at, cfg)
  }

  function Replay(log: seq<Event>, cfg: Settings): PeerState {
    if log == [] then UNSET else Apply(Replay(log[..|log| - 1], cfg), log[|log| - 1], cfg)
  }

  /** The time of the uncleared trip, judged on every failure since the last reset. */
  function TrippedAt(log: seq<Event>, cfg: Settings): Option<int>
    decreases |log|, 1
  {
    if log == [] then None
    else
      var before := TrippedAt(log[..|log| - 1], cfg);
      match log[|log| - 1]
      case Success => None
      case Ask(at) => if before.Some? && at - before.value > cfg.cooldown then None else before
      case Failure(at) =>
        if before.None? && |Keep(FailuresSinceReset(log, cfg), Within(cfg.window, at))| >= cfg.threshold then Some(at)
        else before
  }

  /** Every failure since the last success or the last time a trip cooled down, none forgotten. */
  function FailuresSinceReset(log: seq<Event>, cfg: Settings): seq<int>
    decreases |log|, 0
  {
    if log == [] then []
    else
      var before := log[..|log| - 1];
      match log[|log| - 1]
      case Success => []
      case Ask(at) =>
        var trip := TrippedAt(before, cfg);
        if trip.Some? && at - trip.value > cfg.cooldown then [] else FailuresSinceReset(before, cfg)
      case Failure(at) => FailuresSinceReset(before, cfg) + [at]
  }

  function TimesOf(log: seq<Event>): seq<int> {
    if log == [] then []
    else
      var before := TimesOf(log[..|log| - 1]);
      match log[|log| - 1]
      case Success => before
      case Ask(at) => before + [at]
      case Failure(at) => before + [at]
  }

  ghost predicate Sorted(q: seq<int>) {
    forall i, j :: 0 <= i < j < |q| ==> q[i] <= q[j]
  }

  ghost predicate AllAtMost(q: seq<int>, t: int) {
    forall i :: 0 <= i < |q| ==> q[i] <= t
  }

  lemma {:induction false} FailuresAtMost(log: seq<Event>, cfg: Settings, t: int)
    requires AllAtMost(TimesOf(log), t)
    ensures AllAtMost(FailuresSinceReset(log, cfg), t)
  {
    if log != [] {
      var before := log[..|log| - 1];
      var times := TimesOf(before);
      assert forall i :: 0 <= i < |times| ==> TimesOf(log)[i] == times[i];
      FailuresAtMost(before, cfg, t);
      if log[|log| - 1].Failure? {
        assert TimesOf(log)[|TimesOf(log)| - 1] == log[|log| - 1].at;
      }
    }
  }

  lemma KeepSnoc(q: seq<int>, x: int, p: int -> bool)
    ensures Keep(q + [x], p) == Keep(q, p) + (if p(x) then [x] else [])
  {
    assert (q + [x])[..|q|] == q;
  }

  /** Pruning at an earlier time loses nothing that a later window still holds. */
  lemma {:induction false} PruneEarlier(q: seq<int>, window: int, earlier: int, now: int)
    requires earlier <= now
    ensures Keep(Keep(q, Within(window, earlier)), Within(window, now)) == Keep(q, Within(window, now))
  {
    if q != [] {
      var init, last := q[..|q| - 1], q[|q| - 1];
      PruneEarlier(init, window, earlier, now);
      assert q == init + [last];
      KeepSnoc(init, last, Within(window, earlier));
      KeepSnoc(init, last, Within(window, now));
      if earlier - last <= window {
        KeepSnoc(Keep(init, Within(window, earlier)), last, Within(window, now));
      } else {
        assert Keep(q, Within(window, earlier)) == Keep(init, Within(window, earlier));
      }
    }
  }

  /** The last failure since the reset, if there is one: the time of the last pruning. */
  function PrunedAt(log: seq<Event>, cfg: Settings): int {
    var q := FailuresSinceReset(log, cfg);
    if q == [] then 0 else q[|q| - 1]
  }

  /** The breaker agrees with the full history: for nondecreasing times, the pruned list is the
      window of all failures since the last reset as of the last of them, and the breaker is set
      exactly by an uncleared trip of that full list. */
  lemma {:induction false} BreakerAgreesWithHistory(log: seq<Event>, cfg: Settings)
    requires Sorted(TimesOf(log))
    ensures Replay(log, cfg).failures == Keep(FailuresSinceReset(log, cfg), Within(cfg.window, PrunedAt(log, cfg)))
    ensures Replay(log, cfg).openedAt == TrippedAt(log, cfg)
  {
    if log != [] {
      var before := log[..|log| - 1];
      TimesSorted(log);
      BreakerAgreesWithHistory(before, cfg);
      match log[|log| - 1]
      case Success =>
      case Ask(_) =>
      case Failure(at) =>
        FailuresAtMost(before, cfg, at);
        PruneOnFailure(FailuresSinceReset(before, cfg), PrunedAt(before, cfg), at, cfg.window);
    }
  }

  lemma TimesSorted(log: seq<Event>)
    requires log != [] && Sorted(TimesOf(log))
    ensures Sorted(TimesOf(log[..|log| - 1]))
    ensures log[|log| - 1].Failure? ==> AllAtMost(TimesOf(log[..|log| - 1]), log[|log| - 1].at)
  {
    hide Sorted, AllAtMost;
    match log[|log| - 1]
    case Success =>
    case Ask(at) => SortedSnoc(TimesOf(log[..|log| - 1]), at);
    case Failure(at) => SortedSnoc(TimesOf(log[..|log| - 1]), at);
  }

  lemma SortedSnoc(q: seq<int>, t: int)
    requires Sorted(q + [t])
    ensures Sorted(q) && AllAtMost(q, t)
  {
    var all := q + [t];
    assert forall i :: 0 <= i < |q| ==> q[i] == all[i];
    assert all[|q|] == t;
  }

  /** Pruning the pruned list and the new failure is pruning the full list. */
  lemma PruneOnFailure(full: seq<int>, prunedAt: int, at: int, window: int)
    requires full != [] ==> prunedAt <= at
    ensures Keep(Keep(full, Within(window, prunedAt)) + [at], Within(window, at))
        == Keep(full + [at], Within(window, at))
  {
    KeepSnoc(Keep(full, Within(window, prunedAt)), at, Within(window, at));
    KeepSnoc(full, at, Within(window, at));
    if full != [] {
      PruneEarlier(full, window, prunedAt, at);
    }
  }

  /** `is_open` is true exactly when there is an uncleared trip at most `cooldown` old. */
  lemma OpenMeansRecentTrip(log: seq<Event>, cfg: Settings, now: int)
    requires Sorted(TimesOf(log))
    ensures IsOpen(Replay(log, cfg), now, cfg)
       <==> TrippedAt(log, cfg).Some? && now - TrippedAt(log, cfg).value <= cfg.cooldown
  {
    BreakerAgreesWithHistory(log, cfg);
  }

  type Peers = map<NodeId, PeerState>

  function StateOf(peers: Peers, peer: NodeId): PeerState {
    if peer in peers then peers[peer] else UNSET
  }

  /** All peers after asking about one. */
  function PeersAsked(peers: Peers, peer: NodeId, now: int, cfg: Settings): Peers {
    if peer in peers then peers[peer := Apply(peers[peer], Ask(now), cfg)] else peers
  }

  type Logs = map<NodeId, seq<Event>>

  function LogOf(logs: Logs, peer: NodeId): seq<Event> {
    if peer in logs then logs[peer] else []
  }

  /** `logs` with one more event for one peer. */
  function Logged(logs: Logs, peer: NodeId, e: Event): Logs {
    logs[peer := LogOf(logs, peer) + [e]]
  }

  lemma ReplaySnoc(log: seq<Event>, e: Event, cfg: Settings)
    ensures Replay(log + [e], cfg) == Apply(Replay(log, cfg), e, cfg)
  {
    assert (log + [e])[..|log|] == log;
  }

  /** The trip callback fires on a failure exactly when it makes the unpruned window reach the threshold
      while no earlier trip is uncleared. */
  lemma TripsAtThreshold(log: seq<Event>, now: int, cfg: Settings)
    requires Sorted(TimesOf(log + [Failure(now)]))
    ensures Replay(log, cfg).openedAt.None? && Replay(log + [Failure(now)], cfg).openedAt.Some?
       <==> && TrippedAt(log, cfg).None?
            && |Keep(FailuresSinceReset(log, cfg) + [now], Within(cfg.window, now))| >= cfg.threshold
  {
    var log' := log + [Failure(now)];
    assert log'[..|log| + 1 - 1] == log;
    TimesSorted(log');
    BreakerAgreesWithHistory(log, cfg);
    BreakerAgreesWithHistory(log', cfg);
  }

  /** Every peer's state is that of its full history. */
  ghost predicate Agree(peers: Peers, logs: Logs, cfg: Settings) {
    forall p :: StateOf(peers, p) == Replay(LogOf(logs, p), cfg)
  }

  lemma AgreeStep(peers: Peers, peers': Peers, logs: Logs, peer: NodeId, e: Event, cfg: Settings)
    requires Agree(peers, logs, cfg) && StateOf(peers', peer) == Apply(StateOf(peers, peer), e, cfg)
    requires forall p :: p != peer ==> StateOf(peers', p) == StateOf(peers, p)
    ensures Agree(peers', Logged(logs, peer, e), cfg)
  {
    hide Replay, Apply;
    forall p ensures StateOf(peers', p) == Replay(LogOf(Logged(logs, peer, e), p), cfg) {
      assert StateOf(peers, p) == Replay(LogOf(logs, p), cfg);
      ReplaySnoc(LogOf(logs, peer), e, cfg);
    }
  }

  class CircuitBreaker {
    const settings: Settings
    var state: Peers
    /** Every failure, success and question since the start, peer by peer. */
    ghost var logs: Logs

    ghost predicate Valid()
      reads this
    {
      Agree(state, logs, settings)
    }

    constructor (settings: Settings)
      ensures Valid() && this.settings == settings && state == map[] && logs == map[]
    {
      this.settings := settings;
      state, logs := map[], map[];
    }

    method RecordSuccess(peer: NodeId)
      requires Valid()
      modifies this
      ensures Valid() && logs == Logged(old(logs), peer, Success)
      ensures state == old(state)[peer := PeerState([], None)]
    {
      AgreeStep(state, state[peer := UNSET], logs, peer, Success, settings);
      state := state[peer := UNSET];
      logs := Logged(logs, peer, Success);
    }

    /** `tripped` is the trip callback's firing. */
    method RecordFailure(peer: NodeId, now: int) returns (tripped: bool)
      requires Valid()
      modifies this
      ensures Valid() && logs == Logged(old(logs), peer, Failure(now))
      ensures state == old(state)[peer := Failed(StateOf(old(state), peer), now, settings)]
      ensures tripped <==> StateOf(old(state), peer).openedAt.None? && state[peer].openedAt.Some?
    {
      ghost var was := state;
      var st := StateOf(state, peer);
      var failures := st.failures + [now];
      var recent := RecentOf(failures, now);
      tripped := |recent| >= settings.threshold && st.openedAt.None?;
      state := state[peer := PeerState(recent, if tripped then Some(now) else st.openedAt)];
      AgreeStep(was, state, logs, peer, Failure(now), settings);
      logs := Logged(logs, peer, Failure(now));
    }

    /** The failures that are still inside the window. */
    method RecentOf(failures: seq<int>, now: int) returns (recent: seq<int>)
      ensures recent == Keep(failures, Within(settings.window, now))
      ensures forall t :: t in recent <==> t in failures && now - t <= settings.window
    {
      KeepMembers(failures, Within(settings.window, now));
      recent := [];
      for i := 0 to |failures|
        invariant recent == Keep(failures[..i], Within(settings.window, now))
      {
        assert failures[..i + 1][..i] == failures[..i];
        if now - failures[i] <= settings.window {
          recent := recent + [failures[i]];
        }
      }
      assert failures[..|failures|] == failures;
    }

    /** Whether the peer's breaker is open: for an orderly clock, whether its full history holds an
        uncleared trip at most the cooldown old. Asking may close the breaker. */
    method Open(peer: NodeId, now: int) returns (open: bool)
      requires Valid()
      modifies this
      ensures Valid() && logs == Logged(old(logs), peer, Ask(now))
      ensures Sorted(TimesOf(LogOf(old(logs), peer))) ==>
                var trip := TrippedAt(LogOf(old(logs), peer), settings);
                open <==> trip.Some? && now - trip.value <= settings.cooldown
      ensures open == IsOpen(StateOf(old(state), peer), now, settings)
      ensures state == PeersAsked(old(state), peer, now, settings)
    {
      ghost var log := LogOf(logs, peer);
      if Sorted(TimesOf(log)) {
        OpenMeansRecentTrip(log, settings, now);
      }
      assert StateOf(state, peer) == Replay(log, settings);
      AgreeStep(state, PeersAsked(state, peer, now, settings), logs, peer, Ask(now), settings);
      hide Agree, Replay, Sorted, TimesOf, TrippedAt;
      logs := Logged(logs, peer, Ask(now));
      if peer !in state || state[peer].openedAt.None? {
        assert PeersAsked(state, peer, now, settings) == state;
        return false;
      }
      if now - state[peer].openedAt.value > settings.cooldown {
        state := state[peer := UNSET];
        return false;
      }
      assert PeersAsked(state, peer, now, settings) == state;
      return true;
    }
  }
}
