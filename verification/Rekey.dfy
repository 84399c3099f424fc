/** In-session key rotation between two peers over two first-in first-out channels. */
module Rekey {
  import opened Graph

  /** An abstract Diffie-Hellman group: ephemeral secrets, their public halves, shared keys. */
  datatype Group = Group(pub: int -> int, dh: (int, int) -> int)

  ghost predicate Agrees(g: Group) {
    forall a, b :: g.dh(a, g.pub(b)) == g.dh(b, g.pub(a))
  }

  lemma SharedKey(g: Group, a: int, b: int)
    requires Agrees(g)
    ensures g.dh(a, g.pub(b)) == g.dh(b, g.pub(a))
  {
  }

  type RekeyId = string

  datatype Body = Request(pub: Option<int>, id: RekeyId) | Response(pub: Option<int>, id: RekeyId) | Data

  /** One end's view of the session with its peer. */
  datatype End = End(key: int, prev: Option<int>, pendingSecret: Option<int>, pendingId: Option<RekeyId>, count: nat)

  // ----- What the handlers do -----

  function Initiated(e: End, secret: int, id: RekeyId): End {
    e.(pendingSecret := Some(secret), pendingId := Some(id))
  }

  /** Installs a new key and keeps the retiring one for decryption. */
  function Switched(e: End, key: int): End {
    e.(prev := Some(e.key), key := key, count := e.count + 1)
  }

  /** A collision: our own request is in flight. The lower id ignores the competing request. */
  predicate Ignores(e: End, lower: bool) {
    e.pendingId.Some? && lower
  }

  /** The higher id abandons its own request and answers; without collision anyone answers. The
      answer goes out under the key that is about to retire. */
  function OnRequest(g: Group, lower: bool, e: End, pub: Option<int>, id: RekeyId, secret: int): (End, Option<Body>) {
    if pub.None? || Ignores(e, lower) then (e, None)
    else
      (Switched(if e.pendingId.Some? then e.(pendingSecret := None, pendingId := None) else e, g.dh(secret, pub.value)),
       Some(Response(Some(g.pub(secret)), id)))
  }

  function OnResponse(g: Group, e: End, pub: Option<int>, id: RekeyId): End {
    if e.pendingId != Some(id) || pub.None? || e.pendingSecret.None? then e
    else Switched(e.(pendingSecret := None, pendingId := None), g.dh(e.pendingSecret.value, pub.value))
  }

  // ----- Sequence numbers -----

  /** The number of the next frame, and the last number seen under the current key and under the retained
      one. */
  datatype Numbers = Numbers(next: nat, mark: nat, prevMark: Option<nat>)

  const MAX_SEQUENCE := 0x1_0000_0000_0000

  /** The replay guard lets a frame through. */
  predicate Admits(mark: nat, number: nat) {
    mark < number <= MAX_SEQUENCE
  }

  /** The mark that a frame is checked against. */
  function MarkFor(n: Numbers, usedPrev: bool): Option<nat> {
    if usedPrev then n.prevMark else Some(n.mark)
  }

  predicate Accepted(n: Numbers, usedPrev: bool, number: nat) {
    MarkFor(n, usedPrev).Some? && Admits(MarkFor(n, usedPrev).value, number)
  }

  function Marked(n: Numbers, usedPrev: bool, number: nat): Numbers {
    if usedPrev then n.(prevMark := Some(number)) else n.(mark := number)
  }

  function Counted(n: Numbers): Numbers {
    n.(next := n.next + 1)
  }

  /** A new key starts both number spaces afresh, and the old mark stays with the old key. */
  function Restarted(n: Numbers): Numbers {
    Numbers(1, 0, Some(n.mark))
  }

  /** The daemon's state for one peer, as the handlers update it. Sending is returned: the body to
      send, the session key it is sealed under, and its sequence number. */
  class PeerSession {
    const group: Group
    /** Our node id is smaller than the peer's. */
    const lower: bool
    var sessionKey: int
    var prevSessionKey: Option<int>
    var pendingSecret: Option<int>
    var pendingId: Option<RekeyId>
    var rekeyCount: nat
    var nextSendSeq: nat
    /** The last sequence number seen under the current key, and under the retained key. */
    var lastSeq: nat
    var prevLastSeq: Option<nat>
    var graceUntil: int

    constructor (group: Group, lower: bool, sessionKey: int)
      ensures this.group == group && this.lower == lower && View() == End(sessionKey, None, None, None, 0)
      ensures Sequences() == Numbers(1, 0, None)
    {
      this.group, this.lower, this.sessionKey := group, lower, sessionKey;
      prevSessionKey, pendingSecret, pendingId, rekeyCount := None, None, None, 0;
      nextSendSeq, lastSeq, prevLastSeq, graceUntil := 1, 0, None, 0;
    }

    function View(): End
      reads this
    {
      End(sessionKey, prevSessionKey, pendingSecret, pendingId, rekeyCount)
    }

    function Sequences(): Numbers
      reads this
    {
      Numbers(nextSendSeq, lastSeq, prevLastSeq)
    }

    /** The number of a frame that is about to be sent. */
    method NextSequence() returns (number: nat)
      modifies this`nextSendSeq
      ensures number == old(nextSendSeq) && Sequences() == Counted(old(Sequences()))
    {
      number := nextSendSeq;
      nextSendSeq := nextSendSeq + 1;
    }

    /** The replay guard: refuses a number that is not above the mark of the key that decrypted the frame,
        or beyond the largest allowed. */
    method CheckReplay(usedPrev: bool, number: nat) returns (ok: bool)
      modifies this`lastSeq, this`prevLastSeq
      ensures ok == Accepted(old(Sequences()), usedPrev, number)
      ensures ok <==>
                var mark := if usedPrev then old(prevLastSeq) else Some(old(lastSeq));
                mark.Some? && mark.value < number && 0 < number <= 281474976710656
      ensures Sequences() == if ok then Marked(old(Sequences()), usedPrev, number) else old(Sequences())
    {
      var mark := if usedPrev then prevLastSeq else Some(lastSeq);
      if mark.None? || number <= 0 || number > MAX_SEQUENCE || number <= mark.value {
        return false;
      }
      if usedPrev {
        prevLastSeq := Some(number);
      } else {
        lastSeq := number;
      }
      return true;
    }

    method Initiate(secret: int, id: RekeyId) returns (sent: Body, sealedUnder: int, number: nat)
      modifies this`pendingSecret, this`pendingId, this`nextSendSeq
      ensures View() == Initiated(old(View()), secret, id)
      ensures sent == Request(Some(group.pub(secret)), id) && sealedUnder == old(sessionKey)
      ensures number == old(nextSendSeq) && Sequences() == Counted(old(Sequences()))
    {
      pendingSecret := Some(secret);
      pendingId := Some(id);
      sent, sealedUnder := Request(Some(group.pub(secret)), id), sessionKey;
      number := NextSequence();
    }

    /** Retires whatever was retained, and retains the current key with its replay mark. */
    method BeginTransition(now: int)
      modifies this`prevSessionKey, this`prevLastSeq, this`graceUntil
      ensures prevSessionKey == Some(sessionKey) && prevLastSeq == Some(lastSeq)
      ensures graceUntil == now + 30
    {
      prevSessionKey, prevLastSeq := Some(sessionKey), Some(lastSeq);
      graceUntil := now + 30;
    }

    method HandleRequest(pub: Option<int>, id: RekeyId, secret: int, now: int)
      returns (sent: Option<Body>, sealedUnder: int, number: nat)
      modifies this
      ensures (View(), sent) == OnRequest(group, lower, old(View()), pub, id, secret)
      ensures sealedUnder == old(sessionKey) && number == old(nextSendSeq)
      ensures Sequences() == if sent.Some? then Restarted(old(Sequences())) else old(Sequences())
      ensures graceUntil == if sent.Some? then now + 30 else old(graceUntil)
      ensures pub.None? ==> sent == None && View() == old(View())
    {
      sent, sealedUnder, number := None, sessionKey, nextSendSeq;
      if pub.None? {
        return;
      }
      if pendingId.Some? {
        if lower {
          return;
        }
        pendingSecret := None;
        pendingId := None;
      }
      var newKey := group.dh(secret, pub.value);
      sent := Some(Response(Some(group.pub(secret)), id));
      number := NextSequence();
      BeginTransition(now);
      sessionKey := newKey;
      rekeyCount := rekeyCount + 1;
      nextSendSeq, lastSeq := 1, 0;
    }

    method HandleResponse(pub: Option<int>, id: RekeyId, now: int) returns (completed: bool)
      modifies this
      ensures View() == OnResponse(group, old(View()), pub, id)
      ensures completed <==> old(pendingId) == Some(id) && pub.Some? && old(pendingSecret).Some?
      ensures !completed ==> View() == old(View())
      ensures Sequences() == if completed then Restarted(old(Sequences())) else old(Sequences())
      ensures graceUntil == if completed then now + 30 else old(graceUntil)
    {
      if pendingId != Some(id) {
        return false;
      }
      if pub.None? || pendingSecret.None? {
        return false;
      }
      var newKey := group.dh(pendingSecret.value, pub.value);
      pendingSecret := None;
      pendingId := None;
      BeginTransition(now);
      sessionKey := newKey;
      rekeyCount := rekeyCount + 1;
      nextSendSeq, lastSeq := 1, 0;
      return true;
    }
  }

  // ----- Two ends and two channels -----

  /** A sealed frame. `sentAt` is the sender's rekey count, kept for the proofs: it is not on the
      wire and no handler looks at it. */
  datatype Frame = Frame(key: int, body: Body, sentAt: nat)

  datatype Side = Lower | Upper

  /** The lower-id end, the upper-id end, the channel into each, and the number of frames that a
      receiver could not decrypt. */
  datatype System = System(lower: End, upper: End, toLower: seq<Frame>, toUpper: seq<Frame>, lost: nat) {
    function At(x: Side): End {
      if x.Lower? then lower else upper
    }

    function Into(x: Side): seq<Frame> {
      if x.Lower? then toLower else toUpper
    }

    function SetAt(x: Side, e: End): System {
      if x.Lower? then this.(lower := e) else this.(upper := e)
    }

    function SetInto(x: Side, q: seq<Frame>): System {
      if x.Lower? then this.(toLower := q) else this.(toUpper := q)
    }
  }

  function Other(x: Side): Side {
    if x.Lower? then Upper else Lower
  }

  /** `x` sends `body` to the other end, sealed under its current key. */
  function Post(s: System, x: Side, body: Body): System {
    s.SetInto(Other(x), s.Into(Other(x)) + [Frame(s.At(x).key, body, s.At(x).count)])
  }

  /** A step of the session. `secret` and `id` are what the random sources return. */
  datatype Step = Initiate(who: Side, secret: int, id: RekeyId) | SendData(who: Side) | Deliver(who: Side, secret: int)

  predicate Enabled(s: System, e: Step) {
    e.Deliver? ==> s.Into(e.who) != []
  }

  /** The receiver holds the key a frame is sealed under, as current or as retained. */
  predicate Decrypts(e: End, f: Frame) {
    f.key == e.key || e.prev == Some(f.key)
  }

  /** What the receiver `x` does with a decrypted body. A response leaves under the old key. */
  function Handled(g: Group, s: System, x: Side, body: Body, secret: int): System {
    match body
    case Data => s
    case Response(pub, id) => s.SetAt(x, OnResponse(g, s.At(x), pub, id))
    case Request(pub, id) =>
      var (e, answer) := OnRequest(g, x.Lower?, s.At(x), pub, id, secret);
      if answer.None? then s.SetAt(x, e) else Post(s, x, answer.value).SetAt(x, e)
  }

  function Next(g: Group, s: System, e: Step): System
    requires Enabled(s, e)
  {
    match e
    case Initiate(x, secret, id) =>
      Post(s, x, Request(Some(g.pub(secret)), id)).SetAt(x, Initiated(s.At(x), secret, id))
    case SendData(x) => Post(s, x, Data)
    case Deliver(x, secret) =>
      var f := s.Into(x)[0];
      var rest := s.SetInto(x, s.Into(x)[1..]);
      if Decrypts(s.At(x), f) then Handled(g, rest, x, f.body, secret) else rest.(lost := rest.lost + 1)
  }

  /** A fresh session: the handshake left both ends with the same key. */
  function Fresh(key: int): System {
    var e := End(key, None, None, None, 0);
    System(e, e, [], [], 0)
  }

  /** `x` may start a rotation: it has none pending, which it can check by itself, or its pending request
      is one that the lower end will ignore. */
  predicate Harmless(s: System, x: Side) {
    s.At(x).pendingId.None? || (x.Upper? && s.lower.pendingId.Some? && s.lower.count == s.upper.count)
  }

  predicate Patient(s: System, e: Step) {
    e.Initiate? ==> Harmless(s, e.who)
  }

  ghost predicate IsRun(g: Group, s: System, steps: seq<Step>)
    decreases |steps|
  {
    steps == [] || (Enabled(s, steps[0]) && Patient(s, steps[0]) && IsRun(g, Next(g, s, steps[0]), steps[1..]))
  }

  ghost function Final(g: Group, s: System, steps: seq<Step>): System
    requires IsRun(g, s, steps)
    decreases |steps|
  {
    if steps == [] then s else Final(g, Next(g, s, steps[0]), steps[1..])
  }

  // ----- The invariant -----

  /** A rotation message still to be handled: a request its receiver will ignore, the response
      its receiver waits for, or a request its receiver will answer. */
  datatype Expected = Stale | Answer(pub: int, id: RekeyId) | Ask(pub: int, id: RekeyId)

  predicate Matches(w: Expected, body: Body) {
    match w
    case Stale => body.Request?
    case Answer(pub, id) => body == Response(Some(pub), id)
    case Ask(pub, id) => body == Request(Some(pub), id)
  }

  /** How many keys the receiver moves on. */
  function Moves(w: seq<Expected>): nat {
    if w == [] then 0 else (if w[0].Stale? then 0 else 1) + Moves(w[1..])
  }

  /** The queue into an end that has rotated `count` times holds exactly the rotation messages
      `w`, in order, and every frame in it, when it comes to the head, is sealed under the key the
      receiver then has or the one before. `keys[i]` is the session's `i`-th key. */
  ghost predicate Queued(q: seq<Frame>, count: nat, w: seq<Expected>, keys: seq<int>)
    decreases |q|
  {
    if q == [] then w == []
    else
      && Timely(q[0], count, keys)
      && (if q[0].body.Data? then Queued(q[1..], count, w, keys)
          else w != [] && Matches(w[0], q[0].body)
               && Queued(q[1..], if w[0].Stale? then count else count + 1, w[1..], keys))
  }

  predicate Timely(f: Frame, count: nat, keys: seq<int>) {
    count <= f.sentAt + 1 && f.sentAt <= count && f.sentAt < |keys| && f.key == keys[f.sentAt]
  }

  /** An end holds the key of its count, and the one before. */
  predicate HoldsKeys(e: End, keys: seq<int>) {
    && e.count < |keys| && e.key == keys[e.count]
    && (e.count > 0 ==> e.prev == Some(keys[e.count - 1]))
    && (e.pendingId.Some? <==> e.pendingSecret.Some?)
  }

  /** `w` starts with the response `e` waits for, which completes the rotation to key `e.count + 1`. */
  predicate Completes(g: Group, e: End, w: seq<Expected>, keys: seq<int>) {
    && w != [] && w[0].Answer?
    && e.pendingSecret.Some? && e.pendingId == Some(w[0].id)
    && e.count + 1 < |keys| && g.dh(e.pendingSecret.value, w[0].pub) == keys[e.count + 1]
  }

  /** What follows the stale requests at the head. */
  function AfterStale(w: seq<Expected>): seq<Expected> {
    if w != [] && w[0].Stale? then AfterStale(w[1..]) else w
  }

  /** The rotation messages in flight, against who is waiting and who is ahead. */
  ghost predicate Control(g: Group, lower: End, upper: End, toLower: seq<Expected>, toUpper: seq<Expected>,
                          keys: seq<int>) {
    var askLower := if lower.pendingSecret.Some? && lower.pendingId.Some?
                    then [Ask(g.pub(lower.pendingSecret.value), lower.pendingId.value)] else [];
    var askUpper := if upper.pendingSecret.Some? && upper.pendingId.Some?
                    then [Ask(g.pub(upper.pendingSecret.value), upper.pendingId.value)] else [];
    if lower.count == upper.count then
      && |keys| == lower.count + 1
      && toUpper == askLower
      && (if lower.pendingId.Some? && upper.pendingId.Some? then AfterStale(toLower) == [] else toLower == askUpper)
    else if upper.count == lower.count + 1 then
      && |keys| == upper.count + 1 && lower.pendingId.Some? && toUpper == []
      && Completes(g, lower, AfterStale(toLower), keys) && AfterStale(toLower)[1..] == askUpper
    else
      && lower.count == upper.count + 1
      && |keys| == lower.count + 1 && upper.pendingId.Some? && toLower == []
      && Completes(g, upper, toUpper, keys) && toUpper[1..] == askLower
  }

  ghost predicate Inv(g: Group, s: System, toLower: seq<Expected>, toUpper: seq<Expected>, keys: seq<int>) {
    && HoldsKeys(s.lower, keys) && HoldsKeys(s.upper, keys)
    && Queued(s.toLower, s.lower.count, toLower, keys) && Queued(s.toUpper, s.upper.count, toUpper, keys)
    && (forall i :: 0 <= i < |s.toLower| ==> s.toLower[i].sentAt <= s.upper.count)
    && (forall i :: 0 <= i < |s.toUpper| ==> s.toUpper[i].sentAt <= s.lower.count)
    && Control(g, s.lower, s.upper, toLower, toUpper, keys)
    && s.lost == 0
  }

  /** Data may be appended by a sender that is level with the receiver's final count, or one
      behind it. */
  lemma {:induction false} QueuedData(q: seq<Frame>, count: nat, w: seq<Expected>, keys: seq<int>, f: Frame)
    requires Queued(q, count, w, keys) && f.body.Data? && Timely(f, count + Moves(w), keys)
    ensures Queued(q + [f], count, w, keys)
    decreases |q|
  {
    if q == [] {
      assert (q + [f])[1..] == [];
    } else {
      assert (q + [f])[1..] == q[1..] + [f];
      if q[0].body.Data? {
        QueuedData(q[1..], count, w, keys, f);
      } else {
        QueuedData(q[1..], if w[0].Stale? then count else count + 1, w[1..], keys, f);
      }
    }
  }

  lemma {:induction false} QueuedMessage(q: seq<Frame>, count: nat, w: seq<Expected>, keys: seq<int>, f: Frame,
                                         x: Expected)
    requires Queued(q, count, w, keys) && !f.body.Data? && Matches(x, f.body) && Timely(f, count + Moves(w), keys)
    ensures Queued(q + [f], count, w + [x], keys)
    decreases |q|
  {
    if q == [] {
      assert (q + [f])[1..] == [] && (w + [x])[1..] == [];
    } else {
      assert (q + [f])[1..] == q[1..] + [f];
      if q[0].body.Data? {
        QueuedMessage(q[1..], count, w, keys, f, x);
      } else {
        assert (w + [x])[1..] == w[1..] + [x];
        QueuedMessage(q[1..], if w[0].Stale? then count else count + 1, w[1..], keys, f, x);
      }
    }
  }

  /** A request in flight becomes stale when its receiver starts a rotation of its own. */
  lemma {:induction false} QueuedStale(q: seq<Frame>, count: nat, x: Expected, keys: seq<int>)
    requires Queued(q, count, [x], keys) && x.Ask? && forall i :: 0 <= i < |q| ==> q[i].sentAt <= count
    ensures Queued(q, count, [Stale], keys)
    decreases |q|
  {
    if q != [] {
      if q[0].body.Data? {
        QueuedStale(q[1..], count, x, keys);
      } else {
        QueuedBehind(q[1..], count + 1, keys);
      }
    }
  }

  /** Frames no newer than `count - 1` are also timely for a receiver that stays there. */
  lemma {:induction false} QueuedBehind(q: seq<Frame>, count: nat, keys: seq<int>)
    requires count > 0 && Queued(q, count, [], keys) && forall i :: 0 <= i < |q| ==> q[i].sentAt <= count - 1
    ensures Queued(q, count - 1, [], keys)
    decreases |q|
  {
    if q != [] {
      QueuedBehind(q[1..], count, keys);
    }
  }

  /** A longer list of keys changes nothing for the frames in flight. */
  lemma {:induction false} QueuedMoreKeys(q: seq<Frame>, count: nat, w: seq<Expected>, keys: seq<int>, key: int)
    requires Queued(q, count, w, keys)
    ensures Queued(q, count, w, keys + [key])
    decreases |q|
  {
    if q != [] {
      if q[0].body.Data? {
        QueuedMoreKeys(q[1..], count, w, keys, key);
      } else {
        QueuedMoreKeys(q[1..], if w[0].Stale? then count else count + 1, w[1..], keys, key);
      }
    }
  }

  // ----- Every step keeps it -----

  /** Each end's count is the other's final count, or one behind it: it may send. */
  lemma SendersAreTimely(g: Group, s: System, toLower: seq<Expected>, toUpper: seq<Expected>, keys: seq<int>)
    requires Inv(g, s, toLower, toUpper, keys)
    ensures s.lower.count <= s.upper.count + Moves(toUpper) <= s.lower.count + 1
    ensures s.upper.count <= s.lower.count + Moves(toLower) <= s.upper.count + 1
  {
    hide HoldsKeys, Queued;
    MovesOfShort(toUpper);
    MovesAfterStale(toLower);
    MovesOfShort(AfterStale(toLower));
  }

  lemma {:induction false} MovesAfterStale(w: seq<Expected>)
    ensures Moves(w) == Moves(AfterStale(w))
  {
    if w != [] && w[0].Stale? {
      MovesAfterStale(w[1..]);
    }
  }

  lemma {:induction false} AfterStaleAppend(w: seq<Expected>, x: Expected)
    ensures AfterStale(w + [x]) == if AfterStale(w) != [] then AfterStale(w) + [x] else if x.Stale? then [] else [x]
  {
    if w == [] {
      assert (w + [x])[1..] == [];
    } else if w[0].Stale? {
      assert (w + [x])[1..] == w[1..] + [x];
      AfterStaleAppend(w[1..], x);
    }
  }

  lemma MovesOfShort(w: seq<Expected>)
    ensures w == [] ==> Moves(w) == 0
    ensures |w| == 1 ==> Moves(w) == if w[0].Stale? then 0 else 1
    ensures |w| == 2 ==> Moves(w) == (if w[0].Stale? then 0 else 1) + (if w[1].Stale? then 0 else 1)
    ensures w != [] && w[0].Stale? ==> Moves(w) == Moves(w[1..])
  {
    if |w| == 2 {
      assert Moves(w[1..]) == (if w[1].Stale? then 0 else 1) + Moves(w[1..][1..]);
    }
  }

  lemma KeepsDataStep(g: Group, s: System, x: Side, toLower: seq<Expected>, toUpper: seq<Expected>, keys: seq<int>)
    requires Inv(g, s, toLower, toUpper, keys)
    ensures Inv(g, Post(s, x, Data), toLower, toUpper, keys)
  {
    var f := Frame(s.At(x).key, Data, s.At(x).count);
    SendersAreTimely(g, s, toLower, toUpper, keys);
    if x.Lower? {
      QueuedData(s.toUpper, s.upper.count, toUpper, keys, f);
    } else {
      QueuedData(s.toLower, s.lower.count, toLower, keys, f);
    }
  }

  lemma LowerInitiates(g: Group, s: System, secret: int, id: RekeyId, toLower: seq<Expected>, toUpper: seq<Expected>,
                       keys: seq<int>)
    returns (toLower': seq<Expected>, toUpper': seq<Expected>)
    requires Inv(g, s, toLower, toUpper, keys) && s.lower.pendingId.None?
    ensures Inv(g, Next(g, s, Initiate(Lower, secret, id)), toLower', toUpper', keys)
  {
    var f := Frame(s.lower.key, Request(Some(g.pub(secret)), id), s.lower.count);
    var ask := Ask(g.pub(secret), id);
    hide Queued, Moves;
    SendersAreTimely(g, s, toLower, toUpper, keys);
    QueuedMessage(s.toUpper, s.upper.count, toUpper, keys, f, ask);
    toUpper' := toUpper + [ask];
    if s.lower.count == s.upper.count && s.upper.pendingId.Some? {
      // A collision: the upper end's request, still in flight, will be ignored.
      QueuedStale(s.toLower, s.lower.count, toLower[0], keys);
      toLower' := [Stale];
    } else {
      toLower' := toLower;
    }
  }

  lemma UpperInitiates(g: Group, s: System, secret: int, id: RekeyId, toLower: seq<Expected>, toUpper: seq<Expected>,
                       keys: seq<int>)
    returns (toLower': seq<Expected>, toUpper': seq<Expected>)
    requires Inv(g, s, toLower, toUpper, keys) && Harmless(s, Upper)
    ensures Inv(g, Next(g, s, Initiate(Upper, secret, id)), toLower', toUpper', keys)
  {
    var f := Frame(s.upper.key, Request(Some(g.pub(secret)), id), s.upper.count);
    var x := if s.lower.count == s.upper.count && s.lower.pendingId.Some? then Stale else Ask(g.pub(secret), id);
    hide Queued, Moves;
    SendersAreTimely(g, s, toLower, toUpper, keys);
    QueuedMessage(s.toLower, s.lower.count, toLower, keys, f, x);
    AfterStaleAppend(toLower, x);
    toLower', toUpper' := toLower + [x], toUpper;
  }

  /** The head of a queue can be decrypted. */
  lemma HeadDecrypts(e: End, q: seq<Frame>, w: seq<Expected>, keys: seq<int>)
    requires HoldsKeys(e, keys) && Queued(q, e.count, w, keys) && q != []
    ensures Decrypts(e, q[0])
  {
  }

  lemma IgnoreStale(g: Group, s: System, secret: int, toLower: seq<Expected>, toUpper: seq<Expected>, keys: seq<int>)
    requires Inv(g, s, toLower, toUpper, keys)
    requires s.toLower != [] && s.toLower[0].body.Request? && toLower != [] && toLower[0].Stale?
    ensures Inv(g, Next(g, s, Deliver(Lower, secret)), toLower[1..], toUpper, keys)
  {
    HeadDecrypts(s.lower, s.toLower, toLower, keys);
    assert Ignores(s.lower, true);
  }

  lemma QueueTail(q: seq<Frame>, count: nat, w: seq<Expected>, keys: seq<int>)
    requires Queued(q, count, w, keys) && q != [] && !q[0].body.Data?
    ensures w != [] && Matches(w[0], q[0].body)
    ensures Queued(q[1..], if w[0].Stale? then count else count + 1, w[1..], keys)
  {
  }

  /** An answer by the lower end puts the upper end one rotation behind, waiting for it. */
  lemma LowerMovesOn(g: Group, lower: End, upper: End, toLower: seq<Expected>, toUpper: seq<Expected>, keys: seq<int>,
                     secret: int)
    requires Agrees(g) && HoldsKeys(lower, keys) && HoldsKeys(upper, keys)
    requires Control(g, lower, upper, toLower, toUpper, keys) && toLower != [] && toLower[0].Ask?
    ensures lower.pendingId.None? && lower.pendingSecret.None? && lower.count == upper.count
    ensures toLower[1..] == [] && toUpper == []
    ensures var key := g.dh(secret, toLower[0].pub);
            Control(g, Switched(lower, key), upper, [], [Answer(g.pub(secret), toLower[0].id)], keys + [key])
            && HoldsKeys(Switched(lower, key), keys + [key]) && HoldsKeys(upper, keys + [key])
  {
    SharedKey(g, secret, upper.pendingSecret.value);
  }

  lemma UpperMovesOn(g: Group, lower: End, upper: End, toLower: seq<Expected>, toUpper: seq<Expected>, keys: seq<int>,
                     secret: int)
    requires Agrees(g) && HoldsKeys(lower, keys) && HoldsKeys(upper, keys)
    requires Control(g, lower, upper, toLower, toUpper, keys) && toUpper != [] && toUpper[0].Ask?
    ensures lower.count == upper.count && toUpper[1..] == [] && AfterStale(toLower) == []
    ensures var key := g.dh(secret, toUpper[0].pub);
            var upper' := Switched(upper.(pendingSecret := None, pendingId := None), key);
            Control(g, lower, upper', toLower + [Answer(g.pub(secret), toUpper[0].id)], [], keys + [key])
            && HoldsKeys(lower, keys + [key]) && HoldsKeys(upper', keys + [key])
  {
    SharedKey(g, secret, lower.pendingSecret.value);
    AfterStaleAppend(toLower, Answer(g.pub(secret), toUpper[0].id));
  }

  /** The lower end answers a request: it moves to a new key, and its answer will follow. */
  lemma AnswerLower(g: Group, s: System, secret: int, toLower: seq<Expected>, toUpper: seq<Expected>, keys: seq<int>)
    returns (toUpper': seq<Expected>, keys': seq<int>)
    requires Agrees(g) && Inv(g, s, toLower, toUpper, keys)
    requires s.toLower != [] && s.toLower[0].body.Request? && toLower != [] && toLower[0].Ask?
    ensures Inv(g, Next(g, s, Deliver(Lower, secret)), [], toUpper', keys')
  {
    HeadDecrypts(s.lower, s.toLower, toLower, keys);
    QueueTail(s.toLower, s.lower.count, toLower, keys);
    LowerMovesOn(g, s.lower, s.upper, toLower, toUpper, keys, secret);
    hide Queued, Control;
    var pub, id := toLower[0].pub, toLower[0].id;
    var key := g.dh(secret, pub);
    var answer := Answer(g.pub(secret), id);
    var reply := Frame(s.lower.key, Response(Some(g.pub(secret)), id), s.lower.count);
    keys' := keys + [key];
    QueuedMoreKeys(s.toLower[1..], s.lower.count + 1, [], keys, key);
    QueuedMoreKeys(s.toUpper, s.upper.count, [], keys, key);
    QueuedMessage(s.toUpper, s.upper.count, [], keys', reply, answer);
    assert [] + [answer] == [answer];
    toUpper' := [answer];
  }

  /** The upper end answers, abandoning its own request if it has one. */
  lemma AnswerUpper(g: Group, s: System, secret: int, toLower: seq<Expected>, toUpper: seq<Expected>, keys: seq<int>)
    returns (toLower': seq<Expected>, keys': seq<int>)
    requires Agrees(g) && Inv(g, s, toLower, toUpper, keys)
    requires s.toUpper != [] && s.toUpper[0].body.Request? && toUpper != [] && toUpper[0].Ask?
    ensures Inv(g, Next(g, s, Deliver(Upper, secret)), toLower', [], keys')
  {
    HeadDecrypts(s.upper, s.toUpper, toUpper, keys);
    QueueTail(s.toUpper, s.upper.count, toUpper, keys);
    UpperMovesOn(g, s.lower, s.upper, toLower, toUpper, keys, secret);
    hide Queued, Control;
    var pub, id := toUpper[0].pub, toUpper[0].id;
    var key := g.dh(secret, pub);
    var answer := Answer(g.pub(secret), id);
    var reply := Frame(s.upper.key, Response(Some(g.pub(secret)), id), s.upper.count);
    keys' := keys + [key];
    QueuedMoreKeys(s.toUpper[1..], s.upper.count + 1, [], keys, key);
    QueuedMoreKeys(s.toLower, s.lower.count, toLower, keys, key);
    MovesAfterStale(toLower);
    MovesOfShort([]);
    QueuedMessage(s.toLower, s.lower.count, toLower, keys', reply, answer);
    toLower' := toLower + [answer];
  }

  lemma DeliverData(g: Group, s: System, x: Side, secret: int, toLower: seq<Expected>, toUpper: seq<Expected>,
                    keys: seq<int>)
    requires Inv(g, s, toLower, toUpper, keys) && s.Into(x) != [] && s.Into(x)[0].body.Data?
    ensures Inv(g, Next(g, s, Deliver(x, secret)), toLower, toUpper, keys)
  {
    HeadDecrypts(s.At(x), s.Into(x), if x.Lower? then toLower else toUpper, keys);
  }

  lemma CompleteLower(g: Group, s: System, secret: int, toLower: seq<Expected>, toUpper: seq<Expected>, keys: seq<int>)
    requires Inv(g, s, toLower, toUpper, keys) && s.toLower != [] && s.toLower[0].body.Response?
    ensures toLower != [] && Inv(g, Next(g, s, Deliver(Lower, secret)), toLower[1..], toUpper, keys)
  {
    HeadDecrypts(s.lower, s.toLower, toLower, keys);
  }

  lemma CompleteUpper(g: Group, s: System, secret: int, toLower: seq<Expected>, toUpper: seq<Expected>, keys: seq<int>)
    requires Inv(g, s, toLower, toUpper, keys) && s.toUpper != [] && s.toUpper[0].body.Response?
    ensures toUpper != [] && Inv(g, Next(g, s, Deliver(Upper, secret)), toLower, toUpper[1..], keys)
  {
    HeadDecrypts(s.upper, s.toUpper, toUpper, keys);
  }

  lemma InvStep(g: Group, s: System, e: Step, toLower: seq<Expected>, toUpper: seq<Expected>, keys: seq<int>)
    returns (toLower': seq<Expected>, toUpper': seq<Expected>, keys': seq<int>)
    requires Agrees(g) && Inv(g, s, toLower, toUpper, keys) && Enabled(s, e) && Patient(s, e)
    ensures Inv(g, Next(g, s, e), toLower', toUpper', keys')
  {
    var stale := toLower != [] && toLower[0].Stale?;
    assert e.Deliver? && e.who.Lower? && s.toLower[0].body.Request? && !stale ==> toLower != [] && toLower[0].Ask?;
    assert e.Deliver? && e.who.Upper? && s.toUpper[0].body.Request? ==> toUpper != [] && toUpper[0].Ask?;
    hide Inv;
    toLower', toUpper', keys' := toLower, toUpper, keys;
    match e
    case SendData(x) => KeepsDataStep(g, s, x, toLower, toUpper, keys);
    case Initiate(x, secret, id) =>
      if x.Lower? {
        toLower', toUpper' := LowerInitiates(g, s, secret, id, toLower, toUpper, keys);
      } else {
        toLower', toUpper' := UpperInitiates(g, s, secret, id, toLower, toUpper, keys);
      }
    case Deliver(x, secret) =>
      match s.Into(x)[0].body
      case Data => DeliverData(g, s, x, secret, toLower, toUpper, keys);
      case Request(_, _) =>
        if x.Upper? {
          toUpper' := [];
          toLower', keys' := AnswerUpper(g, s, secret, toLower, toUpper, keys);
        } else if stale {
          IgnoreStale(g, s, secret, toLower, toUpper, keys);
          toLower' := toLower[1..];
        } else {
          toLower' := [];
          toUpper', keys' := AnswerLower(g, s, secret, toLower, toUpper, keys);
        }
      case Response(_, _) =>
        if x.Lower? {
          CompleteLower(g, s, secret, toLower, toUpper, keys);
          toLower' := toLower[1..];
        } else {
          CompleteUpper(g, s, secret, toLower, toUpper, keys);
          toUpper' := toUpper[1..];
        }
  }

  lemma {:induction false} InvRun(g: Group, s: System, steps: seq<Step>, toLower: seq<Expected>,
                                  toUpper: seq<Expected>, keys: seq<int>)
    returns (toLower': seq<Expected>, toUpper': seq<Expected>, keys': seq<int>)
    requires Agrees(g) && Inv(g, s, toLower, toUpper, keys) && IsRun(g, s, steps)
    ensures Inv(g, Final(g, s, steps), toLower', toUpper', keys')
    decreases |steps|
  {
    toLower', toUpper', keys' := toLower, toUpper, keys;
    if steps != [] {
      toLower', toUpper', keys' := InvStep(g, s, steps[0], toLower, toUpper, keys);
      toLower', toUpper', keys' := InvRun(g, Next(g, s, steps[0]), steps[1..], toLower', toUpper', keys');
    }
  }

  // ----- The theorems -----

  /** No rotation message is in flight in either direction. */
  predicate Quiet(s: System) {
    && (forall i :: 0 <= i < |s.toLower| ==> s.toLower[i].body.Data?)
    && (forall i :: 0 <= i < |s.toUpper| ==> s.toUpper[i].body.Data?)
  }

  predicate Agreed(s: System) {
    && s.lower.key == s.upper.key && s.lower.count == s.upper.count
    && s.lower.pendingId.None? && s.lower.pendingSecret.None?
    && s.upper.pendingId.None? && s.upper.pendingSecret.None?
  }

  lemma {:induction false} NothingExpected(q: seq<Frame>, count: nat, w: seq<Expected>, keys: seq<int>)
    requires Queued(q, count, w, keys) && forall i :: 0 <= i < |q| ==> q[i].body.Data?
    ensures w == []
    decreases |q|
  {
    if q != [] {
      NothingExpected(q[1..], count, w, keys);
    }
  }

  /** Rekey agreement: in every run of patient ends, over every interleaving of rotations from
      both sides, collisions and data, the rotation counts differ by at most one; whenever no
      rotation message is in flight, both ends hold the same key and nothing is pending. */
  lemma RekeyAgreement(g: Group, key: int, steps: seq<Step>)
    requires Agrees(g) && IsRun(g, Fresh(key), steps)
    ensures var s := Final(g, Fresh(key), steps);
            && -1 <= s.lower.count - s.upper.count <= 1
            && (Quiet(s) ==> Agreed(s))
  {
    var toLower, toUpper, keys := InvRun(g, Fresh(key), steps, [], [], [key]);
    var s := Final(g, Fresh(key), steps);
    if Quiet(s) {
      NothingExpected(s.toLower, s.lower.count, toLower, keys);
      NothingExpected(s.toUpper, s.upper.count, toUpper, keys);
    }
  }

  /** A rotation loses no frame: in every such run, whatever comes to the head of either channel
      is sealed under the receiver's current key or the one it has retained, and no frame has
      been dropped, however many rotations have gone by in either direction. */
  lemma RekeyLosesNoFrame(g: Group, key: int, steps: seq<Step>, x: Side)
    requires Agrees(g) && IsRun(g, Fresh(key), steps)
    ensures var s := Final(g, Fresh(key), steps);
            s.lost == 0 && (s.Into(x) != [] ==> Decrypts(s.At(x), s.Into(x)[0]))
  {
    var toLower, toUpper, keys := InvRun(g, Fresh(key), steps, [], [], [key]);
    var s := Final(g, Fresh(key), steps);
    if s.Into(x) != [] {
      HeadDecrypts(s.At(x), s.Into(x), if x.Lower? then toLower else toUpper, keys);
    }
  }

  // ----- Every rotation completes -----

  function Requests(q: seq<Frame>): nat {
    if q == [] then 0 else (if q[0].body.Request? then 1 else 0) + Requests(q[1..])
  }

  lemma {:induction false} RequestsAppend(q: seq<Frame>, f: Frame)
    ensures Requests(q + [f]) == Requests(q) + (if f.body.Request? then 1 else 0)
  {
    if q == [] {
      assert (q + [f])[1..] == [];
    } else {
      assert (q + [f])[1..] == q[1..] + [f];
      RequestsAppend(q[1..], f);
    }
  }

  predicate OnlyDeliveries(steps: seq<Step>) {
    forall i :: 0 <= i < |steps| ==> steps[i].Deliver?
  }

  /** What is left to deliver: the frames in flight, and an answer for each request among them. */
  function Work(s: System): nat {
    |s.toLower| + |s.toUpper| + Requests(s.toLower) + Requests(s.toUpper)
  }

  lemma DeliveryUsesUp(g: Group, s: System, x: Side, secret: int)
    requires s.Into(x) != []
    ensures Work(Next(g, s, Deliver(x, secret))) < Work(s)
  {
    var f := s.Into(x)[0];
    if f.body.Request? {
      var (e, answer) := OnRequest(g, x.Lower?, s.At(x), f.body.pub, f.body.id, secret);
      if answer.Some? {
        RequestsAppend(s.Into(Other(x)), Frame(s.At(x).key, answer.value, s.At(x).count));
      }
    }
  }

  /** From any state, delivering what is in flight empties both channels. */
  lemma {:induction false} Settles(g: Group, s: System, secret: int) returns (steps: seq<Step>)
    ensures IsRun(g, s, steps) && OnlyDeliveries(steps)
    ensures Final(g, s, steps).toLower == [] && Final(g, s, steps).toUpper == []
    decreases Work(s)
  {
    if s.toLower == [] && s.toUpper == [] {
      return [];
    }
    var e := Deliver(if s.toLower != [] then Lower else Upper, secret);
    DeliveryUsesUp(g, s, e.who, secret);
    hide Next, Work;
    var rest := Settles(g, Next(g, s, e), secret);
    steps := [e] + rest;
    assert steps[1..] == rest;
  }

  /** In whatever order, no more deliveries are possible than there is work. */
  lemma {:induction false} DeliveriesAreBounded(g: Group, s: System, steps: seq<Step>)
    requires IsRun(g, s, steps) && OnlyDeliveries(steps)
    ensures |steps| <= Work(s)
    decreases |steps|
  {
    if steps != [] {
      DeliveryUsesUp(g, s, steps[0].who, steps[0].secret);
      hide Next, Work;
      DeliveriesAreBounded(g, Next(g, s, steps[0]), steps[1..]);
    }
  }

  lemma {:induction false} RunsConcatenate(g: Group, s: System, steps: seq<Step>, more: seq<Step>)
    requires IsRun(g, s, steps) && IsRun(g, Final(g, s, steps), more)
    ensures IsRun(g, s, steps + more) && Final(g, s, steps + more) == Final(g, Final(g, s, steps), more)
    decreases |steps|
  {
    if steps == [] {
      assert steps + more == more;
    } else {
      assert (steps + more)[1..] == steps[1..] + more;
      RunsConcatenate(g, Next(g, s, steps[0]), steps[1..], more);
    }
  }

  /** Every such run can be brought to rest by delivery alone, and in every order of delivery it comes to
      rest: no more deliveries are possible than there is work, and when none is left both ends agree. */
  lemma RotationsComplete(g: Group, key: int, steps: seq<Step>)
    requires Agrees(g) && IsRun(g, Fresh(key), steps)
    ensures exists more :: OnlyDeliveries(more) && IsRun(g, Fresh(key), steps + more)
                           && AtRest(Final(g, Fresh(key), steps + more))
    ensures forall more :: OnlyDeliveries(more) && IsRun(g, Final(g, Fresh(key), steps), more) ==>
              var s := Final(g, Final(g, Fresh(key), steps), more);
              |more| <= Work(Final(g, Fresh(key), steps)) && (s.toLower == [] && s.toUpper == [] ==> AtRest(s))
  {
    hide Work, Next;
    var s := Final(g, Fresh(key), steps);
    forall more | OnlyDeliveries(more) && IsRun(g, s, more)
      ensures |more| <= Work(s)
      ensures IsRun(g, Fresh(key), steps + more) && Final(g, Fresh(key), steps + more) == Final(g, s, more)
      ensures Final(g, s, more).toLower == [] && Final(g, s, more).toUpper == [] ==> AtRest(Final(g, s, more))
    {
      DeliveriesAreBounded(g, s, more);
      RunsConcatenate(g, Fresh(key), steps, more);
      RekeyAgreement(g, key, steps + more);
      RekeyLosesNoFrame(g, key, steps + more, Lower);
    }
    var more := Settles(g, s, 0);
    assert AtRest(Final(g, Fresh(key), steps + more));
  }

  predicate AtRest(s: System) {
    s.toLower == [] && s.toUpper == [] && s.lost == 0 && Agreed(s)
  }
}
