/** Sequence numbers across rotations: the replay guard never refuses a frame it should let through. */
module RekeyReplay {
  import opened Graph
  import opened Rekey

  /** The session with the numbers of both ends, and those of the frames in both channels. `refused` counts
      the frames that a replay guard has dropped. */
  datatype Session = Session(sys: System, lower: Numbers, upper: Numbers, toLower: seq<nat>, toUpper: seq<nat>,
                             refused: nat)
  {
    function At(x: Side): Numbers {
      if x.Lower? then lower else upper
    }

    function Into(x: Side): seq<nat> {
      if x.Lower? then toLower else toUpper
    }

    function SetAt(x: Side, n: Numbers): Session {
      if x.Lower? then this.(lower := n) else this.(upper := n)
    }

    function SetInto(x: Side, q: seq<nat>): Session {
      if x.Lower? then this.(toLower := q) else this.(toUpper := q)
    }
  }

  predicate WellFormed(t: Session) {
    |t.toLower| == |t.sys.toLower| && |t.toUpper| == |t.sys.toUpper|
  }

  /** The current key is tried first. */
  predicate UsesPrev(e: End, f: Frame) {
    f.key != e.key
  }

  /** `x` numbers a frame and sends it. */
  function Numbered(t: Session, x: Side): Session {
    t.SetInto(Other(x), t.Into(Other(x)) + [t.At(x).next]).SetAt(x, Counted(t.At(x)))
  }

  /** Did `x` send something in this step, and did it switch to a new key? */
  predicate DidSend(s: System, s': System, x: Side) {
    |s'.Into(Other(x))| > |s.Into(Other(x))|
  }

  predicate DidSwitch(s: System, s': System, x: Side) {
    s'.At(x).count != s.At(x).count
  }

  function Advance(g: Group, t: Session, e: Step): (t': Session)
    requires WellFormed(t) && Enabled(t.sys, e)
  {
    var s := t.sys;
    match e
    case Deliver(x, _) =>
      var f, number := s.Into(x)[0], t.Into(x)[0];
      var rest := t.SetInto(x, t.Into(x)[1..]);
      if !Decrypts(s.At(x), f) then rest.(sys := Next(g, s, e))
      else if !Accepted(t.At(x), UsesPrev(s.At(x), f), number) then
        rest.(sys := s.SetInto(x, s.Into(x)[1..]), refused := t.refused + 1)
      else
        var s' := Next(g, s, e);
        var marked := rest.SetAt(x, Marked(t.At(x), UsesPrev(s.At(x), f), number));
        var answered := if DidSend(s, s', x) then Numbered(marked, x) else marked;
        (if DidSwitch(s, s', x) then answered.SetAt(x, Restarted(answered.At(x))) else answered).(sys := s')
    case _ => Numbered(t, e.who).(sys := Next(g, s, e))
  }

  /** What is assumed of a run besides harmlessness: nobody has used up its numbers, and a switch brings
      another key than the one in use. */
  predicate Sensible(g: Group, t: Session, e: Step)
    requires Enabled(t.sys, e)
  {
    && t.lower.next <= MAX_SEQUENCE && t.upper.next <= MAX_SEQUENCE
    && forall x: Side :: DidSwitch(t.sys, Next(g, t.sys, e), x) ==>
         Next(g, t.sys, e).At(x).key != t.sys.At(x).key
  }

  // ----- One direction -----

  /** The frames in a channel come from epochs that do not go back, with rising numbers within an epoch,
      after the number `last` of epoch `epoch`; the sender's own counter goes on from there. */
  predicate Rising(q: seq<Frame>, ns: seq<nat>, epoch: nat, last: nat, count: nat, next: nat)
    decreases |q|
  {
    if q == [] || ns == [] then
      q == [] && ns == [] && (if epoch == count then last < next else epoch < count && 1 <= next)
    else
      && q[0].sentAt >= epoch
      && (q[0].sentAt == epoch ==> last < ns[0]) && 1 <= ns[0] <= MAX_SEQUENCE
      && Rising(q[1..], ns[1..], q[0].sentAt, ns[0], count, next)
  }

  lemma {:induction false} RisingSend(q: seq<Frame>, ns: seq<nat>, epoch: nat, last: nat, count: nat, next: nat,
                                      f: Frame)
    requires Rising(q, ns, epoch, last, count, next) && f.sentAt == count && next <= MAX_SEQUENCE
    ensures Rising(q + [f], ns + [next], epoch, last, count, next + 1)
    decreases |q|
  {
    if q == [] {
      assert (q + [f])[1..] == [] && (ns + [next])[1..] == [];
    } else {
      assert (q + [f])[1..] == q[1..] + [f] && (ns + [next])[1..] == ns[1..] + [next];
      RisingSend(q[1..], ns[1..], q[0].sentAt, ns[0], count, next, f);
    }
  }

  lemma {:induction false} RisingSwitch(q: seq<Frame>, ns: seq<nat>, epoch: nat, last: nat, count: nat, next: nat)
    requires Rising(q, ns, epoch, last, count, next)
    ensures Rising(q, ns, epoch, last, count + 1, 1)
    decreases |q|
  {
    if q != [] {
      RisingSwitch(q[1..], ns[1..], q[0].sentAt, ns[0], count, next);
    }
  }

  /** The receiver's marks are those of the last frame it saw: number `last` of epoch `epoch`. */
  predicate Remembers(n: Numbers, count: nat, epoch: nat, last: nat) {
    && epoch <= count
    && n.mark == (if epoch == count then last else 0)
    && (count > 0 && epoch < count ==> n.prevMark == Some(if epoch == count - 1 then last else 0))
    && (count > 0 ==> n.prevMark.Some?)
  }

  /** The channel from the other end into `x`, between its sender's counter and its receiver's marks. */
  predicate Tracked(t: Session, x: Side, epoch: nat, last: nat) {
    var e, y := t.sys.At(x), Other(x);
    && Rising(t.sys.Into(x), t.Into(x), epoch, last, t.sys.At(y).count, t.At(y).next)
    && Remembers(t.At(x), e.count, epoch, last)
    && e.prev != Some(e.key)
  }

  /** The head of a channel passes the guard for the key that decrypts it. */
  lemma HeadIsAccepted(t: Session, x: Side, epoch: nat, last: nat, w: seq<Expected>, keys: seq<int>)
    requires Tracked(t, x, epoch, last) && t.sys.Into(x) != []
    requires HoldsKeys(t.sys.At(x), keys) && Queued(t.sys.Into(x), t.sys.At(x).count, w, keys)
    ensures t.Into(x) != [] && Decrypts(t.sys.At(x), t.sys.Into(x)[0])
    ensures var e, f := t.sys.At(x), t.sys.Into(x)[0];
            && (UsesPrev(e, f) <==> f.sentAt + 1 == e.count) && (!UsesPrev(e, f) <==> f.sentAt == e.count)
            && Accepted(t.At(x), UsesPrev(e, f), t.Into(x)[0])
  {
  }

  /** What `x` then remembers. */
  lemma MarkedRemembers(n: Numbers, count: nat, epoch: nat, last: nat, sentAt: nat, number: nat)
    requires Remembers(n, count, epoch, last) && epoch <= sentAt <= count <= sentAt + 1
    ensures Remembers(Marked(n, sentAt != count, number), count, sentAt, number)
    ensures Remembers(Restarted(Marked(n, sentAt != count, number)), count + 1, sentAt, number)
  {
  }

  // ----- One step -----

  lemma SendEffect(g: Group, s: System, e: Step)
    requires !e.Deliver?
    ensures var s', x := Next(g, s, e), e.who;
            && |s'.Into(Other(x))| == |s.Into(Other(x))| + 1
            && s'.Into(Other(x)) == s.Into(Other(x)) + [s'.Into(Other(x))[|s.Into(Other(x))|]]
            && s'.Into(Other(x))[|s.Into(Other(x))|].sentAt == s.At(x).count && s'.Into(x) == s.Into(x)
            && SameKeys(s.At(x), s'.At(x)) && SameKeys(s.At(Other(x)), s'.At(Other(x)))
  {
  }

  predicate SameKeys(e: End, e': End) {
    e'.count == e.count && e'.key == e.key && e'.prev == e.prev
  }

  lemma DeliverEffect(g: Group, s: System, x: Side, secret: int)
    requires s.Into(x) != [] && Decrypts(s.At(x), s.Into(x)[0])
    ensures var s', y := Next(g, s, Deliver(x, secret)), Other(x);
            && s'.Into(x) == s.Into(x)[1..] && s'.At(y) == s.At(y)
            && (s'.Into(y) == s.Into(y)
                || (|s'.Into(y)| == |s.Into(y)| + 1 && s'.Into(y) == s.Into(y) + [s'.Into(y)[|s.Into(y)|]]
                    && s'.Into(y)[|s.Into(y)|].sentAt == s.At(x).count && DidSwitch(s, s', x)))
            && (SameKeys(s.At(x), s'.At(x))
                || (s'.At(x).count == s.At(x).count + 1 && s'.At(x).prev == Some(s.At(x).key)))
  {
  }

  /** Both channels are tracked, and nothing has been refused. */
  ghost predicate Orderly(t: Session) {
    && WellFormed(t) && t.refused == 0
    && (exists epoch, last :: Tracked(t, Lower, epoch, last))
    && (exists epoch, last :: Tracked(t, Upper, epoch, last))
  }

  lemma OrderlyAt(t: Session, x: Side) returns (epoch: nat, last: nat)
    requires Orderly(t)
    ensures Tracked(t, x, epoch, last)
  {
    if x.Lower? {
      epoch, last :| Tracked(t, Lower, epoch, last);
    } else {
      epoch, last :| Tracked(t, Upper, epoch, last);
    }
  }

  lemma OrderlyFrom(t: Session, x: Side, epoch: nat, last: nat, epoch': nat, last': nat)
    requires WellFormed(t) && t.refused == 0 && Tracked(t, x, epoch, last) && Tracked(t, Other(x), epoch', last')
    ensures Orderly(t)
  {
    if x.Lower? {
      assert Tracked(t, Lower, epoch, last) && Tracked(t, Upper, epoch', last');
    } else {
      assert Tracked(t, Upper, epoch, last) && Tracked(t, Lower, epoch', last');
    }
  }

  lemma SendStep(g: Group, t: Session, e: Step)
    requires Orderly(t) && !e.Deliver? && Sensible(g, t, e)
    ensures Orderly(Advance(g, t, e)) && Advance(g, t, e).sys == Next(g, t.sys, e)
  {
    var x, y := e.who, Other(e.who);
    var epoch, last := OrderlyAt(t, x);
    var epoch', last' := OrderlyAt(t, y);
    SendEffect(g, t.sys, e);
    var t', s' := Advance(g, t, e), Next(g, t.sys, e);
    hide Next, Orderly;
    RisingSend(t.sys.Into(y), t.Into(y), epoch', last', t.sys.At(x).count, t.At(x).next, s'.Into(y)[|t.sys.Into(y)|]);
    hide Rising, Remembers;
    assert Tracked(t', x, epoch, last) && Tracked(t', y, epoch', last');
    OrderlyFrom(t', x, epoch, last, epoch', last');
  }

  /** What a delivery that the guard lets through leaves. */
  lemma AdvanceEffect(g: Group, t: Session, x: Side, secret: int)
    requires WellFormed(t) && t.sys.Into(x) != [] && Decrypts(t.sys.At(x), t.sys.Into(x)[0])
    requires Accepted(t.At(x), UsesPrev(t.sys.At(x), t.sys.Into(x)[0]), t.Into(x)[0])
    ensures var s, s', y := t.sys, Next(g, t.sys, Deliver(x, secret)), Other(x);
            var t' := Advance(g, t, Deliver(x, secret));
            var m := Marked(t.At(x), UsesPrev(s.At(x), s.Into(x)[0]), t.Into(x)[0]);
            && t'.sys == s' && t'.refused == t.refused && t'.Into(x) == t.Into(x)[1..] && t'.At(y) == t.At(y)
            && t'.Into(y) == (if DidSend(s, s', x) then t.Into(y) + [t.At(x).next] else t.Into(y))
            && (DidSwitch(s, s', x) ==> t'.At(x) == Restarted(m))
            && (!DidSwitch(s, s', x) && !DidSend(s, s', x) ==> t'.At(x) == m)
  {
    hide Next;
  }

  /** The channel the frame came from. */
  lemma ReceiverSide(g: Group, t: Session, x: Side, secret: int, epoch: nat, last: nat, w: seq<Expected>,
                     keys: seq<int>)
    requires WellFormed(t) && Tracked(t, x, epoch, last) && t.sys.Into(x) != []
    requires Sensible(g, t, Deliver(x, secret))
    requires HoldsKeys(t.sys.At(x), keys) && Queued(t.sys.Into(x), t.sys.At(x).count, w, keys)
    ensures Tracked(Advance(g, t, Deliver(x, secret)), x, t.sys.Into(x)[0].sentAt, t.Into(x)[0])
  {
    HeadIsAccepted(t, x, epoch, last, w, keys);
    var f, number := t.sys.Into(x)[0], t.Into(x)[0];
    MarkedRemembers(t.At(x), t.sys.At(x).count, epoch, last, f.sentAt, number);
    assert Rising(t.sys.Into(x)[1..], t.Into(x)[1..], f.sentAt, number, t.sys.At(Other(x)).count, t.At(Other(x)).next);
    hide Next, Queued, HoldsKeys, Remembers, Accepted, Rising, Advance, Decrypts, Marked, Restarted;
    DeliverEffect(g, t.sys, x, secret);
    AdvanceEffect(g, t, x, secret);
  }

  /** The channel an answer may have gone into. */
  lemma SenderSide(g: Group, t: Session, x: Side, secret: int, epoch: nat, last: nat)
    requires WellFormed(t) && Tracked(t, Other(x), epoch, last) && t.sys.Into(x) != []
    requires Sensible(g, t, Deliver(x, secret)) && Decrypts(t.sys.At(x), t.sys.Into(x)[0])
    requires Accepted(t.At(x), UsesPrev(t.sys.At(x), t.sys.Into(x)[0]), t.Into(x)[0])
    ensures Tracked(Advance(g, t, Deliver(x, secret)), Other(x), epoch, last)
  {
    var y, s := Other(x), t.sys;
    hide Next, Remembers, Accepted, Advance, Decrypts;
    DeliverEffect(g, s, x, secret);
    AdvanceEffect(g, t, x, secret);
    var s' := Next(g, s, Deliver(x, secret));
    var q, ns, count, next := s.Into(y), t.Into(y), s.At(x).count, t.At(x).next;
    hide Rising;
    if DidSend(s, s', x) {
      RisingSend(q, ns, epoch, last, count, next, s'.Into(y)[|q|]);
      RisingSwitch(s'.Into(y), ns + [next], epoch, last, count, next + 1);
    } else if DidSwitch(s, s', x) {
      RisingSwitch(q, ns, epoch, last, count, next);
    }
  }

  lemma DeliverStep(g: Group, t: Session, x: Side, secret: int, w: seq<Expected>, keys: seq<int>)
    requires Orderly(t) && t.sys.Into(x) != [] && Sensible(g, t, Deliver(x, secret))
    requires HoldsKeys(t.sys.At(x), keys) && Queued(t.sys.Into(x), t.sys.At(x).count, w, keys)
    ensures Orderly(Advance(g, t, Deliver(x, secret)))
    ensures Advance(g, t, Deliver(x, secret)).sys == Next(g, t.sys, Deliver(x, secret))
  {
    var epoch, last := OrderlyAt(t, x);
    var epoch', last' := OrderlyAt(t, Other(x));
    assert WellFormed(t) && t.refused == 0;
    hide Orderly, Tracked, Next, Advance, Queued, HoldsKeys, Sensible, Accepted, Decrypts;
    HeadIsAccepted(t, x, epoch, last, w, keys);
    ReceiverSide(g, t, x, secret, epoch, last, w, keys);
    SenderSide(g, t, x, secret, epoch', last');
    DeliverEffect(g, t.sys, x, secret);
    AdvanceEffect(g, t, x, secret);
    OrderlyFrom(Advance(g, t, Deliver(x, secret)), x, t.sys.Into(x)[0].sentAt, t.Into(x)[0], epoch', last');
  }

  // ----- Whole runs -----

  /** A fresh session, both counters at one and both marks at zero. */
  function Start(key: int): Session {
    Session(Fresh(key), Numbers(1, 0, None), Numbers(1, 0, None), [], [], 0)
  }

  ghost predicate IsNumberedRun(g: Group, t: Session, steps: seq<Step>)
    decreases |steps|
  {
    steps == []
    || (&& WellFormed(t) && Enabled(t.sys, steps[0]) && Patient(t.sys, steps[0]) && Sensible(g, t, steps[0])
        && IsNumberedRun(g, Advance(g, t, steps[0]), steps[1..]))
  }

  ghost function After(g: Group, t: Session, steps: seq<Step>): Session
    requires IsNumberedRun(g, t, steps)
    decreases |steps|
  {
    if steps == [] then t else After(g, Advance(g, t, steps[0]), steps[1..])
  }

  /** The channel into `x` holds what its word says, and `x` holds its keys. */
  lemma InvInto(g: Group, s: System, x: Side, toLower: seq<Expected>, toUpper: seq<Expected>, keys: seq<int>)
    requires Inv(g, s, toLower, toUpper, keys)
    ensures HoldsKeys(s.At(x), keys)
    ensures Queued(s.Into(x), s.At(x).count, if x.Lower? then toLower else toUpper, keys)
  {
  }

  lemma {:induction false} OrderlyRun(g: Group, t: Session, steps: seq<Step>, toLower: seq<Expected>,
                                      toUpper: seq<Expected>, keys: seq<int>)
    returns (toLower': seq<Expected>, toUpper': seq<Expected>, keys': seq<int>)
    requires Agrees(g) && Orderly(t) && Inv(g, t.sys, toLower, toUpper, keys) && IsNumberedRun(g, t, steps)
    ensures Orderly(After(g, t, steps)) && Inv(g, After(g, t, steps).sys, toLower', toUpper', keys')
    ensures IsRun(g, t.sys, steps) && After(g, t, steps).sys == Final(g, t.sys, steps)
    decreases |steps|
  {
    toLower', toUpper', keys' := toLower, toUpper, keys;
    if steps != [] {
      var e := steps[0];
      hide Next, Advance, Orderly, Inv, Sensible, WellFormed;
      toLower', toUpper', keys' := InvStep(g, t.sys, e, toLower, toUpper, keys);
      if e.Deliver? {
        InvInto(g, t.sys, e.who, toLower, toUpper, keys);
        DeliverStep(g, t, e.who, e.secret, if e.who.Lower? then toLower else toUpper, keys);
      } else {
        SendStep(g, t, e);
      }
      toLower', toUpper', keys' := OrderlyRun(g, Advance(g, t, e), steps[1..], toLower', toUpper', keys');
    }
  }

  lemma StartIsOrderly(g: Group, key: int)
    ensures Orderly(Start(key)) && Inv(g, Start(key).sys, [], [], [key])
  {
    OrderlyFrom(Start(key), Lower, 0, 0, 0, 0);
  }

  /** Rotations and replay protection: in every run of harmless requests, data and deliveries, whatever is
      at the head of a channel carries a number above the receiver's mark for the key that decrypts it, and
      no guard has refused a frame, so that the run is the one without guards. */
  lemma GuardRefusesNothing(g: Group, key: int, steps: seq<Step>, x: Side)
    requires Agrees(g) && IsNumberedRun(g, Start(key), steps)
    ensures var t := After(g, Start(key), steps);
            && t.refused == 0 && IsRun(g, Fresh(key), steps) && t.sys == Final(g, Fresh(key), steps)
            && (t.sys.Into(x) != [] ==>
                  && t.Into(x) != []
                  && var e, n, f, number := t.sys.At(x), t.At(x), t.sys.Into(x)[0], t.Into(x)[0];
                     && (f.key == e.key ==> n.mark < number <= MAX_SEQUENCE)
                     && (f.key != e.key ==>
                           e.prev == Some(f.key) && n.prevMark.Some? && n.prevMark.value < number <= MAX_SEQUENCE))
  {
    StartIsOrderly(g, key);
    var toLower, toUpper, keys := OrderlyRun(g, Start(key), steps, [], [], [key]);
    var t := After(g, Start(key), steps);
    var epoch, last := OrderlyAt(t, x);
    InvInto(g, t.sys, x, toLower, toUpper, keys);
    hide Orderly, Inv, Next, After;
    if t.sys.Into(x) != [] {
      HeadIsAccepted(t, x, epoch, last, if x.Lower? then toLower else toUpper, keys);
    }
  }

  // ----- What has been seen is refused -----

  /** While `x` holds the key of this frame, as current or as retained, its mark for that key is not below
      the frame's number. */
  predicate Refuses(t: Session, x: Side, f: Frame, number: nat) {
    var e, n := t.sys.At(x), t.At(x);
    && f.sentAt <= e.count
    && (e.count == f.sentAt ==> e.key == f.key && number <= n.mark)
    && (e.count == f.sentAt + 1 ==>
          e.prev == Some(f.key) && e.key != f.key && n.prevMark.Some? && number <= n.prevMark.value)
  }

  lemma AcceptedIsRefused(g: Group, t: Session, x: Side, secret: int, w: seq<Expected>, keys: seq<int>)
    requires Orderly(t) && t.sys.Into(x) != [] && Sensible(g, t, Deliver(x, secret))
    requires HoldsKeys(t.sys.At(x), keys) && Queued(t.sys.Into(x), t.sys.At(x).count, w, keys)
    ensures t.Into(x) != [] && Refuses(Advance(g, t, Deliver(x, secret)), x, t.sys.Into(x)[0], t.Into(x)[0])
  {
    var epoch, last := OrderlyAt(t, x);
    HeadIsAccepted(t, x, epoch, last, w, keys);
    hide Next, Queued, Orderly, Advance, Rising;
    DeliverEffect(g, t.sys, x, secret);
    AdvanceEffect(g, t, x, secret);
  }

  lemma RefusesStep(g: Group, t: Session, e: Step, x: Side, f: Frame, number: nat, w: seq<Expected>, keys: seq<int>)
    requires Orderly(t) && Enabled(t.sys, e) && Sensible(g, t, e) && Refuses(t, x, f, number)
    requires HoldsKeys(t.sys.At(e.who), keys) && Queued(t.sys.Into(e.who), t.sys.At(e.who).count, w, keys)
    ensures Refuses(Advance(g, t, e), x, f, number)
  {
    if e.Deliver? {
      var epoch, last := OrderlyAt(t, e.who);
      HeadIsAccepted(t, e.who, epoch, last, w, keys);
      hide Next, Queued, Orderly, Advance, Rising, Remembers;
      DeliverEffect(g, t.sys, e.who, e.secret);
      AdvanceEffect(g, t, e.who, e.secret);
    } else {
      SendEffect(g, t.sys, e);
      hide Next, Queued, Orderly, Rising, Remembers;
    }
  }

  lemma {:induction false} RefusesRun(g: Group, t: Session, steps: seq<Step>, x: Side, f: Frame, number: nat,
                                      toLower: seq<Expected>, toUpper: seq<Expected>, keys: seq<int>)
    requires Agrees(g) && Orderly(t) && Inv(g, t.sys, toLower, toUpper, keys) && IsNumberedRun(g, t, steps)
    requires Refuses(t, x, f, number)
    ensures Refuses(After(g, t, steps), x, f, number)
    decreases |steps|
  {
    if steps != [] {
      var e := steps[0];
      hide Next, Advance, Orderly, Inv, Sensible, WellFormed, Refuses;
      var toLower', toUpper', keys' := InvStep(g, t.sys, e, toLower, toUpper, keys);
      var w := if e.who.Lower? then toLower else toUpper;
      InvInto(g, t.sys, e.who, toLower, toUpper, keys);
      RefusesStep(g, t, e, x, f, number, w, keys);
      if e.Deliver? {
        DeliverStep(g, t, e.who, e.secret, w, keys);
      } else {
        SendStep(g, t, e);
      }
      RefusesRun(g, Advance(g, t, e), steps[1..], x, f, number, toLower', toUpper', keys');
    }
  }

  lemma {:induction false} AfterConcat(g: Group, t: Session, steps: seq<Step>, more: seq<Step>)
    requires IsNumberedRun(g, t, steps + more)
    ensures IsNumberedRun(g, t, steps) && IsNumberedRun(g, After(g, t, steps), more)
    ensures After(g, t, steps + more) == After(g, After(g, t, steps), more)
    decreases |steps|
  {
    hide Next, Advance, Sensible, WellFormed;
    if steps == [] {
      assert steps + more == more;
    } else {
      assert (steps + more)[1..] == steps[1..] + more;
      AfterConcat(g, Advance(g, t, steps[0]), steps[1..], more);
    }
  }

  /** No frame is accepted twice: once a frame has been delivered, then in every state of every further run
      in which the receiver still holds its key, the same frame decrypts, and its number is not above the
      mark it is checked against. */
  lemma ReplayIsRefused(g: Group, key: int, steps: seq<Step>, x: Side, secret: int, more: seq<Step>)
    requires Agrees(g) && IsNumberedRun(g, Start(key), steps + ([Deliver(x, secret)] + more))
    ensures IsNumberedRun(g, Start(key), steps)
    ensures var t := After(g, Start(key), steps);
            && t.sys.Into(x) != [] && t.Into(x) != []
            && var f, number := t.sys.Into(x)[0], t.Into(x)[0];
               var t' := After(g, Start(key), steps + ([Deliver(x, secret)] + more));
               var e, n := t'.sys.At(x), t'.At(x);
               && f.sentAt <= e.count
               && (e.count <= f.sentAt + 1 ==>
                     if f.key == e.key then number <= n.mark
                     else e.prev == Some(f.key) && n.prevMark.Some? && number <= n.prevMark.value)
  {
    var e := Deliver(x, secret);
    AfterConcat(g, Start(key), steps, [e] + more);
    StartIsOrderly(g, key);
    var toLower, toUpper, keys := OrderlyRun(g, Start(key), steps, [], [], [key]);
    var t := After(g, Start(key), steps);
    assert ([e] + more)[0] == e && ([e] + more)[1..] == more;
    hide Next, Advance, Orderly, Inv, Sensible;
    var w := if x.Lower? then toLower else toUpper;
    InvInto(g, t.sys, x, toLower, toUpper, keys);
    AcceptedIsRefused(g, t, x, secret, w, keys);
    DeliverStep(g, t, x, secret, w, keys);
    var toLower', toUpper', keys' := InvStep(g, t.sys, e, toLower, toUpper, keys);
    RefusesRun(g, Advance(g, t, e), more, x, t.sys.Into(x)[0], t.Into(x)[0], toLower', toUpper', keys');
  }
}
