/** Rotations that overlap: exactly which second request by one end breaks the session. */
module RekeyOverlap {
  import opened Graph
  import opened Rekey

  // ----- What is in a channel -----

  predicate AnswersTo(f: Frame, id: RekeyId) {
    f.body.Response? && f.body.id == id
  }

  predicate NoAnswer(q: seq<Frame>, id: RekeyId) {
    forall i :: 0 <= i < |q| ==> !AnswersTo(q[i], id)
  }

  /** No request follows an answer to `id`. */
  predicate RequestsFirst(q: seq<Frame>, id: RekeyId)
    decreases |q|
  {
    q == [] || (if AnswersTo(q[0], id) then Requests(q[1..]) == 0 else RequestsFirst(q[1..], id))
  }

  lemma {:induction false} NoRequestsAtAll(q: seq<Frame>, id: RekeyId)
    requires Requests(q) == 0
    ensures RequestsFirst(q, id)
    decreases |q|
  {
    if q != [] {
      NoRequestsAtAll(q[1..], id);
    }
  }

  lemma {:induction false} NoAnswerAtAll(q: seq<Frame>, id: RekeyId)
    requires NoAnswer(q, id)
    ensures RequestsFirst(q, id)
    decreases |q|
  {
    if q != [] {
      assert !AnswersTo(q[0], id);
      NoAnswerAtAll(q[1..], id);
    }
  }

  lemma {:induction false} RequestsStayFirst(q: seq<Frame>, id: RekeyId, f: Frame)
    requires RequestsFirst(q, id) && !f.body.Request?
    ensures RequestsFirst(q + [f], id)
    decreases |q|
  {
    if q == [] {
      assert (q + [f])[1..] == [];
    } else {
      assert (q + [f])[1..] == q[1..] + [f];
      if AnswersTo(q[0], id) {
        RequestsAppend(q[1..], f);
      } else {
        RequestsStayFirst(q[1..], id, f);
      }
    }
  }

  lemma RequestsFirstTail(q: seq<Frame>, id: RekeyId)
    requires RequestsFirst(q, id) && q != []
    ensures RequestsFirst(q[1..], id) && (AnswersTo(q[0], id) ==> Requests(q[1..]) == 0)
  {
    if AnswersTo(q[0], id) {
      NoRequestsAtAll(q[1..], id);
    }
  }

  function Asking(w: seq<Expected>): nat {
    if w == [] then 0 else (if w[0].Answer? then 0 else 1) + Asking(w[1..])
  }

  predicate Avoids(w: seq<Expected>, id: RekeyId) {
    forall i :: 0 <= i < |w| && w[i].Answer? ==> w[i].id != id
  }

  /** The requests and the answers in a channel are those of its word. */
  lemma {:induction false} QueuedHolds(q: seq<Frame>, count: nat, w: seq<Expected>, keys: seq<int>, id: RekeyId)
    requires Queued(q, count, w, keys)
    ensures Requests(q) == Asking(w)
    ensures Avoids(w, id) ==> NoAnswer(q, id)
    decreases |q|
  {
    if q != [] {
      if q[0].body.Data? {
        QueuedHolds(q[1..], count, w, keys, id);
      } else {
        QueuedHolds(q[1..], if w[0].Stale? then count else count + 1, w[1..], keys, id);
      }
      assert q == [q[0]] + q[1..];
      if Avoids(w, id) {
        forall i | 0 <= i < |q| ensures !AnswersTo(q[i], id) {
          if i > 0 {
            assert q[i] == q[1..][i - 1];
          }
        }
      }
    }
  }

  lemma {:induction false} AvoidsAfterStale(w: seq<Expected>, id: RekeyId)
    requires Avoids(AfterStale(w), id)
    ensures Avoids(w, id)
  {
    if w != [] && w[0].Stale? {
      AvoidsAfterStale(w[1..], id);
      assert w == [w[0]] + w[1..];
    }
  }

  // ----- The other end surely gets ahead -----

  predicate AllAsks(w: seq<Expected>) {
    forall i :: 0 <= i < |w| ==> w[i].Ask?
  }

  /** Every rotation message on its way to `e`, except stale requests, moves it to a new key. */
  predicate Sure(g: Group, e: End, lower: bool, w: seq<Expected>, keys: seq<int>) {
    var v := AfterStale(w);
    && (w != v ==> lower && e.pendingId.Some?)
    && (if v != [] && v[0].Answer? then Completes(g, e, v, keys) && AllAsks(v[1..]) && |keys| == e.count + 2
        else AllAsks(v) && |keys| == e.count + 1 && (v != [] && lower ==> e.pendingId.None?))
  }

  /** Nothing on its way to `x` makes it answer. */
  predicate Silent(x: Side, e: End, q: seq<Frame>) {
    if x.Lower? && e.pendingId.Some? then RequestsFirst(q, e.pendingId.value) else Requests(q) == 0
  }

  function Pending(e: End): nat {
    if e.pendingId.Some? then 1 else 0
  }

  /** The other end will have moved on more often than `x` can. */
  ghost predicate Overtaken(g: Group, s: System, x: Side, w: seq<Expected>, keys: seq<int>) {
    var e, other := s.At(x), s.At(Other(x));
    && HoldsKeys(other, keys) && Queued(s.Into(Other(x)), other.count, w, keys) && Sure(g, other, x.Upper?, w, keys)
    && Silent(x, e, s.Into(x))
    && other.count + Moves(w) > e.count + Pending(e)
  }

  /** A silent end sends nothing, and moves on at most once if something is pending. */
  lemma SilentStep(g: Group, s: System, x: Side, secret: int)
    requires s.Into(x) != [] && Silent(x, s.At(x), s.Into(x))
    ensures var s' := Next(g, s, Deliver(x, secret));
            && s'.Into(x) == s.Into(x)[1..]
            && s'.At(Other(x)) == s.At(Other(x)) && s'.Into(Other(x)) == s.Into(Other(x))
            && Silent(x, s'.At(x), s'.Into(x))
            && s'.At(x).count + Pending(s'.At(x)) == s.At(x).count + Pending(s.At(x))
            && s.At(x).count <= s'.At(x).count
  {
    var e, q := s.At(x), s.Into(x);
    if x.Lower? && e.pendingId.Some? {
      RequestsFirstTail(q, e.pendingId.value);
    }
  }

  lemma SilentAppend(x: Side, e: End, q: seq<Frame>, f: Frame)
    requires Silent(x, e, q) && !f.body.Request?
    ensures Silent(x, e, q + [f])
  {
    RequestsAppend(q, f);
    if x.Lower? && e.pendingId.Some? {
      RequestsStayFirst(q, e.pendingId.value, f);
    }
  }

  lemma OvertakenByX(g: Group, s: System, x: Side, secret: int, w: seq<Expected>, keys: seq<int>)
    requires Overtaken(g, s, x, w, keys) && s.Into(x) != []
    ensures Overtaken(g, Next(g, s, Deliver(x, secret)), x, w, keys)
  {
    SilentStep(g, s, x, secret);
  }

  lemma RequestAnswered(g: Group, s: System, y: Side, secret: int, pub: int, id: RekeyId)
    requires s.Into(y) != [] && s.Into(y)[0].body == Request(Some(pub), id) && Decrypts(s.At(y), s.Into(y)[0])
    requires HoldsPending(s.At(y)) && !Ignores(s.At(y), y.Lower?)
    ensures var s', e := Next(g, s, Deliver(y, secret)), s.At(y);
            && s'.At(y) == Switched(e.(pendingSecret := None, pendingId := None), g.dh(secret, pub))
            && s'.Into(y) == s.Into(y)[1..] && s'.At(Other(y)) == s.At(Other(y))
            && s'.Into(Other(y)) == s.Into(Other(y)) + [Frame(e.key, Response(Some(g.pub(secret)), id), e.count)]
  {
  }

  predicate HoldsPending(e: End) {
    e.pendingId.Some? <==> e.pendingSecret.Some?
  }

  lemma OtherAnswers(g: Group, s: System, x: Side, secret: int, w: seq<Expected>, keys: seq<int>)
    requires Overtaken(g, s, x, w, keys) && s.Into(Other(x)) != [] && s.Into(Other(x))[0].body.Request?
    requires w != [] && w[0].Ask?
    ensures Overtaken(g, Next(g, s, Deliver(Other(x), secret)), x, w[1..], keys + [g.dh(secret, w[0].pub)])
  {
    var y := Other(x);
    var e, q := s.At(y), s.Into(y);
    var key := g.dh(secret, w[0].pub);
    HeadDecrypts(e, q, w, keys);
    QueueTail(q, e.count, w, keys);
    assert AfterStale(w) == w && AfterStale(w[1..]) == w[1..];
    hide Queued, Silent, AfterStale, Next, Decrypts;
    RequestAnswered(g, s, y, secret, w[0].pub, w[0].id);
    QueuedMoreKeys(q[1..], e.count + 1, w[1..], keys, key);
    SilentAppend(x, s.At(x), s.Into(x), Frame(e.key, Response(Some(g.pub(secret)), w[0].id), e.count));
    assert AllAsks(w[1..]);
  }

  /** A stale request, or the answer that completes a rotation. */
  lemma OtherMoves(g: Group, s: System, x: Side, secret: int, w: seq<Expected>, keys: seq<int>)
    requires Overtaken(g, s, x, w, keys) && s.Into(Other(x)) != [] && !s.Into(Other(x))[0].body.Data?
    requires w != [] && !w[0].Ask?
    ensures Overtaken(g, Next(g, s, Deliver(Other(x), secret)), x, w[1..], keys)
  {
    hide Queued, Silent;
    var y := Other(x);
    HeadDecrypts(s.At(y), s.Into(y), w, keys);
    QueueTail(s.Into(y), s.At(y).count, w, keys);
    if w[0].Stale? {
      StaleIgnored(g, s, y, secret);
    } else {
      AnswerTaken(g, s, y, secret, w, keys);
      assert AfterStale(w[1..]) == w[1..];
    }
    hide Next, Decrypts;
  }

  lemma StaleIgnored(g: Group, s: System, y: Side, secret: int)
    requires s.Into(y) != [] && s.Into(y)[0].body.Request? && Ignores(s.At(y), y.Lower?)
    ensures Next(g, s, Deliver(y, secret)).At(y) == s.At(y) && OnlyTakes(s, Next(g, s, Deliver(y, secret)), y)
  {
  }

  lemma AnswerTaken(g: Group, s: System, y: Side, secret: int, w: seq<Expected>, keys: seq<int>)
    requires Completes(g, s.At(y), w, keys) && s.Into(y) != [] && s.Into(y)[0].body == Response(Some(w[0].pub), w[0].id)
    requires Decrypts(s.At(y), s.Into(y)[0])
    ensures Next(g, s, Deliver(y, secret)).At(y)
         == Switched(s.At(y).(pendingSecret := None, pendingId := None), keys[s.At(y).count + 1])
    ensures OnlyTakes(s, Next(g, s, Deliver(y, secret)), y)
  {
  }

  /** `y` took a frame, and nothing else happened but at `y`. */
  predicate OnlyTakes(s: System, s': System, y: Side) {
    && s.Into(y) != [] && s'.Into(y) == s.Into(y)[1..]
    && s'.At(Other(y)) == s.At(Other(y)) && s'.Into(Other(y)) == s.Into(Other(y))
  }

  /** What a sure end does with a frame. */
  lemma OvertakenByOther(g: Group, s: System, x: Side, secret: int, w: seq<Expected>, keys: seq<int>)
    returns (w': seq<Expected>, keys': seq<int>)
    requires Overtaken(g, s, x, w, keys) && s.Into(Other(x)) != []
    ensures Overtaken(g, Next(g, s, Deliver(Other(x), secret)), x, w', keys')
  {
    var y := Other(x);
    w', keys' := w, keys;
    HeadDecrypts(s.At(y), s.Into(y), w, keys);
    if !s.Into(y)[0].body.Data? {
      QueueTail(s.Into(y), s.At(y).count, w, keys);
      hide Queued, Overtaken, Next;
      w' := w[1..];
      if w[0].Ask? {
        keys' := keys + [g.dh(secret, w[0].pub)];
        OtherAnswers(g, s, x, secret, w, keys);
      } else {
        OtherMoves(g, s, x, secret, w, keys);
      }
    }
  }

  // ----- Or the upper end stays behind -----

  /** The lower end has a rotation pending and is ahead, and the answer the upper end waits for will
      never come. */
  predicate Outrun(s: System) {
    && Silent(Lower, s.lower, s.toLower)
    && (s.upper.pendingId.Some? ==> NoAnswer(s.toUpper, s.upper.pendingId.value))
    && s.lower.count + Pending(s.lower) >= s.upper.count + Requests(s.toUpper) + 1
  }

  lemma OutrunStep(g: Group, s: System, x: Side, secret: int)
    requires Outrun(s) && s.Into(x) != []
    ensures Outrun(Next(g, s, Deliver(x, secret)))
  {
    if x.Lower? {
      SilentStep(g, s, Lower, secret);
    } else {
      var f := s.toUpper[0];
      if s.upper.pendingId.Some? {
        assert !AnswersTo(f, s.upper.pendingId.value);
      }
      if f.body.Request? && f.body.pub.Some? && Decrypts(s.upper, f) {
        var answer := Frame(s.upper.key, Response(Some(g.pub(secret)), f.body.id), s.upper.count);
        SilentAppend(Lower, s.lower, s.toLower, answer);
      }
    }
  }

  ghost predicate Doomed(g: Group, s: System, x: Side) {
    (x.Upper? && Outrun(s)) || exists w, keys :: Overtaken(g, s, x, w, keys)
  }

  lemma DoomedStep(g: Group, s: System, x: Side, e: Step)
    requires Doomed(g, s, x) && e.Deliver? && Enabled(s, e)
    ensures Doomed(g, Next(g, s, e), x)
  {
    hide Next, Outrun, Overtaken;
    if x.Upper? && Outrun(s) {
      OutrunStep(g, s, e.who, e.secret);
    } else {
      var w, keys :| Overtaken(g, s, x, w, keys);
      if e.who == x {
        OvertakenByX(g, s, x, e.secret, w, keys);
      } else {
        var w', keys' := OvertakenByOther(g, s, x, e.secret, w, keys);
      }
    }
  }

  lemma {:induction false} DoomedForEver(g: Group, s: System, x: Side, more: seq<Step>)
    requires Doomed(g, s, x) && IsRun(g, s, more) && OnlyDeliveries(more)
    ensures Doomed(g, Final(g, s, more), x)
    decreases |more|
  {
    hide Next, Doomed;
    if more != [] {
      DoomedStep(g, s, x, more[0]);
      DoomedForEver(g, Next(g, s, more[0]), x, more[1..]);
    }
  }

  lemma DoomedDisagree(g: Group, s: System, x: Side)
    requires Doomed(g, s, x) && s.toLower == [] && s.toUpper == []
    ensures !Agreed(s)
  {
  }

  // ----- A harmful request dooms the session -----

  lemma LowerOverlaps(g: Group, s: System, p: int, r: RekeyId, toLower: seq<Expected>, toUpper: seq<Expected>,
                      keys: seq<int>)
    requires Inv(g, s, toLower, toUpper, keys) && s.lower.pendingId.Some? && s.lower.pendingId != Some(r)
    ensures Overtaken(g, Next(g, s, Initiate(Lower, p, r)), Lower, toUpper + [Ask(g.pub(p), r)], keys)
  {
    var f := Frame(s.lower.key, Request(Some(g.pub(p)), r), s.lower.count);
    var w := toUpper + [Ask(g.pub(p), r)];
    SendersAreTimely(g, s, toLower, toUpper, keys);
    QueuedMessage(s.toUpper, s.upper.count, toUpper, keys, f, Ask(g.pub(p), r));
    AvoidsAfterStale(toLower, r);
    QueuedHolds(s.toLower, s.lower.count, toLower, keys, r);
    NoAnswerAtAll(s.toLower, r);
    assert AfterStale(w) == w;
    MovesAppend(toUpper, Ask(g.pub(p), r));
    MovesOfShort(toUpper);
  }

  lemma {:induction false} MovesAppend(w: seq<Expected>, x: Expected)
    ensures Moves(w + [x]) == Moves(w) + if x.Stale? then 0 else 1
  {
    if w == [] {
      assert (w + [x])[1..] == [];
    } else {
      assert (w + [x])[1..] == w[1..] + [x];
      MovesAppend(w[1..], x);
    }
  }

  lemma UpperOverlaps(g: Group, s: System, p: int, r: RekeyId, toLower: seq<Expected>, toUpper: seq<Expected>,
                      keys: seq<int>)
    requires Inv(g, s, toLower, toUpper, keys) && s.upper.pendingId.Some? && !Harmless(s, Upper)
    requires s.lower.count > s.upper.count ==> s.lower.pendingId.None?
    ensures Overtaken(g, Next(g, s, Initiate(Upper, p, r)), Upper, toLower + [Ask(g.pub(p), r)], keys)
  {
    var ask := Ask(g.pub(p), r);
    var f := Frame(s.upper.key, Request(Some(g.pub(p)), r), s.upper.count);
    SendersAreTimely(g, s, toLower, toUpper, keys);
    QueuedMessage(s.toLower, s.lower.count, toLower, keys, f, ask);
    QueuedHolds(s.toUpper, s.upper.count, toUpper, keys, r);
    AfterStaleAppend(toLower, ask);
    MovesAppend(toLower, ask);
    MovesAfterStale(toLower);
    MovesOfShort(AfterStale(toLower));
    assert |toUpper| <= 1 && Asking(toUpper) == 0;
  }

  lemma UpperOutrun(g: Group, s: System, p: int, r: RekeyId, toLower: seq<Expected>, toUpper: seq<Expected>,
                    keys: seq<int>)
    requires Inv(g, s, toLower, toUpper, keys) && s.upper.pendingId.Some? && s.upper.pendingId != Some(r)
    requires s.lower.count > s.upper.count && s.lower.pendingId.Some?
    ensures Outrun(Next(g, s, Initiate(Upper, p, r)))
  {
    var f := Frame(s.upper.key, Request(Some(g.pub(p)), r), s.upper.count);
    QueuedHolds(s.toUpper, s.upper.count, toUpper, keys, r);
    QueuedHolds(s.toLower, s.lower.count, toLower, keys, s.lower.pendingId.value);
    assert |toUpper| == 2 && Asking(toUpper) == 1 by {
      assert Asking(toUpper[1..]) == 1 + Asking(toUpper[1..][1..]);
    }
    NoAnswerAtAll(s.toLower + [f], s.lower.pendingId.value);
  }

  /** Overlapping rotations, exactly. In any state that the two ends reach by harmless requests, data and
      deliveries, let one end start a rotation under a new id. However everything is then delivered, the
      ends agree if and only if that end had nothing pending, or was the upper end in a collision that the
      lower end has not yet won. */
  lemma PatienceIsExact(g: Group, key: int, steps: seq<Step>, x: Side, p: int, r: RekeyId, more: seq<Step>)
    requires Agrees(g) && IsRun(g, Fresh(key), steps)
    requires var s := Final(g, Fresh(key), steps);
             var s' := Next(g, s, Initiate(x, p, r));
             && s.At(x).pendingId != Some(r)
             && OnlyDeliveries(more) && IsRun(g, s', more)
             && Final(g, s', more).toLower == [] && Final(g, s', more).toUpper == []
    ensures var s := Final(g, Fresh(key), steps);
            var end := Final(g, Next(g, s, Initiate(x, p, r)), more);
            (Agreed(end) <==> Harmless(s, x)) && (Harmless(s, x) ==> end.lost == 0)
  {
    var s := Final(g, Fresh(key), steps);
    var e := Initiate(x, p, r);
    hide Next, Inv, Doomed, Agreed, Overtaken, Outrun;
    if Harmless(s, x) {
      assert [e][1..] == [] && IsRun(g, s, [e]);
      RunsConcatenate(g, Fresh(key), steps, [e]);
      RotationsComplete(g, key, steps + [e]);
    } else {
      var toLower, toUpper, keys := InvRun(g, Fresh(key), steps, [], [], [key]);
      HarmDooms(g, s, x, p, r, toLower, toUpper, keys);
      DoomedForEver(g, Next(g, s, e), x, more);
      DoomedDisagree(g, Final(g, Next(g, s, e), more), x);
    }
  }

  lemma HarmDooms(g: Group, s: System, x: Side, p: int, r: RekeyId, toLower: seq<Expected>, toUpper: seq<Expected>,
                  keys: seq<int>)
    requires Inv(g, s, toLower, toUpper, keys) && !Harmless(s, x) && s.At(x).pendingId != Some(r)
    ensures Doomed(g, Next(g, s, Initiate(x, p, r)), x)
  {
    hide Next, Inv, Overtaken, Outrun;
    if x.Lower? {
      LowerOverlaps(g, s, p, r, toLower, toUpper, keys);
    } else if s.lower.count > s.upper.count && s.lower.pendingId.Some? {
      UpperOutrun(g, s, p, r, toLower, toUpper, keys);
    } else {
      UpperOverlaps(g, s, p, r, toLower, toUpper, keys);
    }
  }
}
