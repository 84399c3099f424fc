/** An insertion-ordered dictionary, as a list of distinct keys and a map. */
module OrderedDicts {

  datatype OrderedDict<K(==), V> = OrderedDict(keys: seq<K>, items: map<K, V>) {

    ghost predicate Valid() {
      && Distinct(keys)
      && (forall i :: 0 <= i < |keys| ==> keys[i] in items)
      && (forall k :: k in items ==> k in keys)
    }

    /** Stores `v` under `k` as the most recent entry. */
    function PutLast(k: K, v: V): OrderedDict<K, V> {
      OrderedDict(Remove(keys, k) + [k], items[k := v])
    }

    /** Drops the oldest entry. */
    function PopFirst(): OrderedDict<K, V>
      requires keys != []
    {
      OrderedDict(keys[1..], items - {keys[0]})
    }

    /** The `n` most recent entries. */
    function Newest(n: nat): OrderedDict<K, V> {
      var ks := Trim(keys, n);
      OrderedDict(ks, map k | k in ks && k in items :: items[k])
    }
  }

  function Empty<K, V>(): OrderedDict<K, V> {
    OrderedDict([], map[])
  }

  ghost predicate Distinct<K>(q: seq<K>) {
    forall i, j :: 0 <= i < j < |q| ==> q[i] != q[j]
  }

  function OtherThan<K(==)>(k: K): K -> bool {
    x => x != k
  }

  function Remove<K(==)>(q: seq<K>, k: K): seq<K> {
    Keep(q, OtherThan(k))
  }

  /** The elements that satisfy `p`, in order. */
  function Keep<K>(q: seq<K>, p: K -> bool): seq<K> {
    if q == [] then []
    else Keep(q[..|q| - 1], p) + (if p(q[|q| - 1]) then [q[|q| - 1]] else [])
  }

  /** The last `n` elements, or all of them. */
  function Trim<K>(q: seq<K>, n: nat): seq<K> {
    if q == [] || n == 0 then []
    else Trim(q[..|q| - 1], n - 1) + [q[|q| - 1]]
  }

  /** The elements behind the last occurrence of `x`, that is, more recent than it. */
  ghost function After<K>(q: seq<K>, x: K): set<K> {
    if q == [] || q[|q| - 1] == x then {}
    else After(q[..|q| - 1], x) + {q[|q| - 1]}
  }

  lemma {:induction false} KeepMembers<K>(q: seq<K>, p: K -> bool)
    ensures forall x :: x in Keep(q, p) <==> x in q && p(x)
    ensures forall i :: 0 <= i < |Keep(q, p)| ==> Keep(q, p)[i] in q && p(Keep(q, p)[i])
  {
    if q != [] {
      KeepMembers(q[..|q| - 1], p);
      assert q == q[..|q| - 1] + [q[|q| - 1]];
    }
  }

  lemma RemoveMembers<K>(q: seq<K>, k: K)
    ensures forall x :: x in Remove(q, k) <==> x in q && x != k
    ensures forall i :: 0 <= i < |Remove(q, k)| ==> Remove(q, k)[i] in q
  {
    KeepMembers(q, OtherThan(k));
  }

  lemma {:induction false} KeepDistinct<K>(q: seq<K>, p: K -> bool)
    requires Distinct(q)
    ensures Distinct(Keep(q, p))
  {
    if q != [] {
      KeepDistinct(q[..|q| - 1], p);
      KeepMembers(q[..|q| - 1], p);
    }
  }

  lemma AfterAppend<K>(q: seq<K>, y: K, x: K)
    ensures After(q + [y], x) == if y == x then {} else After(q, x) + {y}
  {
    assert (q + [y])[..|q|] == q;
  }

  lemma {:induction false} KeepAfter<K>(q: seq<K>, p: K -> bool, x: K)
    requires p(x)
    ensures After(Keep(q, p), x) == set y | y in After(q, x) && p(y)
  {
    if q != [] {
      var init, last := q[..|q| - 1], q[|q| - 1];
      KeepAfter(init, p, x);
      AfterAppend(init, last, x);
      assert q == init + [last];
      if p(last) {
        AfterAppend(Keep(init, p), last, x);
      } else {
        assert Keep(q, p) == Keep(init, p);
      }
    }
  }

  lemma {:induction false} KeepNoLonger<K>(q: seq<K>, p: K -> bool)
    ensures |Keep(q, p)| <= |q|
  {
    if q != [] {
      KeepNoLonger(q[..|q| - 1], p);
    }
  }

  lemma {:induction false} KeepDrops<K>(q: seq<K>, p: K -> bool, x: K)
    requires x in q && !p(x)
    ensures |Keep(q, p)| < |q|
  {
    var init, last := q[..|q| - 1], q[|q| - 1];
    KeepNoLonger(init, p);
    if p(last) {
      assert q == init + [last];
      KeepDrops(init, p, x);
    }
  }

  lemma {:induction false} KeepAll<K>(q: seq<K>, p: K -> bool)
    requires forall i :: 0 <= i < |q| ==> p(q[i])
    ensures Keep(q, p) == q
  {
    if q != [] {
      KeepAll(q[..|q| - 1], p);
    }
  }

  lemma {:induction false} KeepNone<K>(q: seq<K>, p: K -> bool)
    requires forall i :: 0 <= i < |q| ==> !p(q[i])
    ensures Keep(q, p) == []
  {
    if q != [] {
      KeepNone(q[..|q| - 1], p);
    }
  }

  lemma {:induction false} KeepSame<K>(q: seq<K>, p: K -> bool, p': K -> bool)
    requires forall k :: p(k) == p'(k)
    ensures Keep(q, p) == Keep(q, p')
  {
    if q != [] {
      KeepSame(q[..|q| - 1], p, p');
    }
  }

  /** Keeping elements never changes which one is last, if it is kept. */
  lemma KeepLast<K>(q: seq<K>, p: K -> bool)
    requires q != [] && p(q[|q| - 1])
    ensures Keep(q, p) != [] && Keep(q, p)[|Keep(q, p)| - 1] == q[|q| - 1]
  {
  }

  lemma {:induction false} AfterMembers<K>(q: seq<K>, x: K)
    ensures forall y :: y in After(q, x) ==> y in q
    ensures Distinct(q) && x in q ==> x !in After(q, x)
  {
    if q != [] && q[|q| - 1] != x {
      AfterMembers(q[..|q| - 1], x);
      assert q == q[..|q| - 1] + [q[|q| - 1]];
    }
  }

  /** Everything is behind the head. */
  lemma {:induction false} AfterHead<K>(q: seq<K>)
    requires q != [] && Distinct(q)
    ensures After(q, q[0]) == set y | y in q && y != q[0]
  {
    if |q| > 1 {
      var init := q[..|q| - 1];
      AfterHead(init);
      assert q == init + [q[|q| - 1]];
    }
  }

  lemma {:induction false} HeadIsNotBehind<K>(q: seq<K>, x: K)
    requires q != [] && Distinct(q) && x in q
    ensures q[0] !in After(q, x)
  {
    if q[|q| - 1] != x {
      HeadIsNotBehind(q[..|q| - 1], x);
    }
  }

  lemma {:induction false} SizeOfMembers<K>(q: seq<K>, s: set<K>)
    requires forall k :: k in s ==> k in q
    ensures |s| <= |q|
  {
    if q != [] {
      var init, last := q[..|q| - 1], q[|q| - 1];
      assert q == init + [last];
      SizeOfMembers(init, s - {last});
    }
  }

  /** Only the head can have everything else behind it. */
  lemma BehindMostOthers<K>(q: seq<K>, x: K)
    requires Distinct(q) && x in q
    ensures |After(q, x)| + (if x == q[0] then 1 else 2) <= |q|
  {
    var behind := After(q, x);
    AfterMembers(q, x);
    HeadIsNotBehind(q, x);
    SizeOfMembers(q, behind + {x} + {q[0]});
    assert |behind + {x}| == |behind| + 1;
    if x != q[0] {
      assert |behind + {x} + {q[0]}| == |behind + {x}| + 1;
    }
  }

  /** The last element is behind every other. */
  lemma LastIsAfter<K>(q: seq<K>, x: K)
    requires q != [] && q[|q| - 1] != x
    ensures q[|q| - 1] in After(q, x)
  {
  }

  /** An element survives a trim exactly when fewer than `n` others are more recent. */
  lemma {:induction false} TrimMembers<K>(q: seq<K>, n: nat, x: K)
    requires Distinct(q) && x in q
    ensures x in Trim(q, n) <==> |After(q, x)| < n
  {
    var init, last := q[..|q| - 1], q[|q| - 1];
    assert last !in init;
    if n > 0 && last != x {
      AfterMembers(init, x);
      TrimMembers(init, n - 1, x);
    }
  }

  lemma {:induction false} TrimAfter<K>(q: seq<K>, n: nat, x: K)
    requires x in Trim(q, n)
    ensures After(Trim(q, n), x) == After(q, x)
  {
    var init, last := q[..|q| - 1], q[|q| - 1];
    AfterAppend(Trim(init, n - 1), last, x);
    if last != x {
      TrimAfter(init, n - 1, x);
    }
  }

  lemma {:induction false} TrimDistinct<K>(q: seq<K>, n: nat)
    requires Distinct(q)
    ensures Distinct(Trim(q, n)) && |Trim(q, n)| <= n
    ensures forall i :: 0 <= i < |Trim(q, n)| ==> Trim(q, n)[i] in q
    ensures q != [] && n > 0 ==> Trim(q, n) != [] && Trim(q, n)[|Trim(q, n)| - 1] == q[|q| - 1]
  {
    if q != [] && n > 0 {
      var init := q[..|q| - 1];
      TrimDistinct(init, n - 1);
      assert q[|q| - 1] !in init;
    }
  }

  lemma {:induction false} TrimShort<K>(q: seq<K>, n: nat)
    requires |q| <= n
    ensures Trim(q, n) == q
  {
    if q != [] {
      TrimShort(q[..|q| - 1], n - 1);
    }
  }

  lemma {:induction false} TrimPop<K>(q: seq<K>, n: nat)
    requires Distinct(q) && |q| > n
    ensures Trim(q[1..], n) == Trim(q, n) && q[0] !in Trim(q, n)
  {
    if n > 0 {
      var init := q[..|q| - 1];
      TrimPop(init, n - 1);
      assert q[1..][..|q[1..]| - 1] == init[1..];
    }
  }

  // ----- The two updates of a bounded dictionary -----

  lemma AppendDistinct<K>(q: seq<K>, k: K)
    requires Distinct(q) && k !in q
    ensures Distinct(q + [k])
  {
  }

  lemma PutLastValid<K, V>(d: OrderedDict<K, V>, k: K, v: V)
    requires d.Valid()
    ensures d.PutLast(k, v).Valid()
  {
    RemoveMembers(d.keys, k);
    KeepDistinct(d.keys, OtherThan(k));
    assert k !in Remove(d.keys, k);
    var ks := Remove(d.keys, k) + [k];
    var r := Remove(d.keys, k);
    forall i | 0 <= i < |r|
      ensures r[i] in d.items
    {
      assert r[i] in d.keys;
    }
    assert forall i :: 0 <= i < |ks| ==> ks[i] == k || (i < |r| && ks[i] == r[i]);
    assert Distinct(ks) by { AppendDistinct(Remove(d.keys, k), k); }
  }

  /** `k` becomes the most recent; what was behind the others stays there. */
  lemma PutLastAfter<K, V>(d: OrderedDict<K, V>, k: K, v: V, x: K)
    requires d.Valid()
    ensures After(d.PutLast(k, v).keys, x) == if x == k then {} else After(d.keys, x) + {k}
  {
    AfterAppend(Remove(d.keys, k), k, x);
    if x != k {
      KeepAfter(d.keys, OtherThan(k), x);
    }
  }

  lemma NewestValid<K, V>(d: OrderedDict<K, V>, n: nat)
    requires d.Valid()
    ensures d.Newest(n).Valid() && |d.Newest(n).keys| <= n
    ensures forall k :: k in d.Newest(n).items ==> k in d.items && d.Newest(n).items[k] == d.items[k]
  {
    TrimDistinct(d.keys, n);
  }

  lemma PopFirstValid<K, V>(d: OrderedDict<K, V>)
    requires d.Valid() && d.keys != []
    ensures d.PopFirst().Valid()
  {
    var p := d.PopFirst();
    forall k | k in p.items
      ensures k in p.keys
    {
      var i :| 0 <= i < |d.keys| && d.keys[i] == k;
      assert p.keys[i - 1] == k;
    }
  }

  /** Popping oldest entries while there are more than `n` keeps the `n` newest. */
  lemma NewestStep<K, V>(d: OrderedDict<K, V>, n: nat)
    requires d.Valid() && |d.keys| > n
    ensures d.PopFirst().Valid() && d.PopFirst().Newest(n) == d.Newest(n)
  {
    PopFirstValid(d);
    TrimPop(d.keys, n);
    SameEntries(d.items, d.items - {d.keys[0]}, Trim(d.keys, n));
  }

  lemma SameEntries<K, V>(m: map<K, V>, m': map<K, V>, ks: seq<K>)
    requires forall k :: k in ks ==> (k in m <==> k in m')
    requires forall k :: k in ks && k in m ==> m[k] == m'[k]
    ensures (map k | k in ks && k in m :: m[k]) == (map k | k in ks && k in m' :: m'[k])
  {
  }

  lemma NewestDone<K, V>(d: OrderedDict<K, V>, n: nat)
    requires d.Valid() && |d.keys| <= n
    ensures d.Newest(n) == d
  {
    TrimShort(d.keys, n);
  }

  // ----- Put, then trim: one insert into a bounded dictionary -----

  /** What is behind `x` once `k` has been put last. */
  ghost function PutAfter<K>(q: seq<K>, k: K, x: K): set<K> {
    if x == k then {} else After(q, x) + {k}
  }

  lemma PutNewestValid<K, V>(d: OrderedDict<K, V>, k: K, v: V, n: nat)
    requires d.Valid()
    ensures d.PutLast(k, v).Newest(n).Valid() && |d.PutLast(k, v).Newest(n).keys| <= n
  {
    PutLastValid(d, k, v);
    NewestValid(d.PutLast(k, v), n);
  }

  /** The new entry is last. */
  lemma PutNewestLast<K, V>(d: OrderedDict<K, V>, k: K, v: V, n: nat)
    requires d.Valid() && n >= 1
    ensures var d' := d.PutLast(k, v).Newest(n);
            d'.keys != [] && d'.keys[|d'.keys| - 1] == k && k in d'.items && d'.items[k] == v
  {
    PutLastValid(d, k, v);
    TrimDistinct(d.PutLast(k, v).keys, n);
    PutNewestAt(d, k, v, n, k);
  }

  /** Which entries an insert leaves, with which value, and what is behind each of them. */
  lemma PutNewestAt<K, V>(d: OrderedDict<K, V>, k: K, v: V, n: nat, x: K)
    requires d.Valid()
    ensures var d' := d.PutLast(k, v).Newest(n);
            && (x in d'.items <==> (x == k || x in d.items) && |PutAfter(d.keys, k, x)| < n)
            && (x in d'.items ==> d'.items[x] == if x == k then v else d.items[x])
            && (x in d'.items ==> After(d'.keys, x) == PutAfter(d.keys, k, x))
  {
    var p := d.PutLast(k, v);
    PutLastValid(d, k, v);
    PutLastAfter(d, k, v, x);
    NewestValid(p, n);
    if x in p.items {
      TrimMembers(p.keys, n, x);
      if x in p.Newest(n).keys {
        TrimAfter(p.keys, n, x);
      }
    }
  }

  /** Pops the oldest entries while there are more than `n`. */
  method EvictOldest<K, V>(d: OrderedDict<K, V>, n: nat) returns (kept: OrderedDict<K, V>)
    requires d.Valid()
    ensures kept == d.Newest(n) && kept.Valid()
  {
    kept := d;
    while |kept.keys| > n
      invariant kept.Valid() && kept.Newest(n) == d.Newest(n)
      decreases |kept.keys|
    {
      NewestStep(kept, n);
      kept := kept.PopFirst();
    }
    NewestDone(kept, n);
  }

  /** Dropping the head does not change what is behind the others. */
  lemma {:induction false} AfterTail<K>(q: seq<K>, x: K)
    requires q != [] && Distinct(q) && x in q[1..]
    ensures After(q[1..], x) == After(q, x)
  {
    var tail, init := q[1..], q[..|q| - 1];
    assert tail[..|tail| - 1] == init[1..] && tail[|tail| - 1] == q[|q| - 1];
    if q[|q| - 1] != x {
      assert x in init[1..] by {
        var i :| 0 <= i < |tail| && tail[i] == x;
        assert init[1..][i] == x;
      }
      AfterTail(init, x);
    }
  }
}
