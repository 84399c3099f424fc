/** Tamper evidence: what an accepted log's final HMAC says about everything before it. */
module AuditTamper {
  import opened Graph
  import opened AuditFormat
  import opened AuditLogs
  import opened AuditRotation

  /** No two of these inputs have the same MAC. (All inputs cannot: a MAC is 64 characters.) */
  ghost predicate CollisionFree(k: Scheme, inputs: set<string>) {
    forall m, m' :: m in inputs && m' in inputs && k.mac(m) == k.mac(m') ==> m == m'
  }

  /** What the MACs of a file are computed over. */
  function MacInputs(k: Scheme, rs: seq<Record>): set<string> {
    if rs == [] then {}
    else
      var init, r := rs[..|rs| - 1], rs[|rs| - 1];
      MacInputs(k, init) + if r.Entry? then {TailOf(init, GENESIS) + k.canon(r.body)} else {}
  }

  lemma SealPinsInput(k: Scheme, inputs: set<string>, prev: string, prev': string, body: Body, body': Body)
    requires Canonical(k) && CollisionFree(k, inputs) && |prev| == |prev'|
    requires prev + k.canon(body) in inputs && prev' + k.canon(body') in inputs
    requires k.mac(prev + k.canon(body)) == k.mac(prev' + k.canon(body'))
    ensures prev == prev' && body == body'
  {
    var m, m' := prev + k.canon(body), prev' + k.canon(body');
    assert m == m';
    assert prev == m[..|prev|] == prev';
    assert k.canon(body) == m[|prev|..] == k.canon(body');
  }

  lemma TailIsFullLength(k: Scheme, rs: seq<Record>)
    requires Faithful(k) && Chained(k, rs, GENESIS)
    ensures |TailOf(rs, GENESIS)| == 64 && (TailOf(rs, GENESIS) == GENESIS <==> rs == [])
  {
  }

  lemma LastInput(k: Scheme, rs: seq<Record>)
    requires rs != [] && Chained(k, rs, GENESIS)
    ensures var init, r := rs[..|rs| - 1], rs[|rs| - 1];
            var input := TailOf(init, GENESIS) + k.canon(r.body);
            && rs == init + [r] && r == Entry(r.body, Some(k.mac(input)))
            && Chained(k, init, GENESIS) && MacInputs(k, rs) == MacInputs(k, init) + {input}
  {
  }

  lemma {:induction false} TailPinsChain(k: Scheme, inputs: set<string>, rs: seq<Record>, rs': seq<Record>)
    requires Faithful(k) && Canonical(k) && CollisionFree(k, inputs)
    requires MacInputs(k, rs) <= inputs && MacInputs(k, rs') <= inputs
    requires Chained(k, rs, GENESIS) && Chained(k, rs', GENESIS) && TailOf(rs, GENESIS) == TailOf(rs', GENESIS)
    ensures rs == rs'
  {
    TailIsFullLength(k, rs);
    TailIsFullLength(k, rs');
    if rs != [] {
      var init, r := rs[..|rs| - 1], rs[|rs| - 1];
      var init', r' := rs'[..|rs'| - 1], rs'[|rs'| - 1];
      LastInput(k, rs);
      LastInput(k, rs');
      hide Faithful, Canonical, CollisionFree, MacInputs, Chained;
      TailIsFullLength(k, init);
      TailIsFullLength(k, init');
      SealPinsInput(k, inputs, TailOf(init, GENESIS), TailOf(init', GENESIS), r.body, r'.body);
      TailPinsChain(k, inputs, init, init');
    }
  }

  /** One file: two logs that `verify` accepts and that end in the same HMAC are the same, entry for
      entry, unless two of their own entries collide under the MAC. */
  lemma SameTailSameFile(k: Scheme, rs: seq<Record>, rs': seq<Record>)
    requires Faithful(k) && Canonical(k) && CollisionFree(k, MacInputs(k, rs) + MacInputs(k, rs'))
    requires VerifyFrom(k, rs, GENESIS, 0).valid && VerifyFrom(k, rs', GENESIS, 0).valid
    requires TailOf(rs, GENESIS) == TailOf(rs', GENESIS)
    ensures rs == rs'
  {
    VerifyAcceptsChains(k, rs, GENESIS, 0);
    VerifyAcceptsChains(k, rs', GENESIS, 0);
    TailPinsChain(k, MacInputs(k, rs) + MacInputs(k, rs'), rs, rs');
  }

  // ----- Across archives -----

  type Log = seq<seq<Record>>

  function FinalTail(log: Log): string {
    if log == [] then GENESIS else TailOf(log[|log| - 1], GENESIS)
  }

  /** The `j`-th file from the end. */
  function FromEnd(log: Log, j: nat): seq<Record>
    requires j < |log|
  {
    log[|log| - 1 - j]
  }

  /** One is a file-wise suffix of the other. */
  ghost predicate Comparable(f: Log, g: Log) {
    forall j: nat :: j < |f| && j < |g| ==> FromEnd(f, j) == FromEnd(g, j)
  }

  function LogInputs(k: Scheme, log: Log): (inputs: set<string>)
    ensures forall i :: 0 <= i < |log| ==> MacInputs(k, log[i]) <= inputs
    ensures forall m :: m in inputs ==> exists i :: 0 <= i < |log| && m in MacInputs(k, log[i])
  {
    set i, m | 0 <= i < |log| && m in MacInputs(k, log[i]) :: m
  }

  predicate NoEmptyLaterFile(f: Log) {
    forall i :: 1 <= i < |f| ==> f[i] != []
  }

  /** `g` is accepted, its final HMAC is that of `f`, and no entries of the two collide. */
  ghost predicate Passes(k: Scheme, f: Log, g: Log) {
    VerifyFiles(k, g).valid && FinalTail(g) == FinalTail(f) && CollisionFree(k, LogInputs(k, f) + LogInputs(k, g))
  }

  lemma FilesAreChains(k: Scheme, f: Log, j: nat)
    requires Faithful(k) && VerifyFiles(k, f).valid && j < |f|
    ensures Chained(k, FromEnd(f, j), GENESIS) && MacInputs(k, FromEnd(f, j)) <= LogInputs(k, f)
    ensures j + 1 < |f| && FromEnd(f, j) != [] ==>
              IsAnchor(FromEnd(f, j)[0], TailOf(FromEnd(f, j + 1), GENESIS))
  {
    hide IsAnchor, TailOf, VerifyFiles, Chained, Faithful, MacInputs, LogInputs, Count;
    VerifyAcceptsLinked(k, f);
    assert LinkedAt(k, f, |f| - 1 - j);
  }

  lemma {:induction false} PinnedFromEnd(k: Scheme, f: Log, g: Log, j: nat)
    requires Faithful(k) && Canonical(k) && VerifyFiles(k, f).valid && Passes(k, f, g)
    requires NoEmptyLaterFile(f) && j < |f| && j < |g|
    ensures FromEnd(f, j) == FromEnd(g, j)
  {
    hide Faithful, Canonical, Chained, CollisionFree, LogInputs, MacInputs, VerifyFiles;
    FilesAreChains(k, f, j);
    FilesAreChains(k, g, j);
    if j > 0 {
      PinnedFromEnd(k, f, g, j - 1);
      FilesAreChains(k, f, j - 1);
      FilesAreChains(k, g, j - 1);
      assert FromEnd(f, j - 1) != [];
    }
    TailPinsChain(k, LogInputs(k, f) + LogInputs(k, g), FromEnd(f, j), FromEnd(g, j));
  }

  /** A file other than `f[i]` that adds no collision: the empty one, another of `f`, or, when all of
      them are empty, one entry. */
  lemma OtherFile(k: Scheme, f: Log, i: nat) returns (other: seq<Record>)
    requires Faithful(k) && i < |f| && (forall j :: 0 <= j < |f| ==> Chained(k, f[j], GENESIS))
    ensures other != f[i] && Chained(k, other, GENESIS)
    ensures MacInputs(k, other) <= LogInputs(k, f)
            || (LogInputs(k, f) == {}
                && forall m, m' :: m in MacInputs(k, other) && m' in MacInputs(k, other) ==> m == m')
  {
    if f[i] != [] {
      other := [];
    } else if j :| 0 <= j < |f| && f[j] != [] {
      other := f[j];
    } else {
      var body := Body("", None, "");
      other := [SealedEntry(k, GENESIS, body)];
      ChainedSnoc(k, [], body, GENESIS);
      assert [] + other == other && other[..0] == [];
    }
  }

  /** A different start: the files before the empty one replaced by `other`. */
  function Swapped(f: Log, i: nat, other: seq<Record>): Log
    requires i < |f|
  {
    [other] + f[i..]
  }

  lemma SwappedIsLinked(k: Scheme, f: Log, i: nat, other: seq<Record>)
    requires Linked(k, f) && i < |f| && f[i] == [] && Chained(k, other, GENESIS)
    ensures Linked(k, Swapped(f, i, other)) && FinalTail(Swapped(f, i, other)) == FinalTail(f)
  {
    var g := Swapped(f, i, other);
    hide Chained, IsAnchor, TailOf;
    forall j: nat | j < |g| ensures LinkedAt(k, g, j) {
      if j > 0 {
        var at := i + j - 1;
        assert LinkedAt(k, f, at) && g[j] == f[at];
        assert j > 1 ==> g[j - 1] == f[at - 1];
      }
    }
    assert g[|g| - 1] == f[|f| - 1];
  }

  lemma SwappedInputs(k: Scheme, f: Log, i: nat, other: seq<Record>)
    requires i < |f|
    ensures LogInputs(k, Swapped(f, i, other)) <= MacInputs(k, other) + LogInputs(k, f)
  {
    hide MacInputs;
    var g := Swapped(f, i, other);
    forall m | m in LogInputs(k, g) ensures m in MacInputs(k, other) || m in LogInputs(k, f) {
      var j :| 0 <= j < |g| && m in MacInputs(k, g[j]);
      assert j > 0 ==> g[j] == f[i + j - 1];
    }
  }

  lemma NoNewCollision(k: Scheme, was: set<string>, now: set<string>, added: set<string>)
    requires CollisionFree(k, was) && now <= added + was
    requires added <= was || (was == {} && forall m, m' :: m in added && m' in added ==> m == m')
    ensures CollisionFree(k, was + now)
  {
  }

  lemma SwappedIsOther(f: Log, i: nat, other: seq<Record>)
    requires 1 <= i < |f| && other != f[i - 1]
    ensures !Comparable(f, Swapped(f, i, other))
  {
    assert FromEnd(Swapped(f, i, other), |f| - i) == other && FromEnd(f, |f| - i) == f[i - 1];
  }

  /** Nothing ties an empty file to what came before it: another start is accepted as well. */
  lemma EmptyFileUnpins(k: Scheme, f: Log, i: nat)
    requires Faithful(k) && VerifyFiles(k, f).valid && CollisionFree(k, LogInputs(k, f)) && 1 <= i < |f| && f[i] == []
    ensures exists g :: Passes(k, f, g) && !Comparable(f, g)
  {
    hide *;
    AllChained(k, f);
    var other := OtherFile(k, f, i - 1);
    var g := Swapped(f, i, other);
    SwappedIsLinked(k, f, i, other);
    VerifyAcceptsLinked(k, g);
    SwappedInputs(k, f, i, other);
    NoNewCollision(k, LogInputs(k, f), LogInputs(k, g), MacInputs(k, other));
    SwappedIsOther(f, i, other);
    Passing(k, f, g);
  }

  lemma AllChained(k: Scheme, f: Log)
    requires Faithful(k) && VerifyFiles(k, f).valid
    ensures Linked(k, f) && forall j :: 0 <= j < |f| ==> Chained(k, f[j], GENESIS)
  {
    hide Faithful, VerifyFiles, Chained, IsAnchor;
    VerifyAcceptsLinked(k, f);
    forall j: nat | j < |f| ensures Chained(k, f[j], GENESIS) {
      assert LinkedAt(k, f, j);
    }
  }

  lemma Passing(k: Scheme, f: Log, g: Log)
    requires VerifyFiles(k, g).valid && FinalTail(g) == FinalTail(f)
    requires CollisionFree(k, LogInputs(k, f) + LogInputs(k, g))
    ensures Passes(k, f, g)
  {
  }

  /** Across archives: the final HMAC pins the whole log, up to a cut between files, if and only if no
      file after the first is empty. An empty file has no anchor, so nothing ties it to what came
      before. */
  lemma TailPinsLog(k: Scheme, f: Log)
    requires Faithful(k) && Canonical(k) && VerifyFiles(k, f).valid && CollisionFree(k, LogInputs(k, f))
    ensures (forall g :: Passes(k, f, g) ==> Comparable(f, g)) <==> NoEmptyLaterFile(f)
  {
    hide Faithful, Canonical, VerifyFiles, CollisionFree, LogInputs, Passes;
    if NoEmptyLaterFile(f) {
      forall g, j: nat | Passes(k, f, g) && j < |f| && j < |g| ensures FromEnd(f, j) == FromEnd(g, j) {
        PinnedFromEnd(k, f, g, j);
      }
    } else {
      var i :| 1 <= i < |f| && f[i] == [];
      EmptyFileUnpins(k, f, i);
    }
  }

  /** What the writers leave has no empty file, so its final HMAC pins it: no other accepted files end
      in that HMAC, except with whole files missing or added at the start. */
  lemma WrittenLogsArePinned(k: Scheme, cs: seq<Call>, g: Log)
    requires Faithful(k) && Canonical(k)
    requires Passes(k, Parsed(k, OldestFirst(AfterCalls(k, cs))), g)
    ensures Comparable(Parsed(k, OldestFirst(AfterCalls(k, cs))), g)
  {
    var f := Parsed(k, OldestFirst(AfterCalls(k, cs)));
    hide Faithful, Canonical, VerifyFiles, CollisionFree, LogInputs, Passes, AfterCalls, Records;
    RotationKeepsTheChain(k, cs);
    DiskIsSound(k, cs);
    assert NoEmptyLaterFile(f);
    forall j: nat | j < |f| && j < |g| ensures FromEnd(f, j) == FromEnd(g, j) {
      PinnedFromEnd(k, f, g, j);
    }
  }
}
