/** Crashes: one file, any write cut after any byte. */
module AuditCrashes {
  import opened Graph
  import opened AuditFormat
  import opened AuditLogs

  /** A write, and how many bytes of it reached the disk. */
  datatype CrashWrite = CrashWrite(body: Body, cut: nat)

  function CutWritten(k: Scheme, text: string, w: CrashWrite): string {
    var p := Payload(text, Line(k, ReadTail(Records(k, text)), w.body));
    text + p[..if w.cut < |p| then w.cut else |p|]
  }

  function AfterCrashes(k: Scheme, ws: seq<CrashWrite>): string {
    if ws == [] then "" else CutWritten(k, AfterCrashes(k, ws[..|ws| - 1]), ws[|ws| - 1])
  }

  /** Some write was cut strictly inside its line. */
  predicate Torn(k: Scheme, ws: seq<CrashWrite>) {
    if ws == [] then false
    else
      var text, w := AfterCrashes(k, ws[..|ws| - 1]), ws[|ws| - 1];
      Torn(k, ws[..|ws| - 1]) || Tears(text, Line(k, ReadTail(Records(k, text)), w.body), w.cut)
  }

  /** What crashes leave: objects with a full-length HMAC, and torn lines. */
  ghost predicate EntriesAndTorn(rs: seq<Record>) {
    forall i :: 0 <= i < |rs| ==> rs[i].Malformed? || (rs[i].Entry? && rs[i].hmac.Some? && |rs[i].hmac.value| == 64)
  }

  /** The tail a writer resumes from is that of the parseable chain. */
  lemma {:induction false} ResumesChain(rs: seq<Record>)
    requires EntriesAndTorn(rs)
    ensures ReadTail(rs) == TailOf(Parseable(rs), GENESIS)
  {
    if rs != [] {
      ResumesChain(rs[..|rs| - 1]);
    }
  }

  /** Neither a torn line nor a sealed entry breaks the parseable chain. */
  lemma OneMoreRecord(k: Scheme, rs: seq<Record>, body: Body)
    requires Faithful(k) && EntriesAndTorn(rs) && Chained(k, Parseable(rs), GENESIS)
    ensures var torn, sealed := rs + [Malformed], rs + [Entry(body, Some(Seal(k, ReadTail(rs), body)))];
            && EntriesAndTorn(torn) && Chained(k, Parseable(torn), GENESIS) && Malformed in torn
            && EntriesAndTorn(sealed) && Chained(k, Parseable(sealed), GENESIS)
            && (Malformed in sealed <==> Malformed in rs)
  {
    var hmac := Seal(k, ReadTail(rs), body);
    assert |hmac| == 64;
    ResumesChain(rs);
    hide ReadTail, Faithful, Chained, Parseable;
    ParseableSnoc(rs, Malformed);
    ParseableSnoc(rs, Entry(body, Some(hmac)));
    ChainedSnoc(k, Parseable(rs), body, GENESIS);
  }

  lemma CutStep(k: Scheme, text: string, w: CrashWrite)
    requires Faithful(k) && EntriesAndTorn(Records(k, text)) && Chained(k, Parseable(Records(k, text)), GENESIS)
    ensures var after := Records(k, CutWritten(k, text, w));
            && EntriesAndTorn(after) && Chained(k, Parseable(after), GENESIS)
            && (Malformed in after <==> Malformed in Records(k, text)
                                        || Tears(text, Line(k, ReadTail(Records(k, text)), w.body), w.cut))
  {
    var hmac := Seal(k, ReadTail(Records(k, text)), w.body);
    var p := Payload(text, k.render(w.body, hmac));
    var cut := if w.cut < |p| then w.cut else |p|;
    hide Records, Chained, Parseable, EntriesAndTorn, Faithful, ReadTail, Seal;
    CutAppend(k, text, w.body, hmac, cut);
    OneMoreRecord(k, Records(k, text), w.body);
  }

  /** Crash tolerance: after any sequence of writes to one file, any of them cut after any byte,
      the parseable lines in order form one unbroken chain from the genesis. */
  lemma {:induction false} ChainSurvivesCrashes(k: Scheme, ws: seq<CrashWrite>)
    requires Faithful(k)
    ensures var rs := Records(k, AfterCrashes(k, ws));
            EntriesAndTorn(rs) && Chained(k, Parseable(rs), GENESIS) && (Malformed in rs <==> Torn(k, ws))
  {
    if ws == [] {
      assert SplitLines("").lines + [SplitLines("").rest] == [""];
      assert ParseAll(k, [""]) == [];
    } else {
      ChainSurvivesCrashes(k, ws[..|ws| - 1]);
      CutStep(k, AfterCrashes(k, ws[..|ws| - 1]), ws[|ws| - 1]);
    }
  }

  lemma {:induction false} AllParseable(rs: seq<Record>)
    ensures Parseable(rs) == rs <==> forall i :: 0 <= i < |rs| ==> rs[i].Entry?
    ensures |Parseable(rs)| <= |rs|
  {
    if rs != [] {
      var init := rs[..|rs| - 1];
      AllParseable(init);
      assert rs == init + [rs[|rs| - 1]];
    }
  }

  /** But `verify` stops at a torn line: it accepts the file if and only if no write was torn. */
  lemma VerifyRejectsExactlyTornFiles(k: Scheme, ws: seq<CrashWrite>)
    requires Faithful(k)
    ensures VerifyFrom(k, Records(k, AfterCrashes(k, ws)), GENESIS, 0).valid <==> !Torn(k, ws)
  {
    var rs := Records(k, AfterCrashes(k, ws));
    ChainSurvivesCrashes(k, ws);
    AllParseable(rs);
    VerifyAcceptsChains(k, rs, GENESIS, 0);
    if Malformed in rs {
      ChainHasNoTornLine(k, rs, GENESIS);
    } else {
      assert forall i :: 0 <= i < |rs| ==> rs[i] in rs;
    }
  }

  lemma {:induction false} ChainHasNoTornLine(k: Scheme, rs: seq<Record>, prev: string)
    requires Malformed in rs
    ensures !Chained(k, rs, prev)
  {
    var init := rs[..|rs| - 1];
    assert rs == init + [rs[|rs| - 1]];
    if rs[|rs| - 1] != Malformed {
      ChainHasNoTornLine(k, init, prev);
    }
  }
}
