/** Rotation, with any number of writers: nothing is lost but whole files past the archive cap. */
module AuditRotation {
  import opened Graph
  import opened AuditFormat
  import opened AuditLogs

  /** The disk after a run of `log` calls. A call does not say which instance made it: its result
      depends on nothing an instance remembers. */
  function AfterCalls(k: Scheme, cs: seq<Call>): Files {
    if cs == [] then map[] else Logged(k, AfterCalls(k, cs[..|cs| - 1]), cs[|cs| - 1])
  }

  // ----- The reference: a log that keeps every file for ever, oldest first -----

  function Live(e: seq<string>): string {
    if e == [] then "" else e[|e| - 1]
  }

  function WithLive(e: seq<string>, text: string): seq<string> {
    (if e == [] then [] else e[..|e| - 1]) + [text]
  }

  function LiveAfter(k: Scheme, e: seq<string>, c: Call): string {
    Live(e) + Payload(Live(e), Line(k, ReadTail(Records(k, Live(e))), c.body))
  }

  function AnchorAfter(k: Scheme, e: seq<string>, c: Call): Body {
    Anchor(Seal(k, ReadTail(Records(k, Live(e))), c.body), c.anchorRest)
  }

  function Extended(k: Scheme, e: seq<string>, c: Call): seq<string> {
    var written := WithLive(e, LiveAfter(k, e, c));
    if |LiveAfter(k, e, c)| < c.maxBytes then written
    else written + [Payload("", Line(k, GENESIS, AnchorAfter(k, e, c)))]
  }

  function Ever(k: Scheme, cs: seq<Call>): seq<string> {
    if cs == [] then [] else Extended(k, Ever(k, cs[..|cs| - 1]), cs[|cs| - 1])
  }

  // ----- The disk holds the newest files of the reference -----

  /** The live log and at most five archives. */
  ghost predicate IsWindow(fs: Files, e: seq<string>) {
    && (forall i: nat :: i in fs <==> i < |e| && i <= MAX_ARCHIVES)
    && (forall i: nat :: i in fs ==> fs[i] == e[|e| - 1 - i])
  }

  lemma WindowAfterShift(fs: Files, e: seq<string>, text: string)
    requires IsWindow(fs, e) && e != []
    ensures IsWindow(Shifted(fs)[0 := text], e + [text])
  {
    var gs := Shifted(fs)[0 := text];
    forall i: nat
      ensures (i in gs <==> i < |e| + 1 && i <= MAX_ARCHIVES) && (i in gs ==> gs[i] == (e + [text])[|e| - i])
    {
      ShiftedAt(fs, i);
    }
  }

  lemma WindowAfterWrite(fs: Files, e: seq<string>, text: string)
    requires IsWindow(fs, e)
    ensures IsWindow(fs[0 := text], WithLive(e, text)) && TextOf(fs) == Live(e)
  {
  }

  lemma WindowStep(k: Scheme, fs: Files, e: seq<string>, c: Call)
    requires IsWindow(fs, e)
    ensures IsWindow(Logged(k, fs, c), Extended(k, e, c))
  {
    hide IsWindow, Live, Shifted, Payload, ReadTail, Records, Line, Seal;
    var text := LiveAfter(k, e, c);
    WindowAfterWrite(fs, e, text);
    var written := fs[0 := text];
    assert Written(k, fs, Resume(k, fs), c.body) == written;
    if |text| >= c.maxBytes {
      ShiftedAt(written, 0);
      assert TextOf(Shifted(written)) == "";
      var anchor := AnchorAfter(k, e, c);
      assert Logged(k, fs, c) == Written(k, Shifted(written), GENESIS, anchor);
      assert Logged(k, fs, c) == Shifted(written)[0 := "" + Payload("", Line(k, GENESIS, anchor))];
      assert "" + Payload("", Line(k, GENESIS, anchor)) == Payload("", Line(k, GENESIS, anchor));
      WindowAfterShift(fs[0 := text], WithLive(e, text), Payload("", Line(k, GENESIS, AnchorAfter(k, e, c))));
    }
  }

  lemma {:induction false} DiskIsWindow(k: Scheme, cs: seq<Call>)
    ensures IsWindow(AfterCalls(k, cs), Ever(k, cs))
  {
    if cs != [] {
      DiskIsWindow(k, cs[..|cs| - 1]);
      WindowStep(k, AfterCalls(k, cs[..|cs| - 1]), Ever(k, cs[..|cs| - 1]), cs[|cs| - 1]);
    }
  }

  /** How many files of the reference are no longer on disk. */
  function LostFiles(e: seq<string>): nat {
    if |e| <= MAX_ARCHIVES + 1 then 0 else |e| - (MAX_ARCHIVES + 1)
  }

  lemma {:induction false} FoundInWindow(fs: Files, e: seq<string>, i: nat)
    requires IsWindow(fs, e) && i <= MAX_ARCHIVES
    ensures Found(fs, i) == e[if |e| <= i + 1 then 0 else |e| - (i + 1)..]
  {
    if i > 0 {
      FoundInWindow(fs, e, i - 1);
    }
  }

  // ----- The reference is linked -----

  ghost predicate Sound(k: Scheme, e: seq<string>) {
    Linked(k, Parsed(k, e)) && forall i :: 0 <= i < |e| ==> Records(k, e[i]) != []
  }

  lemma ParsedSnoc(k: Scheme, e: seq<string>, text: string)
    ensures Parsed(k, e + [text]) == Parsed(k, e) + [Records(k, text)]
  {
    assert (e + [text])[..|e|] == e;
  }

  lemma EmptyText(k: Scheme)
    requires Faithful(k)
    ensures Records(k, "") == []
  {
    assert SplitLines("").lines + [SplitLines("").rest] == [""];
    assert ParseAll(k, [""]) == [];
  }

  /** A chain's tail is what a writer resumes from. */
  lemma ResumesAtTail(k: Scheme, rs: seq<Record>)
    requires Faithful(k) && Chained(k, rs, GENESIS)
    ensures ReadTail(rs) == TailOf(rs, GENESIS)
  {
  }

  function SealedEntry(k: Scheme, prev: string, body: Body): Record {
    Entry(body, Some(Seal(k, prev, body)))
  }

  /** A write extends the live chain by its own entry. */
  lemma LiveGrows(k: Scheme, e: seq<string>, c: Call)
    requires Faithful(k) && Sound(k, e)
    ensures var rs := Records(k, Live(e));
            && Chained(k, rs, GENESIS) && (e != [] ==> rs != []) && (e == [] ==> rs == [])
            && Records(k, LiveAfter(k, e, c)) == rs + [SealedEntry(k, ReadTail(rs), c.body)]
            && Chained(k, rs + [SealedEntry(k, ReadTail(rs), c.body)], GENESIS)
  {
    var rs := Records(k, Live(e));
    EmptyText(k);
    if e != [] {
      assert LinkedAt(k, Parsed(k, e), |e| - 1);
    }
    hide Records, Payload, Linked, Parsed;
    ResumesAtTail(k, rs);
    ChainedSnoc(k, rs, c.body, GENESIS);
    AppendAddsOneRecord(k, Live(e), c.body, Seal(k, ReadTail(rs), c.body));
  }

  lemma SoundWithNewLive(k: Scheme, init: seq<string>, was: string, now: string, r: Record)
    requires Sound(k, init + [was]) && Records(k, was) != []
    requires Records(k, now) == Records(k, was) + [r] && Chained(k, Records(k, now), GENESIS)
    ensures Sound(k, init + [now])
  {
    ParsedSnoc(k, init, was);
    ParsedSnoc(k, init, now);
    assert (init + [was])[..|init|] == init;
    hide Records, Chained, Linked, Parsed;
    LinkedSnoc(k, Parsed(k, init), Records(k, was));
    LinkedSnoc(k, Parsed(k, init), Records(k, now));
    assert Records(k, now)[0] == Records(k, was)[0];
    forall i | 0 <= i < |init + [now]| ensures Records(k, (init + [now])[i]) != [] {
      if i < |init| {
        assert (init + [now])[i] == (init + [was])[i];
      }
    }
  }

  lemma SoundAlone(k: Scheme, text: string)
    requires Records(k, text) != [] && Chained(k, Records(k, text), GENESIS)
    ensures Sound(k, [text])
  {
    ParsedSnoc(k, [], text);
    assert [] + [text] == [text];
  }

  lemma SoundAfterWrite(k: Scheme, e: seq<string>, c: Call)
    requires Faithful(k) && Sound(k, e)
    ensures Sound(k, WithLive(e, LiveAfter(k, e, c)))
  {
    hide Records, Chained, Sound, LiveAfter, ReadTail;
    LiveGrows(k, e, c);
    var text := LiveAfter(k, e, c);
    var r := SealedEntry(k, ReadTail(Records(k, Live(e))), c.body);
    if e == [] {
      assert WithLive(e, text) == [text];
      SoundAlone(k, text);
    } else {
      assert e == e[..|e| - 1] + [Live(e)];
      SoundWithNewLive(k, e[..|e| - 1], Live(e), text, r);
    }
  }

  /** The records of a file that rotation starts. */
  lemma AnchorFile(k: Scheme, body: Body)
    requires Faithful(k)
    ensures Records(k, Payload("", Line(k, GENESIS, body))) == [SealedEntry(k, GENESIS, body)]
    ensures Chained(k, [SealedEntry(k, GENESIS, body)], GENESIS)
  {
    var text := Payload("", Line(k, GENESIS, body));
    EmptyText(k);
    ChainedSnoc(k, [], body, GENESIS);
    assert [] + [SealedEntry(k, GENESIS, body)] == [SealedEntry(k, GENESIS, body)];
    assert "" + text == text;
    hide Records, Payload;
    AppendAddsOneRecord(k, "", body, Seal(k, GENESIS, body));
  }

  lemma SoundAfterCall(k: Scheme, e: seq<string>, c: Call)
    requires Faithful(k) && Sound(k, e)
    ensures Sound(k, Extended(k, e, c))
  {
    var text := LiveAfter(k, e, c);
    var written := WithLive(e, text);
    var anchor := AnchorAfter(k, e, c);
    var started := Payload("", Line(k, GENESIS, anchor));
    SoundAfterWrite(k, e, c);
    LiveGrows(k, e, c);
    AnchorFile(k, anchor);
    ParsedSnoc(k, written, started);
    assert Parsed(k, written)[|written| - 1] == Records(k, text);
    hide Records, Chained, Linked, Parsed, LiveAfter, ReadTail, Payload, Live, Line;
    LinkedSnoc(k, Parsed(k, written), Records(k, started));
  }

  lemma {:induction false} EverIsSound(k: Scheme, cs: seq<Call>)
    requires Faithful(k)
    ensures Sound(k, Ever(k, cs)) && (cs != [] ==> Ever(k, cs) != [])
  {
    if cs != [] {
      EverIsSound(k, cs[..|cs| - 1]);
      SoundAfterCall(k, Ever(k, cs[..|cs| - 1]), cs[|cs| - 1]);
    }
  }

  // ----- The reference holds every event -----

  function Bodies(rs: seq<Record>): seq<Body> {
    if rs == [] then []
    else Bodies(rs[..|rs| - 1]) + (if rs[|rs| - 1].Entry? then [rs[|rs| - 1].body] else [])
  }

  function AfterAnchor(bs: seq<Body>): seq<Body> {
    if bs == [] then [] else bs[1..]
  }

  /** What was logged into these files: all entries but the anchors. If they go back to the very
      first file, that one has no anchor. */
  function Events(k: Scheme, texts: seq<string>, fromFirst: bool): seq<Body> {
    if texts == [] then []
    else
      var bs := Bodies(Records(k, texts[|texts| - 1]));
      Events(k, texts[..|texts| - 1], fromFirst) + if fromFirst && |texts| == 1 then bs else AfterAnchor(bs)
  }

  function LoggedBodies(cs: seq<Call>): seq<Body> {
    if cs == [] then [] else LoggedBodies(cs[..|cs| - 1]) + [cs[|cs| - 1].body]
  }

  lemma BodiesSnoc(rs: seq<Record>, body: Body, hmac: string)
    ensures Bodies(rs + [Entry(body, Some(hmac))]) == Bodies(rs) + [body]
  {
    assert (rs + [Entry(body, Some(hmac))])[..|rs|] == rs;
  }

  lemma EventsSnoc(k: Scheme, texts: seq<string>, text: string, fromFirst: bool)
    ensures var bs := Bodies(Records(k, text));
            Events(k, texts + [text], fromFirst)
            == Events(k, texts, fromFirst) + if fromFirst && texts == [] then bs else AfterAnchor(bs)
  {
    assert (texts + [text])[..|texts|] == texts;
  }

  lemma NothingYet(k: Scheme, fromFirst: bool)
    ensures Events(k, [], fromFirst) == [] && Bodies([]) == []
  {
  }

  /** In a chain, every record has a body. */
  lemma {:induction false} ChainBodies(k: Scheme, rs: seq<Record>, prev: string)
    requires Chained(k, rs, prev)
    ensures |Bodies(rs)| == |rs|
  {
    if rs != [] {
      ChainBodies(k, rs[..|rs| - 1], prev);
    }
  }

  lemma EventsWithNewLive(k: Scheme, init: seq<string>, was: string, now: string, body: Body)
    requires Bodies(Records(k, was)) != [] && Bodies(Records(k, now)) == Bodies(Records(k, was)) + [body]
    ensures Events(k, init + [now], true) == Events(k, init + [was], true) + [body]
  {
    hide Bodies, Records;
    var bs := Bodies(Records(k, was));
    assert AfterAnchor(bs + [body]) == AfterAnchor(bs) + [body];
    hide Events, AfterAnchor;
    EventsSnoc(k, init, was, true);
    EventsSnoc(k, init, now, true);
  }

  lemma EventsAfterWrite(k: Scheme, e: seq<string>, c: Call)
    requires Faithful(k) && Sound(k, e)
    ensures Events(k, WithLive(e, LiveAfter(k, e, c)), true) == Events(k, e, true) + [c.body]
  {
    var text := LiveAfter(k, e, c);
    var rs := Records(k, Live(e));
    hide Records, Chained, Sound, LiveAfter, ReadTail, Bodies, Events, Faithful, Seal, AfterAnchor;
    LiveGrows(k, e, c);
    ChainBodies(k, rs, GENESIS);
    BodiesSnoc(rs, c.body, Seal(k, ReadTail(rs), c.body));
    if e == [] {
      NothingYet(k, true);
      EventsSnoc(k, [], text, true);
      assert WithLive(e, text) == [] + [text];
    } else {
      assert e == e[..|e| - 1] + [Live(e)];
      EventsWithNewLive(k, e[..|e| - 1], Live(e), text, c.body);
    }
  }

  lemma EventsAfterCall(k: Scheme, e: seq<string>, c: Call)
    requires Faithful(k) && Sound(k, e)
    ensures Events(k, Extended(k, e, c), true) == Events(k, e, true) + [c.body]
  {
    var written := WithLive(e, LiveAfter(k, e, c));
    var anchor := AnchorAfter(k, e, c);
    hide LiveAfter, Sound, Records, Live, Payload, Line;
    EventsAfterWrite(k, e, c);
    AnchorFile(k, anchor);
    BodiesSnoc([], anchor, Seal(k, GENESIS, anchor));
    assert [] + [SealedEntry(k, GENESIS, anchor)] == [SealedEntry(k, GENESIS, anchor)];
    EventsSnoc(k, written, Payload("", Line(k, GENESIS, anchor)), true);
  }

  lemma {:induction false} EverHoldsAll(k: Scheme, cs: seq<Call>)
    requires Faithful(k)
    ensures Events(k, Ever(k, cs), true) == LoggedBodies(cs)
  {
    if cs != [] {
      EverIsSound(k, cs[..|cs| - 1]);
      EverHoldsAll(k, cs[..|cs| - 1]);
      EventsAfterCall(k, Ever(k, cs[..|cs| - 1]), cs[|cs| - 1]);
    }
  }

  lemma SeqAssoc<T>(a: seq<T>, b: seq<T>, c: seq<T>)
    ensures a + b + c == a + (b + c)
  {
  }

  lemma EventsSplitStep(k: Scheme, a: seq<string>, init: seq<string>, last: string)
    requires Events(k, a + init, true) == Events(k, a, true) + Events(k, init, a == [])
    ensures Events(k, a + init + [last], true) == Events(k, a, true) + Events(k, init + [last], a == [])
  {
    hide *;
    assert a + init == [] <==> a == [] && init == [];
    EventsSnoc(k, a + init, last, true);
    EventsSnoc(k, init, last, a == []);
    var bs := Bodies(Records(k, last));
    SeqAssoc(Events(k, a, true), Events(k, init, a == []), if a == [] && init == [] then bs else AfterAnchor(bs));
  }

  lemma {:induction false} EventsSplit(k: Scheme, a: seq<string>, b: seq<string>)
    ensures Events(k, a + b, true) == Events(k, a, true) + Events(k, b, a == [])
  {
    hide *;
    if b == [] {
      NothingYet(k, a == []);
      assert a + b == a;
    } else {
      var init, last := b[..|b| - 1], b[|b| - 1];
      EventsSplit(k, a, init);
      EventsSplitStep(k, a, init, last);
      assert a + b == a + init + [last] && b == init + [last];
    }
  }

  lemma {:induction false} CountEvents(k: Scheme, texts: seq<string>, fromFirst: bool)
    requires forall i :: 0 <= i < |texts| ==> Records(k, texts[i]) != [] && Chained(k, Records(k, texts[i]), GENESIS)
    ensures Count(Parsed(k, texts))
         == |Events(k, texts, fromFirst)| + |texts| - if fromFirst && texts != [] then 1 else 0
  {
    if texts != [] {
      var init, last := texts[..|texts| - 1], texts[|texts| - 1];
      assert texts == init + [last];
      hide Records, Bodies, Chained, Events, Parsed;
      CountEvents(k, init, fromFirst);
      ChainBodies(k, Records(k, last), GENESIS);
      ParsedSnoc(k, init, last);
      EventsSnoc(k, init, last, fromFirst);
    }
  }

  // ----- The disk -----

  lemma SoundSuffix(k: Scheme, e: seq<string>, n: nat)
    requires n <= |e| && Sound(k, e)
    ensures Sound(k, e[n..])
    ensures forall i :: 0 <= i < |e[n..]| ==> Chained(k, Records(k, e[n..][i]), GENESIS)
  {
    hide Chained, Records;
    var log, kept := Parsed(k, e), Parsed(k, e[n..]);
    forall i: nat | i < |kept| ensures LinkedAt(k, kept, i) && kept[i] != [] {
      assert LinkedAt(k, log, n + i);
      assert kept[i] == log[n + i] && (i > 0 ==> kept[i - 1] == log[n + i - 1]);
    }
  }

  /** Kept files are linked, none is empty, and they are the newest of the reference. */
  lemma DiskIsSound(k: Scheme, cs: seq<Call>)
    requires Faithful(k)
    ensures var e, kept := Ever(k, cs), OldestFirst(AfterCalls(k, cs));
            && kept == e[LostFiles(e)..] && Sound(k, kept)
            && (forall i :: 0 <= i < |kept| ==> Chained(k, Records(k, kept[i]), GENESIS))
            && (kept == [] <==> cs == [])
  {
    var e, fs := Ever(k, cs), AfterCalls(k, cs);
    assert cs == [] ==> e == [];
    hide Records, Chained, Ever, AfterCalls, IsWindow, Found, Parsed, Faithful;
    DiskIsWindow(k, cs);
    FoundInWindow(fs, e, MAX_ARCHIVES);
    EverIsSound(k, cs);
    SoundSuffix(k, e, LostFiles(e));
  }

  /** Multi-writer rotation, first half: whatever instances log, and whatever their thresholds, both
      verifications accept the disk, and count every record on it. */
  lemma RotationKeepsTheChain(k: Scheme, cs: seq<Call>)
    requires Faithful(k)
    ensures var fs := AfterCalls(k, cs);
            var log := Parsed(k, OldestFirst(fs));
            var v := VerifyFiles(k, log);
            && v.valid && v.firstBad == None && v.checked == Count(log)
            && (0 in fs <==> cs != [])
            && (0 in fs ==> var live := Records(k, fs[0]);
                            VerifyFrom(k, live, GENESIS, 0) == Verdict(true, |live|, None, TailOf(live, GENESIS)))
  {
    LiveLog(k, cs);
    hide Ever, AfterCalls, OldestFirst, Records, Chained, VerifyFiles, VerifyFrom, Faithful, Count, Parsed;
    DiskIsSound(k, cs);
    VerifyAcceptsLinked(k, Parsed(k, OldestFirst(AfterCalls(k, cs))));
    if cs != [] {
      VerifyAcceptsChains(k, Records(k, AfterCalls(k, cs)[0]), GENESIS, 0);
    }
  }

  /** The live log is the newest kept file. */
  lemma LiveLog(k: Scheme, cs: seq<Call>)
    requires Faithful(k)
    ensures var fs := AfterCalls(k, cs);
            (0 in fs <==> cs != []) && (0 in fs ==> Chained(k, Records(k, fs[0]), GENESIS))
  {
    var e, fs := Ever(k, cs), AfterCalls(k, cs);
    assert cs == [] ==> e == [];
    DiskIsWindow(k, cs);
    assert (0 in fs <==> e != []) && (0 in fs ==> fs[0] == e[|e| - 1]);
    hide Ever, AfterCalls, Records, Chained, Faithful, IsWindow;
    EverIsSound(k, cs);
    if e != [] {
      assert LinkedAt(k, Parsed(k, e), |e| - 1);
    }
  }

  /** Second half: the kept files without their anchors are an end of what was logged, in order; only
      whole files are lost, and only those beyond the five archives and the live log. The count is
      that of the kept events and the anchors. */
  lemma OnlyOldestFilesAreLost(k: Scheme, cs: seq<Call>)
    requires Faithful(k)
    ensures var e, kept := Ever(k, cs), OldestFirst(AfterCalls(k, cs));
            var lost := LostFiles(e);
            && e == e[..lost] + kept
            && LoggedBodies(cs) == Events(k, e[..lost], true) + Events(k, kept, lost == 0)
            && VerifyFiles(k, Parsed(k, kept)).checked
               == |Events(k, kept, lost == 0)| + |kept| - (if lost == 0 && cs != [] then 1 else 0)
            && |kept| <= 6 && lost == |e| - |kept| && (|e| <= 6 ==> lost == 0) && (lost > 0 ==> |kept| == 6)
  {
    var e, kept := Ever(k, cs), OldestFirst(AfterCalls(k, cs));
    var lost := LostFiles(e);
    hide Ever, AfterCalls, OldestFirst, Records, Chained, VerifyFiles, Events, LoggedBodies, Faithful;
    DiskIsSound(k, cs);
    EverHoldsAll(k, cs);
    assert e == e[..lost] + kept;
    EventsSplit(k, e[..lost], kept);
    CountEvents(k, kept, lost == 0);
    RotationKeepsTheChain(k, cs);
  }
}
