/** The audit log as text: lines, torn lines, records, and the HMAC chain over them. */
module AuditFormat {
  import opened Graph

  /** What a line says, apart from its HMAC. `anchor` is the `previous_tail_hmac` of its details;
      `rest` is everything else in it. */
  datatype Body = Body(event: string, anchor: Option<string>, rest: string)

  /** What a line parses to. */
  datatype Record = Blank | Malformed | NonObject | Entry(body: Body, hmac: Option<string>)

  const LOG_ROTATED := "LOG_ROTATED"

  /** The HMAC before the first entry. */
  const GENESIS: string := "0000000000000000000000000000000000000000000000000000000000000000"

  /** The serialisation and the keyed MAC, left abstract. */
  datatype Scheme = Scheme(canon: Body -> string, render: (Body, string) -> string, parse: string -> Record,
                           mac: string -> string)

  /** What JSON lines and hex MACs guarantee: a rendered line is one non-empty line that parses
      back, no proper prefix of it parses, and a MAC has 64 characters and is not the genesis. */
  ghost predicate Faithful(k: Scheme) {
    && k.parse("") == Blank
    && (forall b, h :: k.render(b, h) != "" && NoNewline(k.render(b, h)))
    && (forall b, h :: k.parse(k.render(b, h)) == Entry(b, Some(h)))
    && (forall b, h, j :: 0 < j < |k.render(b, h)| ==> k.parse(k.render(b, h)[..j]) == Malformed)
    && (forall m :: |k.mac(m)| == 64 && k.mac(m) != GENESIS)
  }

  /** Distinct bodies have distinct serialisations. */
  ghost predicate Canonical(k: Scheme) {
    forall b, b' :: k.canon(b) == k.canon(b') ==> b == b'
  }

  predicate NoNewline(s: string) {
    forall i :: 0 <= i < |s| ==> s[i] != '\n'
  }

  // ----- Lines -----

  /** The complete lines of a file, and the unterminated rest. */
  datatype Split = Split(lines: seq<string>, rest: string)

  function SplitLines(text: string): Split {
    if text == "" then Split([], "")
    else
      var before, c := SplitLines(text[..|text| - 1]), text[|text| - 1];
      if c == '\n' then Split(before.lines + [before.rest], "") else Split(before.lines, before.rest + [c])
  }

  /** The non-blank lines, parsed. */
  function ParseAll(k: Scheme, lines: seq<string>): seq<Record> {
    if lines == [] then []
    else
      var before, r := ParseAll(k, lines[..|lines| - 1]), k.parse(lines[|lines| - 1]);
      if r.Blank? then before else before + [r]
  }

  function Records(k: Scheme, text: string): seq<Record> {
    var s := SplitLines(text);
    ParseAll(k, s.lines + [s.rest])
  }

  lemma ParseAllSnoc(k: Scheme, lines: seq<string>, line: string)
    ensures ParseAll(k, lines + [line])
         == ParseAll(k, lines) + (if k.parse(line).Blank? then [] else [k.parse(line)])
  {
    assert (lines + [line])[..|lines|] == lines;
  }

  lemma {:induction false} SplitAppend(text: string, s: string)
    requires NoNewline(s)
    ensures SplitLines(text + s) == Split(SplitLines(text).lines, SplitLines(text).rest + s)
  {
    if s == "" {
      assert text + s == text;
    } else {
      var init := s[..|s| - 1];
      assert (text + s)[..|text + s| - 1] == text + init;
      SplitAppend(text, init);
      assert SplitLines(text).rest + s == SplitLines(text).rest + init + [s[|s| - 1]];
    }
  }

  lemma SplitNewline(text: string)
    ensures SplitLines(text + "\n") == Split(SplitLines(text).lines + [SplitLines(text).rest], "")
  {
    assert (text + "\n")[..|text|] == text;
  }

  /** A file ends inside a line exactly when its last byte is not a newline. */
  lemma RestIsEmpty(text: string)
    ensures SplitLines(text).rest == "" <==> text == "" || text[|text| - 1] == '\n'
  {
  }

  // ----- Appending -----

  predicate EndsInsideLine(text: string) {
    text != "" && text[|text| - 1] != '\n'
  }

  /** What a write adds: the line, terminated, and set off from a torn line before it. */
  function Payload(text: string, line: string): string {
    (if EndsInsideLine(text) then "\n" else "") + line + "\n"
  }

  lemma NewlineAddsNothing(k: Scheme, text: string)
    requires k.parse("") == Blank
    ensures Records(k, text + "\n") == Records(k, text)
  {
    SplitNewline(text);
    var s := SplitLines(text);
    ParseAllSnoc(k, s.lines + [s.rest], "");
  }

  /** Starting a line in a file that ends between lines adds what the line parses to. */
  lemma PartialLine(k: Scheme, text: string, part: string)
    requires !EndsInsideLine(text) && NoNewline(part) && k.parse("") == Blank
    ensures Records(k, text + part) == Records(k, text) + (if k.parse(part).Blank? then [] else [k.parse(part)])
  {
    RestIsEmpty(text);
    SplitAppend(text, part);
    var s := SplitLines(text);
    assert s.rest + part == part;
    ParseAllSnoc(k, s.lines, part);
    ParseAllSnoc(k, s.lines, "");
  }

  /** Every write adds exactly its own line, whatever the file ended with. */
  lemma AppendAddsOneRecord(k: Scheme, text: string, body: Body, hmac: string)
    requires Faithful(k)
    ensures var text' := text + Payload(text, k.render(body, hmac));
            Records(k, text') == Records(k, text) + [Entry(body, Some(hmac))] && !EndsInsideLine(text')
  {
    var line := k.render(body, hmac);
    if EndsInsideLine(text) {
      NewlineAddsNothing(k, text);
      PartialLine(k, text + "\n", line);
      NewlineAddsNothing(k, text + "\n" + line);
      assert text + Payload(text, line) == text + "\n" + line + "\n";
    } else {
      PartialLine(k, text, line);
      NewlineAddsNothing(k, text + line);
      assert text + Payload(text, line) == text + line + "\n";
    }
  }

  /** The write was cut strictly inside its line: some of the line is there, but not all. */
  predicate Tears(text: string, line: string, cut: nat) {
    var lead := if EndsInsideLine(text) then 1 else 0;
    lead < cut < lead + |line|
  }

  /** A write cut after any byte adds nothing, a malformed record, or its own record. */
  lemma CutAppend(k: Scheme, text: string, body: Body, hmac: string, cut: nat)
    requires Faithful(k) && cut <= |Payload(text, k.render(body, hmac))|
    ensures var line := k.render(body, hmac);
            var after := Records(k, text + Payload(text, line)[..cut]);
            && (Tears(text, line, cut) ==> after == Records(k, text) + [Malformed])
            && (!Tears(text, line, cut) ==>
                  after == Records(k, text) || after == Records(k, text) + [Entry(body, Some(hmac))])
  {
    hide Records;
    var line := k.render(body, hmac);
    var lead := if EndsInsideLine(text) then "\n" else "";
    var start := text + lead;
    assert Records(k, start) == Records(k, text) by {
      if EndsInsideLine(text) {
        NewlineAddsNothing(k, text);
      } else {
        assert start == text;
      }
    }
    CutShape(text, line, cut);
    var j := cut - |lead|;
    if 0 < j <= |line| {
      PartialLine(k, start, line[..j]);
      if j == |line| {
        assert line[..j] == line;
      }
    } else if j > |line| {
      AppendAddsOneRecord(k, text, body, hmac);
    }
  }

  /** What is in the file after a cut write. */
  lemma CutShape(text: string, line: string, cut: nat)
    requires cut <= |Payload(text, line)|
    ensures var lead := if EndsInsideLine(text) then "\n" else "";
            var text' := text + Payload(text, line)[..cut];
            && (cut == 0 ==> text' == text)
            && (0 < cut <= |lead| ==> text' == text + lead)
            && (|lead| < cut <= |lead| + |line| ==> text' == text + lead + line[..cut - |lead|])
            && (cut > |lead| + |line| ==> text' == text + Payload(text, line))
  {
    var lead := if EndsInsideLine(text) then "\n" else "";
    var p := Payload(text, line);
    assert p == lead + line + "\n";
    if |lead| < cut <= |lead| + |line| {
      assert p[..cut] == lead + line[..cut - |lead|];
    } else if cut > |lead| + |line| {
      assert p[..cut] == p;
    }
  }

  // ----- The chain -----

  function HmacOf(r: Record): string {
    if r.Entry? && r.hmac.Some? then r.hmac.value else ""
  }

  /** The HMAC of the last record, or `prev` if there is none. */
  function TailOf(rs: seq<Record>, prev: string): string {
    if rs == [] then prev else HmacOf(rs[|rs| - 1])
  }

  /** `rs` are entries, each sealed over the HMAC before it, from `prev` on. */
  ghost predicate Chained(k: Scheme, rs: seq<Record>, prev: string) {
    if rs == [] then true
    else
      var before, r := rs[..|rs| - 1], rs[|rs| - 1];
      && Chained(k, before, prev)
      && r.Entry? && r.hmac == Some(k.mac(TailOf(before, prev) + k.canon(r.body)))
  }

  /** The records that parsed to a JSON object. */
  function Parseable(rs: seq<Record>): seq<Record> {
    if rs == [] then []
    else
      var before := Parseable(rs[..|rs| - 1]);
      if rs[|rs| - 1].Entry? then before + [rs[|rs| - 1]] else before
  }

  lemma ParseableSnoc(rs: seq<Record>, r: Record)
    ensures Parseable(rs + [r]) == Parseable(rs) + (if r.Entry? then [r] else [])
  {
    assert (rs + [r])[..|rs|] == rs;
  }

  lemma ChainedSnoc(k: Scheme, rs: seq<Record>, body: Body, prev: string)
    requires Chained(k, rs, prev)
    ensures Chained(k, rs + [Entry(body, Some(k.mac(TailOf(rs, prev) + k.canon(body))))], prev)
  {
    var r := Entry(body, Some(k.mac(TailOf(rs, prev) + k.canon(body))));
    assert (rs + [r])[..|rs|] == rs;
  }

  /** The HMAC a writer resumes from: that of the last record that is an object with a 64-character
      HMAC. Torn lines are skipped; a line that is JSON but not an object starts a new chain. */
  function ReadTail(rs: seq<Record>): string {
    if rs == [] then GENESIS
    else
      var r := rs[|rs| - 1];
      match r
      case NonObject => GENESIS
      case Entry(_, hmac) => if hmac.Some? && |hmac.value| == 64 then hmac.value else ReadTail(rs[..|rs| - 1])
      case _ => ReadTail(rs[..|rs| - 1])
  }

  /** What `verify` makes of one file's records: validity, the lines checked, the first bad line,
      and the HMAC the checks ended with. */
  datatype Verdict = Verdict(valid: bool, checked: nat, firstBad: Option<nat>, tail: string)

  function VerifyFrom(k: Scheme, rs: seq<Record>, prev: string, line: nat): Verdict {
    if rs == [] then Verdict(true, line, None, prev)
    else if rs[0].Entry? && HmacOf(rs[0]) == k.mac(prev + k.canon(rs[0].body)) then
      VerifyFrom(k, rs[1..], HmacOf(rs[0]), line + 1)
    else Verdict(false, line + 1, Some(line + 1), prev)
  }

  lemma {:induction false} VerifyFromConcat(k: Scheme, rs: seq<Record>, more: seq<Record>, prev: string, line: nat)
    requires VerifyFrom(k, rs, prev, line).valid
    ensures VerifyFrom(k, rs + more, prev, line) == VerifyFrom(k, more, TailOf(rs, prev), line + |rs|)
    ensures VerifyFrom(k, rs, prev, line).checked == line + |rs|
        && VerifyFrom(k, rs, prev, line).tail == TailOf(rs, prev)
    decreases |rs|
  {
    if rs == [] {
      assert rs + more == more;
    } else {
      assert (rs + more)[1..] == rs[1..] + more;
      VerifyFromConcat(k, rs[1..], more, HmacOf(rs[0]), line + 1);
    }
  }

  /** `verify` accepts exactly the chains. */
  lemma {:induction false} VerifyAcceptsChains(k: Scheme, rs: seq<Record>, prev: string, line: nat)
    requires Faithful(k)
    ensures VerifyFrom(k, rs, prev, line).valid <==> Chained(k, rs, prev)
    ensures Chained(k, rs, prev) ==> VerifyFrom(k, rs, prev, line) == Verdict(true, line + |rs|, None, TailOf(rs, prev))
  {
    if rs != [] {
      var init, r := rs[..|rs| - 1], rs[|rs| - 1];
      assert rs == init + [r];
      VerifyAcceptsChains(k, init, prev, line);
      if Chained(k, init, prev) {
        VerifyFromConcat(k, init, [r], prev, line);
      } else {
        VerifyStops(k, init, [r], prev, line);
      }
    }
  }

  /** A rejected file, exactly: the bad line reported is that of the first record at which the chain
      breaks, and everything before it was checked and holds. */
  lemma {:induction false} FirstBadBreaksChain(k: Scheme, rs: seq<Record>, prev: string, line: nat)
    returns (b: nat)
    requires Faithful(k) && !VerifyFrom(k, rs, prev, line).valid
    ensures 1 <= b <= |rs| && Chained(k, rs[..b - 1], prev) && !Chained(k, rs[..b], prev)
    ensures VerifyFrom(k, rs, prev, line) == Verdict(false, line + b, Some(line + b), TailOf(rs[..b - 1], prev))
  {
    hide Faithful, Chained;
    var init, r := rs[..|rs| - 1], rs[|rs| - 1];
    assert rs == init + [r] && rs[..|rs|] == rs;
    if VerifyFrom(k, init, prev, line).valid {
      b := |rs|;
      VerifyFromConcat(k, init, [r], prev, line);
      VerifyAcceptsChains(k, init, prev, line);
      VerifyAcceptsChains(k, rs, prev, line);
    } else {
      b := FirstBadBreaksChain(k, init, prev, line);
      assert init[..b - 1] == rs[..b - 1] && init[..b] == rs[..b];
      VerifyStops(k, init, [r], prev, line);
    }
  }

  /** Nothing after the first bad record changes the verdict. */
  lemma {:induction false} VerifyStops(k: Scheme, rs: seq<Record>, more: seq<Record>, prev: string, line: nat)
    requires !VerifyFrom(k, rs, prev, line).valid
    ensures VerifyFrom(k, rs + more, prev, line) == VerifyFrom(k, rs, prev, line)
    decreases |rs|
  {
    if rs != [] {
      assert (rs + more)[1..] == rs[1..] + more;
      if rs[0].Entry? && HmacOf(rs[0]) == k.mac(prev + k.canon(rs[0].body)) {
        VerifyStops(k, rs[1..], more, HmacOf(rs[0]), line + 1);
      }
    }
  }

  // ----- Across files -----

  /** The record that links a file to the tail of the file before it. */
  predicate IsAnchor(r: Record, tail: string) {
    r.Entry? && r.body.event == LOG_ROTATED && r.body.anchor == Some(tail)
  }

  /** One file on its own; if an anchor is due, its first record must be that anchor. */
  function VerifyFile(k: Scheme, rs: seq<Record>, due: Option<string>, total: nat): Verdict {
    if rs != [] && due.Some? && !IsAnchor(rs[0], due.value) then Verdict(false, total + 1, Some(total + 1), GENESIS)
    else VerifyFrom(k, rs, GENESIS, total)
  }

  /** All files, oldest first: the first bad record ends it. */
  function VerifyFiles(k: Scheme, log: seq<seq<Record>>): Verdict {
    if log == [] then Verdict(true, 0, None, GENESIS)
    else
      var v := VerifyFiles(k, log[..|log| - 1]);
      if v.valid then VerifyFile(k, log[|log| - 1], if |log| == 1 then None else Some(v.tail), v.checked) else v
  }

  function Parsed(k: Scheme, texts: seq<string>): (log: seq<seq<Record>>)
    ensures |log| == |texts| && forall i :: 0 <= i < |texts| ==> log[i] == Records(k, texts[i])
  {
    if texts == [] then [] else Parsed(k, texts[..|texts| - 1]) + [Records(k, texts[|texts| - 1])]
  }

  ghost predicate LinkedAt(k: Scheme, log: seq<seq<Record>>, i: nat)
    requires i < |log|
  {
    Chained(k, log[i], GENESIS) && (i > 0 && log[i] != [] ==> IsAnchor(log[i][0], TailOf(log[i - 1], GENESIS)))
  }

  /** Every file is a chain from the genesis, and every file but the first, if it has any record,
      starts with an anchor to the tail of the file before it. */
  ghost predicate Linked(k: Scheme, log: seq<seq<Record>>) {
    forall i: nat :: i < |log| ==> LinkedAt(k, log, i)
  }

  function Count(log: seq<seq<Record>>): nat {
    if log == [] then 0 else Count(log[..|log| - 1]) + |log[|log| - 1]|
  }

  /** The verdict after the first `n` files. */
  function VerdictAfter(k: Scheme, log: seq<seq<Record>>, n: nat): Verdict
    requires n <= |log|
  {
    VerifyFiles(k, log[..n])
  }

  lemma {:induction false} InvalidPrefix(k: Scheme, log: seq<seq<Record>>, n: nat)
    requires n <= |log| && !VerdictAfter(k, log, n).valid
    ensures VerifyFiles(k, log) == VerdictAfter(k, log, n)
  {
    if n == |log| {
      assert log[..n] == log;
    } else {
      assert log[..|log| - 1][..n] == log[..n];
      InvalidPrefix(k, log[..|log| - 1], n);
    }
  }

  lemma {:induction false} ValidHasNoBadLineFrom(k: Scheme, rs: seq<Record>, prev: string, line: nat)
    requires VerifyFrom(k, rs, prev, line).valid
    ensures VerifyFrom(k, rs, prev, line).firstBad == None
    decreases |rs|
  {
    if rs != [] {
      ValidHasNoBadLineFrom(k, rs[1..], HmacOf(rs[0]), line + 1);
    }
  }

  lemma ValidHasNoBadLine(k: Scheme, rs: seq<Record>, due: Option<string>, total: nat)
    requires VerifyFile(k, rs, due, total).valid
    ensures VerifyFile(k, rs, due, total).firstBad == None
  {
    ValidHasNoBadLineFrom(k, rs, GENESIS, total);
  }

  /** `verify_chain_across_archives` accepts exactly the linked files, and counts every record. */
  lemma {:induction false} VerifyAcceptsLinked(k: Scheme, log: seq<seq<Record>>)
    requires Faithful(k)
    ensures VerifyFiles(k, log).valid <==> Linked(k, log)
    ensures Linked(k, log) ==>
              VerifyFiles(k, log)
              == Verdict(true, Count(log), None, if log == [] then GENESIS else TailOf(log[|log| - 1], GENESIS))
  {
    if log != [] {
      var init, last := log[..|log| - 1], log[|log| - 1];
      VerifyAcceptsLinked(k, init);
      LinkedSnoc(k, init, last);
      assert log == init + [last];
      var v := VerifyFiles(k, init);
      hide Faithful, Linked, Chained;
      VerifyAcceptsChains(k, last, GENESIS, v.checked);
    }
  }

  lemma LinkedSnoc(k: Scheme, log: seq<seq<Record>>, last: seq<Record>)
    ensures Linked(k, log + [last]) <==> Linked(k, log) && LinkedAt(k, log + [last], |log|)
  {
    assert forall i: nat :: i < |log| ==> LinkedAt(k, log + [last], i) == LinkedAt(k, log, i);
  }

  /** The loop over the files: where it starts, one file on, and where it ends. */
  lemma VerdictSteps(k: Scheme, log: seq<seq<Record>>)
    ensures VerdictAfter(k, log, 0) == Verdict(true, 0, None, GENESIS)
    ensures VerdictAfter(k, log, |log|) == VerifyFiles(k, log)
    ensures forall i: nat :: i < |log| && VerdictAfter(k, log, i).valid ==>
              VerdictAfter(k, log, i + 1)
              == VerifyFile(k, log[i], if i == 0 then None else Some(VerdictAfter(k, log, i).tail),
                            VerdictAfter(k, log, i).checked)
  {
    assert log[..|log|] == log;
    forall i: nat | i < |log| ensures log[..i + 1][..i] == log[..i] {
    }
  }

  /** The log as far as the `b`-th record of file `j`. */
  function UpTo(log: seq<seq<Record>>, j: nat, b: nat): seq<seq<Record>>
    requires j < |log| && b <= |log[j]|
  {
    log[..j] + [log[j][..b]]
  }

  /** Files that are rejected, exactly: reading on record by record, the bad line reported is the count of
      records up to the first at which the log stops being linked, because its seal fails or because it is
      a missing or wrong anchor; all records before it were accepted. */
  lemma {:induction false} FirstBadUnlinks(k: Scheme, log: seq<seq<Record>>) returns (j: nat, b: nat)
    requires Faithful(k) && !VerifyFiles(k, log).valid
    ensures j < |log| && 1 <= b <= |log[j]|
    ensures Linked(k, UpTo(log, j, b - 1)) && !Linked(k, UpTo(log, j, b))
    ensures var v := VerifyFiles(k, log); v.checked == Count(UpTo(log, j, b)) && v.firstBad == Some(v.checked)
  {
    var init, last := log[..|log| - 1], log[|log| - 1];
    if VerifyFiles(k, init).valid {
      j := |init|;
      b := BadInLast(k, init, last);
      assert log[..j] == init;
    } else {
      j, b := FirstBadUnlinks(k, init);
      assert init[..j] == log[..j];
      assert UpTo(init, j, b - 1) == UpTo(log, j, b - 1) && UpTo(init, j, b) == UpTo(log, j, b);
    }
  }

  lemma CountSnoc(log: seq<seq<Record>>, last: seq<Record>)
    ensures Count(log + [last]) == Count(log) + |last|
  {
    assert (log + [last])[..|log|] == log;
  }

  /** The verdict on one more file. */
  lemma VerifyFilesSnoc(k: Scheme, init: seq<seq<Record>>, last: seq<Record>)
    requires Faithful(k) && VerifyFiles(k, init).valid
    ensures Linked(k, init)
    ensures var due := if init == [] then None else Some(TailOf(init[|init| - 1], GENESIS));
            VerifyFiles(k, init + [last]) == VerifyFile(k, last, due, Count(init))
  {
    assert (init + [last])[..|init|] == init;
    hide Faithful, Linked, VerifyFile;
    VerifyAcceptsLinked(k, init);
  }

  lemma LinkedOnto(k: Scheme, init: seq<seq<Record>>, last: seq<Record>)
    ensures Linked(k, init + [last])
       <==> && Linked(k, init) && Chained(k, last, GENESIS)
            && (init != [] && last != [] ==> IsAnchor(last[0], TailOf(init[|init| - 1], GENESIS)))
  {
    LinkedSnoc(k, init, last);
  }

  lemma BadInLast(k: Scheme, init: seq<seq<Record>>, last: seq<Record>) returns (b: nat)
    requires Faithful(k) && VerifyFiles(k, init).valid && !VerifyFiles(k, init + [last]).valid
    ensures 1 <= b <= |last| && Linked(k, init + [last[..b - 1]]) && !Linked(k, init + [last[..b]])
    ensures var v := VerifyFiles(k, init + [last]);
            v.checked == Count(init + [last[..b]]) && v.firstBad == Some(v.checked)
  {
    VerifyFilesSnoc(k, init, last);
    var due := if init == [] then None else Some(TailOf(init[|init| - 1], GENESIS));
    var wrong := last != [] && due.Some? && !IsAnchor(last[0], due.value);
    hide Faithful, Linked, VerifyFiles, VerifyFrom, Count, IsAnchor;
    if wrong {
      b := 1;
      assert Chained(k, last[..0], GENESIS);
    } else {
      b := FirstBadBreaksChain(k, last, GENESIS, Count(init));
    }
    hide VerifyFile, Chained;
    LinkedOnto(k, init, last[..b - 1]);
    LinkedOnto(k, init, last[..b]);
    CountSnoc(init, last[..b]);
  }
}
