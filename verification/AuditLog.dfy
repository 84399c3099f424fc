/** The audit log on disk: writers that resume from the tail, rotation, verification. */
module AuditLogs {
  import opened Graph
  import opened AuditFormat

  const MAX_ARCHIVES := 5

  /** File 0 is the live log, file `i` the archive with suffix `.i`. */
  type Files = map<nat, string>

  /** One call: what is logged, what the clock gives an anchor, and the caller's size threshold. */
  datatype Call = Call(body: Body, anchorRest: string, maxBytes: int)

  // ----- One write -----

  function TextOf(fs: Files): string {
    if 0 in fs then fs[0] else ""
  }

  function Resume(k: Scheme, fs: Files): string {
    ReadTail(Records(k, TextOf(fs)))
  }

  function Seal(k: Scheme, prev: string, body: Body): string {
    k.mac(prev + k.canon(body))
  }

  function Line(k: Scheme, prev: string, body: Body): string {
    k.render(body, Seal(k, prev, body))
  }

  function Written(k: Scheme, fs: Files, prev: string, body: Body): Files {
    fs[0 := TextOf(fs) + Payload(TextOf(fs), Line(k, prev, body))]
  }

  // ----- Rotation -----

  /** Every archive moves up one place; the fifth is overwritten, unless there is a gap below it;
      the live log becomes the first. */
  function Shifted(fs: Files): Files
    requires 0 in fs
  {
    map i: nat | i in Targets(fs) :: if 1 <= i <= MAX_ARCHIVES && i - 1 in fs then fs[i - 1] else fs[i]
  }

  /** The places that are occupied after a shift. */
  function Targets(fs: Files): set<nat> {
    (set i | i in fs && i >= MAX_ARCHIVES) + (set i | i in fs && i < MAX_ARCHIVES :: i + 1)
  }

  /** What a shift leaves in one place. */
  lemma ShiftedAt(fs: Files, i: nat)
    requires 0 in fs
    ensures i in Shifted(fs) <==> if 1 <= i < MAX_ARCHIVES then i - 1 in fs
                                  else if i == MAX_ARCHIVES then i in fs || i - 1 in fs
                                  else i != 0 && i in fs
    ensures i in Shifted(fs) ==>
              Shifted(fs)[i] == if 1 <= i <= MAX_ARCHIVES && i - 1 in fs then fs[i - 1] else fs[i]
  {
    var low := set i | i in fs && i < MAX_ARCHIVES :: i + 1;
    if i > 0 && i - 1 in fs && i - 1 < MAX_ARCHIVES {
      assert i - 1 + 1 in low;
    }
  }

  lemma SameFiles(fs: Files, gs: Files)
    requires forall i: nat :: (i in fs <==> i in gs) && (i in fs ==> fs[i] == gs[i])
    ensures fs == gs
  {
    assert fs.Keys == gs.Keys;
  }

  function Anchor(tail: string, rest: string): Body {
    Body(LOG_ROTATED, Some(tail), rest)
  }

  function MaybeRotated(k: Scheme, fs: Files, tail: string, rest: string, maxBytes: int): Files {
    if 0 !in fs || |fs[0]| < maxBytes then fs
    else Written(k, Shifted(fs), GENESIS, Anchor(tail, rest))
  }

  /** One `log` call, under the lock: resume from the tail on disk, write, rotate if too big. */
  function Logged(k: Scheme, fs: Files, c: Call): Files {
    var prev := Resume(k, fs);
    MaybeRotated(k, Written(k, fs, prev, c.body), Seal(k, prev, c.body), c.anchorRest, c.maxBytes)
  }

  /** A record that carries no HMAC to resume from, but does not end the search either. */
  predicate IsSkipped(r: Record) {
    r.Blank? || r.Malformed? || (r.Entry? && (r.hmac.None? || |r.hmac.value| != 64))
  }

  /** The tail, exactly: the HMAC of the last record with one of full length, unless a line that is JSON
      but no object comes after it, or there is none; then the genesis. */
  lemma {:induction false} TailIsLastUsable(rs: seq<Record>, i: nat)
    requires i <= |rs| && forall j :: i <= j < |rs| ==> IsSkipped(rs[j])
    requires i > 0 ==> !IsSkipped(rs[i - 1])
    ensures ReadTail(rs) == if i > 0 && rs[i - 1].Entry? then rs[i - 1].hmac.value else GENESIS
  {
    if i < |rs| {
      TailIsLastUsable(rs[..|rs| - 1], i);
    }
  }

  /** Rotation happens at the size threshold and not before: the log just written becomes the first
      archive, and the new live log is one anchor to it. */
  lemma RotatesAtThreshold(k: Scheme, fs: Files, c: Call)
    ensures var prev := Resume(k, fs);
            var text := TextOf(fs) + Payload(TextOf(fs), Line(k, prev, c.body));
            && (|text| < c.maxBytes ==> Logged(k, fs, c) == fs[0 := text])
            && (|text| >= c.maxBytes ==>
                  && 0 in Logged(k, fs, c) && 1 in Logged(k, fs, c) && Logged(k, fs, c)[1] == text
                  && Logged(k, fs, c)[0] == Payload("", Line(k, GENESIS, Anchor(Seal(k, prev, c.body), c.anchorRest))))
  {
    var prev := Resume(k, fs);
    var written := Written(k, fs, prev, c.body);
    hide Payload, Resume, Line, Seal, Shifted;
    ShiftedAt(written, 0);
    ShiftedAt(written, 1);
    var anchor := Line(k, GENESIS, Anchor(Seal(k, prev, c.body), c.anchorRest));
    assert "" + Payload("", anchor) == Payload("", anchor);
  }

  // ----- The files `verify_chain_across_archives` walks -----

  /** Archive `i` down to the live log, those that exist. */
  function Found(fs: Files, i: nat): seq<string> {
    (if i in fs then [fs[i]] else []) + (if i == 0 then [] else Found(fs, i - 1))
  }

  function OldestFirst(fs: Files): seq<string> {
    Found(fs, MAX_ARCHIVES)
  }

  lemma FoundStep(fs: Files, i: nat, before: seq<string>)
    ensures before + Found(fs, i)
         == (if i in fs then before + [fs[i]] else before) + (if i == 0 then [] else Found(fs, i - 1))
  {
    if i in fs {
      assert before + ([fs[i]] + (if i == 0 then [] else Found(fs, i - 1)))
          == before + [fs[i]] + (if i == 0 then [] else Found(fs, i - 1));
    }
  }

  class Disk {
    var files: Files

    constructor ()
      ensures files == map[]
    {
      files := map[];
    }
  }

  /** One instance; several may share a disk, each with its own idea of the tail. */
  class AuditLog {
    const scheme: Scheme
    const disk: Disk
    const maxBytes: int
    var lastHmac: string

    constructor (scheme: Scheme, disk: Disk, maxBytes: int)
      ensures this.scheme == scheme && this.disk == disk && lastHmac == Resume(scheme, disk.files)
      ensures this.maxBytes == if maxBytes < 1024 then 1024 else maxBytes
    {
      this.scheme, this.disk := scheme, disk;
      this.maxBytes := if maxBytes < 1024 then 1024 else maxBytes;
      lastHmac := GENESIS;
      new;
      lastHmac := ReadLastHmac();
    }

    method ReadLastHmac() returns (hmac: string)
      ensures hmac == Resume(scheme, disk.files)
    {
      if 0 !in disk.files {
        assert Records(scheme, "") == ParseAll(scheme, [""]);
        assert ReadTail(Records(scheme, "")) == Resume(scheme, disk.files);
        var none := Records(scheme, "");
        hmac := TailByWalkingBack(none);
        return;
      }
      var records := Records(scheme, disk.files[0]);
      hmac := TailByWalkingBack(records);
    }

    /** Walks back over the lines until one carries a usable HMAC. */
    static method TailByWalkingBack(records: seq<Record>) returns (hmac: string)
      ensures hmac == ReadTail(records)
    {
      var i := |records|;
      assert records[..i] == records;
      while i > 0
        invariant 0 <= i <= |records| && ReadTail(records[..i]) == ReadTail(records)
      {
        i := i - 1;
        assert records[..i + 1][..i] == records[..i];
        match records[i] {
          case NonObject => return GENESIS;
          case Entry(_, h) =>
            if h.Some? && |h.value| == 64 {
              return h.value;
            }
          case _ =>
        }
      }
      return GENESIS;
    }

    method WriteEntry(body: Body)
      modifies this, disk
      ensures disk.files == Written(scheme, old(disk.files), old(lastHmac), body)
      ensures lastHmac == Seal(scheme, old(lastHmac), body)
    {
      var hmac := scheme.mac(lastHmac + scheme.canon(body));
      var line := scheme.render(body, hmac);
      var text := if 0 in disk.files then disk.files[0] else "";
      var needsNewline := text != "" && text[|text| - 1] != '\n';
      disk.files := disk.files[0 := text + ((if needsNewline then "\n" else "") + line + "\n")];
      lastHmac := hmac;
    }

    /** Renames the archives upwards, from the oldest down, then the live log to the first. */
    method Shift()
      requires 0 in disk.files
      modifies disk
      ensures disk.files == Shifted(old(disk.files))
    {
      hide Shifted, Targets;
      var fs := disk.files;
      forall j: nat | j > MAX_ARCHIVES
        ensures (j in Shifted(fs) <==> j in fs) && (j in fs ==> Shifted(fs)[j] == fs[j])
      {
        ShiftedAt(fs, j);
      }
      var i: nat := MAX_ARCHIVES - 1;
      var now: Files := fs;
      while i >= 1
        invariant 0 <= i < MAX_ARCHIVES && 0 in now
        invariant forall j: nat :: j <= i ==> (j in now <==> j in fs) && (j in fs ==> now[j] == fs[j])
        invariant forall j: nat :: i + 1 < j ==>
                    (j in now <==> j in Shifted(fs)) && (j in now ==> now[j] == Shifted(fs)[j])
        invariant i + 1 in now ==> i + 1 == MAX_ARCHIVES && i + 1 in fs && now[i + 1] == fs[i + 1]
        invariant i + 1 == MAX_ARCHIVES && i + 1 in fs ==> i + 1 in now
      {
        if i in now {
          now := now[i + 1 := now[i]] - {i};
        }
        ShiftedAt(fs, i + 1);
        i := i - 1;
      }
      now := now[1 := now[0]] - {0};
      ShiftedAt(fs, 0);
      ShiftedAt(fs, 1);
      assert forall j: nat :: (j in now <==> j in Shifted(fs)) && (j in now ==> now[j] == Shifted(fs)[j]);
      SameFiles(now, Shifted(fs));
      disk.files := now;
    }

    method MaybeRotate(anchorRest: string)
      modifies this, disk
      ensures disk.files == MaybeRotated(scheme, old(disk.files), old(lastHmac), anchorRest, maxBytes)
    {
      if 0 !in disk.files || |disk.files[0]| < maxBytes {
        return;
      }
      var oldTail := lastHmac;
      Shift();
      lastHmac := GENESIS;
      WriteEntry(Body(LOG_ROTATED, Some(oldTail), anchorRest));
    }

    /** Appends one event. The instance's own `lastHmac` plays no part: the tail is read again. */
    method Log(body: Body, anchorRest: string)
      modifies this, disk
      ensures disk.files == Logged(scheme, old(disk.files), Call(body, anchorRest, maxBytes))
    {
      lastHmac := ReadLastHmac();
      WriteEntry(body);
      MaybeRotate(anchorRest);
    }

    /** Verifies the live log: validity, entries checked, first bad line. */
    method Verify() returns (valid: bool, checked: nat, firstBad: Option<nat>)
      ensures 0 !in disk.files ==> (valid, checked, firstBad) == (true, 0, None)
      ensures 0 in disk.files ==>
                var v := VerifyFrom(scheme, Records(scheme, disk.files[0]), GENESIS, 0);
                (valid, checked, firstBad) == (v.valid, v.checked, v.firstBad)
    {
      if 0 !in disk.files {
        return true, 0, None;
      }
      var records := Records(scheme, disk.files[0]);
      var prev := GENESIS;
      checked := 0;
      for i := 0 to |records|
        invariant checked == i
        invariant VerifyFrom(scheme, records, GENESIS, 0) == VerifyFrom(scheme, records[i..], prev, i)
      {
        checked := checked + 1;
        if !records[i].Entry? {
          return false, checked, Some(checked);
        }
        var stored := if records[i].hmac.Some? then records[i].hmac.value else "";
        if stored != scheme.mac(prev + scheme.canon(records[i].body)) {
          return false, checked, Some(checked);
        }
        prev := stored;
        assert records[i..][1..] == records[i + 1..];
      }
      return true, checked, None;
    }

    /** Verifies one file: sealed from the genesis, and anchored if an anchor is due. */
    method CheckFile(records: seq<Record>, due: Option<string>, before: nat)
      returns (valid: bool, total: nat, tail: string)
      ensures var v := VerifyFile(scheme, records, due, before);
              && valid == v.valid && total == v.checked
              && (valid ==> tail == v.tail) && (!valid ==> v.firstBad == Some(total))
    {
      tail, total := GENESIS, before;
      var firstEntry := true;
      for i := 0 to |records|
        invariant total == before + i && firstEntry == (i == 0)
        invariant i > 0 && due.Some? ==> IsAnchor(records[0], due.value)
        invariant VerifyFrom(scheme, records, GENESIS, before) == VerifyFrom(scheme, records[i..], tail, total)
      {
        total := total + 1;
        if !records[i].Entry? || HmacOf(records[i]) != scheme.mac(tail + scheme.canon(records[i].body)) {
          return false, total, tail;
        }
        if firstEntry && due.Some? {
          if records[i].body.event != LOG_ROTATED || records[i].body.anchor != due {
            return false, total, tail;
          }
        }
        firstEntry := false;
        tail := HmacOf(records[i]);
        assert records[i..][1..] == records[i + 1..];
      }
      return true, total, tail;
    }

    /** The files there are, oldest first. */
    method ListFiles() returns (files: seq<string>)
      ensures files == OldestFirst(disk.files)
    {
      files := [];
      var fs := disk.files;
      assert files + Found(fs, MAX_ARCHIVES) == OldestFirst(fs);
      hide Found, OldestFirst;
      for i := MAX_ARCHIVES + 1 downto 1
        invariant files + Found(fs, i - 1) == OldestFirst(fs)
      {
        FoundStep(fs, i, files);
        if i in fs {
          files := files + [fs[i]];
        }
      }
      FoundStep(fs, 0, files);
      if 0 in fs {
        files := files + [fs[0]];
      }
    }

    /** Verifies every archive, oldest first, then the live log, each anchored to the one before. */
    method VerifyChainAcrossArchives() returns (valid: bool, total: nat, firstBad: Option<nat>)
      ensures var v := VerifyFiles(scheme, Parsed(scheme, OldestFirst(disk.files)));
              (valid, total, firstBad) == (v.valid, v.checked, v.firstBad)
    {
      var files := ListFiles();
      ghost var log := Parsed(scheme, files);
      VerdictSteps(scheme, log);
      hide VerdictAfter, VerifyFiles, VerifyFile, Parsed, Records;
      var tail: Option<string> := None;
      total := 0;
      for i := 0 to |files|
        invariant VerdictAfter(scheme, log, i).valid && VerdictAfter(scheme, log, i).checked == total
        invariant tail == if i == 0 then None else Some(VerdictAfter(scheme, log, i).tail)
        invariant VerdictAfter(scheme, log, i).firstBad == None
      {
        var fileTail;
        ghost var before := total;
        valid, total, fileTail := CheckFile(Records(scheme, files[i]), tail, total);
        if !valid {
          InvalidPrefix(scheme, log, i + 1);
          return false, total, Some(total);
        }
        ValidHasNoBadLine(scheme, log[i], tail, before);
        tail := Some(fileTail);
      }
      return true, total, None;
    }
  }
}
