/** Single-use invites: a ledger that forgets, and tokens that expire. */
module Invites {
  import opened Graph

  const INVITE_CLOCK_SKEW := 30
  const LEDGER_RETENTION_AFTER_EXPIRY := 3600

  type Nonce = string

  /** `genuine` says whether the signature verifies. */
  datatype Token = Token(nonce: Nonce, inviterKey: string, expiresAt: int, genuine: bool)

  datatype Spent = Spent(spentAt: int, expiresAt: int)

  type Entries = map<Nonce, Spent>

  predicate IsExpired(t: Token, now: int) {
    now > t.expiresAt + INVITE_CLOCK_SKEW
  }

  function Pruned(m: Entries, now: int): Entries {
    map n | n in m && m[n].expiresAt >= now - LEDGER_RETENTION_AFTER_EXPIRY :: m[n]
  }

  function Marked(m: Entries, t: Token, now: int): Entries {
    Pruned(m[t.nonce := Spent(now, t.expiresAt)], now)
  }

  // ----- The ledger -----

  class LedgerFile {
    var entries: Entries

    constructor ()
      ensures entries == map[]
    {
      entries := map[];
    }
  }

  class InviteLedger {
    const file: LedgerFile
    var spent: Entries

    /** Loads the file, and prunes what it loaded; the file keeps the pruned entries. */
    constructor (file: LedgerFile, now: int)
      ensures this.file == file && spent == Pruned(file.entries, now)
    {
      this.file := file;
      spent := file.entries;
      new;
      Prune(now);
    }

    method Prune(now: int)
      modifies this
      ensures spent == Pruned(old(spent), now)
    {
      var cutoff := now - LEDGER_RETENTION_AFTER_EXPIRY;
      spent := map n | n in spent && spent[n].expiresAt >= cutoff :: spent[n];
    }

    method IsSpent(nonce: Nonce) returns (r: bool)
      ensures r == (nonce in spent)
    {
      r := nonce in spent;
    }

    /** Records the nonce, prunes, and replaces the file; `saved` says whether that succeeded. */
    method MarkSpent(t: Token, now: int, diskOk: bool) returns (saved: bool)
      modifies this, file
      ensures spent == Marked(old(spent), t, now) && saved == diskOk
      ensures file.entries == if diskOk then spent else old(file.entries)
    {
      spent := spent[t.nonce := Spent(now, t.expiresAt)];
      Prune(now);
      if diskOk {
        file.entries := spent;
      }
      saved := diskOk;
    }

    /** The inviter's side of a join with a token: validate, check, mark, pin. */
    method Redeem(ourKey: string, p: Presented) returns (accepted: bool)
      modifies this, file
      ensures State(spent, file.entries) == Apply(ourKey, old(State(spent, file.entries)), Present(p))
      ensures accepted == Accepts(ourKey, old(State(spent, file.entries)), p)
      ensures accepted <==>
                && p.token.inviterKey == ourKey && p.token.genuine && p.checkedAt <= p.token.expiresAt + 30
                && p.token.nonce !in old(spent) && p.newPeer && p.diskOk && p.pinOk
    {
      if p.token.inviterKey != ourKey || !p.token.genuine || IsExpired(p.token, p.checkedAt) {
        return false;
      }
      var known := IsSpent(p.token.nonce);
      if known || !p.newPeer {
        return false;
      }
      var saved := MarkSpent(p.token, p.markedAt, p.diskOk);
      return saved && p.pinOk;
    }
  }

  // ----- Runs -----

  /** One presentation: the clock when the token is checked and when it is marked, whether the peer is
      new to the trust store, whether the ledger reaches the disk, and whether the pin does. */
  datatype Presented = Presented(token: Token, checkedAt: int, markedAt: int, newPeer: bool, diskOk: bool, pinOk: bool)

  /** The daemon may restart at any time, forgetting what is only in memory. */
  datatype Event = Present(p: Presented) | Restart(now: int)

  datatype State = State(spent: Entries, disk: Entries)

  predicate Marks(ourKey: string, st: State, p: Presented) {
    && p.token.inviterKey == ourKey && p.token.genuine && !IsExpired(p.token, p.checkedAt)
    && p.token.nonce !in st.spent && p.newPeer
  }

  predicate Accepts(ourKey: string, st: State, p: Presented) {
    Marks(ourKey, st, p) && p.diskOk && p.pinOk
  }

  function Apply(ourKey: string, st: State, e: Event): State {
    match e
    case Restart(now) => State(Pruned(st.disk, now), st.disk)
    case Present(p) =>
      if Marks(ourKey, st, p) then
        var spent := Marked(st.spent, p.token, p.markedAt);
        State(spent, if p.diskOk then spent else st.disk)
      else st
  }

  type Log = seq<Event>

  function Replay(ourKey: string, log: Log): State {
    if log == [] then State(map[], map[]) else Apply(ourKey, Replay(ourKey, log[..|log| - 1]), log[|log| - 1])
  }

  function Started(e: Event): int {
    match e case Present(p) => p.checkedAt case Restart(now) => now
  }

  function Ended(e: Event): int {
    match e case Present(p) => p.markedAt case Restart(now) => now
  }

  /** The clock never runs backwards. */
  ghost predicate Nondecreasing(log: Log) {
    && (forall i :: 0 <= i < |log| ==> Started(log[i]) <= Ended(log[i]))
    && (forall i, j :: 0 <= i < j < |log| ==> Ended(log[i]) <= Started(log[j]))
  }

  predicate AcceptedAt(ourKey: string, log: Log, i: nat)
    requires i < |log|
  {
    log[i].Present? && Accepts(ourKey, Replay(ourKey, log[..i]), log[i].p)
  }

  // ----- What the ledger remembers -----

  /** The nonce of a token that expires at `expiresAt` is on record, or was only dropped once the token
      had expired for good. */
  predicate Remembers(m: Entries, nonce: Nonce, expiresAt: int, now: int) {
    if nonce in m then m[nonce].expiresAt >= expiresAt else now > expiresAt + LEDGER_RETENTION_AFTER_EXPIRY
  }

  lemma PruneRemembers(m: Entries, nonce: Nonce, expiresAt: int, was: int, now: int)
    requires Remembers(m, nonce, expiresAt, was) && was <= now
    ensures Remembers(Pruned(m, now), nonce, expiresAt, now)
  {
  }

  lemma StepRemembers(ourKey: string, st: State, e: Event, nonce: Nonce, expiresAt: int, was: int)
    requires Remembers(st.spent, nonce, expiresAt, was) && Remembers(st.disk, nonce, expiresAt, was)
    requires was <= Started(e) <= Ended(e)
    ensures var st' := Apply(ourKey, st, e);
            Remembers(st'.spent, nonce, expiresAt, Ended(e)) && Remembers(st'.disk, nonce, expiresAt, Ended(e))
  {
    match e {
      case Restart(now) => PruneRemembers(st.disk, nonce, expiresAt, was, now);
      case Present(p) =>
        if Marks(ourKey, st, p) {
          var m := st.spent[p.token.nonce := Spent(p.markedAt, p.token.expiresAt)];
          assert Remembers(m, nonce, expiresAt, p.checkedAt);
          PruneRemembers(m, nonce, expiresAt, p.checkedAt, p.markedAt);
        }
    }
  }

  /** After an acceptance, the nonce is remembered at every later point of the run, in memory and on
      disk. */
  lemma {:induction false} AcceptedIsRemembered(ourKey: string, log: Log, i: nat)
    requires Nondecreasing(log) && i < |log| && AcceptedAt(ourKey, log, i)
    ensures var t := log[i].p.token;
            var st := Replay(ourKey, log);
            Remembers(st.spent, t.nonce, t.expiresAt, Ended(log[|log| - 1]))
            && Remembers(st.disk, t.nonce, t.expiresAt, Ended(log[|log| - 1]))
  {
    var before, e := log[..|log| - 1], log[|log| - 1];
    var t := log[i].p.token;
    if i < |before| {
      assert before[..i] == log[..i];
      AcceptedIsRemembered(ourKey, before, i);
      StepRemembers(ourKey, Replay(ourKey, before), e, t.nonce, t.expiresAt, Ended(before[|before| - 1]));
    }
  }

  /** If two tokens with one nonce are both accepted, the second expires more than the retention, less
      the skew, after the first. */
  lemma AcceptedTwiceNeedsLaterExpiry(ourKey: string, log: Log, i: nat, j: nat)
    requires Nondecreasing(log) && i < j < |log| && AcceptedAt(ourKey, log, i) && AcceptedAt(ourKey, log, j)
    requires log[i].p.token.nonce == log[j].p.token.nonce
    ensures log[j].p.token.expiresAt > log[i].p.token.expiresAt + LEDGER_RETENTION_AFTER_EXPIRY - INVITE_CLOCK_SKEW
  {
    var before := log[..j];
    assert before[..i] == log[..i];
    AcceptedIsRemembered(ourKey, before, i);
  }

  /** Some run accepts `t` and then `u`. */
  ghost predicate BothAccepted(ourKey: string, t: Token, u: Token) {
    exists log: Log, i: nat, j: nat ::
      && Nondecreasing(log) && i < j < |log| && AcceptedAt(ourKey, log, i) && AcceptedAt(ourKey, log, j)
      && log[i].p.token == t && log[j].p.token == u
  }

  lemma LaterExpiryIsAcceptedTwice(ourKey: string, t: Token, u: Token)
    requires t.inviterKey == u.inviterKey == ourKey && t.genuine && u.genuine && t.nonce == u.nonce
    requires u.expiresAt > t.expiresAt + LEDGER_RETENTION_AFTER_EXPIRY - INVITE_CLOCK_SKEW
    ensures BothAccepted(ourKey, t, u)
  {
    var last := u.expiresAt + INVITE_CLOCK_SKEW;
    var e0 := Present(Presented(t, t.expiresAt, t.expiresAt, true, true, true));
    var e1 := Restart(last);
    var e2 := Present(Presented(u, last, last, true, true, true));
    var log := [e0, e1, e2];
    assert log[..0] == [] && log[..1] == [e0] && log[..2] == [e0, e1];
    assert [e0][..0] == [] && [e0, e1][..1] == [e0];
    assert AcceptedAt(ourKey, log, 0);
    assert t.nonce !in Replay(ourKey, log[..2]).spent;
    assert AcceptedAt(ourKey, log, 2);
  }

  /** Single use, exactly: for tokens this node issued with one nonce, some run accepts both if and only
      if the second outlives the first by more than the retention less the skew. */
  lemma DoubleUseExactly(ourKey: string, t: Token, u: Token)
    requires t.inviterKey == u.inviterKey == ourKey && t.genuine && u.genuine && t.nonce == u.nonce
    ensures BothAccepted(ourKey, t, u)
       <==> u.expiresAt > t.expiresAt + 3570
  {
    if BothAccepted(ourKey, t, u) {
      var log: Log, i: nat, j: nat :|
        && Nondecreasing(log) && i < j < |log| && AcceptedAt(ourKey, log, i) && AcceptedAt(ourKey, log, j)
        && log[i].p.token == t && log[j].p.token == u;
      AcceptedTwiceNeedsLaterExpiry(ourKey, log, i, j);
    } else if u.expiresAt > t.expiresAt + LEDGER_RETENTION_AFTER_EXPIRY - INVITE_CLOCK_SKEW {
      LaterExpiryIsAcceptedTwice(ourKey, t, u);
    }
  }

  /** Genuine tokens of this node with one nonce are one token: it draws a new nonce for every invite,
      and nobody else can sign for it. */
  ghost predicate NoncesAreUnique(ourKey: string, log: Log) {
    forall i: nat, j: nat | i < |log| && j < |log| && IsOurs(ourKey, log[i]) && IsOurs(ourKey, log[j]) ::
      log[i].p.token.nonce == log[j].p.token.nonce ==> log[i].p.token == log[j].p.token
  }

  predicate IsOurs(ourKey: string, e: Event) {
    e.Present? && e.p.token.inviterKey == ourKey && e.p.token.genuine
  }

  /** Single use: over any run with restarts, failed saves and failed pins, each nonce is accepted at
      most once. */
  lemma EachNonceIsAcceptedOnce(ourKey: string, log: Log, i: nat, j: nat)
    requires Nondecreasing(log) && NoncesAreUnique(ourKey, log) && i < j < |log|
    requires AcceptedAt(ourKey, log, i) && AcceptedAt(ourKey, log, j)
    ensures log[i].p.token.nonce != log[j].p.token.nonce
  {
    if log[i].p.token.nonce == log[j].p.token.nonce {
      AcceptedTwiceNeedsLaterExpiry(ourKey, log, i, j);
    }
  }

  // ----- And the ledger refuses nothing else -----

  /** Whether the run ever marked the nonce. */
  predicate EverMarked(ourKey: string, log: Log, nonce: Nonce) {
    if log == [] then false
    else
      var before, e := log[..|log| - 1], log[|log| - 1];
      EverMarked(ourKey, before, nonce)
      || (e.Present? && Marks(ourKey, Replay(ourKey, before), e.p) && e.p.token.nonce == nonce)
  }

  lemma {:induction false} OnlyMarkedAreSpent(ourKey: string, log: Log, nonce: Nonce)
    ensures nonce in Replay(ourKey, log).spent || nonce in Replay(ourKey, log).disk ==> EverMarked(ourKey, log, nonce)
  {
    if log != [] {
      OnlyMarkedAreSpent(ourKey, log[..|log| - 1], nonce);
    }
  }

  /** A genuine, unexpired token whose nonce was never marked is accepted from a new peer, unless the
      disk fails. */
  lemma UnusedInviteIsAccepted(ourKey: string, log: Log, p: Presented)
    requires p.token.inviterKey == ourKey && p.token.genuine && p.newPeer && p.diskOk && p.pinOk
    requires !EverMarked(ourKey, log, p.token.nonce)
    ensures Accepts(ourKey, Replay(ourKey, log), p) <==> p.checkedAt <= p.token.expiresAt + 30
  {
    OnlyMarkedAreSpent(ourKey, log, p.token.nonce);
  }

  /** A known peer does not use its invite up: showing it changes nothing, and whoever shows it next is
      judged as if it had never been shown. */
  lemma KnownPeerKeepsInvite(ourKey: string, log: Log, p: Presented, next: Presented)
    requires !p.newPeer
    ensures Replay(ourKey, log + [Present(p)]) == Replay(ourKey, log)
    ensures !Accepts(ourKey, Replay(ourKey, log), p)
    ensures Accepts(ourKey, Replay(ourKey, log + [Present(p)]), next) == Accepts(ourKey, Replay(ourKey, log), next)
  {
    assert (log + [Present(p)])[..|log|] == log;
  }

  /** Once a presentation has reached the mark, whether or not it was saved and the peer was pinned, no
      invite with the same nonce is taken again in that process, nor after a restart if it was saved,
      unless it outlives the first by more than the retention less the skew. */
  lemma BurnedInviteIsRefused(ourKey: string, log: Log, i: nat, j: nat)
    requires Nondecreasing(log) && i < j < |log| && log[i].Present? && log[j].Present?
    requires Marks(ourKey, Replay(ourKey, log[..i]), log[i].p)
    requires log[i].p.diskOk || forall k :: i < k < j ==> log[k].Present?
    requires log[i].p.token.nonce == log[j].p.token.nonce
    requires log[j].p.token.expiresAt
          <= log[i].p.token.expiresAt + 3570
    ensures !Marks(ourKey, Replay(ourKey, log[..j]), log[j].p)
    ensures Replay(ourKey, log[..j + 1]) == Replay(ourKey, log[..j])
  {
    var before := log[..j];
    assert before[..i] == log[..i] && log[..j + 1][..j] == before;
    MarkIsRemembered(ourKey, before, i);
  }

  lemma {:induction false} MarkIsRemembered(ourKey: string, log: Log, i: nat)
    requires Nondecreasing(log) && i < |log| && log[i].Present?
    requires Marks(ourKey, Replay(ourKey, log[..i]), log[i].p)
    requires log[i].p.diskOk || forall k :: i < k < |log| ==> log[k].Present?
    ensures var t, st, now := log[i].p.token, Replay(ourKey, log), Ended(log[|log| - 1]);
            && Remembers(st.spent, t.nonce, t.expiresAt, now)
            && (log[i].p.diskOk ==> Remembers(st.disk, t.nonce, t.expiresAt, now))
  {
    var before, e := log[..|log| - 1], log[|log| - 1];
    var t := log[i].p.token;
    if i < |before| {
      assert before[..i] == log[..i];
      MarkIsRemembered(ourKey, before, i);
      var st, was := Replay(ourKey, before), Ended(before[|before| - 1]);
      MemoryRemembers(ourKey, st, e, t.nonce, t.expiresAt, was);
      if log[i].p.diskOk {
        StepRemembers(ourKey, st, e, t.nonce, t.expiresAt, was);
      }
    }
  }

  lemma MemoryRemembers(ourKey: string, st: State, e: Event, nonce: Nonce, expiresAt: int, was: int)
    requires Remembers(st.spent, nonce, expiresAt, was) && was <= Started(e) <= Ended(e)
    ensures e.Present? ==> Remembers(Apply(ourKey, st, e).spent, nonce, expiresAt, Ended(e))
  {
    if e.Present? && Marks(ourKey, st, e.p) {
      var m := st.spent[e.p.token.nonce := Spent(e.p.markedAt, e.p.token.expiresAt)];
      PruneRemembers(m, nonce, expiresAt, e.p.checkedAt, e.p.markedAt);
    }
  }
}
