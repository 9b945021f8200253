/** The cache of executable verifications: eight entries, one hash at a time, a bounded number of bytes in
    each turn of the main loop. */
module Verification {
  import opened Sha256Standard
  import opened Wrappers

  const ENTRIES: nat := 8                          // MAX_EXE_CACHE
  const BYTES_PER_TICK: nat := 4 * 1024 * 1024     // HASH_BYTES_PER_TICK
  const START_INTERVAL: nat := 10000               // HASH_START_INTERVAL_MS
  const BLOCK: nat := 32768
  const UINT64_MAX: nat := 0xFFFF_FFFF_FFFF_FFFF

  datatype FileKey = FileKey(dev: nat, ino: nat, size: int, mtime: int, ctime: int)

  datatype VerifyState = Pending | Hashing | Exact | Mismatch | Unavailable

  /** `fed` is what the entry's Sha has been given (class Sha in module Sha256Stream), all of it bytes read
      from its descriptor; `checks` are the keys fstat gave for that descriptor since it was opened. */
  datatype Entry = Entry(
    key: FileKey, used: bool, state: VerifyState, pid: int, start: nat, fd: int,
    fed: seq<byte>, digest: seq<byte>, lastUsed: nat, lastAttempt: nat, checks: seq<FileKey>)

  /** What opening and checking a process's executable gave: the descriptor or -1, the key by fstat or none,
      the confirmed start time or none. */
  datatype Opening = Opening(fd: int, stat: Option<FileKey>, start: Option<nat>)

  /** A read that was not interrupted; no bytes is the end of the file. */
  datatype Read = Failed | Data(bytes: seq<byte>)

  function Unused(): Entry {
    Entry(FileKey(0, 0, 0, 0, 0), false, Pending, 0, 0, -1, [], [], 0, 0, [])
  }

  /** sha_init, sha_add and sha_end as one function of the bytes added (`Hash` in module Sha256Stream). */
  type Sha = seq<byte> -> seq<byte>

  function Digested(fed: seq<byte>): seq<byte> {
    DigestFor(fed, 8 * (|fed| % (UINT64_MAX + 1)) % (UINT64_MAX + 1))
  }

  lemma DigestedIsStandard(fed: seq<byte>)
    requires |fed| < 0x2000_0000_0000_0000
    ensures Digested(fed) == Digest(fed)
  {
    assert 8 * (|fed| % (UINT64_MAX + 1)) % (UINT64_MAX + 1) == 8 * |fed|;
  }

  predicate Busy(e: Entry) {
    e.used && e.state == Hashing
  }

  /** May give way to another file. */
  predicate Evictable(e: Entry) {
    e.used && e.state != Hashing && e.state != Exact && e.lastUsed < UINT64_MAX
  }

  ghost predicate EntryInv(e: Entry, sha: Sha, expected: seq<byte>, clock: nat) {
    && (e.fd >= 0 <==> Busy(e)) && e.lastUsed <= clock && e.lastAttempt <= clock
    && (!e.used ==> e.state == Pending)
    && (Busy(e) ==> e.checks == [e.key])
    && (e.state == Exact || e.state == Mismatch ==>
          e.checks == [e.key, e.key] && e.digest == sha(e.fed) && (e.state == Exact <==> e.digest == expected))
  }

  ghost predicate DistinctKeys(entries: seq<Entry>) {
    forall i, j | 0 <= i < j < |entries| && entries[i].used && entries[j].used :: entries[i].key != entries[j].key
  }

  ghost predicate OneBusy(entries: seq<Entry>) {
    forall i, j | 0 <= i < j < |entries| :: !(Busy(entries[i]) && Busy(entries[j]))
  }

  ghost predicate CacheInv(entries: seq<Entry>, sha: Sha, expected: seq<byte>, clock: nat) {
    && |entries| == ENTRIES && DistinctKeys(entries) && OneBusy(entries)
    && forall i | 0 <= i < ENTRIES :: EntryInv(entries[i], sha, expected, clock)
  }

  /** The descriptors open for hashing are exactly those of the busy entries. */
  ghost predicate OpenFor(entries: seq<Entry>, open: set<int>) {
    && (forall i | 0 <= i < |entries| && Busy(entries[i]) :: entries[i].fd in open)
    && (forall fd | fd in open :: exists i :: 0 <= i < |entries| && Busy(entries[i]) && entries[i].fd == fd)
  }

  /** An exact entry stays as it is, apart from who asked for it and when. */
  ghost predicate KeepsExact(before: seq<Entry>, after: seq<Entry>) {
    |before| == |after| &&
    forall i | 0 <= i < |before| && before[i].used && before[i].state == Exact ::
      after[i] == before[i].(pid := after[i].pid, start := after[i].start, lastUsed := after[i].lastUsed)
  }

  /** So does a busy one. */
  ghost predicate KeepsBusy(before: seq<Entry>, after: seq<Entry>) {
    |before| == |after| &&
    forall i | 0 <= i < |before| && Busy(before[i]) ::
      after[i] == before[i].(pid := after[i].pid, start := after[i].start, lastUsed := after[i].lastUsed)
  }

  /** The entry a request answers with. */
  predicate Requested(e: Entry, key: FileKey, pid: int, start: nat, now: nat) {
    e.used && e.key == key && e.pid == pid && e.start == start && e.lastUsed == now
  }

  /** A known file keeps its entry; one that was unavailable is tried again after the interval. */
  function Reused(e: Entry, pid: int, start: nat, now: nat): Entry
    requires e.lastAttempt <= now
  {
    e.(pid := pid, start := start, lastUsed := now,
       state := if e.state == Unavailable && now - e.lastAttempt >= START_INTERVAL then Pending else e.state)
  }

  /** The entry that gives way to a new file. */
  ghost predicate Victim(entries: seq<Entry>, at: nat) {
    && at < |entries|
    && (if entries[at].used then
          Evictable(entries[at]) &&
          forall i | 0 <= i < |entries| ::
            entries[i].used && (Evictable(entries[i]) ==> entries[at].lastUsed <= entries[i].lastUsed)
        else forall i | 0 <= i < at :: entries[i].used)
  }

  lemma OpenKept(entries: seq<Entry>, i: nat, e: Entry, open: set<int>)
    requires i < |entries| && OpenFor(entries, open) && Busy(e) == Busy(entries[i]) &&
             (Busy(e) ==> e.fd == entries[i].fd)
    ensures OpenFor(entries[i := e], open)
  {
    var after := entries[i := e];
    forall fd | fd in open
      ensures exists k :: 0 <= k < |after| && Busy(after[k]) && after[k].fd == fd
    {
      var k :| 0 <= k < |entries| && Busy(entries[k]) && entries[k].fd == fd;
      assert Busy(after[k]);
    }
  }

  /** One entry changes and nothing else. */
  lemma ReplaceKeeps(entries: seq<Entry>, i: nat, e: Entry, sha: Sha, expected: seq<byte>, clock: nat, now: nat)
    requires CacheInv(entries, sha, expected, clock) && i < ENTRIES && clock <= now && EntryInv(e, sha, expected, now)
    requires e.used ==> forall j | 0 <= j < ENTRIES && j != i && entries[j].used :: entries[j].key != e.key
    requires Busy(e) ==> forall j | 0 <= j < ENTRIES && j != i :: !Busy(entries[j])
    ensures CacheInv(entries[i := e], sha, expected, now)
  {
  }

  lemma OpenNew(entries: seq<Entry>, i: nat, e: Entry, open: set<int>)
    requires i < |entries| && OpenFor(entries, open) && Busy(e) && !Busy(entries[i])
    ensures OpenFor(entries[i := e], open + {e.fd})
  {
    var after := entries[i := e];
    forall fd | fd in open + {e.fd}
      ensures exists k :: 0 <= k < |after| && Busy(after[k]) && after[k].fd == fd
    {
      if fd == e.fd { assert Busy(after[i]); }
      else {
        var k :| 0 <= k < |entries| && Busy(entries[k]) && entries[k].fd == fd;
        assert Busy(after[k]);
      }
    }
  }

  lemma OpenClosed(entries: seq<Entry>, i: nat, e: Entry, open: set<int>)
    requires i < |entries| && OpenFor(entries, open) && OneBusy(entries) && Busy(entries[i]) && !Busy(e)
    ensures OpenFor(entries[i := e], open - {entries[i].fd}) && open - {entries[i].fd} == {}
  {
    forall fd | fd in open
      ensures fd == entries[i].fd
    {
      var k :| 0 <= k < |entries| && Busy(entries[k]) && entries[k].fd == fd;
      assert k == i;
    }
  }

  /** verification_name: what a report shows does not tell a pending entry from a busy one. */
  function Shown(state: VerifyState): VerifyState {
    if state == Hashing then Pending else state
  }

  /** One turn for the file being hashed: it is still being hashed with more bytes read, or it has become
      unavailable, or the file ended under an unchanged key and its digest decides. */
  ghost predicate Continues(e: Entry, e': Entry, final: Option<FileKey>, sha: Sha, expected: seq<byte>) {
    && e.fed <= e'.fed && |e'.fed| <= |e.fed| + BYTES_PER_TICK
    && match e'.state
       case Pending => false
       case Hashing => e' == e.(fed := e'.fed)
       case Unavailable => e' == e.(fed := e'.fed, fd := -1, state := Unavailable)
       case _ =>
         && final == Some(e.key) && (e'.state == Exact <==> e'.digest == expected)
         && e' == e.(fed := e'.fed, fd := -1, state := e'.state, digest := sha(e'.fed), checks := e.checks + [e.key])
  }

  lemma ContinuesFrom(e0: Entry, e: Entry, e': Entry, final: Option<FileKey>, sha: Sha, expected: seq<byte>)
    requires e == e0.(fed := e.fed) && e0.fed <= e.fed && |e.fed| <= |e0.fed| + BYTES_PER_TICK
    requires Continues(e, e', final, sha, expected) && e'.fed == e.fed
    ensures Continues(e0, e', final, sha, expected)
  {
  }

  ghost predicate Differs(before: seq<Entry>, after: seq<Entry>) {
    |before| == |after| && exists i :: 0 <= i < |before| && Shown(before[i].state) != Shown(after[i].state)
  }

  class Cache {
    const entries: array<Entry>
    const expected: seq<byte>    // EXPECTED_MPC_SHA
    const sha: Sha
    var nextStart: nat
    var started: nat             // hashes_started, saturating
    ghost var open: set<int>
    ghost var clock: nat

    constructor (sha: Sha, expected: seq<byte>)
      ensures Valid() && fresh(entries) && open == {} && nextStart == clock == 0 && this.expected == expected &&
              this.sha == sha
    {
      entries := new Entry[ENTRIES](_ => Unused());
      this.sha, this.expected := sha, expected;
      nextStart, started, open, clock := 0, 0, {}, 0;
    }

    ghost predicate Valid()
      reads this, entries
    {
      entries.Length == ENTRIES && CacheInv(entries[..], sha, expected, clock) && OpenFor(entries[..], open)
    }

    /** verification_find */
    method Find(key: FileKey) returns (found: Option<nat>)
      requires entries.Length == ENTRIES
      ensures found.Some? ==> found.value < ENTRIES && entries[found.value].used && entries[found.value].key == key
      ensures found.None? ==> forall i | 0 <= i < ENTRIES :: !(entries[i].used && entries[i].key == key)
    {
      var i := 0;
      while i < ENTRIES
        invariant 0 <= i <= ENTRIES && forall j | 0 <= j < i :: !(entries[j].used && entries[j].key == key)
      {
        if entries[i].used && entries[i].key == key { return Some(i); }
        i := i + 1;
      }
      found := None;
    }

    /** The choice of a slot: the first unused one, or else the least recently used that may be evicted. */
    method Vacate() returns (slot: Option<nat>)
      requires entries.Length == ENTRIES
      ensures slot.Some? ==> Victim(entries[..], slot.value)
      ensures slot.None? ==> forall i | 0 <= i < ENTRIES :: entries[i].used && !Evictable(entries[i])
    {
      slot := None;
      var oldest, i := UINT64_MAX, 0;
      while i < ENTRIES
        invariant 0 <= i <= ENTRIES && forall j | 0 <= j < i :: entries[j].used
        invariant slot.None? ==> oldest == UINT64_MAX && forall j | 0 <= j < i :: !Evictable(entries[j])
        invariant slot.Some? ==>
                    slot.value < i && Evictable(entries[slot.value]) && oldest == entries[slot.value].lastUsed
        invariant slot.Some? ==> forall j | 0 <= j < i && Evictable(entries[j]) :: oldest <= entries[j].lastUsed
      {
        if !entries[i].used { return Some(i); }
        if entries[i].state != Hashing && entries[i].state != Exact && entries[i].lastUsed < oldest {
          oldest, slot := entries[i].lastUsed, Some(i);
        }
        i := i + 1;
      }
    }

    /** verification_request */
    method Request(key: FileKey, pid: int, start: nat, now: nat) returns (at: Option<nat>)
      requires Valid() && clock <= now <= UINT64_MAX
      modifies this`clock, entries
      ensures Valid() && clock == now
      ensures KeepsExact(old(entries[..]), entries[..]) && KeepsBusy(old(entries[..]), entries[..])
      ensures at.Some? ==> at.value < ENTRIES && Requested(entries[at.value], key, pid, start, now)
      ensures forall i | 0 <= i < ENTRIES && at != Some(i) :: entries[i] == old(entries[i])
      ensures at.None? ==>
                forall i | 0 <= i < ENTRIES :: entries[i].used && entries[i].key != key && !Evictable(entries[i])
      ensures forall i | 0 <= i < ENTRIES && old(entries[i].used) && old(entries[i].key) == key ::
                at == Some(i) && entries[i] == Reused(old(entries[i]), pid, start, now)
      ensures (forall i | 0 <= i < ENTRIES :: !(old(entries[i].used) && old(entries[i].key) == key)) && at.Some? ==>
                Victim(old(entries[..]), at.value)
    {
      at := Find(key);
      clock := now;
      if at.Some? {
        var i := at.value;
        Put(i, Reused(entries[i], pid, start, now), old(clock));
        return;
      }
      at := Vacate();
      if at.Some? {
        var e := Entry(key, true, Pending, pid, start, -1, [], [], now, 0, []);
        Put(at.value, e, old(clock));
      }
    }

    /** An entry that is not busy, or stays busy with the same descriptor, is rewritten. */
    method Put(i: nat, e: Entry, ghost before: nat)
      requires i < ENTRIES && entries.Length == ENTRIES && CacheInv(entries[..], sha, expected, before) &&
               before <= clock
      requires OpenFor(entries[..], open) && EntryInv(e, sha, expected, clock)
      requires e.used ==> forall j | 0 <= j < ENTRIES && j != i && entries[j].used :: entries[j].key != e.key
      requires Busy(e) == Busy(entries[i]) && (Busy(e) ==> e.fd == entries[i].fd)
      modifies entries
      ensures Valid() && entries[..] == old(entries[..])[i := e]
    {
      ReplaceKeeps(entries[..], i, e, sha, expected, before, clock);
      OpenKept(entries[..], i, e, open);
      entries[i] := e;
      assert entries[..] == old(entries[..])[i := e];
    }

    /** The entry being hashed. */
    method Active() returns (at: Option<nat>)
      requires entries.Length == ENTRIES
      ensures at.Some? ==> at.value < ENTRIES && Busy(entries[at.value])
      ensures at.None? ==> forall i | 0 <= i < ENTRIES :: !Busy(entries[i])
    {
      var i := 0;
      while i < ENTRIES
        invariant 0 <= i <= ENTRIES && forall j | 0 <= j < i :: !Busy(entries[j])
      {
        if entries[i].used && entries[i].state == Hashing { return Some(i); }
        i := i + 1;
      }
      at := None;
    }

    /** The pending entry used last; the later one of equals. */
    method Newest() returns (at: Option<nat>)
      requires entries.Length == ENTRIES
      ensures at.Some? ==> at.value < ENTRIES && entries[at.value].used && entries[at.value].state == Pending
      ensures at.Some? ==> forall i | 0 <= i < ENTRIES && entries[i].used && entries[i].state == Pending ::
                entries[i].lastUsed < entries[at.value].lastUsed ||
                (entries[i].lastUsed == entries[at.value].lastUsed && i <= at.value)
      ensures at.None? ==> forall i | 0 <= i < ENTRIES :: !(entries[i].used && entries[i].state == Pending)
    {
      at := None;
      var newest, i := 0, 0;
      while i < ENTRIES
        invariant 0 <= i <= ENTRIES
        invariant at.Some? ==> at.value < i && entries[at.value].used && entries[at.value].state == Pending
        invariant at.Some? ==> newest == entries[at.value].lastUsed
        invariant at.Some? ==> forall j | 0 <= j < i && entries[j].used && entries[j].state == Pending ::
                    entries[j].lastUsed < newest || (entries[j].lastUsed == newest && j <= at.value)
        invariant at.None? ==> forall j | 0 <= j < i :: !(entries[j].used && entries[j].state == Pending)
      {
        if entries[i].used && entries[i].state == Pending && (at.None? || entries[i].lastUsed >= newest) {
          at, newest := Some(i), entries[i].lastUsed;
        }
        i := i + 1;
      }
    }

    /** Opening the executable and checking that it is still the file and the process that were asked about. */
    method Start(at: nat, now: nat, opening: Opening) returns (ok: bool)
      requires Valid() && at < ENTRIES && entries[at].used && entries[at].state == Pending && clock == now
      requires forall i | 0 <= i < ENTRIES :: !Busy(entries[i])
      requires opening.fd >= 0 ==> opening.fd !in open
      modifies this`open, this`nextStart, this`started, entries
      ensures Valid()
      ensures ok <==>
              opening.fd >= 0 && opening.stat == Some(old(entries[at]).key) &&
              opening.start == Some(old(entries[at]).start)
      ensures var e := old(entries[at]).(lastAttempt := now);
              entries[..] == old(entries[..])[at :=
                if ok then e.(fd := opening.fd, state := Hashing, fed := [], checks := [e.key])
                else e.(fd := -1, state := Unavailable)]
      ensures open == if ok then {opening.fd} else {}
      ensures nextStart == if ok then now + START_INTERVAL else old(nextStart)
      ensures started == if ok && old(started) < UINT64_MAX then old(started) + 1 else old(started)
    {
      var e := entries[at].(lastAttempt := now, fd := opening.fd);
      if e.fd < 0 || opening.stat != Some(e.key) || opening.start != Some(e.start) {
        NothingOpen();
        Put(at, e.(fd := -1, state := Unavailable), clock);
        return false;
      }
      NothingOpen();
      e := e.(fed := [], state := Hashing, checks := [e.key]);
      ReplaceKeeps(entries[..], at, e, sha, expected, clock, clock);
      OpenNew(entries[..], at, e, open);
      entries[at] := e;
      open := open + {e.fd};
      if started < UINT64_MAX { started := started + 1; }
      nextStart := now + START_INTERVAL;
      ok := true;
      assert entries[..] == old(entries[..])[at := e];
    }

    lemma NothingOpen()
      requires Valid() && forall i | 0 <= i < ENTRIES :: !Busy(entries[i])
      ensures open == {}
    {
      assert forall fd: int ::
        fd in open ==> exists i :: 0 <= i < |entries[..]| && Busy(entries[..][i]) && entries[..][i].fd == fd;
      assert open == {};
    }

    /** The hash ends: the descriptor is closed. */
    method Close(at: nat, e: Entry)
      requires Valid() && at < ENTRIES && Busy(entries[at]) && !Busy(e) && e.used && e.key == entries[at].key
      requires EntryInv(e, sha, expected, clock)
      modifies this`open, entries
      ensures Valid() && open == {} && entries[..] == old(entries[..])[at := e]
    {
      ReplaceKeeps(entries[..], at, e, sha, expected, clock, clock);
      OpenClosed(entries[..], at, e, open);
      open := open - {entries[at].fd};
      entries[at] := e;
      assert entries[..] == old(entries[..])[at := e];
    }

    /** The end of the file: the key is checked once more, and only then does the digest count. */
    method EndOfFile(at: nat, final: Option<FileKey>)
      requires Valid() && at < ENTRIES && Busy(entries[at])
      modifies this`open, entries
      ensures Valid() && open == {} && entries[..] == old(entries[..])[at := entries[at]]
      ensures Continues(old(entries[at]), entries[at], final, sha, expected) && !Busy(entries[at])
      ensures entries[at].fed == old(entries[at]).fed
    {
      var e := entries[at];
      var d := sha(e.fed);
      if final != Some(e.key) {
        Close(at, e.(fd := -1, state := Unavailable));
      } else {
        Close(at,
          e.(fd := -1, digest := d, checks := e.checks + [e.key], state := if d == expected then Exact else Mismatch));
      }
    }

    /** One turn's reads of the file being hashed.  `final` is the key fstat gives at the end of the file. */
    method Tick(at: nat, input: nat -> Read, final: Option<FileKey>) returns (ended: bool)
      requires Valid() && at < ENTRIES && Busy(entries[at])
      modifies this`open, entries
      ensures Valid() && |entries[..]| == |old(entries[..])| && (ended ==> open == {}) && (!ended ==> open == old(open))
      ensures forall i | 0 <= i < ENTRIES && i != at :: entries[i] == old(entries[i])
      ensures Continues(old(entries[at]), entries[at], final, sha, expected) && (ended <==> !Busy(entries[at]))
    {
      ghost var e0, extra: seq<byte> := entries[at], [];
      assert e0.fed + extra == e0.fed;
      var total, k := 0, 0;
      while total < BYTES_PER_TICK
        invariant Valid() && open == old(open) && total <= BYTES_PER_TICK
        invariant |extra| == total && entries[..] == old(entries[..])[at := e0.(fed := e0.fed + extra)]
        decreases BYTES_PER_TICK - total
      {
        var e := entries[at];
        var want := if BLOCK > BYTES_PER_TICK - total then BYTES_PER_TICK - total else BLOCK;
        var r := input(k);
        k := k + 1;
        if r.Failed? {
          Close(at, e.(fd := -1, state := Unavailable));
          return true;
        }
        if r.bytes == [] {
          EndOfFile(at, final);
          ContinuesFrom(e0, e, entries[at], final, sha, expected);
          return true;
        }
        var got := if |r.bytes| > want then r.bytes[..want] else r.bytes;
        assert e0.fed + extra + got == e0.fed + (extra + got);
        extra := extra + got;
        Put(at, e.(fed := e.fed + got), clock);
        total := total + |got|;
      }
      ended := false;
    }

    /** verification_step */
    method Step(now: nat, opening: Opening, input: nat -> Read, final: Option<FileKey>) returns (changed: bool)
      requires Valid() && clock <= now <= UINT64_MAX && (opening.fd >= 0 ==> opening.fd !in open)
      modifies this`open, this`nextStart, this`started, this`clock, entries
      ensures Valid() && clock == now && KeepsExact(old(entries[..]), entries[..])
      // At most one entry is worked on, and a busy one only continues.
      ensures forall i, j | 0 <= i < j < ENTRIES :: entries[i] == old(entries[i]) || entries[j] == old(entries[j])
      ensures forall i | 0 <= i < ENTRIES && Busy(old(entries[i])) ::
              Continues(old(entries[i]), entries[i], final, sha, expected)
      // The caller refreshes its epochs only when told to: nothing shown may change unannounced.
      ensures changed <==> Differs(old(entries[..]), entries[..])
      // A hash starts only when none is running and the interval has passed.
      ensures started != old(started) ==> nextStart == now + START_INTERVAL && old(nextStart) <= now && old(open) == {}
      ensures nextStart == old(nextStart) || nextStart == now + START_INTERVAL
      ensures open <= old(open) + {opening.fd}
    {
      clock := now;
      assert forall i | 0 <= i < ENTRIES :: EntryInv(entries[..][i], sha, expected, old(clock));
      var at := Active();
      if at.None? {
        NothingOpen();
        if now < nextStart { return false; }
        at := Newest();
        if at.None? { return false; }
        var ok := Start(at.value, now, opening);
        if !ok { return true; }
      }
      changed := Tick(at.value, input, final);
    }
  }

  /** Whatever the cache has been through, an exact entry's digest is the expected one, computed over all the
      bytes read from a descriptor that named the same unchanged file when it was opened and when it ended. */
  lemma ExactMeans(entries: seq<Entry>, i: nat, sha: Sha, expected: seq<byte>, clock: nat)
    requires CacheInv(entries, sha, expected, clock) && i < ENTRIES && entries[i].state == Exact
    ensures sha(entries[i].fed) == expected
    ensures entries[i].checks == [entries[i].key, entries[i].key] && entries[i].fd < 0
  {
    assert EntryInv(entries[i], sha, expected, clock);
  }

  /** The verdict of every finished entry is the standard's, below 2^61 bytes. */
  lemma VerdictIsStandard(entries: seq<Entry>, i: nat, expected: seq<byte>, clock: nat)
    requires CacheInv(entries, Digested, expected, clock) && i < ENTRIES && |entries[i].fed| < 0x2000_0000_0000_0000
    ensures entries[i].state == Exact ==> Digest(entries[i].fed) == expected
    ensures entries[i].state == Mismatch ==> Digest(entries[i].fed) != expected
    ensures entries[i].state == Exact || entries[i].state == Mismatch ==>
              entries[i].digest == Digest(entries[i].fed) && entries[i].checks == [entries[i].key, entries[i].key]
  {
    assert EntryInv(entries[i], Digested, expected, clock);
    DigestedIsStandard(entries[i].fed);
  }

  /** What happens to the cache: a process asks for its executable, or the main loop gives it a turn; `wait` is
      the time since the call before.  Every open that succeeds gets a descriptor of its own. */
  datatype Call =
    | Asks(wait: nat, key: FileKey, pid: int, start: nat)
    | Turn(wait: nat, opening: Opening, input: nat -> Read, final: Option<FileKey>)

  /** The cache as the program builds it, through any sequence of calls: every verdict it ends with is the
      standard's. */
  method Run(expected: seq<byte>, calls: seq<Call>) returns (cache: Cache)
    ensures cache.Valid() && cache.sha == Digested && cache.expected == expected
    ensures forall i | 0 <= i < ENTRIES && |cache.entries[i].fed| < 0x2000_0000_0000_0000 ::
              && (cache.entries[i].state == Exact ==> Digest(cache.entries[i].fed) == expected)
              && (cache.entries[i].state == Mismatch ==> Digest(cache.entries[i].fed) != expected)
  {
    cache := new Cache(Digested, expected);
    var now, k := 0, 0;
    while k < |calls|
      invariant k <= |calls| && fresh(cache) && fresh(cache.entries) && cache.Valid()
      invariant cache.clock <= now <= UINT64_MAX && forall fd | fd in cache.open :: fd < k
    {
      now := if now + calls[k].wait <= UINT64_MAX then now + calls[k].wait else UINT64_MAX;
      match calls[k] {
        case Asks(_, key, pid, start) => var at := cache.Request(key, pid, start, now);
        case Turn(_, opening, input, final) =>
          var own := opening.(fd := if opening.fd < 0 then -1 else k);
          var changed := cache.Step(now, own, input, final);
      }
      k := k + 1;
    }
    forall i | 0 <= i < ENTRIES && |cache.entries[i].fed| < 0x2000_0000_0000_0000
      ensures cache.entries[i].state == Exact ==> Digest(cache.entries[i].fed) == expected
      ensures cache.entries[i].state == Mismatch ==> Digest(cache.entries[i].fed) != expected
    {
      VerdictIsStandard(cache.entries[..], i, expected, cache.clock);
    }
  }
}
