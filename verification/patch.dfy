/** The root filesystem patch: the differ that prepares it, the checks made when it is loaded, and the
    applier that replays it. */
module Patch {
  import opened Int64
  import opened Octets

  const BLOCK: nat := 4096
  const ROOT_SIZE: nat := 441279488
  const KEY_LENGTH: nat := 81

  datatype Span = Span(offset: int, length: int, patchOffset: int)

  predicate Covers(s: Span, i: int) {
    s.offset <= i < s.offset + s.length
  }

  ghost predicate Covered(spans: seq<Span>, i: int) {
    exists k :: 0 <= k < |spans| && Covers(spans[k], i)
  }

  // ---------------------------------------------------------------- the differ

  /** The spans lie one after another in the root from `root` to `size`, and between them use the patch
      bytes from `patch` to `bytes` in order, each once. */
  predicate Tiles(spans: seq<Span>, root: int, patch: int, size: int, bytes: int) {
    if spans == [] then root <= size && patch == bytes
    else
      var s := spans[0];
      root <= s.offset && 0 < s.length && s.patchOffset == patch
      && Tiles(spans[1..], s.offset + s.length, patch + s.length, size, bytes)
  }

  lemma {:induction false} TilesWider(spans: seq<Span>, root: int, patch: int, size: int, bytes: int, wider: int)
    requires Tiles(spans, root, patch, size, bytes) && size <= wider
    ensures Tiles(spans, root, patch, wider, bytes)
  {
    if spans != [] {
      TilesWider(spans[1..], spans[0].offset + spans[0].length, patch + spans[0].length, size, bytes, wider);
    }
  }

  lemma {:induction false} TilesMore(spans: seq<Span>, root: int, patch: int, bytes: int, s: Span)
    requires Tiles(spans, root, patch, s.offset, bytes) && 0 < s.length && s.patchOffset == bytes
    ensures Tiles(spans + [s], root, patch, s.offset + s.length, bytes + s.length)
  {
    if spans == [] { assert (spans + [s])[1..] == []; }
    else {
      assert (spans + [s])[1..] == spans[1..] + [s];
      TilesMore(spans[1..], spans[0].offset + spans[0].length, patch + spans[0].length, bytes, s);
    }
  }

  /** A span and all it refers to is where it says it is. */
  predicate InRange(s: Span, size: int, bytes: int) {
    0 <= s.offset && 0 < s.length && s.offset + s.length <= size && 0 <= s.patchOffset &&
      s.patchOffset + s.length <= bytes
  }

  lemma {:induction false} TilesInRange(spans: seq<Span>, root: int, patch: int, size: int, bytes: int)
    requires Tiles(spans, root, patch, size, bytes) && 0 <= root && 0 <= patch
    ensures 0 <= bytes - patch <= size - root
    ensures forall k | 0 <= k < |spans| ::
            InRange(spans[k], size, bytes) && root <= spans[k].offset && patch <= spans[k].patchOffset
  {
    if spans != [] {
      TilesInRange(spans[1..], spans[0].offset + spans[0].length, patch + spans[0].length, size, bytes);
      assert forall k | 1 <= k < |spans| :: spans[k] == spans[1..][k - 1];
    }
  }

  predicate Uses(s: Span, j: int) {
    s.patchOffset <= j < s.patchOffset + s.length
  }

  /** Every patch byte is used, and by one span only. */
  lemma {:induction false} PatchByteOnce(spans: seq<Span>, root: int, patch: int, size: int, bytes: int, j: int)
      returns (k: nat)
    requires Tiles(spans, root, patch, size, bytes) && 0 <= root && 0 <= patch <= j < bytes
    ensures k < |spans| && Uses(spans[k], j) && forall i | 0 <= i < |spans| && Uses(spans[i], j) :: i == k
  {
    var s := spans[0];
    var rest := spans[1..];
    TilesInRange(rest, s.offset + s.length, patch + s.length, size, bytes);
    assert forall i | 1 <= i < |spans| :: spans[i] == rest[i - 1];
    if Uses(s, j) {
      k := 0;
    } else {
      k := PatchByteOnce(rest, s.offset + s.length, patch + s.length, size, bytes, j);
      k := k + 1;
    }
  }

  /** The span's patch bytes are the target's bytes at the same place. */
  ghost predicate Faithful(s: Span, data: seq<byte>, b: seq<byte>) {
    && 0 <= s.offset && 0 < s.length && 0 <= s.patchOffset
    && s.offset + s.length <= |b| && s.patchOffset + s.length <= |data|
    && data[s.patchOffset..s.patchOffset + s.length] == b[s.offset..s.offset + s.length]
  }

  /** The differing bytes before `upto`, and only those, are covered, by spans that carry the new bytes. */
  ghost predicate Differs(spans: seq<Span>, data: seq<byte>, a: seq<byte>, b: seq<byte>, upto: nat) {
    && |a| == |b| && upto <= |a| && Tiles(spans, 0, 0, upto, |data|)
    && (forall k | 0 <= k < |spans| :: Faithful(spans[k], data, b) && spans[k].offset + spans[k].length <= upto)
    && (forall i | 0 <= i < upto :: a[i] != b[i] <==> Covered(spans, i))
  }

  lemma SkipEqual(spans: seq<Span>, data: seq<byte>, a: seq<byte>, b: seq<byte>, upto: nat, next: nat)
    requires Differs(spans, data, a, b, upto) && upto <= next <= |a| && a[upto..next] == b[upto..next]
    ensures Differs(spans, data, a, b, next)
  {
    TilesWider(spans, 0, 0, upto, |data|, next);
    forall i | upto <= i < next
      ensures a[i] == b[i] && !Covered(spans, i)
    {
      assert a[upto..next][i - upto] == b[upto..next][i - upto];
    }
  }

  lemma FaithfulMore(s: Span, data: seq<byte>, extra: seq<byte>, b: seq<byte>)
    requires Faithful(s, data, b)
    ensures Faithful(s, data + extra, b)
  {
    assert (data + extra)[s.patchOffset..s.patchOffset + s.length] == data[s.patchOffset..s.patchOffset + s.length];
  }

  lemma CoveredMore(spans: seq<Span>, s: Span, i: int)
    ensures Covered(spans + [s], i) <==> Covered(spans, i) || Covers(s, i)
  {
    if Covered(spans, i) {
      var k :| 0 <= k < |spans| && Covers(spans[k], i);
      assert Covers((spans + [s])[k], i);
    }
    if Covers(s, i) { assert Covers((spans + [s])[|spans|], i); }
  }

  lemma EmitSpan(spans: seq<Span>, data: seq<byte>, a: seq<byte>, b: seq<byte>, s: Span, bytes: seq<byte>)
    requires 0 <= s.offset && 0 < s.length && s.offset + s.length <= |a| && s.patchOffset == |data|
    requires Differs(spans, data, a, b, s.offset) && bytes == b[s.offset..s.offset + s.length]
    requires forall i | s.offset <= i < s.offset + s.length :: a[i] != b[i]
    ensures Differs(spans + [s], data + bytes, a, b, s.offset + s.length)
  {
    TilesMore(spans, 0, 0, |data|, s);
    var spans', data' := spans + [s], data + bytes;
    forall k | 0 <= k < |spans'|
      ensures Faithful(spans'[k], data', b)
    {
      if k < |spans| { FaithfulMore(spans[k], data, bytes, b); }
    }
    forall i | 0 <= i < s.offset + s.length
      ensures a[i] != b[i] <==> Covered(spans', i)
    {
      CoveredMore(spans, s, i);
    }
  }

  /** make-patch.py: block by block, run by run. */
  method Diff(a: seq<byte>, b: seq<byte>) returns (spans: seq<Span>, data: seq<byte>)
    requires |a| == |b|
    ensures Differs(spans, data, a, b, |a|)
  {
    spans, data := [], [];
    var start := 0;
    while start < |a|
      invariant 0 <= start && Differs(spans, data, a, b, if start < |a| then start else |a|)
    {
      var stop := if start + BLOCK < |a| then start + BLOCK else |a|;
      var before, after := a[start..stop], b[start..stop];
      if before == after {
        SkipEqual(spans, data, a, b, start, stop);
      } else {
        spans, data := DiffBlock(spans, data, a, b, start, stop);
      }
      start := start + BLOCK;
    }
  }

  /** The inner loops, over one block that differs. */
  method DiffBlock(spans0: seq<Span>, data0: seq<byte>, a: seq<byte>, b: seq<byte>, start: nat, stop: nat)
    returns (spans: seq<Span>, data: seq<byte>)
    requires start < stop <= |b| && Differs(spans0, data0, a, b, start)
    ensures Differs(spans, data, a, b, stop)
  {
    spans, data := spans0, data0;
    var before, after, at := a[start..stop], b[start..stop], 0;
    while at < |before|
      invariant 0 <= at <= |before| && Differs(spans, data, a, b, start + at)
    {
      if before[at] == after[at] {
        SkipOne(spans, data, a, b, start + at);
        at := at + 1;
      } else {
        spans, data, at := Emit(spans, data, a, b, start, stop, before, after, at);
      }
    }
  }

  method Emit(spans: seq<Span>, data: seq<byte>, ghost a: seq<byte>, ghost b: seq<byte>, start: nat, ghost stop: nat,
              before: seq<byte>, after: seq<byte>, at: nat)
    returns (spans': seq<Span>, data': seq<byte>, end: nat)
    requires |a| == |b| && start < stop <= |b| && before == a[start..stop] && after == b[start..stop]
    requires at < |before| && before[at] != after[at] && Differs(spans, data, a, b, start + at)
    ensures at < end <= |before| && Differs(spans', data', a, b, start + end)
  {
    end := RunEnd(before, after, at);
    Run(a, b, start, stop, at, end);
    var s := Span(start + at, end - at, |data|);
    EmitSpan(spans, data, a, b, s, after[at..end]);
    spans', data' := spans + [s], data + after[at..end];
  }

  lemma SkipOne(spans: seq<Span>, data: seq<byte>, a: seq<byte>, b: seq<byte>, i: nat)
    requires Differs(spans, data, a, b, i) && i < |a| && a[i] == b[i]
    ensures Differs(spans, data, a, b, i + 1)
  {
    SkipEqual(spans, data, a, b, i, i + 1);
  }

  /** A run of a block is a run of the root. */
  lemma Run(a: seq<byte>, b: seq<byte>, start: nat, stop: nat, at: nat, end: nat)
    requires |a| == |b| && start < stop <= |b| && at < end <= stop - start
    requires forall i | at <= i < end :: a[start..stop][i] != b[start..stop][i]
    ensures forall i | start + at <= i < start + end :: a[i] != b[i]
    ensures b[start..stop][at..end] == b[start + at..start + end]
  {
    forall i | start + at <= i < start + end
      ensures a[i] != b[i]
    {
      assert a[start..stop][i - start] == a[i] && b[start..stop][i - start] == b[i];
    }
    var x, y := b[start..stop][at..end], b[start + at..start + end];
    assert |x| == |y| && forall k | 0 <= k < |x| :: x[k] == b[start + at + k] && y[k] == b[start + at + k];
  }

  method RunEnd(before: seq<byte>, after: seq<byte>, at: nat) returns (end: nat)
    requires |before| == |after| && at < |before| && before[at] != after[at]
    ensures at < end <= |before| && forall i | at <= i < end :: before[i] != after[i]
    ensures end < |before| ==> before[end] == after[end]
  {
    end := at + 1;
    while end < |before| && before[end] != after[end]
      invariant at < end <= |before| && forall i | at <= i < end :: before[i] != after[i]
    {
      end := end + 1;
    }
  }

  // ---------------------------------------------------------------- the checks when it is loaded

  /** No sum of the span's fields leaves int64. */
  predicate Fits(s: Span) {
    s.offset + s.length <= INT64_MAX && s.patchOffset + s.length <= INT64_MAX
  }

  /** What loadPatch answers about the spans. */
  datatype Verdict = Accepted | InvalidSpan(index: nat) | UnusedBytes

  /** The loop of loadPatch from span `i` on. */
  function Checked(spans: seq<Span>, i: nat, rootEnd: int, patchEnd: int, size: int, bytes: int): Verdict
    requires i <= |spans|
    decreases |spans| - i
  {
    if i == |spans| then (if patchEnd != bytes then UnusedBytes else Accepted)
    else
      var s := spans[i];
      if s.length <= 0 || s.offset < rootEnd || s.patchOffset != patchEnd
         || Wrap64(s.offset + s.length) > size || Wrap64(s.patchOffset + s.length) > bytes
      then InvalidSpan(i)
      else Checked(spans, i + 1, Wrap64(s.offset + s.length), Wrap64(s.patchOffset + s.length), size, bytes)
  }

  method CheckSpans(spans: seq<Span>, size: int, bytes: int) returns (v: Verdict)
    ensures v == Checked(spans, 0, 0, 0, size, bytes)
  {
    var rootEnd, patchEnd, i := 0, 0, 0;
    while i < |spans|
      invariant 0 <= i <= |spans| &&
                Checked(spans, 0, 0, 0, size, bytes) == Checked(spans, i, rootEnd, patchEnd, size, bytes)
    {
      var s := spans[i];
      if s.length <= 0 || s.offset < rootEnd || s.patchOffset != patchEnd
         || Wrap64(s.offset + s.length) > size || Wrap64(s.patchOffset + s.length) > bytes {
        return InvalidSpan(i);
      }
      rootEnd, patchEnd, i := Wrap64(s.offset + s.length), Wrap64(s.patchOffset + s.length), i + 1;
    }
    v := if patchEnd != bytes then UnusedBytes else Accepted;
  }

  lemma WrapFits(x: int)
    requires 0 <= x <= INT64_MAX
    ensures Wrap64(x) == x
  {
  }

  /** Spans that tile the patch pass the checks one by one, and no sum of theirs wraps. */
  lemma {:induction false} TilesPass(spans: seq<Span>, i: nat, rootEnd: int, patchEnd: int, size: int, bytes: int)
    requires i <= |spans| && 0 <= rootEnd && size <= INT64_MAX && 0 <= patchEnd && bytes <= INT64_MAX
    requires Tiles(spans[i..], rootEnd, patchEnd, size, bytes)
    ensures Checked(spans, i, rootEnd, patchEnd, size, bytes) == Accepted &&
            forall k | i <= k < |spans| :: Fits(spans[k])
    decreases |spans| - i
  {
    TilesInRange(spans[i..], rootEnd, patchEnd, size, bytes);
    if i < |spans| {
      var s := spans[i];
      assert spans[i..][0] == s && spans[i..][1..] == spans[i + 1..];
      TilesInRange(spans[i + 1..], s.offset + s.length, patchEnd + s.length, size, bytes);
      WrapFits(s.offset + s.length);
      WrapFits(s.patchOffset + s.length);
      TilesPass(spans, i + 1, s.offset + s.length, patchEnd + s.length, size, bytes);
    }
  }

  /** Accepted spans whose sums do not wrap tile the patch. */
  lemma {:induction false} PassTiles(spans: seq<Span>, i: nat, rootEnd: int, patchEnd: int, size: int, bytes: int)
    requires i <= |spans| && 0 <= rootEnd <= size && 0 <= patchEnd
    requires Checked(spans, i, rootEnd, patchEnd, size, bytes) == Accepted &&
             forall k | i <= k < |spans| :: Fits(spans[k])
    ensures Tiles(spans[i..], rootEnd, patchEnd, size, bytes)
    decreases |spans| - i
  {
    if i < |spans| {
      var s := spans[i];
      assert spans[i..][0] == s && spans[i..][1..] == spans[i + 1..];
      assert Fits(s);
      WrapFits(s.offset + s.length);
      WrapFits(s.patchOffset + s.length);
      PassTiles(spans, i + 1, s.offset + s.length, s.patchOffset + s.length, size, bytes);
    }
  }

  /** What acceptance is worth: the spans tile the patch within the root exactly when, besides being
      accepted, no span's sums leave int64. */
  lemma AcceptedExactly(spans: seq<Span>, size: int, bytes: int)
    requires 0 <= size <= INT64_MAX && 0 <= bytes <= INT64_MAX
    ensures Tiles(spans, 0, 0, size, bytes) <==>
              Checked(spans, 0, 0, 0, size, bytes) == Accepted && forall k | 0 <= k < |spans| :: Fits(spans[k])
  {
    assert spans[0..] == spans;
    if Tiles(spans, 0, 0, size, bytes) { TilesPass(spans, 0, 0, 0, size, bytes); }
    if Checked(spans, 0, 0, 0, size, bytes) == Accepted && forall k | 0 <= k < |spans| :: Fits(spans[k]) {
      PassTiles(spans, 0, 0, 0, size, bytes);
    }
  }

  /** The loader's sums wrap: it accepts a span that starts at the last int64. */
  lemma AcceptedOutOfRange()
    ensures var spans := [Span(INT64_MAX, 1, 0)];
            Checked(spans, 0, 0, 0, ROOT_SIZE, 1) == Accepted && !InRange(spans[0], ROOT_SIZE, 1)
  {
    var spans := [Span(INT64_MAX, 1, 0)];
    assert Wrap64(INT64_MAX + 1) < 0 && Wrap64(1) == 1;
    assert Checked(spans, 1, Wrap64(INT64_MAX + 1), 1, ROOT_SIZE, 1) == Accepted;
  }

  // ---------------------------------------------------------------- the applier

  function Splice(root: seq<byte>, s: Span, data: seq<byte>): (r: seq<byte>)
    requires InRange(s, |root|, |data|)
    ensures |r| == |root|
  {
    root[..s.offset] + data[s.patchOffset..s.patchOffset + s.length] + root[s.offset + s.length..]
  }

  /** The root after the spans in this order; a span out of range stops it (a panic in Go). */
  function Applied(root: seq<byte>, spans: seq<Span>, data: seq<byte>): (r: seq<byte>)
    ensures |r| == |root|
  {
    if spans == [] || !InRange(spans[|spans| - 1], |root|, |data|) then root
    else Splice(Applied(root, spans[..|spans| - 1], data), spans[|spans| - 1], data)
  }

  /** The copy of one span. */
  method CopySpan(root: array<byte>, s: Span, data: seq<byte>)
    requires InRange(s, root.Length, |data|)
    modifies root
    ensures root[..] == Splice(old(root[..]), s, data)
  {
    forall i | 0 <= i < s.length { root[s.offset + i] := data[s.patchOffset + i]; }
  }

  /** The loop of applyPatchBytes, in place. */
  method ApplySpans(root: array<byte>, spans: seq<Span>, data: seq<byte>)
    requires forall k | 0 <= k < |spans| :: InRange(spans[k], root.Length, |data|)
    modifies root
    ensures root[..] == Applied(old(root[..]), spans, data)
  {
    var i := 0;
    while i < |spans|
      invariant 0 <= i <= |spans| && root[..] == Applied(old(root[..]), spans[..i], data)
    {
      assert spans[..i + 1][..i] == spans[..i];
      CopySpan(root, spans[i], data);
      i := i + 1;
    }
    assert spans[..i] == spans;
  }

  /** Whatever the order and however often: where a faithful span was copied the target's byte stands,
      and everywhere else the root's. */
  lemma {:induction false} AppliedAt(root: seq<byte>, spans: seq<Span>, data: seq<byte>, b: seq<byte>, i: nat)
    requires |root| == |b| && i < |root| && forall k | 0 <= k < |spans| :: Faithful(spans[k], data, b)
    ensures Applied(root, spans, data)[i] == if Covered(spans, i) then b[i] else root[i]
  {
    if spans != [] {
      var n := |spans| - 1;
      var s := spans[n];
      AppliedAt(root, spans[..n], data, b, i);
      assert spans[..n] + [s] == spans;
      CoveredMore(spans[..n], s, i);
      if Covers(s, i) {
        var j := i - s.offset;
        assert data[s.patchOffset..s.patchOffset + s.length][j] == b[s.offset..s.offset + s.length][j];
      }
    }
  }

  /** The differ's spans, in any order, turn the original into the patched image. */
  lemma AppliedIsTarget(a: seq<byte>, b: seq<byte>, spans: seq<Span>, data: seq<byte>, order: seq<Span>)
    requires Differs(spans, data, a, b, |a|) && multiset(order) == multiset(spans)
    ensures Applied(a, order, data) == b
    ensures forall k | 0 <= k < |order| :: InRange(order[k], |a|, |data|)
  {
    SameSpans(spans, order);
    forall i | 0 <= i < |a|
      ensures Applied(a, order, data)[i] == b[i]
    {
      AppliedAt(a, order, data, b, i);
      assert Covered(order, i) <==> Covered(spans, i);
    }
  }

  lemma SameSpans(spans: seq<Span>, order: seq<Span>)
    requires multiset(order) == multiset(spans)
    ensures forall k | 0 <= k < |order| :: order[k] in spans
    ensures forall i :: Covered(order, i) <==> Covered(spans, i)
  {
    forall s: Span
      ensures s in order <==> s in spans
    {
      assert s in multiset(order) <==> s in multiset(spans);
    }
    forall i
      ensures Covered(order, i) <==> Covered(spans, i)
    {
      if Covered(order, i) {
        var k :| 0 <= k < |order| && Covers(order[k], i);
        assert order[k] in spans;
      }
      if Covered(spans, i) {
        var k :| 0 <= k < |spans| && Covers(spans[k], i);
        assert spans[k] in order;
      }
    }
  }

  // ---------------------------------------------------------------- the manifest around the spans

  type Sha = seq<byte> -> seq<byte>

  datatype Manifest = Manifest(
    version: int, sshEnabled: bool, originalSize: int, patched: seq<byte>, keyOffset: int, placeholder: seq<byte>,
    patch: seq<byte>, spans: seq<Span>)

  datatype Loaded = Unsupported | BadChecksum | Spans(verdict: Verdict)

  /** loadPatch, for a recipe with or without SSH. */
  function LoadPatch(m: Manifest, data: seq<byte>, ssh: bool, sha: Sha): Loaded {
    var validKeySlot :=
      if m.sshEnabled then
        m.keyOffset >= 0 && Wrap64(m.keyOffset + KEY_LENGTH) <= ROOT_SIZE && |m.placeholder| == KEY_LENGTH
      else m.keyOffset == -1 && m.placeholder == [];
    if m.version != 1 || m.originalSize != ROOT_SIZE || m.sshEnabled != ssh || !validKeySlot then Unsupported
    else if sha(data) != m.patch then BadChecksum
    else Spans(Checked(m.spans, 0, 0, 0, m.originalSize, |data|))
  }

  /** What the applier relies on: every span is in range, and so is the key's slot. */
  ghost predicate Applicable(m: Manifest, data: seq<byte>) {
    && (forall k | 0 <= k < |m.spans| :: InRange(m.spans[k], m.originalSize, |data|))
    && (m.sshEnabled ==> 0 <= m.keyOffset && m.keyOffset + |m.placeholder| <= m.originalSize)
  }

  /** When a manifest that was loaded can be applied: exactly when none of the loader's sums left int64. */
  lemma LoadedExactly(m: Manifest, data: seq<byte>, ssh: bool, sha: Sha)
    requires LoadPatch(m, data, ssh, sha) == Spans(Accepted) && |data| <= INT64_MAX
    ensures Applicable(m, data) <==>
              (forall k | 0 <= k < |m.spans| :: Fits(m.spans[k])) && (ssh ==> m.keyOffset + KEY_LENGTH <= INT64_MAX)
  {
    AcceptedExactly(m.spans, m.originalSize, |data|);
    if forall k | 0 <= k < |m.spans| :: Fits(m.spans[k]) { TilesInRange(m.spans, 0, 0, m.originalSize, |data|); }
    if ssh && m.keyOffset + KEY_LENGTH <= INT64_MAX { WrapFits(m.keyOffset + KEY_LENGTH); }
  }

  /** The test of the key's slot wraps as well: a manifest whose spans tile is loaded with a slot out of range. */
  lemma LoadedOutOfRange(key: seq<byte>, patched: seq<byte>, sha: Sha)
    requires |key| == KEY_LENGTH
    ensures var m := Manifest(1, true, ROOT_SIZE, patched, INT64_MAX, key, sha([]), []);
            && LoadPatch(m, [], true, sha) == Spans(Accepted) && Tiles(m.spans, 0, 0, m.originalSize, 0)
            && !Applicable(m, [])
  {
  }

  datatype Outcome = WrongSize | WrongChecksum | NoPlaceholder | Patched

  /** applyPatchBytes: the bytes are replaced first, the result is judged afterwards. */
  method ApplyPatchBytes(root: array<byte>, m: Manifest, data: seq<byte>, sha: Sha) returns (r: Outcome)
    requires Applicable(m, data)
    modifies root
    ensures root[..] == if root.Length == m.originalSize then Applied(old(root[..]), m.spans, data) else old(root[..])
    ensures r == WrongSize <==> root.Length != m.originalSize
    ensures r == Patched <==> root.Length == m.originalSize && sha(root[..]) == m.patched
                               && (m.sshEnabled ==> root[m.keyOffset..m.keyOffset + |m.placeholder|] == m.placeholder)
  {
    if root.Length != m.originalSize { return WrongSize; }
    ApplySpans(root, m.spans, data);
    if sha(root[..]) != m.patched { return WrongChecksum; }
    if m.sshEnabled && root[m.keyOffset..m.keyOffset + |m.placeholder|] != m.placeholder { return NoPlaceholder; }
    r := Patched;
  }

  /** One line of an Ed25519 public key: "ssh-ed25519 " first, a line feed last. */
  predicate KeyLine(key: seq<byte>) {
    |key| == KEY_LENGTH && key[..12] == [115, 115, 104, 45, 101, 100, 50, 53, 53, 49, 57, 32] && key[80] == 10
  }

  predicate KeyAt(b: seq<byte>, key: seq<byte>, at: nat) {
    at + |key| <= |b| && b[at..at + |key|] == key
  }

  /** bytes.find from a position on. */
  method FindKey(b: seq<byte>, key: seq<byte>, from: nat) returns (at: int)
    requires from <= |b|
    ensures at == -1 || (from <= at && KeyAt(b, key, at))
    ensures forall i: nat | from <= i && (at == -1 || i < at) :: !KeyAt(b, key, i)
  {
    at := from;
    while at + |key| <= |b|
      invariant from <= at && forall i: nat | from <= i < at :: !KeyAt(b, key, i)
    {
      if b[at..at + |key|] == key { return; }
      at := at + 1;
    }
    at := -1;
  }

  /** What make-patch.py has established when it writes its two files. */
  ghost predicate Prepared(m: Manifest, data: seq<byte>, a: seq<byte>, b: seq<byte>, key: seq<byte>, ssh: bool,
      sha: Sha) {
    && |a| == |b| == ROOT_SIZE && Differs(m.spans, data, a, b, |a|)
    && m.version == 1 && m.sshEnabled == ssh && m.originalSize == |a| && m.patched == sha(b) && m.patch == sha(data)
    && m.placeholder == key
    && (if ssh then 0 <= m.keyOffset && KeyLine(key) && KeyAt(b, key, m.keyOffset)
                    && forall i: nat | KeyAt(b, key, i) :: i == m.keyOffset
        else m.keyOffset == -1 && key == [])
  }

  /** make-patch.py; its assertions end it without output. */
  method MakePatch(a: seq<byte>, b: seq<byte>, key: seq<byte>, ssh: bool, sha: Sha)
    returns (done: bool, m: Manifest, data: seq<byte>)
    ensures done ==> Prepared(m, data, a, b, if ssh then key else [], ssh, sha)
    ensures done <==> |a| == |b| == ROOT_SIZE &&
                      (ssh ==> KeyLine(key) && exists at :: KeyAt(b, key, at) && forall i | KeyAt(b, key, i) :: i == at)
  {
    data := [];
    m := Manifest(0, false, 0, [], -1, [], [], []);
    if ssh && !KeyLine(key) { return false, m, data; }
    if |a| != ROOT_SIZE || |b| != ROOT_SIZE { return false, m, data; }
    var offset := -1;
    if ssh {
      offset := FindKey(b, key, 0);
      if offset < 0 { return false, m, data; }
      var second := FindKey(b, key, offset + 1);
      if second >= 0 { return false, m, data; }
    }
    var spans;
    spans, data := Diff(a, b);
    m := Manifest(1, ssh, |a|, sha(b), offset, if ssh then key else [], sha(data), spans);
    done := true;
  }

  lemma PreparedLoads(m: Manifest, data: seq<byte>, a: seq<byte>, b: seq<byte>, key: seq<byte>, ssh: bool, sha: Sha)
    requires Prepared(m, data, a, b, key, ssh, sha)
    ensures Tiles(m.spans, 0, 0, |a|, |data|) && LoadPatch(m, data, ssh, sha) == Spans(Accepted)
  {
    TilesInRange(m.spans, 0, 0, |a|, |data|);
    AcceptedExactly(m.spans, |a|, |data|);
    if ssh { WrapFits(m.keyOffset + KEY_LENGTH); }
  }

  /** The round trip: what the differ prepares is accepted by the loader, tiles the patch, and applied to the
      original, in whatever order, gives the patched image with the owner's key in place. */
  lemma RoundTrip(m: Manifest, data: seq<byte>, a: seq<byte>, b: seq<byte>, key: seq<byte>, ssh: bool, sha: Sha,
      order: seq<Span>)
    requires Prepared(m, data, a, b, key, ssh, sha) && multiset(order) == multiset(m.spans)
    ensures LoadPatch(m, data, ssh, sha) == Spans(Accepted)
    ensures Tiles(m.spans, 0, 0, |a|, |data|)
    ensures Applied(a, order, data) == b && sha(Applied(a, order, data)) == m.patched
    ensures ssh ==> Applied(a, order, data)[m.keyOffset..m.keyOffset + |m.placeholder|] == m.placeholder
    ensures Applicable(m.(spans := order), data)
  {
    AppliedIsTarget(a, b, m.spans, data, order);
    PreparedLoads(m, data, a, b, key, ssh, sha);
  }
}
