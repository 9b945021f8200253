/** The streaming SHA-256 of the diagnostics collector, proved against the standard. */
module Sha256Stream {
  import opened Sha256Standard

  const TWO64: nat := 0x1_0000_0000_0000_0000

  /** The same fold over the blocks for any compression function: the buffering below does not depend on
      what is computed from a block. */
  ghost function Chained(compress: (Eight, seq<byte>) -> Eight, m: seq<byte>): Eight
    requires |m| % 64 == 0
  {
    if m == [] then H0 else compress(Chained(compress, m[..|m| - 64]), m[|m| - 64..])
  }

  ghost predicate Sound(compress: (Eight, seq<byte>) -> Eight) {
    forall s, b {:trigger Compress(s, b)} | |b| == 64 :: compress(s, b) == Compress(s, b)
  }

  lemma {:induction false} ChainedIsStandard(compress: (Eight, seq<byte>) -> Eight, m: seq<byte>)
    requires |m| % 64 == 0 && Sound(compress)
    ensures Chained(compress, m) == Blocks(m)
  {
    if m != [] { ChainedIsStandard(compress, m[..|m| - 64]); }
  }

  lemma ChainedMore(compress: (Eight, seq<byte>) -> Eight, m: seq<byte>, b: seq<byte>)
    requires |m| % 64 == 0 && |b| == 64
    ensures |m + b| % 64 == 0 && Chained(compress, m + b) == compress(Chained(compress, m), b)
  {
    assert (m + b)[..|m + b| - 64] == m && (m + b)[|m + b| - 64..] == b;
  }

  lemma SoundAt(compress: (Eight, seq<byte>) -> Eight, e: Eight, b: seq<byte>)
    requires Sound(compress) && |b| == 64
    ensures compress(e, b) == Compress(e, b)
  {
  }

  function Chaining(h: seq<word>): Eight
    requires |h| == 8
  {
    Eight(h[0], h[1], h[2], h[3], h[4], h[5], h[6], h[7])
  }

  lemma Associates(a: seq<byte>, b: seq<byte>, c: seq<byte>)
    ensures a + b + c == a + (b + c)
  {
  }

  lemma Appended(fed: seq<byte>, data: seq<byte>, at: nat, m: nat)
    requires at + m <= |data|
    ensures fed + data[..at] + data[at..at + m] == fed + data[..at + m]
  {
  }

  class Sha {
    const h: array<word>
    var bytes: nat              // a uint64_t: wraps
    var used: nat
    const block: array<byte>
    ghost var fed: seq<byte>    // everything added so far
    ghost var absorbed: seq<byte>
    ghost const compress: (Eight, seq<byte>) -> Eight   // what sha_block computes

    /** What has been added is the blocks absorbed and the bytes waiting in the buffer. */
    ghost predicate Held()
      reads this, h, block
    {
      && h.Length == 8 && block.Length == 64 && Sound(compress) && |absorbed| % 64 == 0
      && used < 64 && fed == absorbed + block[..used]
      && Chaining(h[..]) == Chained(compress, absorbed)
    }

    ghost predicate Valid()
      reads this, h, block
    {
      Held() && bytes == |fed| % TWO64
    }

    /** sha_init */
    constructor ()
      ensures Valid() && fed == [] && fresh(h) && fresh(block)
    {
      h := new word[8] [0x6a09e667, 0xbb67ae85, 0x3c6ef372, 0xa54ff53a, 0x510e527f, 0x9b05688c, 0x1f83d9ab, 0x5be0cd19];
      block := new byte[64];
      bytes, used, fed, absorbed := 0, 0, [], [];
      compress := (s, b) => if |b| == 64 then Compress(s, b) else s;
    }

    /** The first loop of sha_block. */
    method FirstWords(b: seq<byte>, w: array<word>)
      requires |b| == 64 && w.Length == 64
      modifies w
      ensures w[..16] == Schedule(b, 16)
    {
      var i := 0;
      while i < 16
        invariant 0 <= i <= 16 && w[..i] == Schedule(b, i)
      {
        ghost var before := w[..i];
        w[i] := (b[4 * i] as word << 24) | (b[4 * i + 1] as word << 16) | (b[4 * i + 2] as word << 8)
                | b[4 * i + 3] as word;
        assert w[..i + 1] == before + [w[i]];
        i := i + 1;
      }
    }

    lemma ScheduleStep(b: seq<byte>, t: nat)
      requires |b| == 64 && 16 <= t
      ensures var w := Schedule(b, t);
              Schedule(b, t + 1) == w + [NextWord(w[t - 16], w[t - 15], w[t - 7], w[t - 2])]
    {
    }

    /** Its second loop. */
    method LaterWords(b: seq<byte>, w: array<word>)
      requires |b| == 64 && w.Length == 64 && w[..16] == Schedule(b, 16)
      modifies w
      ensures w[..] == Schedule(b, |b|)
    {
      var i := 16;
      while i < 64
        invariant 16 <= i <= 64 && w[..i] == Schedule(b, i)
      {
        ghost var before := w[..i];
        ScheduleStep(b, i);
        w[i] := NextWord(w[i - 16], w[i - 15], w[i - 7], w[i - 2]);
        assert w[..i + 1] == before + [w[i]];
        i := i + 1;
      }
      assert w[..i] == w[..];
    }

    /** Its last line. */
    method AddTo(s: Eight)
      requires h.Length == 8
      modifies h
      ensures Chaining(h[..]) == Add(old(Chaining(h[..])), s)
    {
      h[0], h[1], h[2], h[3] := Plus(h[0], s.a), Plus(h[1], s.b), Plus(h[2], s.c), Plus(h[3], s.d);
      h[4], h[5], h[6], h[7] := Plus(h[4], s.e), Plus(h[5], s.f), Plus(h[6], s.g), Plus(h[7], s.h);
    }

    /** sha_block: the block buffer into the chaining value. */
    method Absorb()
      requires h.Length == 8 && block.Length == 64
      modifies h
      ensures Chaining(h[..]) == Compress(old(Chaining(h[..])), block[..])
    {
      ghost var start := Chaining(h[..]);
      var w := new word[64];
      FirstWords(block[..], w);
      LaterWords(block[..], w);
      var s := Mix(Chaining(h[..]), w);
      AddTo(s);
    }

    /** The body of its third loop; the C code calls the eight words a, c, d, e, f, g, h and j. */
    method OneRound(s: Eight, k: word, w: word) returns (r: Eight)
      ensures r == Round(s, k, w)
    {
      var a, c, d, e, f, g, h, j := s.a, s.b, s.c, s.d, s.e, s.f, s.g, s.h;
      var t, u := T1(s, k, w), T2(s);
      j := h; h := g; g := f; f := Plus(e, t); e := d; d := c; c := a; a := Plus(t, u);
      r := Eight(a, c, d, e, f, g, h, j);
    }

    lemma RoundsStep(s: Eight, w: seq<word>, i: nat)
      requires i < |w| <= 64
      ensures Rounds(s, w[..i + 1]) == Round(Rounds(s, w[..i]), K[i] as word, w[i])
    {
      assert w[..i + 1][..i] == w[..i];
    }

    /** Its third loop. */
    method Mix(start: Eight, w: array<word>) returns (s: Eight)
      requires w.Length == 64
      ensures s == Rounds(start, w[..])
    {
      s := start;
      var i := 0;
      while i < 64
        invariant 0 <= i <= 64 && s == Rounds(start, w[..i])
      {
        RoundsStep(start, w[..], i);
        assert w[..][..i] == w[..i] && w[..][..i + 1] == w[..i + 1];
        s := OneRound(s, K[i] as word, w[i]);
        i := i + 1;
      }
      assert w[..i] == w[..];
    }

    /** The memcpy of sha_add. */
    method Copy(part: seq<byte>)
      requires block.Length == 64 && used + |part| <= 64
      modifies block
      ensures block[..used + |part|] == old(block[..used]) + part
    {
      forall i | 0 <= i < |part| { block[used + i] := part[i]; }
    }

    method Compressed()
      requires h.Length == 8 && block.Length == 64 && Sound(compress)
      modifies h
      ensures Chaining(h[..]) == compress(old(Chaining(h[..])), block[..])
    {
      SoundAt(compress, Chaining(h[..]), block[..]);
      Absorb();
    }

    /** A full block into the chaining value. */
    method Flush()
      requires h.Length == 8 && block.Length == 64 && Sound(compress) && |absorbed| % 64 == 0
      requires used == 64 && fed == absorbed + block[..] && Chaining(h[..]) == Chained(compress, absorbed)
      modifies this`used, this`absorbed, h
      ensures Held()
    {
      ChainedMore(compress, absorbed, block[..]);
      Compressed();
      used := 0;
      absorbed := absorbed + block[..];
    }

    method Load(part: seq<byte>)
      requires block.Length == 64 && used + |part| <= 64 && fed == absorbed + block[..used]
      modifies this`used, this`fed, block
      ensures used == old(used) + |part| && fed == old(fed) + part && fed == absorbed + block[..used]
    {
      Associates(absorbed, block[..used], part);
      Copy(part);
      used := used + |part|;
      fed := fed + part;
    }

    /** One turn of the loop of sha_add. */
    method Fill(part: seq<byte>)
      requires Held() && |part| <= 64 - used
      modifies this`used, this`fed, this`absorbed, h, block
      ensures Held() && fed == old(fed) + part
    {
      Load(part);
      if used == 64 {
        assert block[..] == block[..used];
        Flush();
      }
    }

    /** The loop of sha_add. */
    method FillAll(data: seq<byte>)
      requires Held()
      modifies this`used, this`fed, this`absorbed, h, block
      ensures Held() && fed == old(fed) + data
    {
      var at, n := 0, |data|;
      while n > 0
        invariant n == |data| - at && at <= |data| && Held() && fed == old(fed) + data[..at]
      {
        var m := 64 - used;
        if m > n { m := n; }
        Appended(old(fed), data, at, m);
        Fill(data[at..at + m]);
        at, n := at + m, n - m;
      }
      assert data[..at] == data;
    }

    /** sha_add */
    method Update(data: seq<byte>)
      requires Valid()
      modifies this`bytes, this`used, this`fed, this`absorbed, h, block
      ensures Valid() && fed == old(fed) + data
    {
      Wrapped(|fed|, |data|);
      bytes := (bytes + |data|) % TWO64;
      FillAll(data);
    }

    /** The two sha_add calls of sha_end. */
    method Pad(bits: nat)
      requires Valid()
      modifies this`bytes, this`used, this`fed, this`absorbed, h, block
      ensures Held() && fed == PaddedFor(old(fed), bits)
    {
      var n := if used < 56 then 56 - used else 120 - used;
      ZerosLeft(|fed|, |absorbed|, used);
      Glue(fed, n - 1, bits);
      Update([0x80] + Zeros(n - 1));
      var length := LengthBytes(bits);
      Update(length);
    }

    /** sha_end: the padding and the length are themselves added, then the chaining value is written out. */
    method Finish() returns (out: seq<byte>)
      requires Valid()
      modifies this`bytes, this`used, this`fed, this`absorbed, h, block
      ensures absorbed == PaddedFor(old(fed), 8 * (|old(fed)| % TWO64) % TWO64)
      ensures out == Concatenated(Words(Chained(compress, absorbed)))
    {
      Pad(bytes * 8 % TWO64);
      MultipleOf64(|fed|, |absorbed|, used);
      assert fed == absorbed;
      out := Collected();
    }

    method LengthBytes(bits: nat) returns (length: seq<byte>)
      ensures length == BigEndian(bits, 8)
    {
      length := [];
      var i := 0;
      while i < 8
        invariant 0 <= i <= 8 && length == BigEndian(bits, 8)[..i]
      {
        length := length + [Octet(bits, 7 - i) as byte];
        i := i + 1;
      }
    }

    method Collected() returns (out: seq<byte>)
      requires h.Length == 8
      ensures out == Concatenated(Words(Chaining(h[..])))
    {
      out := [];
      var i := 0;
      while i < 32
        invariant 0 <= i <= 32 && out == Concatenated(h[..])[..i]
      {
        ConcatenatedAt(h[..], i);
        out := out + [Byte(h[i / 4], i % 4)];
        i := i + 1;
      }
      assert h[..] == Words(Chaining(h[..]));
    }
  }

  lemma ZerosLeft(length: nat, blocks: nat, used: nat)
    requires used < 64 && blocks % 64 == 0 && length == blocks + used
    ensures (if used < 56 then 56 - used else 120 - used) == 1 + ZeroBytes(length)
  {
  }

  lemma Wrapped(a: nat, n: nat)
    ensures (a % TWO64 + n) % TWO64 == (a + n) % TWO64
  {
  }

  lemma Glue(m: seq<byte>, zeros: nat, bits: nat)
    requires zeros == ZeroBytes(|m|)
    ensures m + ([0x80] + Zeros(zeros)) + BigEndian(bits, 8) == PaddedFor(m, bits)
  {
    assert m + ([0x80] + Zeros(zeros)) == m + [0x80] + Zeros(zeros);
  }

  lemma MultipleOf64(length: nat, blocks: nat, used: nat)
    requires used < 64 && blocks % 64 == 0 && length == blocks + used && length % 64 == 0
    ensures used == 0
  {
  }

  /** What sha_end returns is the standard's digest for every message below 2^61 bytes: up to there the
      wrapping byte counter still holds the length in bits. */
  lemma FinishedIsDigest(out: seq<byte>, compress: (Eight, seq<byte>) -> Eight, m: seq<byte>)
    requires Sound(compress) && |m| < 0x2000_0000_0000_0000
    requires out == Concatenated(Words(Chained(compress, PaddedFor(m, 8 * (|m| % TWO64) % TWO64))))
    ensures out == Digest(m)
  {
    FinishedFor(out, compress, m, 8 * |m|);
  }

  lemma FinishedFor(out: seq<byte>, compress: (Eight, seq<byte>) -> Eight, m: seq<byte>, bits: nat)
    requires Sound(compress) && out == Concatenated(Words(Chained(compress, PaddedFor(m, bits))))
    ensures out == DigestFor(m, bits)
  {
    ChainedIsStandard(compress, PaddedFor(m, bits));
    EncodedDigest(m, bits, Chained(compress, PaddedFor(m, bits)));
  }

  lemma EncodedDigest(m: seq<byte>, bits: nat, e: Eight)
    requires e == Blocks(PaddedFor(m, bits))
    ensures Concatenated(Words(e)) == DigestFor(m, bits)
  {
  }

  function Joined(chunks: seq<seq<byte>>): seq<byte> {
    if chunks == [] then [] else Joined(chunks[..|chunks| - 1]) + chunks[|chunks| - 1]
  }

  /** sha_init, one sha_add for each chunk, sha_end: however a message is split, the digest is the
      standard's digest of the whole. */
  method Hash(chunks: seq<seq<byte>>) returns (out: seq<byte>)
    requires |Joined(chunks)| < 0x2000_0000_0000_0000
    ensures out == Digest(Joined(chunks))
  {
    var sha := new Sha();
    var i := 0;
    while i < |chunks|
      invariant 0 <= i <= |chunks| && fresh(sha) && fresh(sha.h) && fresh(sha.block)
      invariant sha.Valid() && sha.fed == Joined(chunks[..i])
    {
      assert chunks[..i + 1][..i] == chunks[..i];
      sha.Update(chunks[i]);
      i := i + 1;
    }
    assert chunks[..i] == chunks;
    ghost var m := sha.fed;
    out := sha.Finish();
    FinishedIsDigest(out, sha.compress, m);
  }
}
