/** SHA-256 as FIPS 180-4 defines it: sections 4.1.2 (functions), 4.2.2 (constants), 5.1.1 (padding),
    5.3.3 (initial value) and 6.2 (computation), for messages of whole bytes. */
module Sha256Standard {
  type byte = bv8
  type word = bv32
  type uint32 = x: nat | x < 0x1_0000_0000

  datatype Eight = Eight(a: word, b: word, c: word, d: word, e: word, f: word, g: word, h: word)

  // ---------------------------------------------------------------- sections 3.2 and 4.1.2

  function Rotr(x: word, n: nat): word
    requires n < 32
  {
    if n == 0 then x else (x >> n) | (x << (32 - n))
  }

  /** The amounts used below really are rotations. */
  lemma Rotations(x: word)
    ensures Rotr(x, 2) == x.RotateRight(2) && Rotr(x, 6) == x.RotateRight(6) && Rotr(x, 7) == x.RotateRight(7)
    ensures Rotr(x, 11) == x.RotateRight(11) && Rotr(x, 13) == x.RotateRight(13) && Rotr(x, 17) == x.RotateRight(17)
    ensures Rotr(x, 18) == x.RotateRight(18) && Rotr(x, 19) == x.RotateRight(19)
    ensures Rotr(x, 22) == x.RotateRight(22) && Rotr(x, 25) == x.RotateRight(25)
  {
  }

  /** Addition modulo 2^32, as in section 3.2. */
  function Plus(x: word, y: word): word { x + y }

  function Ch(x: word, y: word, z: word): word { (x & y) ^ (!x & z) }
  function Maj(x: word, y: word, z: word): word { (x & y) ^ (x & z) ^ (y & z) }
  function BigSigma0(x: word): word { Rotr(x, 2) ^ Rotr(x, 13) ^ Rotr(x, 22) }
  function BigSigma1(x: word): word { Rotr(x, 6) ^ Rotr(x, 11) ^ Rotr(x, 25) }
  function SmallSigma0(x: word): word { Rotr(x, 7) ^ Rotr(x, 18) ^ (x >> 3) }
  function SmallSigma1(x: word): word { Rotr(x, 17) ^ Rotr(x, 19) ^ (x >> 10) }

  // ---------------------------------------------------------------- section 6.2

  const K0: seq<uint32> := [
    0x428a2f98, 0x71374491, 0xb5c0fbcf, 0xe9b5dba5, 0x3956c25b, 0x59f111f1, 0x923f82a4, 0xab1c5ed5,
    0xd807aa98, 0x12835b01, 0x243185be, 0x550c7dc3, 0x72be5d74, 0x80deb1fe, 0x9bdc06a7, 0xc19bf174]
  const K1: seq<uint32> := [
    0xe49b69c1, 0xefbe4786, 0x0fc19dc6, 0x240ca1cc, 0x2de92c6f, 0x4a7484aa, 0x5cb0a9dc, 0x76f988da,
    0x983e5152, 0xa831c66d, 0xb00327c8, 0xbf597fc7, 0xc6e00bf3, 0xd5a79147, 0x06ca6351, 0x14292967]
  const K2: seq<uint32> := [
    0x27b70a85, 0x2e1b2138, 0x4d2c6dfc, 0x53380d13, 0x650a7354, 0x766a0abb, 0x81c2c92e, 0x92722c85,
    0xa2bfe8a1, 0xa81a664b, 0xc24b8b70, 0xc76c51a3, 0xd192e819, 0xd6990624, 0xf40e3585, 0x106aa070]
  const K3: seq<uint32> := [
    0x19a4c116, 0x1e376c08, 0x2748774c, 0x34b0bcb5, 0x391c0cb3, 0x4ed8aa4a, 0x5b9cca4f, 0x682e6ff3,
    0x748f82ee, 0x78a5636f, 0x84c87814, 0x8cc70208, 0x90befffa, 0xa4506ceb, 0xbef9a3f7, 0xc67178f2]

  const K: seq<uint32> := K0 + K1 + K2 + K3

  const H0: Eight := Eight(0x6a09e667, 0xbb67ae85, 0x3c6ef372, 0xa54ff53a, 0x510e527f, 0x9b05688c, 0x1f83d9ab,
    0x5be0cd19)

  function Word(b: seq<byte>, t: nat): word
    requires |b| == 64 && t < 16
  {
    (b[4 * t] as word << 24) | (b[4 * t + 1] as word << 16) | (b[4 * t + 2] as word << 8) | b[4 * t + 3] as word
  }

  function NextWord(w16: word, w15: word, w7: word, w2: word): word {
    Plus(Plus(Plus(w16, SmallSigma0(w15)), w7), SmallSigma1(w2))
  }

  /** The first `n` words of the message schedule. */
  function Schedule(b: seq<byte>, n: nat): (w: seq<word>)
    requires |b| == 64
    ensures |w| == n
  {
    if n == 0 then []
    else
      var w, t := Schedule(b, n - 1), n - 1;
      w + [if t < 16 then Word(b, t) else NextWord(w[t - 16], w[t - 15], w[t - 7], w[t - 2])]
  }

  function T1(s: Eight, k: word, w: word): word {
    Plus(Plus(Plus(Plus(s.h, BigSigma1(s.e)), Ch(s.e, s.f, s.g)), k), w)
  }

  function T2(s: Eight): word {
    Plus(BigSigma0(s.a), Maj(s.a, s.b, s.c))
  }

  function Round(s: Eight, k: word, w: word): Eight {
    Eight(Plus(T1(s, k, w), T2(s)), s.a, s.b, s.c, Plus(s.d, T1(s, k, w)), s.e, s.f, s.g)
  }

  /** One round for each word, with the round constant of the same number. */
  function Rounds(s: Eight, w: seq<word>): Eight
    requires |w| <= 64
  {
    if w == [] then s
    else
      var t := |w| - 1;
      Round(Rounds(s, w[..t]), K[t] as word, w[t])
  }

  function Add(x: Eight, y: Eight): Eight {
    Eight(Plus(x.a, y.a), Plus(x.b, y.b), Plus(x.c, y.c), Plus(x.d, y.d),
          Plus(x.e, y.e), Plus(x.f, y.f), Plus(x.g, y.g), Plus(x.h, y.h))
  }

  /** 64 words from 64 bytes, and a round for each. */
  function Compress(s: Eight, b: seq<byte>): Eight
    requires |b| == 64
  {
    Add(s, Rounds(s, Schedule(b, |b|)))
  }

  /** The chaining value after every block of `m`. */
  function Blocks(m: seq<byte>): Eight
    requires |m| % 64 == 0
  {
    if m == [] then H0 else Compress(Blocks(m[..|m| - 64]), m[|m| - 64..])
  }

  // ---------------------------------------------------------------- section 5.1.1

  function Zeros(n: nat): (z: seq<byte>)
    ensures |z| == n
  {
    seq(n, _ => 0)
  }

  /** `n` shifted right by `k` bytes. */
  function Shifted(n: nat, k: nat): nat {
    if k == 0 then n else Shifted(n / 256, k - 1)
  }

  /** Byte `k` of `n`, counted from the least significant one. */
  function Octet(n: nat, k: nat): (o: nat)
    ensures o < 256
  {
    Shifted(n, k) % 256
  }

  function Octets(n: nat, bytes: nat): (o: seq<nat>)
    ensures |o| == bytes && forall k | 0 <= k < bytes :: o[k] == Octet(n, bytes - 1 - k)
  {
    seq(bytes, k requires 0 <= k < bytes => Octet(n, bytes - 1 - k))
  }

  function BigEndian(n: nat, bytes: nat): (b: seq<byte>)
    ensures |b| == bytes
  {
    seq(bytes, k requires 0 <= k < bytes => Octet(n, bytes - 1 - k) as byte)
  }

  function Value(o: seq<nat>): nat {
    if o == [] then 0 else 256 * Value(o[..|o| - 1]) + o[|o| - 1]
  }

  function Pow256(k: nat): nat {
    if k == 0 then 1 else 256 * Pow256(k - 1)
  }

  /** A number that fits is what its bytes say, most significant first. */
  lemma {:induction false} OctetsValue(n: nat, bytes: nat)
    requires n < Pow256(bytes)
    ensures Value(Octets(n, bytes)) == n
  {
    if bytes > 0 {
      var all, rest := Octets(n, bytes), Octets(n / 256, bytes - 1);
      forall k | 0 <= k < bytes - 1
        ensures all[k] == rest[k]
      {
        OctetShift(n, bytes - 2 - k);
      }
      assert all[..bytes - 1] == rest;
      assert all[bytes - 1] == Octet(n, 0) && Shifted(n, 0) == n;
      OctetsValue(n / 256, bytes - 1);
    }
  }

  lemma OctetShift(n: nat, k: nat)
    ensures Octet(n, k + 1) == Octet(n / 256, k)
  {
  }

  /** Zero bytes after the byte 0x80. */
  function ZeroBytes(length: nat): nat {
    (55 - length) % 64
  }

  function PaddedFor(m: seq<byte>, bits: nat): (p: seq<byte>)
    ensures |p| % 64 == 0
  {
    m + [0x80] + Zeros(ZeroBytes(|m|)) + BigEndian(bits, 8)
  }

  function Byte(x: word, j: nat): byte
    requires j < 4
  {
    if j == 0 then ((x >> 24) & 0xff) as byte
    else if j == 1 then ((x >> 16) & 0xff) as byte
    else if j == 2 then ((x >> 8) & 0xff) as byte
    else (x & 0xff) as byte
  }

  function Bytes(x: word): seq<byte> {
    [Byte(x, 0), Byte(x, 1), Byte(x, 2), Byte(x, 3)]
  }

  function Concatenated(words: seq<word>): (b: seq<byte>)
    ensures |b| == 4 * |words|
  {
    if words == [] then [] else Concatenated(words[..|words| - 1]) + Bytes(words[|words| - 1])
  }

  lemma {:induction false} ConcatenatedAt(words: seq<word>, i: nat)
    requires i < 4 * |words|
    ensures Concatenated(words)[i] == Byte(words[i / 4], i % 4)
  {
    var n := |words| - 1;
    if i < 4 * n { ConcatenatedAt(words[..n], i); } else { assert i / 4 == n; }
  }

  function Words(s: Eight): (w: seq<word>)
    ensures |w| == 8
  {
    [s.a, s.b, s.c, s.d, s.e, s.f, s.g, s.h]
  }

  function DigestFor(m: seq<byte>, bits: nat): (d: seq<byte>)
    ensures |d| == 32
  {
    Concatenated(Words(Blocks(PaddedFor(m, bits))))
  }

  function Digest(m: seq<byte>): (d: seq<byte>)
    ensures |d| == 32
  {
    DigestFor(m, 8 * |m|)
  }

  /** The padding is the standard's: one bit, then the least number of zero bits that leaves room for the
      64-bit length; here those are seven bits and `ZeroBytes` bytes. */
  lemma PaddingIsLeast(length: nat, k: nat)
    ensures (8 * length + 1 + (7 + 8 * ZeroBytes(length))) % 512 == 448
    ensures (8 * length + 1 + k) % 512 == 448 ==> 7 + 8 * ZeroBytes(length) <= k
  {
    var z := ZeroBytes(length);
    var t := (length + z - 55) / 64;
    assert length + z == 55 + 64 * t;
    assert 8 * length + 1 + (7 + 8 * z) == 448 + 512 * t;
    if (8 * length + 1 + k) % 512 == 448 {
      var u := (8 * length + 1 + k - 448) / 512;
      assert 8 * length + 1 + k == 448 + 512 * u;
      var y := 55 - length + 64 * u;
      assert k == 7 + 8 * y && y >= 0;
      LeastResidue(55 - length, u);
    }
  }

  lemma LeastResidue(x: int, u: int)
    requires x + 64 * u >= 0
    ensures x % 64 <= x + 64 * u
  {
  }

  // ---------------------------------------------------------------- sections 4.2.2 and 5.3.3

  const TWO32: nat := 0x1_0000_0000

  /** `k` is the first 32 bits of the fraction of the cube root of `p`, whose integer part is `c`. */
  predicate CubeRootBits(p: nat, c: nat, k: nat) {
    var x := c * TWO32 + k;
    k < TWO32 && x * x * x <= p * TWO32 * TWO32 * TWO32 < (x + 1) * (x + 1) * (x + 1)
  }

  predicate SquareRootBits(p: nat, c: nat, k: nat) {
    var x := c * TWO32 + k;
    k < TWO32 && x * x <= p * TWO32 * TWO32 < (x + 1) * (x + 1)
  }

  const PRIMES0: seq<nat> := [2, 3, 5, 7, 11, 13, 17, 19, 23, 29, 31, 37, 41, 43, 47, 53]
  const PRIMES1: seq<nat> := [59, 61, 67, 71, 73, 79, 83, 89, 97, 101, 103, 107, 109, 113, 127, 131]
  const PRIMES2: seq<nat> := [137, 139, 149, 151, 157, 163, 167, 173, 179, 181, 191, 193, 197, 199, 211, 223]
  const PRIMES3: seq<nat> := [227, 229, 233, 239, 241, 251, 257, 263, 269, 271, 277, 281, 283, 293, 307, 311]
  const PRIMES: seq<nat> := PRIMES0 + PRIMES1 + PRIMES2 + PRIMES3

  function CubeRoot(p: nat): nat {
    if p < 8 then 1 else if p < 27 then 2 else if p < 64 then 3 else if p < 125 then 4 else if p < 216 then 5 else 6
  }

  /** Each table entry is the fraction the standard derives from the next prime. */
  predicate Derived(i: nat)
    requires i < 64
  {
    CubeRootBits(PRIMES[i], CubeRoot(PRIMES[i]), K[i])
  }

  lemma RoundConstants(i: nat)
    requires i < 64
    ensures Derived(i)
  {
    if i < 16 { RoundConstants0(i); } else if i < 32 { RoundConstants1(i); }
    else if i < 48 { RoundConstants2(i); } else { RoundConstants3(i); }
  }

  lemma RoundConstants0(i: nat)
    requires 0 <= i < 16
    ensures Derived(i)
  {
    assert K[i] == K0[i - 0] && PRIMES[i] == PRIMES0[i - 0];
  }

  lemma RoundConstants1(i: nat)
    requires 16 <= i < 32
    ensures Derived(i)
  {
    assert K[i] == K1[i - 16] && PRIMES[i] == PRIMES1[i - 16];
  }

  lemma RoundConstants2(i: nat)
    requires 32 <= i < 48
    ensures Derived(i)
  {
    assert K[i] == K2[i - 32] && PRIMES[i] == PRIMES2[i - 32];
  }

  lemma RoundConstants3(i: nat)
    requires 48 <= i < 64
    ensures Derived(i)
  {
    assert K[i] == K3[i - 48] && PRIMES[i] == PRIMES3[i - 48];
  }

  lemma InitialValue()
    ensures SquareRootBits(2, 1, H0.a as nat) && SquareRootBits(3, 1, H0.b as nat)
    ensures SquareRootBits(5, 2, H0.c as nat) && SquareRootBits(7, 2, H0.d as nat)
    ensures SquareRootBits(11, 3, H0.e as nat) && SquareRootBits(13, 3, H0.f as nat)
    ensures SquareRootBits(17, 4, H0.g as nat) && SquareRootBits(19, 4, H0.h as nat)
  {
  }
}
