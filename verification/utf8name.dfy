/** The bounded copy of a native name, against the syntax of UTF-8 in section 4 of RFC 3629. */
module Utf8Name {
  import opened Octets

  const NAME_BYTES: nat := 96
  const UINT32_MAX: nat := 0xFFFF_FFFF

  // ---------------------------------------------------------------- RFC 3629, section 4

  predicate Tail(b: byte) {
    0x80 <= b <= 0xBF
  }

  predicate Two(s: seq<byte>) {
    |s| >= 2 && 0xC2 <= s[0] <= 0xDF && Tail(s[1])
  }

  predicate Three(s: seq<byte>) {
    |s| >= 3 && Tail(s[2]) &&
    (if s[0] == 0xE0 then 0xA0 <= s[1] <= 0xBF
     else if s[0] == 0xED then 0x80 <= s[1] <= 0x9F
     else 0xE1 <= s[0] <= 0xEF && Tail(s[1]))
  }

  predicate Four(s: seq<byte>) {
    |s| >= 4 && Tail(s[2]) && Tail(s[3]) &&
    (if s[0] == 0xF0 then 0x90 <= s[1] <= 0xBF
     else if s[0] == 0xF4 then 0x80 <= s[1] <= 0x8F
     else 0xF1 <= s[0] <= 0xF3 && Tail(s[1]))
  }

  /** The length of the character `s` starts with, 0 if it starts with none. */
  function Character(s: seq<byte>): (n: nat)
    ensures n <= 4 && n <= |s|
  {
    if s == [] then 0
    else if s[0] < 0x80 then 1
    else if Two(s) then 2
    else if Three(s) then 3
    else if Four(s) then 4
    else 0
  }

  predicate WellFormed(s: seq<byte>)
    decreases |s|
  {
    s == [] || (Character(s) > 0 && WellFormed(s[Character(s)..]))
  }

  /** A first byte that announces more bytes than are left. */
  predicate Cut(s: seq<byte>) {
    s != [] && |s| < Announced(s[0])
  }

  function Announced(c: byte): nat {
    if c < 0x80 then 1 else if 0xC2 <= c <= 0xDF then 2 else if 0xE0 <= c <= 0xEF then 3
    else if 0xF0 <= c <= 0xF4 then 4 else 0
  }

  /** A character does not depend on what follows it. */
  lemma CharacterPrefix(s: seq<byte>, k: nat)
    requires k <= |s|
    ensures Character(s[..k]) > 0 ==> Character(s) == Character(s[..k])
    ensures Character(s) > 0 && Character(s) <= k ==> Character(s[..k]) == Character(s)
  {
  }

  lemma Slices(s: seq<byte>, i: nat, m: nat, n: nat)
    requires m <= i && i + n <= |s|
    ensures s[..i][m..] == s[m..][..i - m] && s[m..][i - m..] == s[i..] && s[..i + n][m..] == s[m..][..i - m + n]
    ensures s[..i + n][..i] == s[..i]
  {
  }

  lemma {:induction false} Extend(s: seq<byte>, i: nat)
    requires i <= |s| && WellFormed(s[..i]) && Character(s[i..]) > 0
    ensures WellFormed(s[..i + Character(s[i..])])
    decreases i
  {
    var n := Character(s[i..]);
    if i == 0 {
      assert s[0..] == s && s[..n][n..] == [];
      CharacterPrefix(s, n);
    } else {
      var m := Character(s[..i]);
      Slices(s, i, m, n);
      CharacterPrefix(s[..i + n], i);
      Extend(s[m..], i - m);
      var whole := s[..i + n];
      assert Character(whole) == m && WellFormed(whole[m..]);
    }
  }

  /** A well-formed text goes on with a character after any well-formed prefix. */
  lemma {:induction false} GoesOn(s: seq<byte>, i: nat)
    requires i <= |s| && WellFormed(s[..i]) && WellFormed(s)
    ensures WellFormed(s[i..])
    decreases i
  {
    if i > 0 {
      var m := Character(s[..i]);
      CharacterPrefix(s, i);
      Slices(s, i, m, 0);
      GoesOn(s[m..], i - m);
    } else { assert s[0..] == s; }
  }

  // ---------------------------------------------------------------- the decoder

  datatype Verdict = Good(next: nat) | Short | Bad

  function Significant(c: byte): nat {
    if c <= 0xDF then c % 32 else if c <= 0xEF then c % 16 else c % 8
  }

  /** The bits collected from the first byte and the tails. */
  function Point(c: byte, tails: seq<byte>): nat {
    if tails == [] then Significant(c) else 64 * Point(c, tails[..|tails| - 1]) + tails[|tails| - 1] % 64
  }

  function Least(c: byte): nat {
    if c <= 0xDF then 0x80 else if c <= 0xEF then 0x800 else 0x10000
  }

  predicate Accepted(c: byte, point: nat) {
    Least(c) <= point <= 0x10FFFF && !(0xD800 <= point <= 0xDFFF)
  }

  lemma PointOfTwo(s: seq<byte>)
    requires |s| == 2 && Announced(s[0]) == 2 && Tail(s[1])
    ensures Accepted(s[0], Point(s[0], s[1..]))
  {
    assert s[1..][..0] == [];
  }

  lemma PointOfThree(s: seq<byte>)
    requires |s| == 3 && Announced(s[0]) == 3 && Tail(s[1]) && Tail(s[2])
    ensures Accepted(s[0], Point(s[0], s[1..])) <==> Three(s)
  {
    assert s[1..][..1] == [s[1]] && [s[1]][..0] == [];
    var c: nat, t1: nat, t2: nat := s[0], s[1], s[2];
    assert Point(s[0], [s[1]]) == 64 * (c % 16) + t1 % 64;
    assert Point(s[0], s[1..]) == 64 * (64 * (c % 16) + t1 % 64) + t2 % 64;
  }

  lemma PointOfFour(s: seq<byte>)
    requires |s| == 4 && Announced(s[0]) == 4 && Tail(s[1]) && Tail(s[2]) && Tail(s[3])
    ensures Accepted(s[0], Point(s[0], s[1..])) <==> Four(s)
  {
    assert s[1..][..2] == [s[1], s[2]] && [s[1], s[2]][..1] == [s[1]] && [s[1]][..0] == [];
    var c: nat, t1: nat, t2: nat, t3: nat := s[0], s[1], s[2], s[3];
    assert Point(s[0], [s[1]]) == 64 * (c % 8) + t1 % 64;
    assert Point(s[0], [s[1], s[2]]) == 64 * (64 * (c % 8) + t1 % 64) + t2 % 64;
    assert Point(s[0], s[1..]) == 64 * (64 * (64 * (c % 8) + t1 % 64) + t2 % 64) + t3 % 64;
  }

  /** The arithmetic test of the decoder is the table of the standard. */
  lemma PointIsSyntax(s: seq<byte>)
    requires |s| >= 2 && Announced(s[0]) == |s| && forall k | 1 <= k < |s| :: Tail(s[k])
    ensures Accepted(s[0], Point(s[0], s[1..])) <==> Character(s) == |s|
  {
    if |s| == 2 { PointOfTwo(s); } else if |s| == 3 { PointOfThree(s); } else { PointOfFour(s); }
  }

  lemma BadTail(s: seq<byte>, k: nat)
    requires s != [] && 1 <= k < Announced(s[0]) <= |s| && !Tail(s[k])
    ensures Character(s) == 0
  {
  }

  /** The loop over the tails. */
  method Tails(out: array<byte>, i: nat, extra: nat, start: nat) returns (ok: bool, point: nat)
    requires i + extra < out.Length && start == Significant(out[i])
    ensures ok <==> forall k | i < k <= i + extra :: Tail(out[k])
    ensures ok ==> point == Point(out[i], out[i + 1..i + 1 + extra])
  {
    point := start;
    var j := 0;
    while j < extra
      invariant 0 <= j <= extra && forall k | i < k <= i + j :: Tail(out[k])
      invariant point == Point(out[i], out[i + 1..i + 1 + j])
    {
      var tail := out[i + 1 + j];
      if tail / 64 != 2 {
        assert !Tail(out[i + 1 + j]);
        return false, point;
      }
      assert out[i + 1..i + 1 + (j + 1)][..j] == out[i + 1..i + 1 + j];
      point := point * 64 + tail % 64;
      j := j + 1;
    }
    ok := true;
  }

  lemma Window(a: seq<byte>, i: nat, n: nat, extra: nat)
    requires i + 1 + extra <= n <= |a|
    ensures a[i..n][..1 + extra] == a[i..i + 1 + extra] && a[i..n][..1 + extra][1..] == a[i + 1..i + 1 + extra]
    ensures a[i..n][..1 + extra][0] == a[i]
    ensures forall k | 1 <= k <= extra :: a[i..n][..1 + extra][k] == a[i..n][k]
  {
  }

  /** One turn of the second loop: the character at `i` among the `n` bytes copied.  Masks and shifts of the
      C code are remainders and products here. */
  method Decode(out: array<byte>, i: nat, n: nat) returns (v: Verdict)
    requires i < n <= out.Length
    ensures v.Good? <==> Character(out[i..n]) > 0
    ensures v.Good? ==> v.next == i + Character(out[i..n])
    ensures v.Short? <==> Cut(out[i..n])
  {
    ghost var s := out[i..n];
    assert |s| == n - i && s[0] == out[i] && forall k | i <= k < n :: s[k - i] == out[k];
    var c: byte, extra: nat, point: nat, least: nat := out[i], 0, 0, 0;
    if c < 0x80 { return Good(i + 1); }
    if 0xC2 <= c <= 0xDF { extra, point, least := 1, c % 32, 0x80; }
    else if 0xE0 <= c <= 0xEF { extra, point, least := 2, c % 16, 0x800; }
    else if 0xF0 <= c <= 0xF4 { extra, point, least := 3, c % 8, 0x10000; }
    else { return Bad; }
    if extra > n - (i + 1) { return Short; }
    var tails, value := Tails(out, i, extra, point);
    if !tails {
      ghost var k :| i < k <= i + extra && !Tail(out[k]);
      BadTail(s, k - i);
      return Bad;
    }
    point := value;
    Window(out[..], i, n, extra);
    PointIsSyntax(s[..1 + extra]);
    CharacterPrefix(s, 1 + extra);
    if point < least || point > 0x10FFFF || (0xD800 <= point <= 0xDFFF) { return Bad; }
    v := Good(i + 1 + extra);
  }

  // ---------------------------------------------------------------- the copy

  /** The bytes kept of the first `n` ones when there are more: whole characters up to `k`, and at most the
      start of one more. */
  predicate KeptUpTo(text: seq<byte>, n: nat, k: nat) {
    k <= n <= |text| && WellFormed(text[..k]) && (k == n || Cut(text[k..n]))
  }

  predicate Readable(pointer: nat) {
    4096 <= pointer <= UINT32_MAX - NAME_BYTES - 1
  }

  /** copy_name; `text` is what the native string holds up to its terminating zero. */
  method CopyName(pointer: nat, text: seq<byte>, out: array<byte>) returns (ok: bool, length: nat, status: nat)
    requires out.Length == NAME_BYTES && forall k | 0 <= k < |text| :: text[k] != 0
    modifies out
    ensures ok ==>
            length <= NAME_BYTES && length <= |text| && out[..length] == text[..length] && WellFormed(text[..length])
    ensures ok ==> status == if |text| > NAME_BYTES then 2 else if text != [] then 1 else 0
    // A text that fits is taken whole if it is well formed, and refused otherwise.
    ensures |text| <= NAME_BYTES ==> (ok <==> Readable(pointer) && WellFormed(text)) && (ok ==> length == |text|)
    // A longer one is taken up to the last whole character before the limit.
    ensures |text| > NAME_BYTES ==> (ok <==> Readable(pointer) && exists k :: KeptUpTo(text, NAME_BYTES, k))
    ensures |text| > NAME_BYTES && ok ==> KeptUpTo(text, NAME_BYTES, length)
  {
    ok, length, status := false, 0, 0;
    if pointer < 4096 || pointer > UINT32_MAX - NAME_BYTES - 1 { return; }
    var n := Fetch(text, out);
    var capped := |text| > NAME_BYTES;
    var i := 0;
    while i < n
      invariant 0 <= i <= n && out[..n] == text[..n] && WellFormed(text[..i])
    {
      var v := Decode(out, i, n);
      assert out[i..n] == out[..n][i..] == text[i..n];
      match v {
        case Bad =>
          Refused(text, n, i);
          return;
        case Short =>
          if !capped {
            Refused(text, n, i);
            return;
          }
          Accept(text, n, i);
          return true, i, 2;
        case Good(next) =>
          assert text[..n][..i] == text[..i];
          Extend(text[..n], i);
          i := next;
          assert text[..n][..i] == text[..i];
      }
    }
    ok, length, status := true, n, if capped then 2 else if n > 0 then 1 else 0;
    assert text[..n] == text || capped;
    if capped { assert KeptUpTo(text, n, n); }
  }

  /** The first loop. */
  method Fetch(text: seq<byte>, out: array<byte>) returns (n: nat)
    requires out.Length == NAME_BYTES
    modifies out
    ensures n == (if |text| < NAME_BYTES then |text| else NAME_BYTES) && out[..n] == text[..n]
  {
    n := 0;
    while n < NAME_BYTES && n < |text|
      invariant 0 <= n <= NAME_BYTES && n <= |text| && out[..n] == text[..n]
    {
      out[n] := text[n];
      n := n + 1;
    }
  }

  lemma Accept(text: seq<byte>, n: nat, i: nat)
    requires i <= n <= |text| && WellFormed(text[..i]) && Cut(text[i..n])
    ensures KeptUpTo(text, n, i)
  {
  }

  lemma PartOfPrefix(text: seq<byte>, n: nat, a: nat, b: nat)
    requires a < b <= n <= |text|
    ensures text[..b][a..] == text[a..n][..b - a]
  {
    var part, whole := text[..b][a..], text[a..n][..b - a];
    assert |part| == |whole| == b - a;
    assert forall k | 0 <= k < b - a :: part[k] == text[a + k] && whole[k] == text[a + k];
  }

  /** Between two well-formed prefixes there is a whole character. */
  lemma NextCharacter(text: seq<byte>, n: nat, a: nat, b: nat)
    requires a < b <= n <= |text| && WellFormed(text[..a]) && WellFormed(text[..b])
    ensures 0 < Character(text[a..n]) <= b - a && !Cut(text[a..n])
  {
    assert text[..b][..a] == text[..a];
    GoesOn(text[..b], a);
    PartOfPrefix(text, n, a, b);
    CharacterPrefix(text[a..n], b - a);
  }

  /** No whole character at `i`: the text is not well formed, nor is any part of it kept. */
  lemma Refused(text: seq<byte>, n: nat, i: nat)
    requires i < n <= |text| && WellFormed(text[..i]) && Character(text[i..n]) == 0
    ensures n == |text| ==> !WellFormed(text)
    ensures !Cut(text[i..n]) ==> forall k :: !KeptUpTo(text, n, k)
  {
    if n == |text| {
      assert text[..n] == text;
      if WellFormed(text) { NextCharacter(text, n, i, n); }
    }
    if !Cut(text[i..n]) {
      forall k
        ensures !KeptUpTo(text, n, k)
      {
        NotKept(text, n, i, k);
      }
    }
  }

  lemma NotKept(text: seq<byte>, n: nat, i: nat, k: nat)
    requires i < n <= |text| && WellFormed(text[..i]) && Character(text[i..n]) == 0 && !Cut(text[i..n])
    ensures !KeptUpTo(text, n, k)
  {
    if KeptUpTo(text, n, k) {
      if i < k { NextCharacter(text, n, i, k); } else if k < i { NextCharacter(text, n, k, i); }
    }
  }

  /** What is kept is the longest well-formed prefix within the limit. */
  lemma LongestPrefix(text: seq<byte>, n: nat, k: nat)
    requires KeptUpTo(text, n, k)
    ensures forall j | k < j <= n :: !WellFormed(text[..j])
  {
    forall j | k < j <= n
      ensures !WellFormed(text[..j])
    {
      if WellFormed(text[..j]) { NextCharacter(text, n, k, j); }
    }
  }

  /** Every well-formed text has such a part, so it is never refused. */
  lemma {:induction false} WellFormedIsKept(text: seq<byte>, n: nat, from: nat) returns (k: nat)
    requires from <= n <= |text| && WellFormed(text) && WellFormed(text[..from])
    ensures KeptUpTo(text, n, k)
    decreases n - from
  {
    GoesOn(text, from);
    if from == n { return n; }
    var m := Character(text[from..]);
    if from + m <= n {
      Extend(text, from);
      k := WellFormedIsKept(text, n, from + m);
    } else {
      k := from;
    }
  }
}
