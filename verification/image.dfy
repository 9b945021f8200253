/** The update image: its two parsers, its printer, and the round trip between them. */
module Image {
  import opened Int64
  import opened Octets
  import opened Wrappers

  const ROOT_SIZE: nat := 441279488
  const PAYLOAD_OFFSET: nat := 340
  const FOOTER_SIZE: nat := 16

  datatype Error =
    | Truncated | UnsupportedHeader | WrongTable | MalformedTable | WrongTarget | MalformedDescription
    | UnsupportedPartition | EmptyRoot | UnexpectedData | MalformedTrailer
    | BadChecksum | Undecodable | UnexpectedSize

  datatype Result<T> = Ok(value: T) | Err(error: Error)

  datatype Layout = Layout(header: seq<byte>, compressedSize: int, compressedSha1: seq<byte>, footer: seq<byte>)

  // ---------------------------------------------------------------- the format

  function Magic(): seq<byte> { [65, 90, 48, 49] }                                       // "AZ01"
  function Target(): seq<byte> { [105, 110, 109, 117, 115, 105, 99, 44, 97, 99, 118, 98] }  // "inmusic,acvb"
  function PartitionList(): seq<byte> { [80, 65, 82, 84, 76, 0, 0, 0] }                  // "PARTL"
  function Descriptor(): (d: seq<byte>)
    ensures |d| == 40
  {
    [6, 0, 0, 0, 114, 111, 111, 116, 102, 115, 0, 0, 2, 0, 0, 0, 120, 122, 0, 0, 1, 0, 0, 0,
     4, 0, 0, 0, 115, 104, 97, 49, 0, 0, 0, 0, 20, 0, 0, 0]
  }
  function Footer(): (f: seq<byte>)
    ensures |f| == FOOTER_SIZE
  {
    [69, 79, 70, 0, 16, 0, 0, 0, 0, 0, 0, 0, 0, 0, 0, 0]                                 // "EOF"
  }

  function Little(b: seq<byte>): nat {
    if b == [] then 0 else b[0] + 256 * Little(b[1..])
  }

  function Digit(n: nat, i: nat): byte {
    if i == 0 then n % 256 else Digit(n / 256, i - 1)
  }

  function LittleBytes(n: nat, k: nat): (b: seq<byte>)
    ensures |b| == k
  {
    seq(k, i requires 0 <= i < k => Digit(n, i))
  }

  function Power(k: nat): nat {
    if k == 0 then 1 else 256 * Power(k - 1)
  }

  lemma {:induction false} LittleRoundTrip(n: nat, k: nat)
    requires n < Power(k)
    ensures Little(LittleBytes(n, k)) == n
  {
    if k > 0 {
      assert LittleBytes(n, k)[1..] == LittleBytes(n / 256, k - 1);
      LittleRoundTrip(n / 256, k - 1);
    }
  }

  function U32(b: seq<byte>, at: nat): nat
    requires at + 4 <= |b|
  {
    Little(b[at..at + 4])
  }

  predicate Zero(b: seq<byte>) {
    forall i | 0 <= i < |b| :: b[i] == 0
  }

  /** Entry `i` of the compatibility table: a length and up to sixteen bytes of name, zero filled. */
  predicate Entry(h: seq<byte>, i: nat)
    requires |h| == PAYLOAD_OFFSET && i < 8
  {
    var at := 44 + 20 * i;
    var length := U32(h, at);
    1 <= length <= 16 && Zero(h[at + 4 + length..at + 20])
  }

  predicate Names(h: seq<byte>, i: nat)
    requires |h| == PAYLOAD_OFFSET && i < 8
  {
    var at := 44 + 20 * i;
    var length := U32(h, at);
    length <= 16 && h[at + 4..at + 4 + length] == Target()
  }

  predicate Preamble(h: seq<byte>)
    requires |h| == PAYLOAD_OFFSET
  {
    h[..4] == Magic() && U32(h, 4) == 1 && U32(h, 8) == 264 && U32(h, 12) == 23 && h[39] == 0 && U32(h, 40) == 8
  }

  predicate Described(h: seq<byte>)
    requires |h| == PAYLOAD_OFFSET
  {
    var length := U32(h, 240);
    1 <= length <= 20 && Zero(h[244 + length..264])
  }

  ghost predicate HeaderOk(h: seq<byte>) {
    && |h| == PAYLOAD_OFFSET && Preamble(h)
    && (forall i | 0 <= i < 8 :: Entry(h, i)) && (exists i :: 0 <= i < 8 && Names(h, i))
    && U32(h, 204) == 8 && Described(h)
    && h[264..272] == PartitionList() && h[280..320] == Descriptor()
  }

  function Aligned(n: nat): nat {
    (n + 7) / 8 * 8
  }

  /** The whole file: header, compressed root, zeros up to a multiple of eight, footer. */
  ghost predicate WellFormed(image: seq<byte>) {
    && |image| >= PAYLOAD_OFFSET && HeaderOk(image[..PAYLOAD_OFFSET])
    && var size := Little(image[272..280]);
       var end := PAYLOAD_OFFSET + size;
       && 0 < size && |image| == Aligned(end) + FOOTER_SIZE
       && Zero(image[end..Aligned(end)]) && image[Aligned(end)..] == Footer()
  }

  /** What both parsers return for a well-formed image. */
  function Parsed(image: seq<byte>): Layout
    requires |image| >= PAYLOAD_OFFSET
  {
    Layout(image[..PAYLOAD_OFFSET], Little(image[272..280]), image[320..340], Footer())
  }

  // ---------------------------------------------------------------- the parsers

  method AllZero(data: seq<byte>) returns (r: bool)
    ensures r == Zero(data)
  {
    var i := 0;
    while i < |data|
      invariant 0 <= i <= |data| && Zero(data[..i])
    {
      if data[i] != 0 { return false; }
      assert data[..i + 1] == data[..i] + [data[i]];
      i := i + 1;
    }
    assert data[..i] == data;
    r := true;
  }

  method CheckTable(h: seq<byte>) returns (e: Option<Error>)
    requires |h| == PAYLOAD_OFFSET
    ensures e == None <==>
            (forall i | 0 <= i < 8 :: Entry(h, i)) && (exists i :: 0 <= i < 8 && Names(h, i)) && U32(h, 204) == 8
    ensures e == Some(MalformedTable) <==> exists i :: 0 <= i < 8 && !Entry(h, i)
  {
    var pos, found, i := 44, false, 0;
    while i < 8
      invariant 0 <= i <= 8 && pos == 44 + 20 * i
      invariant forall j | 0 <= j < i :: Entry(h, j)
      invariant found <==> exists j :: 0 <= j < i && Names(h, j)
    {
      var length := U32(h, pos);
      pos := pos + 4;
      var zero := false;
      if 1 <= length <= 16 { zero := AllZero(h[pos + length..pos + 16]); }
      if length < 1 || length > 16 || !zero {
        assert !Entry(h, i);
        return Some(MalformedTable);
      }
      assert Entry(h, i);
      if h[pos..pos + length] == Target() {
        assert Names(h, i);
        found := true;
      } else {
        assert !Names(h, i);
      }
      pos, i := pos + 16, i + 1;
    }
    if !found || U32(h, pos) != 8 { return Some(WrongTarget); }
    e := None;
  }

  method CheckHeader(h: seq<byte>) returns (e: Option<Error>)
    requires |h| == PAYLOAD_OFFSET
    ensures e == None <==> HeaderOk(h)
  {
    if h[..4] != Magic() || U32(h, 4) != 1 || U32(h, 8) != 264 || U32(h, 12) != 23 || h[39] != 0 {
      return Some(UnsupportedHeader);
    }
    if U32(h, 40) != 8 { return Some(WrongTable); }
    e := CheckTable(h);
    if e != None { return; }
    var length := U32(h, 240);
    var zero := false;
    if 1 <= length <= 256 && 244 + length <= 264 { zero := AllZero(h[244 + length..264]); }
    if !zero { return Some(MalformedDescription); }
    if h[264..272] != PartitionList() || h[280..320] != Descriptor() { return Some(UnsupportedPartition); }
    e := None;
  }

  /** Where the header says the root ends, in int64 arithmetic, and whether the length agrees. */
  method Extent(header: seq<byte>, length: nat) returns (e: Option<Error>, size: int, end: int, aligned: int)
    requires |header| == PAYLOAD_OFFSET && length <= INT64_MAX
    ensures e.None? <==>
            0 < Little(header[272..280]) && length == Aligned(PAYLOAD_OFFSET + Little(header[272..280])) + FOOTER_SIZE
    ensures e.None? ==> size == Little(header[272..280]) && end == PAYLOAD_OFFSET + size && aligned == Aligned(end)
  {
    ghost var u := Little(header[272..280]);
    LittleBound(header[272..280]);
    size, end, aligned := Wrap64(Little(header[272..280])), 0, 0;
    if size <= 0 {
      TooLarge(u, length);
      return Some(EmptyRoot), size, end, aligned;
    }
    end := Wrap64(PAYLOAD_OFFSET + size);
    aligned := Wrap64(Quotient(Wrap64(end + 7), 8) * 8);
    Ends(u, length);
    if length != Wrap64(aligned + FOOTER_SIZE) { return Some(UnexpectedData), size, end, aligned; }
    e := None;
  }

  lemma TooLarge(size: nat, length: nat)
    requires size < 0x1_0000_0000_0000_0000 && Wrap64(size) <= 0 && length <= INT64_MAX
    ensures size == 0 || length != Aligned(PAYLOAD_OFFSET + size) + FOOTER_SIZE
  {
  }

  /** inspectImageBytes */
  method InspectBytes(image: seq<byte>) returns (r: Result<Layout>)
    requires |image| <= INT64_MAX
    ensures r.Ok? <==> WellFormed(image)
    ensures r.Ok? ==> r.value == Parsed(image)
  {
    if |image| < PAYLOAD_OFFSET + FOOTER_SIZE { return Err(Truncated); }
    var header := image[..PAYLOAD_OFFSET];
    var e := CheckHeader(header);
    if e.Some? { return Err(e.value); }
    assert header[272..280] == image[272..280] && header[320..340] == image[320..340];
    var size, end, aligned;
    e, size, end, aligned := Extent(header, |image|);
    if e.Some? { return Err(e.value); }
    var zero := AllZero(image[end..aligned]);
    if !zero || image[aligned..] != Footer() { return Err(MalformedTrailer); }
    r := Ok(Layout(header, size, header[320..340], Footer()));
  }

  lemma SplitTail(file: seq<byte>, end: nat, pad: nat)
    requires end + pad <= |file|
    ensures file[end..][..pad] == file[end..end + pad] && file[end..][pad..] == file[end + pad..]
  {
  }

  /** inspectImage: `file` is what the file holds; the trailer is read as one piece and then split. */
  method InspectFile(file: seq<byte>) returns (r: Result<Layout>)
    requires |file| <= INT64_MAX
    ensures r.Ok? <==> WellFormed(file)
    ensures r.Ok? ==> r.value == Parsed(file)
  {
    if |file| < PAYLOAD_OFFSET { return Err(Truncated); }
    var header := file[..PAYLOAD_OFFSET];
    var e := CheckHeader(header);
    if e.Some? { return Err(e.value); }
    assert header[272..280] == file[272..280] && header[320..340] == file[320..340];
    var size, end, aligned;
    e, size, end, aligned := Extent(header, |file|);
    if e.Some? { return Err(e.value); }
    var tail, pad := file[end..], aligned - end;
    SplitTail(file, end, pad);
    assert end + pad == aligned;
    var zero := AllZero(tail[..pad]);
    if !zero || tail[pad..] != Footer() { return Err(MalformedTrailer); }
    r := Ok(Layout(header, size, header[320..340], tail[pad..]));
  }

  lemma LittleBound(b: seq<byte>)
    requires |b| == 8
    ensures Little(b) < 0x1_0000_0000_0000_0000
  {
    LittleBelow(b);
    assert Power(8) == 0x1_0000_0000_0000_0000;
  }

  lemma {:induction false} LittleBelow(b: seq<byte>)
    ensures Little(b) < Power(|b|)
  {
    if b != [] { LittleBelow(b[1..]); }
  }

  lemma WrapSmall(x: int)
    ensures -INT64_MAX <= x <= INT64_MAX ==> Wrap64(x) == x
    ensures INT64_MAX < x <= 2 * INT64_MAX ==> Wrap64(x) == x - 0x1_0000_0000_0000_0000
  {
  }

  lemma AlignmentFits(size: nat)
    requires Aligned(PAYLOAD_OFFSET + size) + FOOTER_SIZE <= INT64_MAX
    ensures var end := PAYLOAD_OFFSET + size;
            Wrap64(end) == end && Wrap64(end + 7) == end + 7 && Quotient(end + 7, 8) * 8 == Aligned(end)
            && Wrap64(Aligned(end)) == Aligned(end) && Wrap64(Aligned(end) + FOOTER_SIZE) == Aligned(end) + FOOTER_SIZE
  {
    var end := PAYLOAD_OFFSET + size;
    WrapSmall(end);
    WrapSmall(end + 7);
    WrapSmall(Aligned(end));
    WrapSmall(Aligned(end) + FOOTER_SIZE);
  }

  /** A size for which some sum wraps makes the total negative. */
  lemma AlignmentWraps(size: nat)
    requires size <= INT64_MAX < Aligned(PAYLOAD_OFFSET + size) + FOOTER_SIZE
    ensures var end := Wrap64(PAYLOAD_OFFSET + size);
            var aligned := Wrap64(Quotient(Wrap64(end + 7), 8) * 8);
            Wrap64(aligned + FOOTER_SIZE) < 0
  {
    var end := Wrap64(PAYLOAD_OFFSET + size);
    WrapSmall(PAYLOAD_OFFSET + size);
    WrapSmall(end + 7);
    var q := Quotient(Wrap64(end + 7), 8) * 8;
    WrapSmall(q);
    WrapSmall(Wrap64(q) + FOOTER_SIZE);
  }

  /** Where the sums wrap, the length test refuses; where they do not, they are the format's own. */
  lemma Ends(size: nat, length: nat)
    requires size < 0x1_0000_0000_0000_0000 && length <= INT64_MAX && Wrap64(size) > 0
    ensures var end := Wrap64(PAYLOAD_OFFSET + Wrap64(size));
            var aligned := Wrap64(Quotient(Wrap64(end + 7), 8) * 8);
            && Wrap64(size) == size
            && (length == Wrap64(aligned + FOOTER_SIZE) <==> length == Aligned(PAYLOAD_OFFSET + size) + FOOTER_SIZE)
            && (length == Wrap64(aligned + FOOTER_SIZE) ==> end == PAYLOAD_OFFSET + size && aligned == Aligned(end))
  {
    assert size <= INT64_MAX && Wrap64(size) == size;
    if Aligned(PAYLOAD_OFFSET + size) + FOOTER_SIZE <= INT64_MAX { AlignmentFits(size); } else { AlignmentWraps(size); }
  }

  // ---------------------------------------------------------------- the printer

  ghost predicate SameElsewhere(h: seq<byte>, h': seq<byte>) {
    |h| == |h'| == PAYLOAD_OFFSET && forall i | 0 <= i < 272 || 280 <= i < 320 :: h[i] == h'[i]
  }

  function PrintedHeader(header: seq<byte>, size: nat, sha1: seq<byte>): (h: seq<byte>)
    requires |header| == PAYLOAD_OFFSET && |sha1| == 20
    ensures |h| == PAYLOAD_OFFSET
  {
    header[..272] + LittleBytes(size, 8) + header[280..320] + sha1
  }

  /** A header, the compressed root, zeros up to a multiple of eight, and the footer. */
  function Assembled(header: seq<byte>, compressed: seq<byte>): seq<byte> {
    var end := |header| + |compressed|;
    header + compressed + seq(Aligned(end) - end, _ => 0) + Footer()
  }

  /** The image encodeImageBytes prints. */
  function Printed(header: seq<byte>, compressed: seq<byte>, sha1: seq<byte>): seq<byte>
    requires |header| == PAYLOAD_OFFSET && |sha1| == 20
  {
    Assembled(PrintedHeader(header, |compressed|, sha1), compressed)
  }

  type Codec = seq<byte> -> seq<byte>

  /** copy */
  method CopyAt(result: array<byte>, at: nat, data: seq<byte>)
    requires at + |data| <= result.Length
    modifies result
    ensures result[..] == old(result[..])[..at] + data + old(result[..])[at + |data|..]
  {
    forall i | 0 <= i < |data| { result[at + i] := data[i]; }
  }

  /** Three copies into a zeroed buffer: what comes before, between and after. */
  lemma Filled(header: seq<byte>, compressed: seq<byte>, footer: seq<byte>, b0: seq<byte>, b1: seq<byte>, b2: seq<byte>,
               b3: seq<byte>, padding: nat)
    requires |b0| == |header| + |compressed| + padding + |footer| && Zero(b0)
    requires b1 == header + b0[|header|..]
    requires b2 == b1[..|header|] + compressed + b1[|header| + |compressed|..]
    requires b3 == b2[..|header| + |compressed| + padding] + footer
    ensures b3 == header + compressed + seq(padding, _ => 0) + footer
  {
    assert b1[..|header|] == header;
    var tail := b1[|header| + |compressed|..];
    assert tail == b0[|header| + |compressed|..];
    assert b2 == header + compressed + tail;
    assert b2[..|header| + |compressed| + padding] == header + compressed + tail[..padding];
    assert tail[..padding] == seq(padding, _ => 0);
  }

  /** The result buffer of encodeImageBytes, filled in place. */
  method Assemble(header: seq<byte>, compressed: seq<byte>, footer: seq<byte>) returns (image: seq<byte>)
    requires |header| == PAYLOAD_OFFSET && footer == Footer()
    ensures image == Assembled(header, compressed)
  {
    var end := PAYLOAD_OFFSET + |compressed|;
    var padding := (8 - end % 8) % 8;
    var result := new byte[end + padding + |footer|](_ => 0);
    ghost var b0 := result[..];
    CopyAt(result, 0, header);
    ghost var b1 := result[..];
    CopyAt(result, PAYLOAD_OFFSET, compressed);
    ghost var b2 := result[..];
    CopyAt(result, end + padding, footer);
    image := result[..];
    Filled(header, compressed, footer, b0, b1, b2, image, padding);
    Padding(end, padding);
  }

  lemma Padding(end: nat, padding: nat)
    requires padding == (8 - end % 8) % 8
    ensures Aligned(end) - end == padding
  {
  }

  /** encodeImageBytes */
  method EncodeBytes(root: seq<byte>, layout: Layout, compress: Codec, sha1: Codec) returns (image: seq<byte>)
    requires |layout.header| == PAYLOAD_OFFSET && layout.footer == Footer()
    requires |sha1(compress(root))| == 20
    ensures image == Printed(layout.header, compress(root), sha1(compress(root)))
  {
    var compressed := compress(root);
    image := Assemble(PrintedHeader(layout.header, |compressed|, sha1(compressed)), compressed, layout.footer);
  }

  /** encodeImage: the header goes out blank first, and is written over once size and digest are known. */
  method EncodeFile(root: seq<byte>, layout: Layout, compress: Codec, sha1: Codec) returns (file: seq<byte>)
    requires |layout.header| == PAYLOAD_OFFSET && layout.footer == Footer()
    requires |sha1(compress(root))| == 20
    ensures file == Printed(layout.header, compress(root), sha1(compress(root)))
  {
    var blank := layout.header[..272] + seq(8, _ => 0) + layout.header[280..320] + seq(20, _ => 0);
    var compressed := compress(root);
    var end := PAYLOAD_OFFSET + |compressed|;
    var padding := (8 - end % 8) % 8;
    file := blank + (compressed + seq(padding, _ => 0) + layout.footer);
    Padding(end, padding);
    var header := blank[..272] + LittleBytes(|compressed|, 8) + blank[280..320] + sha1(compressed);
    Rewritten(layout.header, blank, |compressed|, sha1(compressed));
    file := header + file[PAYLOAD_OFFSET..];
  }

  lemma Rewritten(header: seq<byte>, blank: seq<byte>, size: nat, sha1: seq<byte>)
    requires |header| == PAYLOAD_OFFSET && |sha1| == 20
    requires blank == header[..272] + seq(8, _ => 0) + header[280..320] + seq(20, _ => 0)
    ensures blank[..272] + LittleBytes(size, 8) + blank[280..320] + sha1 == PrintedHeader(header, size, sha1)
  {
  }

  // ---------------------------------------------------------------- the round trip

  type Decompressor = seq<byte> -> Option<seq<byte>>

  /** decodeRootBytes */
  function DecodeBytes(image: seq<byte>, layout: Layout, decompress: Decompressor, sha1: Codec): Result<seq<byte>>
    requires 0 <= layout.compressedSize && PAYLOAD_OFFSET + layout.compressedSize <= |image|
  {
    var payload := image[PAYLOAD_OFFSET..PAYLOAD_OFFSET + layout.compressedSize];
    if sha1(payload) != layout.compressedSha1 then Err(BadChecksum)
    else match decompress(payload)
      case None => Err(Undecodable)
      case Some(root) => if |root| != ROOT_SIZE then Err(UnexpectedSize) else Ok(root)
  }

  lemma SliceKept(h: seq<byte>, h': seq<byte>, from: nat, to: nat)
    requires SameElsewhere(h, h') && from <= to <= PAYLOAD_OFFSET && (to <= 272 || (280 <= from && to <= 320))
    ensures h'[from..to] == h[from..to]
  {
  }

  lemma EntryKept(h: seq<byte>, h': seq<byte>, i: nat)
    requires SameElsewhere(h, h') && i < 8
    ensures Entry(h', i) == Entry(h, i) && Names(h', i) == Names(h, i)
  {
    var at := 44 + 20 * i;
    SliceKept(h, h', at, at + 4);
    var length := U32(h, at);
    if length <= 16 {
      SliceKept(h, h', at + 4, at + 4 + length);
      SliceKept(h, h', at + 4 + length, at + 20);
    }
  }

  lemma DescriptionKept(h: seq<byte>, h': seq<byte>)
    requires SameElsewhere(h, h')
    ensures Described(h') == Described(h) && U32(h', 204) == U32(h, 204)
  {
    SliceKept(h, h', 204, 208);
    SliceKept(h, h', 240, 244);
    if U32(h, 240) <= 20 { SliceKept(h, h', 244 + U32(h, 240), 264); }
  }

  lemma PreambleKept(h: seq<byte>, h': seq<byte>)
    requires SameElsewhere(h, h')
    ensures Preamble(h') == Preamble(h)
  {
    SliceKept(h, h', 0, 4);
    SliceKept(h, h', 4, 8);
    SliceKept(h, h', 8, 12);
    SliceKept(h, h', 12, 16);
    SliceKept(h, h', 40, 44);
  }

  /** Size and digest are not part of what makes a header acceptable. */
  lemma HeaderKept(h: seq<byte>, h': seq<byte>)
    requires SameElsewhere(h, h') && HeaderOk(h)
    ensures HeaderOk(h')
  {
    PreambleKept(h, h');
    DescriptionKept(h, h');
    forall i | 0 <= i < 8
      ensures Entry(h', i) && (Names(h, i) ==> Names(h', i))
    {
      EntryKept(h, h', i);
    }
    SliceKept(h, h', 264, 272);
    SliceKept(h, h', 280, 320);
  }

  lemma PrintedParts(header: seq<byte>, compressed: seq<byte>, sha1: seq<byte>)
    requires |header| == PAYLOAD_OFFSET && |sha1| == 20
    ensures var p, h := Printed(header, compressed, sha1), PrintedHeader(header, |compressed|, sha1);
            var end := PAYLOAD_OFFSET + |compressed|;
            && |p| == Aligned(end) + FOOTER_SIZE
            && p[..PAYLOAD_OFFSET] == h && p[PAYLOAD_OFFSET..end] == compressed
            && Zero(p[end..Aligned(end)]) && p[Aligned(end)..] == Footer()
            && p[272..280] == LittleBytes(|compressed|, 8) && p[320..340] == sha1
            && SameElsewhere(header, h)
  {
    var p, h := Printed(header, compressed, sha1), PrintedHeader(header, |compressed|, sha1);
    assert p[..PAYLOAD_OFFSET] == h;
    assert h[272..280] == LittleBytes(|compressed|, 8) && h[320..340] == sha1;
    assert p[272..280] == p[..PAYLOAD_OFFSET][272..280] && p[320..340] == p[..PAYLOAD_OFFSET][320..340];
  }

  /** Printing with the layout of any well-formed image gives a well-formed image that parses to the new size
      and digest and otherwise the same header, and whose root decodes to the very root printed; that last
      exactly for roots of the one size the decoder takes. */
  lemma RoundTrip(image: seq<byte>, root: seq<byte>, compress: Codec, decompress: Decompressor, sha1: Codec)
    requires WellFormed(image)
    requires decompress(compress(root)) == Some(root) && 0 < |compress(root)| < INT64_MAX &&
             |sha1(compress(root))| == 20
    ensures var layout := Parsed(image);
            var printed := Printed(layout.header, compress(root), sha1(compress(root)));
            && WellFormed(printed)
            && Parsed(printed) == Layout(PrintedHeader(layout.header, |compress(root)|, sha1(compress(root))),
                                         |compress(root)|, sha1(compress(root)), layout.footer)
            && SameElsewhere(layout.header, Parsed(printed).header)
            && DecodeBytes(printed, Parsed(printed), decompress, sha1)
               == if |root| == ROOT_SIZE then Ok(root) else Err(UnexpectedSize)
  {
    var header, c := image[..PAYLOAD_OFFSET], compress(root);
    PrintedParts(header, c, sha1(c));
    HeaderKept(header, PrintedHeader(header, |c|, sha1(c)));
    assert Power(8) == 0x1_0000_0000_0000_0000;
    LittleRoundTrip(|c|, 8);
  }
}
