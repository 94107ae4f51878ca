/**
 * PNG as image-io.ts reads and writes it: the filters of RFC 2083 section 6, the chunk loop and the expansion to RGBA.
 * Compression is a pair of functions of which only `inflate(deflate(x)) == x` is used; checksums are opaque bytes.
 */
module Png {
  import opened Bits
  import opened Wrappers

  // ---------- row filters (RFC 2083 section 6) ----------

  function Abs(x: int): nat { if x < 0 then -x else x }

  function Paeth(a: byte, b: byte, c: byte): byte {
    var p := a + b - c;
    var pa, pb, pc := Abs(p - a), Abs(p - b), Abs(p - c);
    if pa <= pb && pa <= pc then a else if pb <= pc then b else c
  }

  /** The Paeth predictor is the neighbour nearest to a + b - c, ties going to a, then b. */
  lemma PaethIsNearest(a: byte, b: byte, c: byte)
    ensures var p, r := a + b - c, Paeth(a, b, c);
      && r in {a, b, c}
      && Abs(p - r) <= Abs(p - a) && Abs(p - r) <= Abs(p - b) && Abs(p - r) <= Abs(p - c)
      && (r != a ==> Abs(p - r) < Abs(p - a)) && (r !in {a, b} ==> Abs(p - r) < Abs(p - b))
  {}

  /** What filter `f` predicts from the left, upper and upper-left bytes; unknown filters predict 0 as None does. */
  function Predict(f: byte, a: byte, b: byte, c: byte): byte {
    if f == 1 then a else if f == 2 then b else if f == 3 then (a + b) / 2 else if f == 4 then Paeth(a, b, c) else 0
  }

  /** n * size, by addition. */
  function Times(n: nat, size: nat): nat { if n == 0 then 0 else size + Times(n - 1, size) }

  lemma {:induction false} TimesIsProduct(n: nat, size: nat)
    ensures Times(n, size) == n * size
  {
    if n > 0 { TimesIsProduct(n - 1, size); }
  }

  lemma {:induction false} TimesMonotone(m: nat, n: nat, size: nat)
    requires m <= n
    ensures Times(m, size) <= Times(n, size)
  {
    if m < n { TimesMonotone(m, n - 1, size); }
  }

  /** Bytes per complete pixel and per row. */
  datatype Layout = Layout(bpp: nat, stride: nat)

  /** The prediction for byte `i` of row `y`, whose position in the image is `k`, from the bytes before it. */
  function Predicted(f: byte, px: seq<byte>, k: nat, s: Layout, y: nat, i: nat): byte
    requires s.bpp >= 1 && i < s.stride && i <= k <= |px| && (y > 0 ==> i + s.stride <= k)
  {
    Predict(f, if i >= s.bpp then px[k - s.bpp] else 0,
               if y > 0 then px[k - s.stride] else 0,
               if y > 0 && i >= s.bpp then px[k - s.stride - s.bpp] else 0)
  }

  /** The filtered bytes of row `y` from byte `i` on. */
  function FilteredRow(px: seq<byte>, f: byte, s: Layout, y: nat, k: nat, i: nat): (r: seq<byte>)
    requires s.bpp >= 1 && i <= s.stride && i <= k && (y > 0 ==> i + s.stride <= k) && k + s.stride - i <= |px|
    ensures |r| == s.stride - i
    decreases s.stride - i
  {
    if i == s.stride then []
        else [(px[k] - Predicted(f, px, k, s, y, i)) % 256] + FilteredRow(px, f, s, y, k + 1, i + 1)
  }

  /** The image from row `y` on, each row preceded by its filter. */
  function Filtered(px: seq<byte>, fs: seq<byte>, s: Layout, y: nat, k: nat): seq<byte>
    requires s.bpp >= 1 && y <= |fs| && k + Times(|fs| - y, s.stride) == |px| && (y > 0 ==> s.stride <= k)
    decreases |fs| - y
  {
    if y == |fs| then []
    else [fs[y]] + FilteredRow(px, fs[y], s, y, k, 0) + Filtered(px, fs, s, y + 1, k + s.stride)
  }

  // ---------- reconstruction ----------

  /**
   * Byte `at` of the inflated data turned back into an image byte; data that has run out reads as NaN & 0xff, which is
   * 0.
   */
  function Rebuild(raw: seq<byte>, at: nat, f: byte, s: Layout, y: nat, i: nat, done: seq<byte>): byte
    requires s.bpp >= 1 && i < s.stride && i <= |done| && (y > 0 ==> i + s.stride <= |done|)
  {
    if at < |raw| then (raw[at] + Predicted(f, done, |done|, s, y, i)) % 256 else 0
  }

  function RebuiltRow(raw: seq<byte>, at: nat, f: byte, s: Layout, y: nat, i: nat, done: seq<byte>): (r: seq<byte>)
    requires s.bpp >= 1 && i <= s.stride && i <= |done| && (y > 0 ==> i + s.stride <= |done|)
    ensures |r| == |done| + s.stride - i
    decreases s.stride - i
  {
    if i == s.stride then done
    else RebuiltRow(raw, at + 1, f, s, y, i + 1, done + [Rebuild(raw, at, f, s, y, i, done)])
  }

  function ByteAt(raw: seq<byte>, at: nat): byte { if at < |raw| then raw[at] else 0 }

  /** The image after `height` rows, of which the first `y` are `done`. */
  function Rebuilt(raw: seq<byte>, at: nat, s: Layout, height: nat, y: nat, done: seq<byte>): (r: seq<byte>)
    requires s.bpp >= 1 && y <= height && (y > 0 ==> s.stride <= |done|)
    ensures |r| == |done| + Times(height - y, s.stride)
    decreases height - y
  {
    if y == height then done
    else Rebuilt(raw, at + 1 + s.stride, s, height, y + 1, RebuiltRow(raw, at + 1, ByteAt(raw, at), s, y, 0, done))
  }

  lemma {:induction false} RowInverts(px: seq<byte>, raw: seq<byte>, at: nat, f: byte, s: Layout, y: nat, k: nat,
      i: nat)
    requires s.bpp >= 1 && i <= s.stride && i <= k && (y > 0 ==> i + s.stride <= k) && k + s.stride - i <= |px|
    requires at + s.stride - i <= |raw| && raw[at..at + s.stride - i] == FilteredRow(px, f, s, y, k, i)
    ensures RebuiltRow(raw, at, f, s, y, i, px[..k]) == px[..k + s.stride - i]
    decreases s.stride - i
  {
    hide Predict;
    if i < s.stride {
      var line := raw[at..at + s.stride - i];
      assert line[0] == raw[at] && line[1..] == raw[at + 1..at + s.stride - i];
      assert Predicted(f, px[..k], k, s, y, i) == Predicted(f, px, k, s, y, i);
      SubtractAdd(px[k], Predicted(f, px, k, s, y, i));
      assert px[..k] + [px[k]] == px[..k + 1];
      RowInverts(px, raw, at + 1, f, s, y, k + 1, i + 1);
    }
  }

  lemma SubtractAdd(x: byte, p: byte)
    ensures ((x - p) % 256 + p) % 256 == x
  {}

  /** Reconstruction inverts filtering, whatever filter each row chose. */
  lemma {:induction false} RowsInvert(px: seq<byte>, fs: seq<byte>, raw: seq<byte>, at: nat, s: Layout, y: nat, k: nat)
    requires s.bpp >= 1 && y <= |fs| && k + Times(|fs| - y, s.stride) == |px| && (y > 0 ==> s.stride <= k)
    requires at <= |raw| && raw[at..] == Filtered(px, fs, s, y, k)
    ensures Rebuilt(raw, at, s, |fs|, y, px[..k]) == px
    decreases |fs| - y
  {
    hide RebuiltRow, Filtered, FilteredRow, Rebuilt;
    if y == |fs| {
      NoMoreRows(raw, at, s, y, px[..k]);
      assert px[..k] == px;
    } else {
      RowSplit(px, fs, raw, at, s, y, k);
      RowInverts(px, raw, at + 1, fs[y], s, y, k, 0);
      OneMoreRow(raw, at, s, |fs|, y, px[..k]);
      RowsInvert(px, fs, raw, at + 1 + s.stride, s, y + 1, k + s.stride);
    }
  }

  lemma NoMoreRows(raw: seq<byte>, at: nat, s: Layout, height: nat, done: seq<byte>)
    requires s.bpp >= 1 && (height > 0 ==> s.stride <= |done|)
    ensures Rebuilt(raw, at, s, height, height, done) == done
  {}

  lemma OneMoreRow(raw: seq<byte>, at: nat, s: Layout, height: nat, y: nat, done: seq<byte>)
    requires s.bpp >= 1 && y < height && (y > 0 ==> s.stride <= |done|)
    ensures Rebuilt(raw, at, s, height, y, done)
         == Rebuilt(raw, at + 1 + s.stride, s, height, y + 1, RebuiltRow(raw, at + 1, ByteAt(raw, at), s, y, 0, done))
  {
    hide RebuiltRow;
  }

  lemma RowSplit(px: seq<byte>, fs: seq<byte>, raw: seq<byte>, at: nat, s: Layout, y: nat, k: nat)
    requires s.bpp >= 1 && y < |fs| && k + Times(|fs| - y, s.stride) == |px| && (y > 0 ==> s.stride <= k)
    requires at <= |raw| && raw[at..] == Filtered(px, fs, s, y, k)
    ensures at + 1 + s.stride <= |raw| && raw[at] == fs[y]
    ensures raw[at + 1..at + 1 + s.stride] == FilteredRow(px, fs[y], s, y, k, 0)
    ensures raw[at + 1 + s.stride..] == Filtered(px, fs, s, y + 1, k + s.stride)
  {
    var row, more := FilteredRow(px, fs[y], s, y, k, 0), Filtered(px, fs, s, y + 1, k + s.stride);
    FilteredSplit(px, fs, s, y, k);
    hide FilteredRow, Filtered;
    Slices(raw, at, fs[y], row, more);
  }

  lemma FilteredSplit(px: seq<byte>, fs: seq<byte>, s: Layout, y: nat, k: nat)
    requires s.bpp >= 1 && y < |fs| && k + Times(|fs| - y, s.stride) == |px| && (y > 0 ==> s.stride <= k)
    ensures Filtered(px, fs, s, y, k)
         == [fs[y]] + FilteredRow(px, fs[y], s, y, k, 0) + Filtered(px, fs, s, y + 1, k + s.stride)
  {
    hide FilteredRow;
  }

  lemma Slices(raw: seq<byte>, at: nat, f: byte, row: seq<byte>, more: seq<byte>)
    requires at <= |raw| && raw[at..] == [f] + row + more
    ensures at + 1 + |row| <= |raw| && raw[at] == f
    ensures raw[at + 1..at + 1 + |row|] == row && raw[at + 1 + |row|..] == more
  {
    var tail := raw[at..];
    assert raw[at] == tail[0];
    assert raw[at + 1..at + 1 + |row|] == tail[1..1 + |row|];
    assert raw[at + 1 + |row|..] == tail[1 + |row|..];
  }

  /** The reconstruction loops of decodePng, in place on `px`. */
  method Unfilter(raw: seq<byte>, s: Layout, height: nat) returns (px: array<byte>)
    requires s.bpp >= 1
    ensures px[..] == Rebuilt(raw, 0, s, height, 0, []) && fresh(px)
  {
    hide Predict, RebuiltRow, Rebuilt;
    var stride := s.stride;
    TimesIsProduct(height, stride);
    px := new byte[stride * height](_ => 0);
    ghost var goal := Rebuilt(raw, 0, s, height, 0, []);
    assert px[..0] == [];
    var y := 0;
    while y < height
      invariant 0 <= y <= height && y * stride <= px.Length == height * stride && (y > 0 ==> stride <= y * stride)
      invariant goal == Rebuilt(raw, y * (stride + 1), s, height, y, px[..y * stride])
    {
      NextRow(y, height, stride);
      OneMoreRow(raw, y * (stride + 1), s, height, y, px[..y * stride]);
      var f := ByteAt(raw, y * (stride + 1));
      UnfilterRow(raw, y * (stride + 1) + 1, f, s, y, y * stride, px);
      y := y + 1;
    }
    NoMoreRows(raw, height * (stride + 1), s, height, px[..height * stride]);
    assert px[..height * stride] == px[..];
  }

  lemma NextRow(y: nat, height: nat, stride: nat)
    requires y < height
    ensures (y + 1) * stride == y * stride + stride <= height * stride
    ensures (y + 1) * (stride + 1) == y * (stride + 1) + 1 + stride
  {
    TimesIsProduct(y, stride);
    TimesIsProduct(y + 1, stride);
    TimesIsProduct(height, stride);
    TimesIsProduct(y, stride + 1);
    TimesIsProduct(y + 1, stride + 1);
    TimesMonotone(y + 1, height, stride);
  }

  method UnfilterRow(raw: seq<byte>, at: nat, f: byte, s: Layout, y: nat, base: nat, px: array<byte>)
    requires s.bpp >= 1 && base + s.stride <= px.Length && (y > 0 ==> s.stride <= base)
    modifies px
    ensures px[..base + s.stride] == RebuiltRow(raw, at, f, s, y, 0, old(px[..base]))
  {
    hide Predict, RebuiltRow, Rebuild;
    ghost var goal := RebuiltRow(raw, at, f, s, y, 0, px[..base]);
    var i := 0;
    while i < s.stride
      invariant 0 <= i <= s.stride
      invariant goal == RebuiltRow(raw, at + i, f, s, y, i, px[..base + i])
    {
      var a := if i >= s.bpp then px[base + i - s.bpp] else 0;
      var up := if y > 0 then px[base - s.stride + i] else 0;
      var c := if y > 0 && i >= s.bpp then px[base - s.stride + i - s.bpp] else 0;
      ghost var done := px[..base + i];
      RowStep(raw, at + i, f, s, y, i, done);
      ByteStep(raw, at + i, f, s, y, i, done, a, up, c);
      px[base + i] := if at + i < |raw| then (raw[at + i] + Predict(f, a, up, c)) % 256 else 0;
      assert px[..base + i + 1] == done + [px[base + i]];
      i := i + 1;
    }
    RowDone(raw, at + s.stride, f, s, y, px[..base + s.stride]);
  }

  /** The neighbours that the loop reads from the buffer are those of the image done so far. */
  lemma ByteStep(raw: seq<byte>, at: nat, f: byte, s: Layout, y: nat, i: nat, done: seq<byte>, a: byte, up: byte,
      c: byte)
    requires s.bpp >= 1 && i < s.stride && i <= |done| && (y > 0 ==> i + s.stride <= |done|)
    requires a == if i >= s.bpp then done[|done| - s.bpp] else 0
    requires up == if y > 0 then done[|done| - s.stride] else 0
    requires c == if y > 0 && i >= s.bpp then done[|done| - s.stride - s.bpp] else 0
    ensures Rebuild(raw, at, f, s, y, i, done) == if at < |raw| then (raw[at] + Predict(f, a, up, c)) % 256 else 0
  {
    hide Predict;
  }

  lemma RowStep(raw: seq<byte>, at: nat, f: byte, s: Layout, y: nat, i: nat, done: seq<byte>)
    requires s.bpp >= 1 && i < s.stride && i <= |done| && (y > 0 ==> i + s.stride <= |done|)
    ensures RebuiltRow(raw, at, f, s, y, i, done)
         == RebuiltRow(raw, at + 1, f, s, y, i + 1, done + [Rebuild(raw, at, f, s, y, i, done)])
  {
    hide Rebuild;
  }

  lemma RowDone(raw: seq<byte>, at: nat, f: byte, s: Layout, y: nat, done: seq<byte>)
    requires s.bpp >= 1 && s.stride <= |done| && (y > 0 ==> s.stride + s.stride <= |done|)
    ensures RebuiltRow(raw, at, f, s, y, s.stride, done) == done
  {}

  // ---------- chunks ----------

  datatype Error = BadSignature | OutOfRange | Unsupported | BadData

  const U32_LIMIT := 0x1_0000_0000

  const SIGNATURE: seq<byte> := [0x89, 0x50, 0x4e, 0x47, 0x0d, 0x0a, 0x1a, 0x0a]
  const IHDR: seq<byte> := [0x49, 0x48, 0x44, 0x52]
  const IDAT: seq<byte> := [0x49, 0x44, 0x41, 0x54]
  const IEND: seq<byte> := [0x49, 0x45, 0x4e, 0x44]

  function U16(n: nat): (bs: seq<byte>)
    requires n < 0x1_0000
    ensures |bs| == 2
  {
    [n / 256, n % 256]
  }

  /** Four bytes, most significant first. */
  function U32(n: nat): (bs: seq<byte>)
    requires n < U32_LIMIT
    ensures |bs| == 4
  {
    U16(n / 0x1_0000) + U16(n % 0x1_0000)
  }

  function ReadU16(b: seq<byte>, p: nat): nat
    requires p + 2 <= |b|
  {
    256 * (b[p] as nat) + b[p + 1]
  }

  function ReadU32(b: seq<byte>, p: nat): nat
    requires p + 4 <= |b|
  {
    ReadU16(b, p) * 0x1_0000 + ReadU16(b, p + 2)
  }

  lemma U32Inverts(b: seq<byte>, p: nat, n: nat)
    requires n < U32_LIMIT && p + 4 <= |b| && b[p..p + 4] == U32(n)
    ensures ReadU32(b, p) == n
  {
    var w := b[p..p + 4];
    assert w[0] == b[p] && w[1] == b[p + 1] && w[2] == b[p + 2] && w[3] == b[p + 3];
  }

  /** Header fields and image data gathered so far; a colour type byte that is missing counts as none. */
  datatype Header = Header(width: nat, height: nat, depth: byte, colour: Option<byte>, interlace: byte, idat: seq<byte>)

  const NO_HEADER := Header(0, 0, 0, Some(0), 0, [])

  /** What the loop of decodePng does with one chunk; readUInt32BE throws on a short body. */
  function Absorb(h: Header, kind: seq<byte>, body: seq<byte>): Result<Header, Error> {
    if kind == IHDR then
      if |body| < 8 then Err(OutOfRange)
      else Ok(Header(ReadU32(body, 0), ReadU32(body, 4), ByteAt(body, 8),
                     if |body| > 9 then Some(body[9]) else None, ByteAt(body, 12), h.idat))
    else if kind == IDAT then Ok(h.(idat := h.idat + body))
    else Ok(h)
  }

  function Clamp(n: nat, b: seq<byte>): nat { if n < |b| then n else |b| }

  /** The chunk loop from offset `p`; it stops at IEND or where no chunk head is left, and never looks at checksums. */
  function Chunks(b: seq<byte>, p: nat, h: Header): Result<Header, Error>
    decreases |b| - p
  {
    if p + 8 > |b| then Ok(h) else
      var len, kind := ReadU32(b, p), b[p + 4..p + 8];
      if kind == IEND then Ok(h) else
        match Absorb(h, kind, b[p + 8..Clamp(p + 8 + len, b)])
        case Err(e) => Err(e)
        case Ok(next) => Chunks(b, p + 12 + len, next)
  }

  method ReadChunks(b: seq<byte>) returns (r: Result<Header, Error>)
    ensures r == Chunks(b, 8, NO_HEADER)
  {
    hide Absorb;
    var h, p := NO_HEADER, 8;
    while p + 8 <= |b|
      invariant Chunks(b, 8, NO_HEADER) == Chunks(b, p, h)
      decreases |b| - p
    {
      var len, kind := ReadU32(b, p), b[p + 4..p + 8];
      if kind == IEND { break; }
      var next := Absorb(h, kind, b[p + 8..Clamp(p + 8 + len, b)]);
      if next.Err? { return next; }
      h, p := next.value, p + 12 + len;
    }
    r := Ok(h);
  }

  /** A chunk as RFC 2083 section 3.2 lays it out; the checksum may be anything. */
  datatype Chunk = Chunk(kind: seq<byte>, body: seq<byte>, crc: seq<byte>)

  predicate ValidChunk(c: Chunk) { |c.kind| == 4 && |c.body| < U32_LIMIT && |c.crc| == 4 }

  function ChunkBytes(c: Chunk): seq<byte>
    requires ValidChunk(c)
  {
    U32(|c.body|) + c.kind + c.body + c.crc
  }

  function Stored(cs: seq<Chunk>): seq<byte>
    requires forall i :: 0 <= i < |cs| ==> ValidChunk(cs[i])
  {
    if cs == [] then [] else ChunkBytes(cs[0]) + Stored(cs[1..])
  }

  function AbsorbAll(h: Header, cs: seq<Chunk>): Result<Header, Error>
    decreases |cs|
  {
    if cs == [] then Ok(h) else
      match Absorb(h, cs[0].kind, cs[0].body)
      case Err(e) => Err(e)
      case Ok(next) => AbsorbAll(next, cs[1..])
  }

  lemma ChunkHead(b: seq<byte>, p: nat, c: Chunk, rest: seq<byte>)
    requires ValidChunk(c) && p <= |b| && b[p..] == ChunkBytes(c) + rest
    ensures p + 12 + |c.body| <= |b| && ReadU32(b, p) == |c.body| && b[p + 4..p + 8] == c.kind
    ensures b[p + 8..p + 8 + |c.body|] == c.body && b[p + 12 + |c.body|..] == rest
  {
    hide U32, ReadU32;
    var t, n := b[p..], |c.body|;
    assert t == U32(n) + c.kind + c.body + c.crc + rest;
    assert b[p..p + 4] == t[..4] == U32(n);
    assert b[p + 4..p + 8] == t[4..8];
    assert b[p + 8..p + 8 + n] == t[8..8 + n];
    assert b[p + 12 + n..] == t[12 + n..];
    U32Inverts(b, p, n);
  }

  /** The loop reads back every chunk list that ends in IEND, whatever follows it. */
  lemma {:induction false} ChunksInvert(b: seq<byte>, p: nat, h: Header, cs: seq<Chunk>, end: Chunk, rest: seq<byte>)
    requires forall i :: 0 <= i < |cs| ==> ValidChunk(cs[i]) && cs[i].kind != IEND
    requires ValidChunk(end) && end.kind == IEND
    requires p <= |b| && b[p..] == Stored(cs) + ChunkBytes(end) + rest
    ensures Chunks(b, p, h) == AbsorbAll(h, cs)
    decreases |cs|
  {
    hide ChunkBytes, Absorb, ReadU32;
    if cs == [] {
      assert b[p..] == ChunkBytes(end) + rest;
      ChunkHead(b, p, end, rest);
    } else {
      var c, more := cs[0], Stored(cs[1..]) + ChunkBytes(end) + rest;
      assert b[p..] == ChunkBytes(c) + more;
      ChunkHead(b, p, c, more);
      var next := Absorb(h, c.kind, c.body);
      if next.Ok? {
        ChunksInvert(b, p + 12 + |c.body|, next.value, cs[1..], end, rest);
      }
    }
  }

  // ---------- whole files ----------

  datatype Image = Image(width: nat, height: nat, data: seq<byte>)

  predicate ValidImage(m: Image) { |m.data| == Times(m.height, m.width * 4) }

  function Channels(colour: Option<byte>): nat {
    match colour
    case Some(c) => if c == 0 then 1 else if c == 2 then 3 else if c == 4 then 2 else if c == 6 then 4 else 0
    case None => 0
  }

  /** The four bytes that pixel `j` (its offset in `px`) becomes. */
  function Pixel(px: seq<byte>, channels: nat, j: nat): (r: seq<byte>)
    requires 1 <= channels <= 4 && j + channels <= |px|
    ensures |r| == 4
  {
    var grey := channels <= 2;
    [px[j], if grey then px[j] else px[j + 1], if grey then px[j] else px[j + 2],
     if channels == 4 then px[j + 3] else if channels == 2 then px[j + 1] else 255]
  }

  /** The first `n` pixels as RGBA. */
  function Rgba(px: seq<byte>, channels: nat, n: nat): (r: seq<byte>)
    requires 1 <= channels <= 4 && Times(n, channels) <= |px|
    ensures |r| == 4 * n
  {
    if n == 0 then [] else Rgba(px, channels, n - 1) + Pixel(px, channels, Times(n - 1, channels))
  }

  lemma {:induction false} RgbaIsIdentity(px: seq<byte>, n: nat)
    requires 4 * n <= |px|
    ensures Times(n, 4) == 4 * n && Rgba(px, 4, n) == px[..4 * n]
  {
    if n > 0 { RgbaIsIdentity(px, n - 1); }
  }

  method Expand(px: array<byte>, channels: nat, count: nat) returns (out: array<byte>)
    requires 1 <= channels <= 4 && Times(count, channels) <= px.Length
    ensures out[..] == Rgba(px[..], channels, count)
  {
    hide Pixel;
    out := new byte[count * 4](_ => 0);
    ghost var src := px[..];
    var i, j := 0, 0;
    assert out[..0] == [];
    while i < count
      invariant 0 <= i <= count && j == Times(i, channels) <= Times(count, channels)
      invariant out[..4 * i] == Rgba(src, channels, i) && px[..] == src
    {
      TimesMonotone(i + 1, count, channels);
      ghost var done := out[..4 * i];
      PutPixel(px, channels, j, out, 4 * i);
      assert out[..4 * (i + 1)] == done + Pixel(src, channels, j);
      i, j := i + 1, j + channels;
    }
    assert out[..4 * count] == out[..];
  }

  method PutPixel(px: array<byte>, channels: nat, j: nat, out: array<byte>, at: nat)
    requires 1 <= channels <= 4 && j + channels <= px.Length && at + 4 <= out.Length && px != out
    modifies out
    ensures out[..] == old(out[..at]) + Pixel(px[..], channels, j) + old(out[at + 4..])
  {
    var grey := channels <= 2;
    out[at] := px[j];
    out[at + 1] := if grey then px[j] else px[j + 1];
    out[at + 2] := if grey then px[j] else px[j + 2];
    out[at + 3] := if channels == 4 then px[j + 3] else if channels == 2 then px[j + 1] else 255;
  }

  type Inflate = seq<byte> -> Option<seq<byte>>
  type Deflate = seq<byte> -> seq<byte>

  /** The image that header `h` and the inflated data `raw` describe. */
  function Picture(h: Header, raw: seq<byte>): Image
    requires Channels(h.colour) > 0
  {
    var n := Channels(h.colour);
    var px := Rebuilt(raw, 0, Layout(n, h.width * n), h.height, 0, []);
    Area(h.width, h.height, n);
    Image(h.width, h.height, Rgba(px, n, h.width * h.height))
  }

  lemma {:induction false} Area(width: nat, height: nat, n: nat)
    ensures Times(width * height, n) == Times(height, width * n)
  {
    if height > 0 {
      Area(width, height - 1, n);
      OneRowMore(width, height);
      TimesSplit(width * (height - 1), width, n);
      TimesIsProduct(width, n);
    }
  }

  lemma OneRowMore(width: nat, height: nat)
    requires height > 0
    ensures width * height == width * (height - 1) + width && width * (height - 1) >= 0
  {}

  lemma {:induction false} TimesSplit(a: nat, b: nat, n: nat)
    ensures Times(a + b, n) == Times(a, n) + Times(b, n)
  {
    if b > 0 { TimesSplit(a, b - 1, n); }
  }

  /** decodePng as one expression. */
  function Decode(b: seq<byte>, inflate: Inflate): Result<Image, Error> {
    if |b| < 8 || b[..8] != SIGNATURE then Err(BadSignature) else
      match Chunks(b, 8, NO_HEADER)
      case Err(e) => Err(e)
      case Ok(h) =>
        if h.depth != 8 || Channels(h.colour) == 0 || h.interlace != 0 then Err(Unsupported) else
          match inflate(h.idat)
          case None => Err(BadData)
          case Some(raw) => Ok(Picture(h, raw))
  }

  method DecodePng(b: seq<byte>, inflate: Inflate) returns (r: Result<Image, Error>)
    ensures r == Decode(b, inflate)
  {
    hide Chunks, Rebuilt, Rgba;
    if |b| < 8 || b[..8] != SIGNATURE { return Err(BadSignature); }
    var header := ReadChunks(b);
    if header.Err? { return Err(header.error); }
    var h := header.value;
    var channels := Channels(h.colour);
    if h.depth != 8 || channels == 0 || h.interlace != 0 { return Err(Unsupported); }
    var raw := inflate(h.idat);
    if raw == None { return Err(BadData); }
    var px := Unfilter(raw.value, Layout(channels, h.width * channels), h.height);
    Area(h.width, h.height, channels);
    var out := Expand(px, channels, h.width * h.height);
    r := Ok(Image(h.width, h.height, out[..]));
  }

  // ---------- encoders ----------

  function HeaderBody(width: nat, height: nat, colour: byte): (body: seq<byte>)
    requires width < U32_LIMIT && height < U32_LIMIT
    ensures |body| == 13
  {
    U32(width) + U32(height) + [8, colour, 0, 0, 0]
  }

  /** All image data of the chunks: the bodies of the IDAT chunks in order. */
  function DataOf(cs: seq<Chunk>): seq<byte> {
    if cs == [] then [] else (if cs[0].kind == IDAT then cs[0].body else []) + DataOf(cs[1..])
  }

  function WithData(h: Header, data: seq<byte>): Header { h.(idat := h.idat + data) }

  lemma {:induction false} AbsorbData(h: Header, cs: seq<Chunk>)
    requires forall i :: 0 <= i < |cs| ==> cs[i].kind != IHDR
    ensures AbsorbAll(h, cs) == Ok(WithData(h, DataOf(cs)))
    decreases |cs|
  {
    hide Absorb, WithData;
    NoData(h);
    if cs != [] {
      var data := if cs[0].kind == IDAT then cs[0].body else [];
      AbsorbOne(h, cs[0], data);
      AbsorbData(WithData(h, data), cs[1..]);
      DataTwice(h, data, DataOf(cs[1..]));
    }
  }

  lemma NoData(h: Header)
    ensures WithData(h, []) == h
  {
    assert h.idat + [] == h.idat;
  }

  lemma DataTwice(h: Header, a: seq<byte>, b: seq<byte>)
    ensures WithData(WithData(h, a), b) == WithData(h, a + b)
  {
    assert h.idat + a + b == h.idat + (a + b);
  }

  lemma AbsorbOne(h: Header, c: Chunk, data: seq<byte>)
    requires c.kind != IHDR && data == if c.kind == IDAT then c.body else []
    ensures Absorb(h, c.kind, c.body) == Ok(WithData(h, data))
  {
    NoData(h);
  }

  lemma HeaderAbsorbed(width: nat, height: nat, colour: byte)
    requires width < U32_LIMIT && height < U32_LIMIT
    ensures Absorb(NO_HEADER, IHDR, HeaderBody(width, height, colour))
        == Ok(Header(width, height, 8, Some(colour), 0, []))
  {
    hide U32, ReadU32;
    var body := HeaderBody(width, height, colour);
    assert body[0..4] == U32(width) && body[4..8] == U32(height);
    U32Inverts(body, 0, width);
    U32Inverts(body, 4, height);
  }

  /** The pixels of an image in one of the four colour types, and a filter for each row. */
  datatype Source = Source(width: nat, height: nat, colour: byte, px: seq<byte>, filters: seq<byte>)

  predicate ValidSource(m: Source) {
    && m.width < U32_LIMIT && m.height < U32_LIMIT && Channels(Some(m.colour)) > 0
    && |m.filters| == m.height && |m.px| == Times(m.height, LayoutOf(m).stride)
  }

  function LayoutOf(m: Source): Layout {
    Layout(Channels(Some(m.colour)), m.width * Channels(Some(m.colour)))
  }

  function Rows(m: Source): seq<byte>
    requires ValidSource(m)
  {
    Filtered(m.px, m.filters, LayoutOf(m), 0, 0)
  }

  function Shown(m: Source): Image
    requires ValidSource(m)
  {
    Area(m.width, m.height, LayoutOf(m).bpp);
    Image(m.width, m.height, Rgba(m.px, LayoutOf(m).bpp, m.width * m.height))
  }

  /**
   * A standard file: IHDR, then the compressed rows split over any IDAT chunks among ancillary ones, IEND, anything.
   */
  datatype File = File(headerCrc: seq<byte>, chunks: seq<Chunk>, end: Chunk, rest: seq<byte>)

  predicate ValidFile(f: File) {
    && |f.headerCrc| == 4 && ValidChunk(f.end) && f.end.kind == IEND
    && forall i :: 0 <= i < |f.chunks| ==>
        ValidChunk(f.chunks[i]) && f.chunks[i].kind != IEND && f.chunks[i].kind != IHDR
  }

  function HeaderChunk(m: Source, f: File): (c: Chunk)
    requires ValidSource(m) && ValidFile(f)
    ensures ValidChunk(c) && c.kind == IHDR
  {
    Chunk(IHDR, HeaderBody(m.width, m.height, m.colour), f.headerCrc)
  }

  function FileBytes(m: Source, f: File): seq<byte>
    requires ValidSource(m) && ValidFile(f)
  {
    SIGNATURE + (Stored([HeaderChunk(m, f)] + f.chunks) + ChunkBytes(f.end) + f.rest)
  }

  lemma HeaderOfFile(m: Source, f: File)
    requires ValidSource(m) && ValidFile(f)
    ensures var b := FileBytes(m, f);
      && |b| >= 8 && b[..8] == SIGNATURE
      && Chunks(b, 8, NO_HEADER) == Ok(Header(m.width, m.height, 8, Some(m.colour), 0, DataOf(f.chunks)))
  {
    hide Stored, ChunkBytes, Chunks, HeaderBody, Channels;
    var b, all := FileBytes(m, f), [HeaderChunk(m, f)] + f.chunks;
    assert b[..8] == SIGNATURE;
    assert b[8..] == Stored(all) + ChunkBytes(f.end) + f.rest;
    ChunksInvert(b, 8, NO_HEADER, all, f.end, f.rest);
    HeaderAbsorbed(m.width, m.height, m.colour);
    assert all[1..] == f.chunks;
    AbsorbData(Header(m.width, m.height, 8, Some(m.colour), 0, []), f.chunks);
    assert [] + DataOf(f.chunks) == DataOf(f.chunks);
  }

  lemma RowsRebuilt(m: Source)
    requires ValidSource(m)
    ensures Rebuilt(Rows(m), 0, LayoutOf(m), m.height, 0, []) == m.px
  {
    hide Filtered, Rebuilt;
    assert Rows(m)[0..] == Rows(m) && m.px[..0] == [];
    RowsInvert(m.px, m.filters, Rows(m), 0, LayoutOf(m), 0, 0);
  }

  /**
   * decodePng shows the image of every standard file, for each colour type and whatever filters and chunks were chosen.
   */
  lemma DecodesAnyFile(m: Source, f: File, inflate: Inflate)
    requires ValidSource(m) && ValidFile(f) && inflate(DataOf(f.chunks)) == Some(Rows(m))
    ensures Decode(FileBytes(m, f), inflate) == Ok(Shown(m))
  {
    hide FileBytes, Chunks, Rebuilt, Rows, Rgba, DataOf;
    HeaderOfFile(m, f);
    RowsRebuilt(m);
  }

  function Zeros(n: nat): (r: seq<byte>)
    ensures |r| == n && forall i :: 0 <= i < n ==> r[i] == 0
  {
    seq(n, _ => 0)
  }

  type Checksum = seq<byte> -> nat

  function MakeChunk(kind: seq<byte>, body: seq<byte>, crc32: Checksum): (c: Chunk)
    requires |kind| == 4
    ensures c.kind == kind && c.body == body && |c.crc| == 4
  {
    Chunk(kind, body, U32(crc32(kind + body) % U32_LIMIT))
  }

  /** What encodePng stores: RGBA pixels, every row with filter 0. */
  function SourceOf(m: Image): Source { Source(m.width, m.height, 6, m.data, Zeros(m.height)) }

  predicate Storable(m: Image) { m.width < U32_LIMIT && m.height < U32_LIMIT }

  function Unfiltered(m: Image): seq<byte>
    requires ValidImage(m)
  {
    Filtered(m.data, Zeros(m.height), Layout(4, m.width * 4), 0, 0)
  }

  /** encodePng as one expression; writeUInt32BE throws on a size that does not fit. */
  function Encode(m: Image, deflate: Deflate, crc32: Checksum): Option<seq<byte>>
    requires ValidImage(m)
  {
    var data := deflate(Unfiltered(m));
    if !Storable(m) || |data| >= U32_LIMIT then None else
      Some(SIGNATURE + ChunkBytes(MakeChunk(IHDR, HeaderBody(m.width, m.height, 6), crc32))
           + ChunkBytes(MakeChunk(IDAT, data, crc32)) + ChunkBytes(MakeChunk(IEND, [], crc32)))
  }

  lemma TwoChunks(a: Chunk, b: Chunk)
    requires ValidChunk(a) && ValidChunk(b)
    ensures Stored([a] + [b]) == ChunkBytes(a) + ChunkBytes(b)
  {
    hide ChunkBytes;
    assert ([a] + [b])[1..] == [b] && [b][1..] == [];
    assert Stored([b]) == ChunkBytes(b) + Stored([]) == ChunkBytes(b);
  }

  /** encodePng makes a standard file. */
  lemma EncodesFile(m: Image, deflate: Deflate, crc32: Checksum) returns (f: File)
    requires ValidImage(m) && Encode(m, deflate, crc32).Some?
    ensures ValidSource(SourceOf(m)) && ValidFile(f) && DataOf(f.chunks) == deflate(Unfiltered(m))
    ensures Encode(m, deflate, crc32) == Some(FileBytes(SourceOf(m), f))
  {
    hide ChunkBytes, Stored, Unfiltered, HeaderBody;
    var data := deflate(Unfiltered(m));
    var head, idat := MakeChunk(IHDR, HeaderBody(m.width, m.height, 6), crc32), MakeChunk(IDAT, data, crc32);
    f := File(head.crc, [idat], MakeChunk(IEND, [], crc32), []);
    assert DataOf([idat]) == data + [] == data;
    TwoChunks(head, idat);
    assert [HeaderChunk(SourceOf(m), f)] + f.chunks == [head] + [idat];
    Regroup(SIGNATURE, ChunkBytes(head), ChunkBytes(idat), ChunkBytes(f.end));
  }

  lemma Regroup(a: seq<byte>, b: seq<byte>, c: seq<byte>, d: seq<byte>)
    ensures a + b + c + d == a + (b + c + d + [])
  {}

  /** Whatever encodePng writes, decodePng reads back. */
  lemma EncodeDecode(m: Image, deflate: Deflate, inflate: Inflate, crc32: Checksum)
    requires ValidImage(m) && Encode(m, deflate, crc32).Some?
    requires inflate(deflate(Unfiltered(m))) == Some(Unfiltered(m))
    ensures Decode(Encode(m, deflate, crc32).value, inflate) == Ok(m)
  {
    hide FileBytes, Filtered, Rgba, Decode, Encode, DataOf;
    var f := EncodesFile(m, deflate, crc32);
    DecodesAnyFile(SourceOf(m), f, inflate);
    Area(m.width, m.height, 4);
    TimesIsProduct(m.width * m.height, 4);
    RgbaIsIdentity(m.data, m.width * m.height);
    assert m.data[..4 * (m.width * m.height)] == m.data;
  }

  /** encodePng, with its row loop. */
  method EncodePng(m: Image, deflate: Deflate, crc32: Checksum) returns (r: Option<seq<byte>>)
    requires ValidImage(m)
    ensures r == Encode(m, deflate, crc32)
  {
    hide Unfiltered, ChunkBytes, MakeChunk;
    var raw := CopyRows(m);
    var data := deflate(raw);
    if !Storable(m) || |data| >= U32_LIMIT { return None; }
    r := Some(SIGNATURE + ChunkBytes(MakeChunk(IHDR, HeaderBody(m.width, m.height, 6), crc32))
              + ChunkBytes(MakeChunk(IDAT, data, crc32)) + ChunkBytes(MakeChunk(IEND, [], crc32)));
  }

  method CopyRows(m: Image) returns (raw: seq<byte>)
    requires ValidImage(m)
    ensures raw == Unfiltered(m)
  {
    hide Filtered, FilteredRow, Zeros;
    var stride, from := m.width * 4, 0;
    raw := [];
    ghost var s, fs := Layout(4, stride), Zeros(m.height);
    assert forall y :: 0 <= y < m.height ==> fs[y] == 0;
    for y := 0 to m.height
      invariant from == Times(y, stride) && from + Times(m.height - y, stride) == |m.data|
      invariant Unfiltered(m) == raw + Filtered(m.data, fs, s, y, from)
    {
      UnfilteredRow(m.data, fs, s, y, from);
      raw := raw + ([0] + m.data[from..from + stride]);
      from := from + stride;
    }
    NoRows(m.data, fs, s, from);
  }

  /** A row with filter 0 is stored as it is. */
  lemma {:induction false} NoneRow(px: seq<byte>, s: Layout, y: nat, k: nat, i: nat)
    requires s.bpp >= 1 && i <= s.stride && i <= k && (y > 0 ==> i + s.stride <= k) && k + s.stride - i <= |px|
    ensures FilteredRow(px, 0, s, y, k, i) == px[k..k + s.stride - i]
    decreases s.stride - i
  {
    if i < s.stride {
      NoneRow(px, s, y, k + 1, i + 1);
    }
  }

  lemma UnfilteredRow(px: seq<byte>, fs: seq<byte>, s: Layout, y: nat, k: nat)
    requires s.bpp >= 1 && y < |fs| && fs[y] == 0
    requires k + Times(|fs| - y, s.stride) == |px| && (y > 0 ==> s.stride <= k)
    ensures Filtered(px, fs, s, y, k) == ([0] + px[k..k + s.stride]) + Filtered(px, fs, s, y + 1, k + s.stride)
  {
    hide FilteredRow;
    NoneRow(px, s, y, k, 0);
  }

  lemma NoRows(px: seq<byte>, fs: seq<byte>, s: Layout, k: nat)
    requires s.bpp >= 1 && k == |px| && (|fs| > 0 ==> s.stride <= k)
    ensures Filtered(px, fs, s, |fs|, k) == []
  {}

  // ---------- the decoded bytes, equation by equation ----------

  /** RFC 2083 section 6: byte `b` of a row with filter `f`, from the stored byte and the three neighbours. */
  predicate FilterEquation(f: byte, stored: byte, left: byte, above: byte, corner: byte, b: byte) {
    && (f == 0 ==> b == stored)
    && (f == 1 ==> b == (stored + left) % 256)
    && (f == 2 ==> b == (stored + above) % 256)
    && (f == 3 ==> b == (stored + (left + above) / 2) % 256)
    && (f == 4 ==> b == (stored + Paeth(left, above, corner)) % 256)
    && (f > 4 ==> b == stored)
  }

  /** Byte `i` of row `y` of an image with rows of `stride` bytes, at `k`, as its row's filter makes it. */
  predicate ByteIsRight(raw: seq<byte>, at: nat, px: seq<byte>, k: nat, s: Layout, y: nat, i: nat)
    requires s.bpp >= 1 && i < s.stride && i <= k < |px| && (y > 0 ==> i + s.stride <= k) && at + 1 + i < |raw|
  {
    FilterEquation(raw[at], raw[at + 1 + i],
                   if i < s.bpp then 0 else px[k - s.bpp],
                   if y == 0 then 0 else px[k - s.stride],
                   if y == 0 || i < s.bpp then 0 else px[k - s.stride - s.bpp],
                   px[k])
  }

  lemma {:induction false} RowBytes(raw: seq<byte>, at: nat, f: byte, s: Layout, y: nat, i: nat, done: seq<byte>,
      j: nat)
    requires s.bpp >= 1 && i <= s.stride && i <= |done| && (y > 0 ==> i + s.stride <= |done|) && i <= j
    ensures done <= RebuiltRow(raw, at, f, s, y, i, done)
    ensures j < s.stride ==>
      var r, k := RebuiltRow(raw, at, f, s, y, i, done), |done| + (j - i);
      r[k] == Rebuild(raw, at + (j - i), f, s, y, j, r[..k])
    decreases s.stride - i
  {
    hide Rebuild;
    if i < s.stride {
      var next := done + [Rebuild(raw, at, f, s, y, i, done)];
      RowBytes(raw, at + 1, f, s, y, i + 1, next, if j == i then i + 1 else j);
      var r := RebuiltRow(raw, at, f, s, y, i, done);
      assert next <= r && r[..|done|] == done && r[|done|] == next[|done|];
    }
  }

  /** Row `z` is what RebuiltRow makes of the rows before it. */
  ghost predicate RowStands(raw: seq<byte>, at: nat, s: Layout, z: nat, k: nat, r: seq<byte>)
    requires s.bpp >= 1
  {
    && k + s.stride <= |r| && (z > 0 ==> s.stride <= k)
    && r[..k + s.stride] == RebuiltRow(raw, at + 1, ByteAt(raw, at), s, z, 0, r[..k])
  }

  lemma {:induction false} RowsOf(raw: seq<byte>, at: nat, s: Layout, height: nat, y: nat, done: seq<byte>, z: nat)
    requires s.bpp >= 1 && y <= height && (y > 0 ==> s.stride <= |done|) && y <= z
    ensures done <= Rebuilt(raw, at, s, height, y, done)
    ensures z < height ==>
      RowStands(raw, at + Times(z - y, 1 + s.stride), s, z, |done| + Times(z - y, s.stride),
                Rebuilt(raw, at, s, height, y, done))
    decreases height - y
  {
    hide RebuiltRow, Rebuilt, RowStands, Times;
    if y == height {
      NoMoreRows(raw, at, s, height, done);
    } else {
      var next := RebuiltRow(raw, at + 1, ByteAt(raw, at), s, y, 0, done);
      var r := Rebuilt(raw, at, s, height, y, done);
      OneMoreRow(raw, at, s, height, y, done);
      RowsOf(raw, at + 1 + s.stride, s, height, y + 1, next, if z == y then y + 1 else z);
      RowKeeps(raw, at + 1, ByteAt(raw, at), s, y, done);
      TimesFirst(z - y, 1 + s.stride);
      TimesFirst(z - y, s.stride);
      if z == y { FirstStands(raw, at, s, y, done, r); }
    }
  }

  lemma TimesFirst(n: nat, size: nat)
    ensures Times(n, size) == if n == 0 then 0 else size + Times(n - 1, size)
  {}

  lemma FirstStands(raw: seq<byte>, at: nat, s: Layout, y: nat, done: seq<byte>, r: seq<byte>)
    requires s.bpp >= 1 && (y > 0 ==> s.stride <= |done|) && done <= r
    requires RebuiltRow(raw, at + 1, ByteAt(raw, at), s, y, 0, done) <= r
    ensures RowStands(raw, at, s, y, |done|, r)
  {
    hide RebuiltRow;
    assert r[..|done|] == done;
  }

  lemma RowKeeps(raw: seq<byte>, at: nat, f: byte, s: Layout, y: nat, done: seq<byte>)
    requires s.bpp >= 1 && (y > 0 ==> s.stride <= |done|)
    ensures done <= RebuiltRow(raw, at, f, s, y, 0, done)
  {
    RowBytes(raw, at, f, s, y, 0, done, 0);
  }

  /** Every byte of the reconstructed image obeys the equation of its row's filter. */
  lemma FiltersUndone(raw: seq<byte>, s: Layout, height: nat, y: nat, i: nat)
    requires s.bpp >= 1 && y < height && i < s.stride && y * (1 + s.stride) + 1 + i < |raw|
    ensures var px, k := Rebuilt(raw, 0, s, height, 0, []), y * s.stride + i;
      && i <= k < |px| && (y > 0 ==> i + s.stride <= k)
      && ByteIsRight(raw, y * (1 + s.stride), px, k, s, y, i)
  {
    hide Rebuilt, RebuiltRow, Rebuild, ByteIsRight, Times;
    TimesIsProduct(y, 1 + s.stride);
    TimesIsProduct(y, s.stride);
    RowsOf(raw, 0, s, height, 0, [], y);
    RowRight(raw, y * (1 + s.stride), s, y, y * s.stride, Rebuilt(raw, 0, s, height, 0, []), i);
  }

  lemma RowRight(raw: seq<byte>, at: nat, s: Layout, y: nat, base: nat, px: seq<byte>, i: nat)
    requires s.bpp >= 1 && i < s.stride && at + 1 + i < |raw| && RowStands(raw, at, s, y, base, px)
    ensures ByteIsRight(raw, at, px, base + i, s, y, i)
  {
    hide RebuiltRow, Rebuild, ByteIsRight;
    RowBytes(raw, at + 1, raw[at], s, y, 0, px[..base], i);
    assert px[..base + s.stride][..base + i] == px[..base + i];
    assert px[base + i] == px[..base + s.stride][base + i]
        == Rebuild(raw, at + 1 + i, raw[at], s, y, i, px[..base + i]);
    EquationOf(raw, at, px, base + i, s, y, i);
  }

  lemma EquationOf(raw: seq<byte>, at: nat, px: seq<byte>, k: nat, s: Layout, y: nat, i: nat)
    requires s.bpp >= 1 && i < s.stride && i <= k < |px| && (y > 0 ==> i + s.stride <= k) && at + 1 + i < |raw|
    requires px[k] == Rebuild(raw, at + 1 + i, raw[at], s, y, i, px[..k])
    ensures ByteIsRight(raw, at, px, k, s, y, i)
  {
    hide Paeth;
  }

  /** The four bytes of pixel `j`, by colour type: grey, RGB, grey with alpha, RGBA. */
  lemma DecodedPixel(h: Header, raw: seq<byte>, j: nat)
    requires Channels(h.colour) > 0 && j < h.width * h.height
    ensures h.colour in {Some(0), Some(2), Some(4), Some(6)}
    ensures var n := match h.colour.value case 0 => 1 case 2 => 3 case 4 => 2 case _ => 4;
      var px, out := Rebuilt(raw, 0, Layout(n, h.width * n), h.height, 0, []), Picture(h, raw).data;
      && n * j + n <= |px| && 4 * j + 4 <= |out|
      && out[4 * j..4 * j + 4] == (
        if h.colour == Some(0) then [px[j], px[j], px[j], 255]
        else if h.colour == Some(2) then [px[3 * j], px[3 * j + 1], px[3 * j + 2], 255]
        else if h.colour == Some(4) then [px[2 * j], px[2 * j], px[2 * j], px[2 * j + 1]]
        else [px[4 * j], px[4 * j + 1], px[4 * j + 2], px[4 * j + 3]])
  {
    hide Rebuilt, Rgba, Pixel;
    var n := Channels(h.colour);
    var px := Rebuilt(raw, 0, Layout(n, h.width * n), h.height, 0, []);
    Area(h.width, h.height, n);
    TimesIsProduct(j, n);
    TimesMonotone(j + 1, h.width * h.height, n);
    RgbaAt(px, n, h.width * h.height, j);
    PixelIs(px, n, n * j);
  }

  lemma {:induction false} RgbaAt(px: seq<byte>, channels: nat, n: nat, j: nat)
    requires 1 <= channels <= 4 && Times(n, channels) <= |px| && j < n
    ensures Times(j, channels) + channels <= |px|
    ensures Rgba(px, channels, n)[4 * j..4 * j + 4] == Pixel(px, channels, Times(j, channels))
  {
    hide Pixel;
    TimesMonotone(j + 1, n, channels);
    var before := Rgba(px, channels, n - 1);
    if j < n - 1 {
      RgbaAt(px, channels, n - 1, j);
      assert Rgba(px, channels, n)[4 * j..4 * j + 4] == before[4 * j..4 * j + 4];
    }
  }

  lemma PixelIs(px: seq<byte>, channels: nat, j: nat)
    requires 1 <= channels <= 4 && j + channels <= |px|
    ensures Pixel(px, channels, j) == (
      if channels == 1 then [px[j], px[j], px[j], 255]
      else if channels == 2 then [px[j], px[j], px[j], px[j + 1]]
      else if channels == 3 then [px[j], px[j + 1], px[j + 2], 255]
      else [px[j], px[j + 1], px[j + 2], px[j + 3]])
  {}

  /**
   * What is decoded: the signature, a readable chunk list, eight bits, a known colour type, no interlacing, good data.
   */
  lemma DecodesIff(b: seq<byte>, inflate: Inflate)
    ensures Decode(b, inflate).Ok? <==>
      && [0x89, 0x50, 0x4e, 0x47, 0x0d, 0x0a, 0x1a, 0x0a] <= b
      && Chunks(b, 8, NO_HEADER).Ok?
      && var h := Chunks(b, 8, NO_HEADER).value;
      h.depth == 8 && h.colour in {Some(0), Some(2), Some(4), Some(6)} && h.interlace == 0 && inflate(h.idat).Some?
    ensures Decode(b, inflate).Ok? ==>
      var m, h := Decode(b, inflate).value, Chunks(b, 8, NO_HEADER).value;
      m.width == h.width && m.height == h.height && m == Picture(h, inflate(h.idat).value)
  {
    hide Chunks, Rebuilt, Rgba;
  }
}
