/**
 * The entropy-coded segments of ITU-T T.81: packing bits into bytes and stuffing a zero after every 0xFF
 * (F.1.2.3), and the BitReader of image-io.ts that takes them apart again.
 */
module EntropyBits {
  import opened Bits
  import opened Huffman
  import opened Wrappers

  // ---------- the encoder side ----------

  /** T.81 F.1.2.3: every 0xFF byte of entropy-coded data is followed by a zero byte. */
  function Stuff(bytes: seq<byte>): seq<byte> {
    if bytes == [] then [] else StuffedByte(bytes[0]) + Stuff(bytes[1..])
  }

  function StuffedByte(b: byte): seq<byte> { if b == 0xFF then [0xFF, 0] else [b] }

  /** Bits into bytes, the most significant bit first, the last byte completed with 1-bits. */
  function Pack(bs: seq<bit>): seq<byte>
    decreases |bs|
  {
    if bs == [] then [] else [FirstByte(bs)] + Pack(AfterByte(bs))
  }

  function AfterByte(bs: seq<bit>): seq<bit> { if |bs| < 8 then [] else bs[8..] }

  function FirstByte(bs: seq<bit>): byte {
    var octet := if |bs| < 8 then bs + seq(8 - |bs|, _ => 1) else bs[..8];
    BitsOfValue(octet);
    Pow2Sixteen();
    Value(octet)
  }

  function Segment(bs: seq<bit>): seq<byte> { Stuff(Pack(bs)) }

  // ---------- the reader, on values ----------

  /** The state of a BitReader: the next byte, the byte being read and how many of its bits are left. */
  datatype Cursor = Cursor(pos: nat, bits: byte, nbits: nat)

  /** `v >> n` */
  function Shr(v: nat, n: nat): nat {
    if n == 0 then v else Shr(v, n - 1) / 2
  }

  /** The next data byte: a stuffed 0xFF, zeros at a marker (which stays) and past the end. */
  function Refill(d: seq<byte>, c: Cursor): Cursor {
    if c.pos >= |d| then Cursor(c.pos + 1, 0, 8)
    else if d[c.pos] != 0xFF then Cursor(c.pos + 1, d[c.pos], 8)
    else if c.pos + 1 < |d| && d[c.pos + 1] == 0 then Cursor(c.pos + 2, 0xFF, 8)
    else Cursor(c.pos, 0, 8)
  }

  function ReadBit(d: seq<byte>, c: Cursor): (bit, Cursor) {
    var f := if c.nbits == 0 then Refill(d, c) else c;
    (Shr(f.bits, f.nbits - 1) % 2, f.(nbits := f.nbits - 1))
  }

  /** The next `n` bits and the cursor after them. */
  function Read(d: seq<byte>, c: Cursor, n: nat): (r: (seq<bit>, Cursor))
    ensures |r.0| == n
  {
    if n == 0 then ([], c) else
      var (bs, c1) := Read(d, c, n - 1);
      var (b, c2) := ReadBit(d, c1);
      (bs + [b], c2)
  }

  /** Reading on from `c` yields exactly `bs`, and the byte after them is at `end`. */
  predicate Ahead(d: seq<byte>, c: Cursor, bs: seq<bit>, end: nat) {
    var (got, c1) := Read(d, c, |bs|);
    got == bs && c1.pos == end
  }

  lemma {:induction false} ReadSplit(d: seq<byte>, c: Cursor, m: nat, n: nat)
    ensures Read(d, c, m + n).0 == Read(d, c, m).0 + Read(d, Read(d, c, m).1, n).0
    ensures Read(d, c, m + n).1 == Read(d, Read(d, c, m).1, n).1
  {
    if n > 0 { ReadSplit(d, c, m, n - 1); }
  }

  lemma AheadSplit(d: seq<byte>, c: Cursor, a: seq<bit>, b: seq<bit>, end: nat)
    requires Ahead(d, c, a + b, end)
    ensures Read(d, c, |a|).0 == a && Ahead(d, Read(d, c, |a|).1, b, end)
  {
    ReadSplit(d, c, |a|, |b|);
    var (x, c1) := Read(d, c, |a|);
    var y := Read(d, c1, |b|).0;
    assert x + y == a + b;
    assert x == (x + y)[..|a|] == a && y == (x + y)[|a|..] == b;
  }

  lemma {:induction false} ReadInside(d: seq<byte>, c: Cursor, n: nat)
    requires n <= c.nbits
    ensures Read(d, c, n) == (BitsOf(Shr(c.bits, c.nbits - n), n), c.(nbits := c.nbits - n))
  {
    if n > 0 { ReadInside(d, c, n - 1); }
  }

  /** A data byte and its stuffing are read as the eight bits of the byte. */
  lemma ReadByte(d: seq<byte>, c: Cursor, b: byte)
    requires c.nbits == 0 && StuffedByte(b) <= d[Min(c.pos, |d|)..]
    ensures Read(d, c, 8) == (BitsOf(b, 8), Cursor(c.pos + |StuffedByte(b)|, b, 0))
    ensures forall n :: 0 < n <= 8 ==> Read(d, c, n) == Read(d, Refill(d, c), n)
  {
    var f := Refill(d, c);
    var s := StuffedByte(b);
    assert d[c.pos] == s[0] && (b == 0xFF ==> d[c.pos + 1] == s[1]);
    assert f == Cursor(c.pos + |s|, b, 8);
    ReadInside(d, f, 8);
    forall n | 0 < n <= 8 ensures Read(d, c, n) == Read(d, f, n) { RefillOnce(d, c, n); }
  }

  lemma {:induction false} RefillOnce(d: seq<byte>, c: Cursor, n: nat)
    requires c.nbits == 0 && n > 0
    ensures Read(d, c, n) == Read(d, Refill(d, c), n)
  {
    if n > 1 {
      RefillOnce(d, c, n - 1);
    } else {
      assert Read(d, c, 0) == ([], c) && Read(d, Refill(d, c), 0) == ([], Refill(d, c));
    }
  }

  function Min(a: nat, b: nat): nat { if a < b then a else b }

  /** The reader inverts packing and stuffing: it delivers the bits, and stops behind the last byte of the segment. */
  lemma {:induction false} ReadSegment(d: seq<byte>, c: Cursor, bs: seq<bit>)
    requires c.nbits == 0 && Segment(bs) <= d[Min(c.pos, |d|)..]
    ensures Ahead(d, c, bs, c.pos + |Segment(bs)|)
    decreases |bs|
  {
    if bs != [] {
      SegmentHead(bs);
      var s, rest := StuffedByte(FirstByte(bs)), AfterByte(bs);
      var tail := d[Min(c.pos, |d|)..];
      assert s == tail[..|s|] && Segment(rest) == tail[|s|..][..|Segment(rest)|];
      ReadFirstByte(d, c, bs);
      if |bs| >= 8 {
        var c1 := Read(d, c, 8).1;
        assert tail[|s|..] == d[c1.pos..];
        ReadSegment(d, c1, rest);
        ReadSplit(d, c, 8, |rest|);
        assert bs == bs[..8] + rest;
      }
    }
  }

  lemma SegmentHead(bs: seq<bit>)
    requires bs != []
    ensures Segment(bs) == StuffedByte(FirstByte(bs)) + Segment(AfterByte(bs))
  {
    assert Pack(bs)[1..] == Pack(AfterByte(bs));
  }

  lemma ReadFirstByte(d: seq<byte>, c: Cursor, bs: seq<bit>)
    requires c.nbits == 0 && bs != [] && StuffedByte(FirstByte(bs)) <= d[Min(c.pos, |d|)..]
    ensures Read(d, c, Min(8, |bs|)).0 == bs[..Min(8, |bs|)]
    ensures Read(d, c, Min(8, |bs|)).1.pos == c.pos + |StuffedByte(FirstByte(bs))|
    ensures |bs| >= 8 ==> Read(d, c, 8).1.nbits == 0
  {
    var b, n := FirstByte(bs), Min(8, |bs|);
    ReadByte(d, c, b);
    ReadSplit(d, c, n, 8 - n);
    ReadInside(d, Refill(d, c), n);
    FirstByteBits(bs);
  }

  lemma FirstByteBits(bs: seq<bit>)
    requires bs != []
    ensures BitsOf(FirstByte(bs), 8)[..Min(8, |bs|)] == bs[..Min(8, |bs|)]
  {
    BitsOfValue(if |bs| < 8 then bs + seq(8 - |bs|, _ => 1) else bs[..8]);
  }

  // ---------- Huffman symbols ----------

  /** T.81 F.2.2.3: the shortest of the next n..16 bits that spell a code word; its index and the cursor behind it. */
  function DecodeFrom(d: seq<byte>, c: Cursor, counts: Counts, n: nat): Option<(nat, Cursor)>
    requires 1 <= n <= 17
    decreases 17 - n
  {
    if n == 17 then None else
      var (bs, c1) := Read(d, c, n);
      match Match(counts, bs)
      case Some(k) => Some((k, c1))
      case None => DecodeFrom(d, c, counts, n + 1)
  }

  function NextSymbol(d: seq<byte>, c: Cursor, counts: Counts): Option<(nat, Cursor)> {
    DecodeFrom(d, c, counts, 1)
  }

  /** A prefix that is no code word is extended by one bit. */
  lemma OneMoreBit(d: seq<byte>, c: Cursor, counts: Counts, len: nat)
    requires 1 <= len <= 16
    requires var code := Value(Read(d, c, len).0); First(counts, len) + counts[len - 1] <= code
    ensures DecodeFrom(d, c, counts, len) == DecodeFrom(d, c, counts, len + 1)
    ensures Value(Read(d, c, len + 1).0) == 2 * Value(Read(d, c, len).0) + ReadBit(d, Read(d, c, len).1).0
    ensures First(counts, len + 1) <= Value(Read(d, c, len + 1).0)
  {
    assert Read(d, c, len + 1).0[..len] == Read(d, c, len).0;
  }

  /** A prefix that the table accepts is the code word at the table's index. */
  lemma Hit(d: seq<byte>, c: Cursor, h: Table, counts: Counts, len: nat, code: nat)
    requires Describes(h, counts) && 1 <= len <= 16
    requires code == Value(Read(d, c, len).0) && First(counts, len) <= code <= h.maxcode[len]
    ensures 0 <= h.valptr[len] + code - h.mincode[len]
    ensures DecodeFrom(d, c, counts, len) == Some((h.valptr[len] + code - h.mincode[len], Read(d, c, len).1))
  {
    TableHit(h, counts, len, code);
    var bs := Read(d, c, len).0;
    assert Match(counts, bs) == Some(Offset(counts, len) + code - First(counts, len));
  }

  ghost predicate Spells(d: seq<byte>, c: Cursor, counts: Counts, k: nat) {
    k < Total(counts) && Read(d, c, Size(counts, k)).0 == Code(counts, k)
  }

  lemma {:induction false} DecodeFromCode(d: seq<byte>, c: Cursor, counts: Counts, k: nat, n: nat)
    requires Kraft(counts) && Spells(d, c, counts, k) && 1 <= n <= Size(counts, k)
    ensures DecodeFrom(d, c, counts, n) == Some((k, Read(d, c, Size(counts, k)).1))
    decreases 17 - n
  {
    var len := Size(counts, k);
    MatchCode(counts, k);
    if n < len {
      ReadSplit(d, c, n, len - n);
      if Match(counts, Read(d, c, n).0).Some? { LongerCode(counts, Read(d, c, n).0, Code(counts, k)); }
      DecodeFromCode(d, c, counts, k, n + 1);
    }
  }

  lemma {:induction false} DecodedIsCode(d: seq<byte>, c: Cursor, counts: Counts, n: nat)
    requires 1 <= n <= 17
    ensures match DecodeFrom(d, c, counts, n)
            case Some((k, c1)) => Spells(d, c, counts, k) && c1 == Read(d, c, Size(counts, k)).1
            case None => forall len :: n <= len <= 16 ==> Match(counts, Read(d, c, len).0).None?
    decreases 17 - n
  {
    if n < 17 {
      match Match(counts, Read(d, c, n).0)
      case Some(k) => MatchedIsCode(counts, Read(d, c, n).0, k);
      case None => DecodedIsCode(d, c, counts, n + 1);
    }
  }

  /**
   * The decoder finds symbol `k` if and only if the code word of `k` comes next, and consumes exactly that code word.
   */
  lemma NextSymbolIff(d: seq<byte>, c: Cursor, counts: Counts, k: nat)
    requires Kraft(counts)
    ensures Spells(d, c, counts, k) <==> NextSymbol(d, c, counts).Some? && NextSymbol(d, c, counts).value.0 == k
    ensures Spells(d, c, counts, k) ==> NextSymbol(d, c, counts) == Some((k, Read(d, c, Size(counts, k)).1))
  {
    if Spells(d, c, counts, k) { DecodeFromCode(d, c, counts, k, 1); }
    DecodedIsCode(d, c, counts, 1);
  }

  ghost function Codes(counts: Counts, ks: seq<nat>): seq<bit>
    requires forall i :: 0 <= i < |ks| ==> ks[i] < Total(counts)
  {
    if ks == [] then [] else Code(counts, ks[0]) + Codes(counts, ks[1..])
  }

  function Symbols(d: seq<byte>, c: Cursor, counts: Counts, n: nat): Option<(seq<nat>, Cursor)>
    decreases n
  {
    if n == 0 then Some(([], c)) else
      match NextSymbol(d, c, counts)
      case None => None
      case Some((k, c1)) =>
        match Symbols(d, c1, counts, n - 1)
        case None => None
        case Some((ks, c2)) => Some(([k] + ks, c2))
  }

  lemma NothingRead(d: seq<byte>, c: Cursor)
    ensures Read(d, c, 0).1 == c
  {}

  /** Decoding a code word finds its symbol and leaves the reader in front of what follows. */
  lemma ReadCode(d: seq<byte>, c: Cursor, counts: Counts, k: nat, rest: seq<bit>, end: nat) returns (c1: Cursor)
    requires Kraft(counts) && k < Total(counts) && Ahead(d, c, Code(counts, k) + rest, end)
    ensures NextSymbol(d, c, counts) == Some((k, c1)) && Ahead(d, c1, rest, end)
    ensures Read(d, c, |Code(counts, k) + rest|).1 == Read(d, c1, |rest|).1
  {
    hide Ahead, Read, NextSymbol, Kraft;
    var w := Code(counts, k);
    c1 := Read(d, c, |w|).1;
    AheadSplit(d, c, w, rest, end);
    ReadSplit(d, c, |w|, |rest|);
    NextSymbolIff(d, c, counts, k);
  }

  /** Decoding the concatenated code words of any symbol sequence returns the sequence and consumes exactly its bits. */
  lemma {:induction false} SymbolsOfCodes(d: seq<byte>, c: Cursor, counts: Counts, ks: seq<nat>, end: nat)
    requires Kraft(counts) && forall i :: 0 <= i < |ks| ==> ks[i] < Total(counts)
    requires Ahead(d, c, Codes(counts, ks), end)
    ensures Symbols(d, c, counts, |ks|) == Some((ks, Read(d, c, |Codes(counts, ks)|).1))
    decreases |ks|
  {
    hide Ahead, Read, NextSymbol, Code, Size, Kraft;
    if ks == [] {
      NothingRead(d, c);
    } else {
      var c1 := ReadCode(d, c, counts, ks[0], Codes(counts, ks[1..]), end);
      SymbolsOfCodes(d, c1, counts, ks[1..], end);
      assert ks == [ks[0]] + ks[1..];
    }
  }

  // ---------- the class ----------

  predicate RestartMarkerAt(d: seq<byte>, p: nat) {
    p + 1 < |d| && d[p] == 0xFF && 0xD0 <= d[p + 1] <= 0xD7
  }

  /** Behind the first RSTn marker at or after `p`; without one, one past the end. */
  function AfterRestart(d: seq<byte>, p: nat): nat
    decreases |d| - p
  {
    if p + 1 < |d| && !RestartMarkerAt(d, p) then AfterRestart(d, p + 1) else p + 2
  }

  /** That is behind the first 0xFF 0xD0 to 0xFF 0xD7 at or after `p`, or there is none before it. */
  lemma {:induction false} AfterRestartIs(d: seq<byte>, p: nat)
    ensures var q := AfterRestart(d, p);
      && q >= p + 2 && (q <= |d| ==> d[q - 2] == 0xFF && 0xD0 <= d[q - 1] <= 0xD7) && (q > p + 2 ==> q <= |d| + 1)
      && forall i :: p <= i < q - 2 ==> !(d[i] == 0xFF && 0xD0 <= d[i + 1] <= 0xD7)
    decreases |d| - p
  {
    if p + 1 < |d| && !RestartMarkerAt(d, p) { AfterRestartIs(d, p + 1); }
  }

  /** At a marker the reader goes on with zeros and stays; past the end it goes on with zeros. */
  lemma {:induction false} NothingLeft(d: seq<byte>, c: Cursor, n: nat)
    requires c.nbits == 0
    requires c.pos >= |d| || (d[c.pos] == 0xFF && !(c.pos + 1 < |d| && d[c.pos + 1] == 0))
    ensures var (bs, c1) := Read(d, c, n);
      && (forall i :: 0 <= i < n ==> bs[i] == 0) && (c1.nbits == 0 || c1.bits == 0)
      && (if c.pos < |d| then c1.pos == c.pos else c1.pos >= c.pos)
  {
    if n > 0 {
      NothingLeft(d, c, n - 1);
      var c1 := Read(d, c, n - 1).1;
      ShrZero((if c1.nbits == 0 then Refill(d, c1) else c1).nbits - 1);
    }
  }

  lemma {:induction false} ShrZero(n: nat)
    ensures Shr(0, n) == 0
  {
    if n > 0 { ShrZero(n - 1); }
  }

  lemma DoubleInt32(v: int, b: bit)
    ensures Int32(2 * Int32(v) + b) == Int32(2 * v + b)
  {
    var q := (v + 0x8000_0000) / 0x1_0000_0000;
    assert 2 * Int32(v) + b == 2 * v + b - 2 * q * 0x1_0000_0000;
  }

  /** A missing value is undefined, which both loops of the block decoder treat like symbol 0. */
  function ValueAt(values: seq<byte>, k: nat): byte { if k < |values| then values[k] else 0 }

  class BitReader {
    const d: seq<byte>
    var pos: nat
    var bits: byte
    var nbits: nat

    constructor (d: seq<byte>, pos: nat)
      ensures this.d == d && Cur() == Cursor(pos, 0, 0)
    {
      this.d, this.pos, bits, nbits := d, pos, 0, 0;
    }

    function Cur(): Cursor
      reads this
    {
      Cursor(pos, bits, nbits)
    }

    method Bit() returns (b: bit)
      modifies this
      ensures (b, Cur()) == ReadBit(d, old(Cur()))
    {
      if nbits == 0 {
        var x: byte := if pos < |d| then d[pos] else 0;
        if x == 0xFF {
          if pos + 1 < |d| && d[pos + 1] == 0 { pos := pos + 2; } else { x := 0; }
        } else {
          pos := pos + 1;
        }
        bits := x;
        nbits := 8;
      }
      nbits := nbits - 1;
      b := Shr(bits, nbits) % 2;
    }

    /** `n` bits as a number, in the 32-bit arithmetic of `(v << 1) | bit`. */
    method Receive(n: nat) returns (v: int)
      modifies this
      ensures v == Int32(Value(Read(d, old(Cur()), n).0)) && Cur() == Read(d, old(Cur()), n).1
    {
      v := 0;
      for i := 0 to n
        invariant v == Int32(Value(Read(d, old(Cur()), i).0)) && Cur() == Read(d, old(Cur()), i).1
      {
        ghost var got := Read(d, old(Cur()), i).0;
        var b := Bit();
        DoubleInt32(Value(got), b);
        assert Read(d, old(Cur()), i + 1).0[..i] == got;
        v := Int32(2 * v + b);
      }
    }

    /** The next symbol of table `h`, or None where the original throws ("invalid Huffman code"). */
    method Decode(h: Table, ghost counts: Counts) returns (s: Option<byte>)
      requires Describes(h, counts)
      modifies this
      ensures match NextSymbol(d, old(Cur()), counts)
              case Some((k, c)) => s == Some(ValueAt(h.values, k)) && Cur() == c
              case None => s == None
    {
      ghost var c0 := Cur();
      var b := Bit();
      var code: nat, len := b, 1;
      assert Read(d, c0, 0) == ([], c0);
      assert Read(d, c0, 1).0 == [b] && [b][..0] == [];
      while code > h.maxcode[len]
        invariant 1 <= len <= 16
        invariant code == Value(Read(d, c0, len).0) && Cur() == Read(d, c0, len).1
        invariant First(counts, len) <= code
        invariant NextSymbol(d, c0, counts) == DecodeFrom(d, c0, counts, len)
        decreases 16 - len
      {
        TableMiss(h, counts, len, code);
        OneMoreBit(d, c0, counts, len);
        b := Bit();
        code := 2 * code + b;
        len := len + 1;
        if len > 16 { return None; }
      }
      Hit(d, c0, h, counts, len, code);
      s := Some(ValueAt(h.values, h.valptr[len] + code - h.mincode[len]));
    }

    method Restart()
      modifies this
      ensures pos == AfterRestart(d, old(pos)) && nbits == 0 && bits == old(bits)
    {
      nbits := 0;
      while pos + 1 < |d| && !(d[pos] == 0xFF && 0xD0 <= d[pos + 1] <= 0xD7)
        invariant nbits == 0 && bits == old(bits) && AfterRestart(d, pos) == AfterRestart(d, old(pos))
      {
        pos := pos + 1;
      }
      pos := pos + 2;
    }
  }
}
