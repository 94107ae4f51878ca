/**
 * One 8x8 block of a baseline JPEG scan: the run-length and magnitude coding of ITU-T T.81 F.1.2 as the specification,
 * and the decoder of image-io.ts that inverts it.
 */
module JpegBlock {
  import opened Bits
  import opened Huffman
  import opened EntropyBits
  import opened ZigZagOrder
  import opened Wrappers

  // ---------- the specification: T.81 F.1.2 ----------

  /** A Huffman table of the file: code lengths and the symbols in code order. */
  datatype Coder = Coder(counts: Counts, values: seq<byte>)

  predicate ValidCoder(h: Coder) { |h.values| == Total(h.counts) }

  /** The code word of symbol `s` (of its first entry, should the table list it twice). */
  ghost function Word(h: Coder, s: byte): seq<bit>
    requires ValidCoder(h) && s in h.values
  {
    Code(h.counts, IndexOf(h.values, s))
  }

  function IndexOf(xs: seq<byte>, x: byte): (i: nat)
    requires x in xs
    ensures i < |xs| && xs[i] == x
  {
    if xs[0] == x then 0 else 1 + IndexOf(xs[1..], x)
  }

  function Abs(x: int): nat { if x < 0 then -x else x }

  /** The magnitude category SSSS of a value: how many bits its absolute value has. */
  function Category(x: nat): nat {
    if x == 0 then 0 else 1 + Category(x / 2)
  }

  lemma {:induction false} CategoryBounds(x: nat)
    ensures x < Pow2(Category(x)) && (x > 0 ==> Pow2(Category(x) - 1) <= x)
  {
    if x > 1 { CategoryBounds(x / 2); }
  }

  lemma {:induction false} CategoryAtMost(x: nat, n: nat)
    requires x < Pow2(n)
    ensures Category(x) <= n
  {
    if x > 0 { CategoryAtMost(x / 2, n - 1); }
  }

  /** The additional bits of a value: the value itself, or the value - 1 in two's complement if it is negative. */
  function Extra(x: int): seq<bit> {
    var t := Category(Abs(x));
    CategoryBounds(Abs(x));
    BitsOf(if x >= 0 then x else x + Pow2(t) - 1, t)
  }

  /** A coded symbol and the additional bits that follow it. */
  datatype Coded = Coded(symbol: byte, extra: seq<bit>)

  type Coefficients = z: seq<int> | |z| == 64 && forall i :: 0 <= i < 64 ==> Abs(z[i]) <= 0x7FFF witness seq(64, _ => 0)

  /** How many coefficients from `k` on are zero. */
  function Run(z: Coefficients, k: nat): (r: nat)
    requires k <= 64
    ensures k + r <= 64 && (k + r < 64 ==> z[k + r] != 0)
    ensures forall i :: k <= i < k + r ==> z[i] == 0
    decreases 64 - k
  {
    if k == 64 || z[k] != 0 then 0 else 1 + Run(z, k + 1)
  }

  lemma SmallCategory(z: Coefficients, k: nat)
    requires k < 64
    ensures Category(Abs(z[k])) <= 15
  {
    Pow2Sixteen();
    CategoryAtMost(Abs(z[k]), 15);
  }

  const ZRL: byte := 0xF0
  const EOB: byte := 0x00

  /** RRRRSSSS: a run of zeros and the category of the coefficient behind it. */
  function Symbol(r: nat, s: nat): (rs: byte)
    requires r < 16 && s < 16
    ensures rs / 16 == r && rs % 16 == s
  {
    r * 16 + s
  }

  /** F.1.2.2: zero runs of 16 become ZRL, a trailing run becomes EOB, all else (run, category) and additional bits. */
  function RunLengths(z: Coefficients, k: nat): seq<Coded>
    requires k <= 64
    decreases 64 - k
  {
    var r := Run(z, k);
    if k == 64 then []
    else if k + r == 64 then [Coded(EOB, [])]
    else if r >= 16 then [Coded(ZRL, [])] + RunLengths(z, k + 16)
    else
      SmallCategory(z, k + r);
      [Coded(Symbol(r, Category(Abs(z[k + r]))), Extra(z[k + r]))] + RunLengths(z, k + r + 1)
  }

  /** F.1.2.1: the difference to the prediction. */
  function DcDifference(z: Coefficients, pred: int): Coded
    requires Abs(pred) <= 0x7FFF
  {
    DcCategory(z[0] - pred);
    Coded(Category(Abs(z[0] - pred)), Extra(z[0] - pred))
  }

  lemma DcCategory(x: int)
    requires Abs(x) <= 0xFFFE
    ensures Category(Abs(x)) <= 16
  {
    Pow2Sixteen();
    CategoryAtMost(Abs(x), 16);
  }

  predicate Codable(h: Coder, cs: seq<Coded>) {
    forall i :: 0 <= i < |cs| ==> cs[i].symbol in h.values
  }

  ghost function Coding(h: Coder, cs: seq<Coded>): seq<bit>
    requires ValidCoder(h) && Codable(h, cs)
  {
    if cs == [] then [] else Word(h, cs[0].symbol) + cs[0].extra + Coding(h, cs[1..])
  }

  /** The tables and the dequantisation of one component. */
  datatype Tables = Tables(dc: Coder, ac: Coder, q: seq<nat>)

  predicate ValidTables(t: Tables) { |t.q| == 64 && forall i :: 0 <= i < 64 ==> t.q[i] <= 0xFFFF }

  /** The tables have a code word for every symbol of the block. */
  predicate Encodable(t: Tables, z: Coefficients, pred: int) {
    && ValidTables(t) && ValidCoder(t.dc) && ValidCoder(t.ac) && Kraft(t.dc.counts) && Kraft(t.ac.counts)
    && Abs(pred) <= 0x7FFF
    && Codable(t.dc, [DcDifference(z, pred)]) && Codable(t.ac, RunLengths(z, 1))
  }

  /** The entropy-coded bits of a block. */
  ghost function BlockBits(t: Tables, z: Coefficients, pred: int): seq<bit>
    requires Encodable(t, z, pred)
  {
    Coding(t.dc, [DcDifference(z, pred)]) + Coding(t.ac, RunLengths(z, 1))
  }

  /** What the IDCT gets: the dequantised coefficients in natural order. */
  function Dequantised(t: Tables, z: Coefficients): seq<int>
    requires ValidTables(t)
  {
    seq(64, n requires 0 <= n < 64 => z[Position(n)] * t.q[Position(n)])
  }

  // ---------- the decoder, on values ----------

  function NextByte(d: seq<byte>, c: Cursor, h: Coder): Option<(byte, Cursor)> {
    match NextSymbol(d, c, h.counts)
    case None => None
    case Some((k, c1)) => Some((ValueAt(h.values, k), c1))
  }

  /** `1 << n` in JavaScript's 32-bit arithmetic. */
  function One(n: int): int
    requires n >= 0
  {
    Int32(Pow2(n % 32))
  }

  /** `extend` of image-io.ts (EXTEND of T.81 F.2.2.1). */
  function Extend(v: int, t: nat): int
    requires t > 0
  {
    if v < One(t - 1) then v - One(t) + 1 else v
  }

  /** `extend(br.receive(t), t)` */
  function ReadValue(d: seq<byte>, c: Cursor, t: nat): (int, Cursor)
    requires t > 0
  {
    var (bs, c1) := Read(d, c, t);
    (Extend(Int32(Value(bs)), t), c1)
  }

  /** A dequantised coefficient, as the Int32Array `coef` keeps it. */
  function Scaled(v: int, q: nat): int { Int32(v * q) }

  /** The new prediction. */
  function ReadDc(d: seq<byte>, c: Cursor, h: Coder, pred: int): Option<(int, Cursor)> {
    match NextByte(d, c, h)
    case None => None
    case Some((t, c1)) =>
      if t == 0 then Some((pred, c1)) else
        var (v, c2) := ReadValue(d, c1, t);
        Some((pred + v, c2))
  }

  function ReadAc(d: seq<byte>, c: Cursor, t: Tables, k: nat, coef: seq<int>): (r: Option<(seq<int>, Cursor)>)
    requires ValidTables(t) && |coef| == 64
    ensures r.Some? ==> |r.value.0| == 64
    decreases 64 - k
  {
    if k >= 64 then Some((coef, c)) else
      match NextByte(d, c, t.ac)
      case None => None
      case Some((rs, c1)) =>
        var r, s := rs / 16, rs % 16;
        if s == 0 then (if r == 15 then ReadAc(d, c1, t, k + 16, coef) else Some((coef, c1)))
        else if k + r > 63 then Some((coef, c1))
        else
          var (v, c2) := ReadValue(d, c1, s);
          ReadAc(d, c2, t, k + r + 1, coef[Natural(k + r) := Scaled(v, t.q[k + r])])
  }

  function DcOnly(t: Tables, p: int): seq<int>
    requires ValidTables(t)
  {
    seq(64, n => if n == 0 then Scaled(p, t.q[0]) else 0)
  }

  datatype Decoded = Decoded(coef: seq<int>, pred: int, cursor: Cursor)

  function ReadBlock(d: seq<byte>, c: Cursor, t: Tables, pred: int): Option<Decoded>
    requires ValidTables(t)
  {
    match ReadDc(d, c, t.dc, pred)
    case None => None
    case Some((p, c1)) =>
      match ReadAc(d, c1, t, 1, DcOnly(t, p))
      case None => None
      case Some((coef, c2)) => Some(Decoded(coef, p, c2))
  }

  // ---------- the decoder inverts the coding ----------

  lemma OneIsPow2(n: nat)
    requires n <= 16
    ensures One(n) == Pow2(n) <= 0x1_0000
  {
    assert n % 32 == n;
    assert Pow2(n) <= 0x1_0000 by {
      Pow2Monotone(n, 16);
      Pow2Sixteen();
    }
  }

  lemma ExtraValue(x: int)
    ensures Value(Extra(x)) == if x >= 0 then x else x + Pow2(Category(Abs(x))) - 1
  {
    var t := Category(Abs(x));
    CategoryBounds(Abs(x));
    ValueOfBitsOf(if x >= 0 then x else x + Pow2(t) - 1, t);
  }

  lemma ExtendInverts(x: int)
    requires x != 0 && Abs(x) <= 0xFFFE
    ensures Extend(Value(Extra(x)), Category(Abs(x))) == x && Value(Extra(x)) <= 0xFFFF
  {
    ExtraValue(x);
    DcCategory(x);
    CategoryBounds(Abs(x));
    var t := Category(Abs(x));
    var half := Pow2(t - 1);
    assert Pow2(t) == 2 * half;
    ExtendCases(x, t, half);
  }

  lemma ExtendCases(x: int, t: nat, half: nat)
    requires 1 <= t <= 16 && half == Pow2(t - 1) && half <= Abs(x) < 2 * half
    ensures Extend(if x >= 0 then x else x + 2 * half - 1, t) == x && 2 * half <= 0x1_0000
  {
    OneIsPow2(t);
    OneIsPow2(t - 1);
  }

  lemma ReadExtra(d: seq<byte>, c: Cursor, x: int, more: seq<bit>, end: nat)
    requires x != 0 && Abs(x) <= 0xFFFE && Ahead(d, c, Extra(x) + more, end)
    ensures var (v, c1) := ReadValue(d, c, Category(Abs(x))); v == x && Ahead(d, c1, more, end)
  {
    ExtendInverts(x);
    AheadSplit(d, c, Extra(x), more, end);
  }

  lemma ReadWord(d: seq<byte>, c: Cursor, h: Coder, s: byte, more: seq<bit>, end: nat)
    requires ValidCoder(h) && Kraft(h.counts) && s in h.values && Ahead(d, c, Word(h, s) + more, end)
    ensures NextByte(d, c, h).Some?
    ensures var (s', c1) := NextByte(d, c, h).value; s' == s && Ahead(d, c1, more, end)
  {
    AheadSplit(d, c, Word(h, s), more, end);
    NextSymbolIff(d, c, h.counts, IndexOf(h.values, s));
  }

  lemma ReadDifference(d: seq<byte>, c: Cursor, h: Coder, z: Coefficients, pred: int, more: seq<bit>, end: nat)
    requires ValidCoder(h) && Kraft(h.counts) && Abs(pred) <= 0x7FFF && Codable(h, [DcDifference(z, pred)])
    requires Ahead(d, c, Coding(h, [DcDifference(z, pred)]) + more, end)
    ensures ReadDc(d, c, h, pred).Some?
    ensures var (p, c1) := ReadDc(d, c, h, pred).value; p == z[0] && Ahead(d, c1, more, end)
  {
    var x, dc := z[0] - pred, DcDifference(z, pred);
    CodingHead(h, [dc], more);
    assert [dc][1..] == [] && dc.extra + ([] + more) == Extra(x) + more;
    ReadWord(d, c, h, dc.symbol, Extra(x) + more, end);
    if x != 0 { ReadExtra(d, NextByte(d, c, h).value.1, x, more, end); }
    else { assert Extra(x) + more == more; }
  }

  lemma CodingHead(h: Coder, cs: seq<Coded>, more: seq<bit>)
    requires ValidCoder(h) && Codable(h, cs) && cs != []
    ensures Coding(h, cs) + more == Word(h, cs[0].symbol) + (cs[0].extra + (Coding(h, cs[1..]) + more))
  {}

  /** The coefficients from `k` on are not yet decoded. */
  predicate Blank(coef: seq<int>, k: nat) {
    |coef| == 64 && forall i :: k <= i < 64 ==> coef[Natural(i)] == 0
  }

  /** `coef` with the coefficients from `k` on taken from the block. */
  predicate Filled(t: Tables, z: Coefficients, k: nat, before: seq<int>, after: seq<int>)
    requires ValidTables(t) && |before| == 64
  {
    && |after| == 64
    && forall i :: 0 <= i < 64 ==> after[Natural(i)] == if i < k then before[Natural(i)] else z[i] * t.q[i]
  }

  lemma Store(t: Tables, z: Coefficients, k: nat, j: nat, coef: seq<int>, after: seq<int>)
    requires ValidTables(t) && k <= j < 64 && Blank(coef, k) && forall i :: k <= i < j ==> z[i] == 0
    requires Filled(t, z, j + 1, coef[Natural(j) := Scaled(z[j], t.q[j])], after)
    ensures Filled(t, z, k, coef, after)
  {
    hide Natural, Position, Int32;
    Product(z[j], t.q[j]);
    forall i | 0 <= i < 64 ensures after[Natural(i)] == if i < k then coef[Natural(i)] else z[i] * t.q[i] {
      NaturalPermutes(i);
      NaturalPermutes(j);
    }
  }

  lemma StoreBlank(k: nat, j: nat, coef: seq<int>, v: int)
    requires k <= j < 64 && Blank(coef, k)
    ensures Blank(coef[Natural(j) := v], j + 1)
  {
    forall i | j + 1 <= i < 64 ensures coef[Natural(j) := v][Natural(i)] == 0 {
      NaturalPermutes(i);
      NaturalPermutes(j);
    }
  }

  /** A coefficient times a quantiser fits an Int32Array element. */
  lemma Product(x: int, q: nat)
    requires Abs(x) <= 0x7FFF && q <= 0xFFFF
    ensures Scaled(x, q) == x * q
  {
    MulMonotone(Abs(x), 0x7FFF, q);
    if x < 0 { assert x * q == -(Abs(x) * q); }
  }

  lemma MulMonotone(a: nat, b: nat, m: nat)
    requires a <= b
    ensures a * m <= b * m
  {}

  /** The end of the block: EOB, or nothing after coefficient 63. */
  lemma EndStep(d: seq<byte>, c: Cursor, t: Tables, z: Coefficients, k: nat, coef: seq<int>, more: seq<bit>, end: nat)
    requires ValidTables(t) && ValidCoder(t.ac) && Kraft(t.ac.counts) && k <= 64 && |coef| == 64
        && Codable(t.ac, RunLengths(z, k))
    requires Ahead(d, c, Coding(t.ac, RunLengths(z, k)) + more, end) && k + Run(z, k) == 64
    ensures ReadAc(d, c, t, k, coef).Some?
    ensures var (after, c1) := ReadAc(d, c, t, k, coef).value; after == coef && Ahead(d, c1, more, end)
  {
    var cs := RunLengths(z, k);
    if k == 64 {
      assert Coding(t.ac, []) + more == more;
    } else {
      CodingHead(t.ac, cs, more);
      assert cs[1..] == [] && cs[0].extra + ([] + more) == more;
      ReadWord(d, c, t.ac, EOB, more, end);
    }
  }

  /** ZRL: sixteen more zeros. */
  lemma ZrlStep(d: seq<byte>, c: Cursor, t: Tables, z: Coefficients, k: nat, coef: seq<int>, more: seq<bit>, end: nat)
      returns (c1: Cursor)
    requires ValidTables(t) && ValidCoder(t.ac) && Kraft(t.ac.counts) && k < 64 && |coef| == 64
        && Codable(t.ac, RunLengths(z, k))
    requires Ahead(d, c, Coding(t.ac, RunLengths(z, k)) + more, end) && 16 <= Run(z, k) && k + Run(z, k) < 64
    ensures Codable(t.ac, RunLengths(z, k + 16)) && Ahead(d, c1, Coding(t.ac, RunLengths(z, k + 16)) + more, end)
    ensures ReadAc(d, c, t, k, coef) == ReadAc(d, c1, t, k + 16, coef)
  {
    var cs := RunLengths(z, k);
    CodingHead(t.ac, cs, more);
    assert cs[1..] == RunLengths(z, k + 16);
    var tail := Coding(t.ac, cs[1..]) + more;
    assert cs[0].extra + tail == tail;
    ReadWord(d, c, t.ac, ZRL, tail, end);
    c1 := NextByte(d, c, t.ac).value.1;
  }

  /** A non-zero coefficient behind a run of fewer than 16 zeros. */
  lemma CoefficientStep(d: seq<byte>, c: Cursor, t: Tables, z: Coefficients, k: nat, coef: seq<int>, more: seq<bit>,
      end: nat)
      returns (c2: Cursor)
    requires ValidTables(t) && ValidCoder(t.ac) && Kraft(t.ac.counts) && k < 64 && |coef| == 64
        && Codable(t.ac, RunLengths(z, k))
    requires Ahead(d, c, Coding(t.ac, RunLengths(z, k)) + more, end) && Run(z, k) < 16 && k + Run(z, k) < 64
    ensures var j := k + Run(z, k);
      && Codable(t.ac, RunLengths(z, j + 1)) && Ahead(d, c2, Coding(t.ac, RunLengths(z, j + 1)) + more, end)
      && ReadAc(d, c, t, k, coef) == ReadAc(d, c2, t, j + 1, coef[Natural(j) := Scaled(z[j], t.q[j])])
  {
    var cs, j := RunLengths(z, k), k + Run(z, k);
    var s := CategoryOf(z, j);
    CodingHead(t.ac, cs, more);
    assert cs[1..] == RunLengths(z, j + 1);
    var tail := Coding(t.ac, cs[1..]) + more;
    ReadWord(d, c, t.ac, Symbol(Run(z, k), s), Extra(z[j]) + tail, end);
    var c1 := NextByte(d, c, t.ac).value.1;
    ReadExtra(d, c1, z[j], tail, end);
    c2 := ReadValue(d, c1, s).1;
    StoreStep(d, c, t, k, coef, Run(z, k), s, c1, z[j], c2);
  }

  lemma CategoryOf(z: Coefficients, j: nat) returns (s: nat)
    requires j < 64 && z[j] != 0
    ensures s == Category(Abs(z[j])) && 0 < s < 16
  {
    s := Category(Abs(z[j]));
    SmallCategory(z, j);
    CategoryBounds(Abs(z[j]));
  }

  /** One coefficient of the AC loop. */
  lemma StoreStep(d: seq<byte>, c: Cursor, t: Tables, k: nat, coef: seq<int>, r: nat, s: nat, c1: Cursor, v: int,
      c2: Cursor)
    requires ValidTables(t) && k < 64 && |coef| == 64 && r < 16 && 0 < s < 16 && k + r < 64
    requires NextByte(d, c, t.ac) == Some((Symbol(r, s), c1)) && ReadValue(d, c1, s) == (v, c2)
    ensures ReadAc(d, c, t, k, coef) == ReadAc(d, c2, t, k + r + 1, coef[Natural(k + r) := Scaled(v, t.q[k + r])])
  {
    hide NextByte, ReadValue, Scaled, Natural, Symbol;
  }

  /** The AC loop inverts the run-length coding from coefficient `k` on. */
  lemma {:induction false} AcInverts(d: seq<byte>, c: Cursor, t: Tables, z: Coefficients, k: nat, coef: seq<int>,
                                     more: seq<bit>, end: nat)
    requires ValidTables(t) && ValidCoder(t.ac) && Kraft(t.ac.counts) && k <= 64 && Blank(coef, k)
        && Codable(t.ac, RunLengths(z, k))
    requires Ahead(d, c, Coding(t.ac, RunLengths(z, k)) + more, end)
    ensures ReadAc(d, c, t, k, coef).Some?
    ensures var (after, c1) := ReadAc(d, c, t, k, coef).value; Filled(t, z, k, coef, after) && Ahead(d, c1, more, end)
    decreases 64 - k
  {
    hide ReadAc, RunLengths, Coding, Ahead, Run, Natural, Filled;
    var j := k + Run(z, k);
    if j == 64 {
      EndStep(d, c, t, z, k, coef, more, end);
      SkipZeros(t, z, k, 64, coef, coef);
    } else if j >= k + 16 {
      var c1 := ZrlStep(d, c, t, z, k, coef, more, end);
      AcInverts(d, c1, t, z, k + 16, coef, more, end);
      SkipZeros(t, z, k, k + 16, coef, ReadAc(d, c, t, k, coef).value.0);
    } else {
      var c2 := CoefficientStep(d, c, t, z, k, coef, more, end);
      StoreBlank(k, j, coef, Scaled(z[j], t.q[j]));
      AcInverts(d, c2, t, z, j + 1, coef[Natural(j) := Scaled(z[j], t.q[j])], more, end);
      Store(t, z, k, j, coef, ReadAc(d, c, t, k, coef).value.0);
    }
  }

  lemma SkipZeros(t: Tables, z: Coefficients, k: nat, j: nat, coef: seq<int>, after: seq<int>)
    requires ValidTables(t) && k <= j <= 64 && Blank(coef, k) && forall i :: k <= i < j ==> z[i] == 0
    requires (j == 64 && after == coef) || Filled(t, z, j, coef, after)
    ensures Filled(t, z, k, coef, after)
  {}

  lemma FilledIsDequantised(t: Tables, z: Coefficients, after: seq<int>)
    requires ValidTables(t) && Filled(t, z, 1, DcOnly(t, z[0]), after)
    ensures after == Dequantised(t, z)
  {
    Product(z[0], t.q[0]);
    forall n | 0 <= n < 64 ensures after[n] == Dequantised(t, z)[n] {
      NaturalPermutes(n);
      NaturalPermutes(0);
    }
  }

  lemma DcOnlyBlank(t: Tables, p: int)
    requires ValidTables(t)
    ensures Blank(DcOnly(t, p), 1)
  {
    forall i | 1 <= i < 64 ensures Natural(i) != 0 {
      NaturalPermutes(i);
      NaturalPermutes(0);
    }
  }

  /** Decoding a coded block recovers its coefficients, whatever bits follow, and leaves the reader behind the block. */
  lemma BlockInverts(d: seq<byte>, c: Cursor, t: Tables, z: Coefficients, pred: int, more: seq<bit>, end: nat)
    requires Encodable(t, z, pred) && Ahead(d, c, BlockBits(t, z, pred) + more, end)
    ensures ReadBlock(d, c, t, pred).Some?
    ensures var r := ReadBlock(d, c, t, pred).value;
      r.coef == Dequantised(t, z) && r.pred == z[0] && Ahead(d, r.cursor, more, end)
  {
    hide ReadAc, ReadDc, ReadBlock, Ahead, Dequantised, Coding, RunLengths, DcDifference, DcOnly, Filled, Blank;
    var dc, ac := Coding(t.dc, [DcDifference(z, pred)]), Coding(t.ac, RunLengths(z, 1));
    Associate(dc, ac, more);
    ReadDifference(d, c, t.dc, z, pred, ac + more, end);
    var c1 := ReadDc(d, c, t.dc, pred).value.1;
    DcOnlyBlank(t, z[0]);
    AcInverts(d, c1, t, z, 1, DcOnly(t, z[0]), more, end);
    var (coef, c2) := ReadAc(d, c1, t, 1, DcOnly(t, z[0])).value;
    FilledIsDequantised(t, z, coef);
    BothParts(d, c, t, pred, z[0], c1, coef, c2);
  }

  lemma Associate(a: seq<bit>, b: seq<bit>, c: seq<bit>)
    ensures a + b + c == a + (b + c)
  {}

  lemma BothParts(d: seq<byte>, c: Cursor, t: Tables, pred: int, p: int, c1: Cursor, coef: seq<int>, c2: Cursor)
    requires ValidTables(t) && ReadDc(d, c, t.dc, pred) == Some((p, c1))
    requires ReadAc(d, c1, t, 1, DcOnly(t, p)) == Some((coef, c2))
    ensures ReadBlock(d, c, t, pred) == Some(Decoded(coef, p, c2))
  {}
}
