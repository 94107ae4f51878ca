/**
 * Where the blocks of a JPEG scan go: plane sizes, the MCU loop and the subsampled pixel lookup of image-io.ts
 * (ITU-T T.81 A.1.1 and A.2).
 */
module JpegGeometry {
  /** Image size and the largest sampling factors of the frame. */
  datatype Frame = Frame(width: nat, height: nat, hmax: nat, vmax: nat)

  /** The sampling factors of one component. */
  datatype Sampling = Sampling(h: nat, v: nat)

  /** Block in column `col` and row `row` of component `comp` of the scan. */
  datatype Block = Block(comp: nat, col: nat, row: nat)

  predicate ValidFrame(f: Frame) { f.hmax >= 1 && f.vmax >= 1 }

  predicate Fits(f: Frame, s: Sampling) { 1 <= s.h <= f.hmax && 1 <= s.v <= f.vmax }

  function CeilDiv(a: nat, b: nat): nat
    requires b >= 1
  {
    (a + b - 1) / b
  }

  function McusX(f: Frame): nat requires ValidFrame(f) { CeilDiv(f.width, 8 * f.hmax) }
  function McusY(f: Frame): nat requires ValidFrame(f) { CeilDiv(f.height, 8 * f.vmax) }

  /** The component's plane in blocks: `bw` and `bh` of decodeJpeg. */
  function PlaneWidth(f: Frame, s: Sampling): nat requires ValidFrame(f) { McusX(f) * s.h }
  function PlaneHeight(f: Frame, s: Sampling): nat requires ValidFrame(f) { McusY(f) * s.v }

  /** The component's own extent in blocks, which a scan of that component alone covers. */
  function OwnWidth(f: Frame, s: Sampling): nat requires ValidFrame(f) { CeilDiv(CeilDiv(f.width * s.h, f.hmax), 8) }
  function OwnHeight(f: Frame, s: Sampling): nat requires ValidFrame(f) { CeilDiv(CeilDiv(f.height * s.v, f.vmax), 8) }

  predicate Single(comps: seq<Sampling>) { |comps| == 1 }

  function PerRow(f: Frame, comps: seq<Sampling>): nat
    requires ValidFrame(f) && comps != []
  {
    if Single(comps) then OwnWidth(f, comps[0]) else McusX(f)
  }

  function Total(f: Frame, comps: seq<Sampling>): nat
    requires ValidFrame(f) && comps != []
  {
    if Single(comps) then OwnWidth(f, comps[0]) * OwnHeight(f, comps[0]) else McusX(f) * McusY(f)
  }

  /** What is left of the MCU in column `mx` and row `my` from block (h, v) of component `c` on, in coding order. */
  function McuFrom(comps: seq<Sampling>, mx: nat, my: nat, c: nat, v: nat, h: nat): (bs: seq<Block>)
    requires c <= |comps| && (c < |comps| ==> v <= comps[c].v && h <= comps[c].h)
    ensures forall i :: 0 <= i < |bs| ==> bs[i].comp < |comps|
    decreases |comps| - c, if c < |comps| then comps[c].v - v else 0, if c < |comps| then comps[c].h - h else 0
  {
    if c == |comps| then []
    else if v == comps[c].v then McuFrom(comps, mx, my, c + 1, 0, 0)
    else if h == comps[c].h then McuFrom(comps, mx, my, c, v + 1, 0)
    else [Block(c, mx * comps[c].h + h, my * comps[c].v + v)] + McuFrom(comps, mx, my, c, v, h + 1)
  }

  /** The blocks of MCU `m` in coding order. */
  function Mcu(f: Frame, comps: seq<Sampling>, m: nat): (bs: seq<Block>)
    requires ValidFrame(f) && comps != [] && m < Total(f, comps)
    ensures forall i :: 0 <= i < |bs| ==> bs[i].comp < |comps|
  {
    NonEmptyRow(f, comps, m);
    var mx, my := m % PerRow(f, comps), m / PerRow(f, comps);
    if Single(comps) then [Block(0, mx, my)] else McuFrom(comps, mx, my, 0, 0, 0)
  }

  lemma NonEmptyRow(f: Frame, comps: seq<Sampling>, m: nat)
    requires ValidFrame(f) && comps != [] && m < Total(f, comps)
    ensures PerRow(f, comps) >= 1
  {}

  /** The blocks a scan of these components covers: the whole plane, or the own extent of a single component. */
  predicate Covered(f: Frame, comps: seq<Sampling>, b: Block)
    requires ValidFrame(f) && comps != []
  {
    && b.comp < |comps|
    && (if Single(comps) then b.col < OwnWidth(f, comps[0]) && b.row < OwnHeight(f, comps[0])
        else b.col < PlaneWidth(f, comps[b.comp]) && b.row < PlaneHeight(f, comps[b.comp]))
  }

  /** The MCU that codes block `b`. */
  function McuOf(f: Frame, comps: seq<Sampling>, b: Block): nat
    requires ValidFrame(f) && comps != [] && b.comp < |comps| && Fits(f, comps[b.comp])
  {
    if Single(comps) then RowMajor(b.row, b.col, PerRow(f, comps))
    else RowMajor(b.row / comps[b.comp].v, b.col / comps[b.comp].h, PerRow(f, comps))
  }

  function RowMajor(row: nat, col: nat, width: nat): nat { row * width + col }

  // ---------- arithmetic ----------

  lemma DivModUnique(x: nat, d: nat, q: nat, r: nat)
    requires d >= 1 && x == q * d + r && r < d
    ensures x / d == q && x % d == r
  {
    MulOrder(q, x / d, d);
    MulOrder(x / d, q, d);
  }

  lemma MulOrder(a: nat, b: nat, d: nat)
    ensures a < b ==> a * d + d <= b * d
  {
    if a < b { MulSplit(a + 1, b - a - 1, d); }
  }

  lemma MulSplit(a: int, b: int, d: int)
    ensures (a + b) * d == a * d + b * d
  {}

  /** Coordinates (q, r) of a grid `rows` x `d` and its row-major index. */
  lemma GridIndex(q: nat, r: nat, rows: nat, d: nat)
    requires q < rows && r < d
    ensures q * d + r < rows * d && (q * d + r) / d == q && (q * d + r) % d == r
  {
    MulOrder(q, rows, d);
    DivModUnique(q * d + r, d, q, r);
  }

  lemma GridRow(m: nat, rows: nat, d: nat)
    requires m < rows * d
    ensures d >= 1 && m / d < rows && m % d < d && m == m / d * d + m % d
  {
    if rows <= m / d { MulOrder(rows, m / d, d); }
  }

  lemma CeilDivBounds(a: nat, b: nat)
    requires b >= 1
    ensures a <= CeilDiv(a, b) * b < a + b
  {}

  /** CeilDiv(a, b) is the least n with a <= n * b. */
  lemma CeilDivLeast(a: nat, b: nat, n: nat)
    requires b >= 1 && a <= n * b
    ensures CeilDiv(a, b) <= n
  {
    CeilDivBounds(a, b);
    MulOrder(n, CeilDiv(a, b), b);
  }

  lemma BelowCeilDiv(x: nat, a: nat, b: nat)
    requires b >= 1 && x < a
    ensures x / b < CeilDiv(a, b)
  {
    CeilDivBounds(a, b);
    MulOrder(CeilDiv(a, b), x / b, b);
  }

  /** Scaling a position inside the image stays inside the scaled extent. */
  lemma ScaledBelow(x: nat, w: nat, h: nat, hmax: nat)
    requires x < w && 1 <= h <= hmax
    ensures x * h / hmax < CeilDiv(w * h, hmax)
  {
    MulOrder(x, w, h);
    BelowCeilDiv(x * h, w * h, hmax);
  }

  /** The own extent of a component never exceeds its plane. */
  lemma OwnWithinPlane(w: nat, h: nat, hmax: nat)
    requires 1 <= h <= hmax
    ensures CeilDiv(CeilDiv(w * h, hmax), 8) <= CeilDiv(w, 8 * hmax) * h
  {
    var n := CeilDiv(w, 8 * hmax);
    CeilDivBounds(w, 8 * hmax);
    assert w * h <= n * (8 * hmax) * h by { MulLe(w, n * (8 * hmax), h); }
    assert n * (8 * hmax) * h == 8 * (n * h) * hmax by { Rearrange(n, hmax, h); }
    CeilDivLeast(w * h, hmax, 8 * (n * h));
    CeilDivLeast(CeilDiv(w * h, hmax), 8, n * h);
  }

  lemma MulLe(a: nat, b: nat, d: nat)
    requires a <= b
    ensures a * d <= b * d
  {
    MulOrder(a, b, d);
  }

  lemma Rearrange(n: nat, m: nat, h: nat)
    ensures n * (8 * m) * h == 8 * (n * h) * m
  {
    assert n * (8 * m) == 8 * (n * m);
    assert n * m * h == n * h * m;
    assert 8 * (n * m) * h == 8 * (n * m * h);
    assert 8 * (n * h) * m == 8 * (n * h * m);
  }

  // ---------- every block of the scan exactly once ----------

  predicate AllFit(f: Frame, comps: seq<Sampling>) {
    ValidFrame(f) && comps != [] && forall i :: 0 <= i < |comps| ==> Fits(f, comps[i])
  }

  predicate InMcu(comps: seq<Sampling>, mx: nat, my: nat, b: Block) {
    && b.comp < |comps|
    && mx * comps[b.comp].h <= b.col < mx * comps[b.comp].h + comps[b.comp].h
    && my * comps[b.comp].v <= b.row < my * comps[b.comp].v + comps[b.comp].v
  }

  /** `b` is coded at or after position (c, v, h) of its MCU. */
  predicate NotBefore(comps: seq<Sampling>, mx: nat, my: nat, c: nat, v: nat, h: nat, b: Block) {
    || b.comp > c
    || (b.comp == c < |comps|
        && (b.row > my * comps[c].v + v || (b.row == my * comps[c].v + v && b.col >= mx * comps[c].h + h)))
  }

  lemma {:induction false} McuFromMembers(comps: seq<Sampling>, mx: nat, my: nat, c: nat, v: nat, h: nat, b: Block)
    requires c <= |comps| && (c < |comps| ==> v <= comps[c].v && h <= comps[c].h)
    ensures b in McuFrom(comps, mx, my, c, v, h) <==> InMcu(comps, mx, my, b) && NotBefore(comps, mx, my, c, v, h, b)
    decreases |comps| - c, if c < |comps| then comps[c].v - v else 0, if c < |comps| then comps[c].h - h else 0
  {
    if c == |comps| {
    } else if v == comps[c].v {
      NextPosition(comps, mx, my, c, v, h, b);
      McuFromMembers(comps, mx, my, c + 1, 0, 0, b);
    } else if h == comps[c].h {
      NextPosition(comps, mx, my, c, v, h, b);
      McuFromMembers(comps, mx, my, c, v + 1, 0, b);
    } else {
      hide InMcu, NotBefore;
      NextPosition(comps, mx, my, c, v, h, b);
      McuFromMembers(comps, mx, my, c, v, h + 1, b);
    }
  }

  lemma NextPosition(comps: seq<Sampling>, mx: nat, my: nat, c: nat, v: nat, h: nat, b: Block)
    requires c < |comps| && v <= comps[c].v && h <= comps[c].h
    ensures v == comps[c].v && InMcu(comps, mx, my, b) ==>
      (NotBefore(comps, mx, my, c, v, h, b) <==> NotBefore(comps, mx, my, c + 1, 0, 0, b))
    ensures v < comps[c].v && h == comps[c].h && InMcu(comps, mx, my, b) ==>
      (NotBefore(comps, mx, my, c, v, h, b) <==> NotBefore(comps, mx, my, c, v + 1, 0, b))
    ensures v < comps[c].v && h < comps[c].h ==>
      var here := Block(c, mx * comps[c].h + h, my * comps[c].v + v);
      && InMcu(comps, mx, my, here)
      && (NotBefore(comps, mx, my, c, v, h, b) <==> b == here || NotBefore(comps, mx, my, c, v, h + 1, b))
  {}

  predicate NoRepeats(bs: seq<Block>) {
    forall i, j :: 0 <= i < j < |bs| ==> bs[i] != bs[j]
  }

  lemma {:induction false} McuFromNoRepeats(comps: seq<Sampling>, mx: nat, my: nat, c: nat, v: nat, h: nat)
    requires c <= |comps| && (c < |comps| ==> v <= comps[c].v && h <= comps[c].h)
    ensures NoRepeats(McuFrom(comps, mx, my, c, v, h))
    decreases |comps| - c, if c < |comps| then comps[c].v - v else 0, if c < |comps| then comps[c].h - h else 0
  {
    if c == |comps| {
    } else if v == comps[c].v {
      McuFromNoRepeats(comps, mx, my, c + 1, 0, 0);
    } else if h == comps[c].h {
      McuFromNoRepeats(comps, mx, my, c, v + 1, 0);
    } else {
      McuFromNoRepeats(comps, mx, my, c, v, h + 1);
      HeadIsNew(comps, mx, my, c, v, h);
      PrependNew(Block(c, mx * comps[c].h + h, my * comps[c].v + v), McuFrom(comps, mx, my, c, v, h + 1));
    }
  }

  lemma HeadIsNew(comps: seq<Sampling>, mx: nat, my: nat, c: nat, v: nat, h: nat)
    requires c < |comps| && v < comps[c].v && h < comps[c].h
    ensures Block(c, mx * comps[c].h + h, my * comps[c].v + v) !in McuFrom(comps, mx, my, c, v, h + 1)
  {
    McuFromMembers(comps, mx, my, c, v, h + 1, Block(c, mx * comps[c].h + h, my * comps[c].v + v));
  }

  lemma PrependNew(b: Block, bs: seq<Block>)
    requires NoRepeats(bs) && b !in bs
    ensures NoRepeats([b] + bs)
  {}

  lemma InMcuIff(comps: seq<Sampling>, mx: nat, my: nat, b: Block)
    requires b.comp < |comps| && comps[b.comp].h >= 1 && comps[b.comp].v >= 1
    ensures InMcu(comps, mx, my, b) <==> mx == b.col / comps[b.comp].h && my == b.row / comps[b.comp].v
  {
    var s := comps[b.comp];
    if InMcu(comps, mx, my, b) {
      DivModUnique(b.col, s.h, mx, b.col - mx * s.h);
      DivModUnique(b.row, s.v, my, b.row - my * s.v);
    }
  }

  /** The MCU loop: MCU `m` contains block `b` if and only if the scan covers `b` and `m` is the MCU of `b`. */
  lemma McuMembers(f: Frame, comps: seq<Sampling>, m: nat, b: Block)
    requires AllFit(f, comps) && m < Total(f, comps) && b.comp < |comps|
    ensures b in Mcu(f, comps, m) <==> Covered(f, comps, b) && m == McuOf(f, comps, b)
  {
    NonEmptyRow(f, comps, m);
    var w, s := PerRow(f, comps), comps[b.comp];
    var mx, my := m % w, m / w;
    if Single(comps) {
      GridRow(m, OwnHeight(f, comps[0]), w);
      if Covered(f, comps, b) { GridIndex(b.row, b.col, OwnHeight(f, comps[0]), w); }
    } else {
      GridRow(m, McusY(f), w);
      McuFromMembers(comps, mx, my, 0, 0, 0, b);
      InMcuIff(comps, mx, my, b);
      if Covered(f, comps, b) {
        BelowProduct(b.col, McusX(f), s.h);
        BelowProduct(b.row, McusY(f), s.v);
        GridIndex(b.row / s.v, b.col / s.h, McusY(f), w);
      }
      if InMcu(comps, mx, my, b) {
        MulOrder(mx, McusX(f), s.h);
        MulOrder(my, McusY(f), s.v);
      }
    }
  }

  lemma BelowProduct(x: nat, n: nat, d: nat)
    requires d >= 1 && x < n * d
    ensures x / d < n
  {
    if n <= x / d { MulOrder(n, x / d, d); }
  }

  /** Every block that the scan covers is coded in exactly one place: in one MCU, and there only once. */
  lemma VisitedExactlyOnce(f: Frame, comps: seq<Sampling>, b: Block, m: nat)
    requires AllFit(f, comps) && Covered(f, comps, b) && m < Total(f, comps)
    ensures McuOf(f, comps, b) < Total(f, comps)
    ensures b in Mcu(f, comps, m) <==> m == McuOf(f, comps, b)
    ensures NoRepeats(Mcu(f, comps, m))
  {
    McuOfInRange(f, comps, b);
    McuMembers(f, comps, m, b);
    NonEmptyRow(f, comps, m);
    McuFromNoRepeats(comps, m % PerRow(f, comps), m / PerRow(f, comps), 0, 0, 0);
  }

  lemma McuOfInRange(f: Frame, comps: seq<Sampling>, b: Block)
    requires AllFit(f, comps) && Covered(f, comps, b)
    ensures McuOf(f, comps, b) < Total(f, comps)
  {
    var s := comps[b.comp];
    if Single(comps) {
      GridIndex(b.row, b.col, OwnHeight(f, comps[0]), PerRow(f, comps));
    } else {
      BelowProduct(b.col, McusX(f), s.h);
      BelowProduct(b.row, McusY(f), s.v);
      GridIndex(b.row / s.v, b.col / s.h, McusY(f), McusX(f));
    }
  }

  // ---------- planes and pixels ----------

  /** Length of `c.plane`. */
  function PlaneLength(f: Frame, s: Sampling): nat
    requires ValidFrame(f)
  {
    (PlaneHeight(f, s) * 8) * (PlaneWidth(f, s) * 8)
  }

  /** The plane cell of row `y` and column `x`, as idctInto and toRgba index it. */
  function Cell(f: Frame, s: Sampling, y: nat, x: nat): nat
    requires ValidFrame(f)
  {
    y * (PlaneWidth(f, s) * 8) + x
  }

  lemma CoveredInPlane(f: Frame, comps: seq<Sampling>, b: Block)
    requires AllFit(f, comps) && Covered(f, comps, b)
    ensures b.col < PlaneWidth(f, comps[b.comp]) && b.row < PlaneHeight(f, comps[b.comp])
  {
    OwnWithinPlane(f.width, comps[0].h, f.hmax);
    OwnWithinPlane(f.height, comps[0].v, f.vmax);
  }

  /** All 64 writes of a block stay inside the component's plane ... */
  lemma BlockInPlane(f: Frame, comps: seq<Sampling>, b: Block, y: nat, x: nat)
    requires AllFit(f, comps) && Covered(f, comps, b) && y < 8 && x < 8
    ensures Cell(f, comps[b.comp], b.row * 8 + y, b.col * 8 + x) < PlaneLength(f, comps[b.comp])
  {
    var s := comps[b.comp];
    CoveredInPlane(f, comps, b);
    GridIndex(b.row * 8 + y, b.col * 8 + x, PlaneHeight(f, s) * 8, PlaneWidth(f, s) * 8);
  }

  /** ... and no two blocks share a cell. */
  lemma BlocksDisjoint(f: Frame, comps: seq<Sampling>, b: Block, y: nat, x: nat, b': Block, y': nat, x': nat)
    requires AllFit(f, comps) && Covered(f, comps, b) && Covered(f, comps, b') && b'.comp == b.comp
    requires y < 8 && x < 8 && y' < 8 && x' < 8
    requires Cell(f, comps[b.comp], b.row * 8 + y, b.col * 8 + x)
        == Cell(f, comps[b.comp], b'.row * 8 + y', b'.col * 8 + x')
    ensures b == b' && y == y' && x == x'
  {
    var s := comps[b.comp];
    CoveredInPlane(f, comps, b);
    CoveredInPlane(f, comps, b');
    GridIndex(b.row * 8 + y, b.col * 8 + x, PlaneHeight(f, s) * 8, PlaneWidth(f, s) * 8);
    GridIndex(b'.row * 8 + y', b'.col * 8 + x', PlaneHeight(f, s) * 8, PlaneWidth(f, s) * 8);
  }

  /** The plane row and column that toRgba samples for pixel (x, y). */
  function SampleCol(f: Frame, s: Sampling, x: nat): nat requires ValidFrame(f) { x * s.h / f.hmax }
  function SampleRow(f: Frame, s: Sampling, y: nat): nat requires ValidFrame(f) { y * s.v / f.vmax }

  /** Every pixel samples a cell of the plane that belongs to a block the scan has visited. */
  lemma SampleVisited(f: Frame, comps: seq<Sampling>, c: nat, x: nat, y: nat)
    requires AllFit(f, comps) && c < |comps| && x < f.width && y < f.height
    ensures var s := comps[c]; var col, row := SampleCol(f, s, x), SampleRow(f, s, y);
      Covered(f, comps, Block(c, col / 8, row / 8)) && Cell(f, s, row, col) < PlaneLength(f, s)
  {
    var s := comps[c];
    var col, row := SampleCol(f, s, x), SampleRow(f, s, y);
    ScaledBelow(x, f.width, s.h, f.hmax);
    ScaledBelow(y, f.height, s.v, f.vmax);
    BelowCeilDiv(col, CeilDiv(f.width * s.h, f.hmax), 8);
    BelowCeilDiv(row, CeilDiv(f.height * s.v, f.vmax), 8);
    OwnWithinPlane(f.width, s.h, f.hmax);
    OwnWithinPlane(f.height, s.v, f.vmax);
    BlockInPlane(f, comps, Block(c, col / 8, row / 8), row % 8, col % 8);
  }

  /**
   * A frame may declare a sampling factor of 0; the samples of a non-empty image lie in the plane exactly without one.
   */
  lemma SampleInPlaneIff(f: Frame, s: Sampling)
    requires ValidFrame(f) && s.h <= f.hmax && s.v <= f.vmax && f.width >= 1 && f.height >= 1
    ensures (forall x, y :: 0 <= x < f.width && 0 <= y < f.height ==>
               Cell(f, s, SampleRow(f, s, y), SampleCol(f, s, x)) < PlaneLength(f, s))
            <==> s.h >= 1 && s.v >= 1
  {
    if s.h >= 1 && s.v >= 1 {
      forall x, y | 0 <= x < f.width && 0 <= y < f.height
        ensures Cell(f, s, SampleRow(f, s, y), SampleCol(f, s, x)) < PlaneLength(f, s)
      {
        SampleVisited(f, [s], 0, x, y);
      }
    } else {
      assert PlaneLength(f, s) == 0;
      assert Cell(f, s, SampleRow(f, s, 0), SampleCol(f, s, 0)) >= PlaneLength(f, s);
    }
  }

  // ---------- the extent and the order of a scan, in samples ----------

  lemma CeilDivIff(x: nat, a: nat, b: nat)
    requires b >= 1
    ensures x < CeilDiv(a, b) <==> x * b < a
  {
    CeilDivBounds(a, b);
    if x * b >= a { CeilDivLeast(a, b, x); }
    if x < CeilDiv(a, b) { MulOrder(x, CeilDiv(a, b), b); }
  }

  lemma Regroup(x: nat, b: nat)
    ensures x * (8 * b) == 8 * x * b && x * 8 * b == 8 * x * b
  {}

  lemma OwnIff(x: nat, w: nat, h: nat, hmax: nat)
    requires hmax >= 1
    ensures x < CeilDiv(CeilDiv(w * h, hmax), 8) <==> 8 * x * hmax < w * h
  {
    CeilDivIff(x, CeilDiv(w * h, hmax), 8);
    CeilDivIff(x * 8, w * h, hmax);
    Regroup(x, hmax);
  }

  /** A scan of one component covers the blocks that contain a sample of the component's own extent. */
  lemma CoveredAloneIff(f: Frame, s: Sampling, b: Block)
    requires ValidFrame(f)
    ensures Covered(f, [s], b) <==>
      b.comp == 0 && 8 * b.col * f.hmax < f.width * s.h && 8 * b.row * f.vmax < f.height * s.v
  {
    OwnIff(b.col, f.width, s.h, f.hmax);
    OwnIff(b.row, f.height, s.v, f.vmax);
  }

  lemma PlaneIff(x: nat, w: nat, h: nat, hmax: nat)
    requires hmax >= 1 && h >= 1
    ensures x < CeilDiv(w, 8 * hmax) * h <==> 8 * (x / h) * hmax < w
  {
    CeilDivIff(x / h, w, 8 * hmax);
    Regroup(x / h, hmax);
    if x < CeilDiv(w, 8 * hmax) * h { BelowProduct(x, CeilDiv(w, 8 * hmax), h); }
    if x / h < CeilDiv(w, 8 * hmax) { MulOrder(x / h, CeilDiv(w, 8 * hmax), h); }
  }

  /** A scan of several components covers the blocks of every MCU that contains a pixel of the image. */
  lemma CoveredTogetherIff(f: Frame, comps: seq<Sampling>, b: Block)
    requires AllFit(f, comps) && |comps| >= 2
    ensures Covered(f, comps, b) <==>
      && b.comp < |comps|
      && 8 * (b.col / comps[b.comp].h) * f.hmax < f.width && 8 * (b.row / comps[b.comp].v) * f.vmax < f.height
  {
    if b.comp < |comps| {
      PlaneIff(b.col, f.width, comps[b.comp].h, f.hmax);
      PlaneIff(b.row, f.height, comps[b.comp].v, f.vmax);
    }
  }

  /** Block number `m` of a scan of one component, row by row over `w` blocks. */
  lemma AloneInOrder(f: Frame, s: Sampling, b: Block, m: nat) returns (w: nat)
    requires AllFit(f, [s]) && Covered(f, [s], b) && m < Total(f, [s])
    ensures forall x: nat :: x < w <==> 8 * x * f.hmax < f.width * s.h
    ensures Mcu(f, [s], m) == [b] <==> m == b.row * w + b.col
  {
    w := OwnWidth(f, s);
    forall x: nat ensures x < w <==> 8 * x * f.hmax < f.width * s.h { OwnIff(x, f.width, s.h, f.hmax); }
    McuMembers(f, [s], m, b);
    assert b in Mcu(f, [s], m) <==> Mcu(f, [s], m) == [b];
  }

  /** MCU number `m` of a scan of several components holds h x v blocks of each, row by row over `w` MCUs. */
  lemma TogetherInOrder(f: Frame, comps: seq<Sampling>, b: Block, m: nat) returns (w: nat)
    requires AllFit(f, comps) && |comps| >= 2 && Covered(f, comps, b) && m < Total(f, comps)
    ensures forall x: nat :: x < w <==> 8 * x * f.hmax < f.width
    ensures b in Mcu(f, comps, m) <==> m == b.row / comps[b.comp].v * w + b.col / comps[b.comp].h
  {
    w := McusX(f);
    forall x: nat ensures x < w <==> 8 * x * f.hmax < f.width {
      CeilDivIff(x, f.width, 8 * f.hmax);
      Regroup(x, f.hmax);
    }
    McuMembers(f, comps, m, b);
  }

  /** How many blocks of an MCU come before those of component `c`. */
  function Preceding(comps: seq<Sampling>, c: nat): nat
    requires c <= |comps|
  {
    if c == 0 then 0 else Preceding(comps, c - 1) + comps[c - 1].v * comps[c - 1].h
  }

  /** Within an MCU: component after component, each row by row. */
  lemma McuOrder(f: Frame, comps: seq<Sampling>, m: nat, c: nat, v: nat, h: nat)
    requires AllFit(f, comps) && |comps| >= 2 && m < Total(f, comps) && c < |comps| && v < comps[c].v && h < comps[c].h
    ensures var i, b := Preceding(comps, c) + v * comps[c].h + h, Mcu(f, comps, m);
      i < |b| && b[i].comp == c && b[i].col % comps[c].h == h && b[i].row % comps[c].v == v
  {
    NonEmptyRow(f, comps, m);
    var w := PerRow(f, comps);
    McuFromAt(comps, m % w, m / w, 0, 0, 0, c, v, h);
    DivModUnique(m % w * comps[c].h + h, comps[c].h, m % w, h);
    DivModUnique(m / w * comps[c].v + v, comps[c].v, m / w, v);
  }

  function Place(comps: seq<Sampling>, c: nat, v: nat, h: nat): nat
    requires c <= |comps|
  {
    Preceding(comps, c) + (if c < |comps| then v * comps[c].h + h else 0)
  }

  function BlockAt(comps: seq<Sampling>, mx: nat, my: nat, c: nat, v: nat, h: nat): Block
    requires c < |comps|
  {
    Block(c, mx * comps[c].h + h, my * comps[c].v + v)
  }

  /** Block (c', v', h') stands in what is left from (c, v, h) on, as far behind as their places differ. */
  predicate Stands(comps: seq<Sampling>, mx: nat, my: nat, c: nat, v: nat, h: nat, c': nat, v': nat, h': nat)
    requires c <= |comps| && (c < |comps| ==> v <= comps[c].v && h <= comps[c].h) && c' < |comps|
  {
    var i, bs := Place(comps, c', v', h') - Place(comps, c, v, h), McuFrom(comps, mx, my, c, v, h);
    0 <= i < |bs| && bs[i] == BlockAt(comps, mx, my, c', v', h')
  }

  lemma StandsStep(comps: seq<Sampling>, mx: nat, my: nat, c: nat, v: nat, h: nat, c': nat, v': nat, h': nat)
    requires c < |comps| && v <= comps[c].v && h <= comps[c].h && (v == comps[c].v ==> h == 0) && c' < |comps|
    requires if v == comps[c].v then Stands(comps, mx, my, c + 1, 0, 0, c', v', h')
             else if h == comps[c].h then Stands(comps, mx, my, c, v + 1, 0, c', v', h')
             else (c, v, h) == (c', v', h') || Stands(comps, mx, my, c, v, h + 1, c', v', h')
    ensures Stands(comps, mx, my, c, v, h, c', v', h')
  {
    PlaceNext(comps, c, v, h);
    hide Place, BlockAt;
    McuNext(comps, mx, my, c, v, h);
    hide McuFrom;
  }

  lemma McuNext(comps: seq<Sampling>, mx: nat, my: nat, c: nat, v: nat, h: nat)
    requires c < |comps| && v <= comps[c].v && h <= comps[c].h
    ensures v == comps[c].v ==> McuFrom(comps, mx, my, c, v, h) == McuFrom(comps, mx, my, c + 1, 0, 0)
    ensures v < comps[c].v && h == comps[c].h ==>
      McuFrom(comps, mx, my, c, v, h) == McuFrom(comps, mx, my, c, v + 1, 0)
    ensures v < comps[c].v && h < comps[c].h ==>
      McuFrom(comps, mx, my, c, v, h)
      == [BlockAt(comps, mx, my, c, v, h)] + McuFrom(comps, mx, my, c, v, h + 1)
  {}

  lemma {:induction false} McuFromAt(comps: seq<Sampling>, mx: nat, my: nat, c: nat, v: nat, h: nat,
                                     c': nat, v': nat, h': nat)
    requires c <= c' < |comps| && v' < comps[c'].v && h' < comps[c'].h
    requires v <= comps[c].v && h <= comps[c].h && (v == comps[c].v ==> h == 0)
    requires c == c' ==> v < v' || (v == v' && h <= h')
    ensures Stands(comps, mx, my, c, v, h, c', v', h')
    decreases |comps| - c, comps[c].v - v, comps[c].h - h
  {
    hide Stands;
    if v == comps[c].v {
      McuFromAt(comps, mx, my, c + 1, 0, 0, c', v', h');
    } else if h == comps[c].h {
      McuFromAt(comps, mx, my, c, v + 1, 0, c', v', h');
    } else if c < c' || v < v' || h < h' {
      McuFromAt(comps, mx, my, c, v, h + 1, c', v', h');
    }
    StandsStep(comps, mx, my, c, v, h, c', v', h');
  }

  lemma PlaceNext(comps: seq<Sampling>, c: nat, v: nat, h: nat)
    requires c < |comps|
    ensures Place(comps, c, comps[c].v, 0) == Place(comps, c + 1, 0, 0)
    ensures Place(comps, c, v, comps[c].h) == Place(comps, c, v + 1, 0)
    ensures Place(comps, c, v, h + 1) == Place(comps, c, v, h) + 1
  {
    MulSplit(v, 1, comps[c].h);
  }

  /** A pixel samples the cell below its scaled position; at full resolution the cell is the pixel. */
  lemma SampleScales(f: Frame, s: Sampling, x: nat, y: nat)
    requires ValidFrame(f)
    ensures SampleCol(f, s, x) * f.hmax <= x * s.h < SampleCol(f, s, x) * f.hmax + f.hmax
    ensures SampleRow(f, s, y) * f.vmax <= y * s.v < SampleRow(f, s, y) * f.vmax + f.vmax
    ensures (s.h == f.hmax ==> SampleCol(f, s, x) == x) && (s.v == f.vmax ==> SampleRow(f, s, y) == y)
  {
    if s.h == f.hmax { DivModUnique(x * s.h, f.hmax, x, 0); }
    if s.v == f.vmax { DivModUnique(y * s.v, f.vmax, y, 0); }
  }
}
