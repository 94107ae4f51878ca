/**
 * A whole baseline scan: the MCU loop with DC prediction and restart intervals. The specification is an encoder after
 * ITU-T T.81 F.1.1.5 and E.1.4; decodeScan of image-io.ts inverts it.
 */
module JpegScan {
  import opened Bits
  import opened Huffman
  import opened EntropyBits
  import opened JpegBlock
  import opened JpegGeometry
  import opened Wrappers

  /**
   * The components of a scan with their sampling factors and tables, and the restart interval (0: none). A component
   * that the scan names twice shares one prediction, kept at the place of its first mention, `slot`.
   */
  datatype Scan = Scan(frame: Frame, sampling: seq<Sampling>, tables: seq<Tables>, slot: seq<nat>, restart: nat)

  predicate ValidScan(s: Scan) {
    && ValidFrame(s.frame) && s.sampling != [] && |s.tables| == |s.sampling|
    && (forall i :: 0 <= i < |s.tables| ==> ValidTables(s.tables[i]))
    && |s.slot| == |s.sampling| && forall i :: 0 <= i < |s.slot| ==> s.slot[i] < |s.slot|
  }

  function McuCount(s: Scan): nat requires ValidScan(s) { JpegGeometry.Total(s.frame, s.sampling) }

  function Order(s: Scan, m: nat): (bs: seq<Block>)
    requires ValidScan(s) && m < McuCount(s)
    ensures forall i :: 0 <= i < |bs| ==> bs[i].comp < |s.sampling|
  {
    Mcu(s.frame, s.sampling, m)
  }

  /** MCU `m` is the first one of a restart interval, other than the very first. */
  predicate Boundary(s: Scan, m: nat) { s.restart > 0 && m > 0 && m % s.restart == 0 }

  function Zeros(s: Scan): seq<int> { seq(|s.sampling|, _ => 0) }

  /** A decoded block: where it goes and its dequantised coefficients (the arguments of idctInto). */
  datatype Placed = Placed(block: Block, coef: seq<int>)

  // ---------- the encoder ----------

  type Picture = Block -> Coefficients

  predicate Codeable(s: Scan, pic: Picture, preds: seq<int>, bs: seq<Block>)
    requires ValidScan(s) && |preds| == |s.sampling| && forall i :: 0 <= i < |bs| ==> bs[i].comp < |s.sampling|
    decreases |bs|
  {
    bs == [] ||
    var b := bs[0];
    Encodable(s.tables[b.comp], pic(b), preds[s.slot[b.comp]])
        && Codeable(s, pic, preds[s.slot[b.comp] := pic(b)[0]], bs[1..])
  }

  /** The predictions after the blocks `bs`. */
  function Preds(s: Scan, pic: Picture, preds: seq<int>, bs: seq<Block>): (r: seq<int>)
    requires ValidScan(s) && |preds| == |s.sampling| && forall i :: 0 <= i < |bs| ==> bs[i].comp < |s.sampling|
    ensures |r| == |s.sampling|
    decreases |bs|
  {
    if bs == [] then preds else Preds(s, pic, preds[s.slot[bs[0].comp] := pic(bs[0])[0]], bs[1..])
  }

  ghost function McuBits(s: Scan, pic: Picture, preds: seq<int>, bs: seq<Block>): seq<bit>
    requires ValidScan(s) && |preds| == |s.sampling| && forall i :: 0 <= i < |bs| ==> bs[i].comp < |s.sampling|
    requires Codeable(s, pic, preds, bs)
    decreases |bs|
  {
    if bs == [] then [] else
      var b := bs[0];
      BlockBits(s.tables[b.comp], pic(b), preds[s.slot[b.comp]])
          + McuBits(s, pic, preds[s.slot[b.comp] := pic(b)[0]], bs[1..])
  }

  /** Every block of the picture can be coded, with the predictions reset at every restart. */
  predicate PictureCodeable(s: Scan, pic: Picture, m: nat, preds: seq<int>)
    requires ValidScan(s) && |preds| == |s.sampling| && m <= McuCount(s)
    decreases McuCount(s) - m
  {
    m == McuCount(s) ||
    var p := if Boundary(s, m) then Zeros(s) else preds;
    Codeable(s, pic, p, Order(s, m)) && PictureCodeable(s, pic, m + 1, Preds(s, pic, p, Order(s, m)))
  }

  /** Entropy-coded data from MCU `m` on: the bits left in the current interval and the bytes after its segment. */
  datatype Stream = Stream(bits: seq<bit>, rest: seq<byte>)

  ghost function EncodeFrom(s: Scan, pic: Picture, m: nat, preds: seq<int>): Stream
    requires ValidScan(s) && |preds| == |s.sampling| && m <= McuCount(s) && PictureCodeable(s, pic, m, preds)
    decreases McuCount(s) - m, 1
  {
    if m == McuCount(s) then Stream([], [])
    else if Boundary(s, m) then
      var next := EncodeMcu(s, pic, m, Zeros(s));
      Stream([], RestartMarker(s, m) + Segment(next.bits) + next.rest)
    else EncodeMcu(s, pic, m, preds)
  }

  ghost function EncodeMcu(s: Scan, pic: Picture, m: nat, preds: seq<int>): Stream
    requires ValidScan(s) && |preds| == |s.sampling| && m < McuCount(s) && Codeable(s, pic, preds, Order(s, m))
    requires PictureCodeable(s, pic, m + 1, Preds(s, pic, preds, Order(s, m)))
    decreases McuCount(s) - m, 0
  {
    var next := EncodeFrom(s, pic, m + 1, Preds(s, pic, preds, Order(s, m)));
    Stream(McuBits(s, pic, preds, Order(s, m)) + next.bits, next.rest)
  }

  /** RSTn, counting modulo 8 (E.1.4). */
  function RestartMarker(s: Scan, m: nat): seq<byte>
    requires Boundary(s, m)
  {
    [0xFF, 0xD0 + (m / s.restart - 1) % 8]
  }

  /** The whole entropy-coded data of the scan. */
  ghost function Encode(s: Scan, pic: Picture): seq<byte>
    requires ValidScan(s) && PictureCodeable(s, pic, 0, Zeros(s))
  {
    var first := EncodeFrom(s, pic, 0, Zeros(s));
    Segment(first.bits) + first.rest
  }

  // ---------- the decoder, on values ----------

  datatype State = State(cursor: Cursor, preds: seq<int>, out: seq<Placed>)

  predicate ValidState(s: Scan, st: State) { |st.preds| == |s.sampling| }

  function DecodeBlocks(d: seq<byte>, s: Scan, st: State, bs: seq<Block>): (r: Option<State>)
    requires ValidScan(s) && ValidState(s, st) && forall i :: 0 <= i < |bs| ==> bs[i].comp < |s.sampling|
    ensures r.Some? ==> ValidState(s, r.value)
    decreases |bs|
  {
    if bs == [] then Some(st) else
      match DecodeBlock(d, s, st, bs[0])
      case None => None
      case Some(next) => DecodeBlocks(d, s, next, bs[1..])
  }

  function DecodeBlock(d: seq<byte>, s: Scan, st: State, b: Block): (r: Option<State>)
    requires ValidScan(s) && ValidState(s, st) && b.comp < |s.sampling|
    ensures r.Some? ==> ValidState(s, r.value)
  {
    match ReadBlock(d, st.cursor, s.tables[b.comp], st.preds[s.slot[b.comp]])
    case None => None
    case Some(x) => Some(State(x.cursor, st.preds[s.slot[b.comp] := x.pred], st.out + [Placed(b, x.coef)]))
  }

  /** The start of an MCU: byte-align, skip the RSTn marker and reset the predictions after a restart interval. */
  function Restarted(d: seq<byte>, s: Scan, st: State, m: nat): (r: State)
    requires ValidState(s, st)
    ensures ValidState(s, r)
  {
    if Boundary(s, m) then State(st.cursor.(pos := AfterRestart(d, st.cursor.pos), nbits := 0), Zeros(s), st.out)
        else st
  }

  function DecodeMcus(d: seq<byte>, s: Scan, st: State, m: nat): (r: Option<State>)
    requires ValidScan(s) && ValidState(s, st) && m <= McuCount(s)
    ensures r.Some? ==> ValidState(s, r.value)
    decreases McuCount(s) - m
  {
    if m == McuCount(s) then Some(st) else
      match DecodeBlocks(d, s, Restarted(d, s, st, m), Order(s, m))
      case None => None
      case Some(next) => DecodeMcus(d, s, next, m + 1)
  }

  function Start(s: Scan, start: nat): State { State(Cursor(start, 0, 0), Zeros(s), []) }

  /** A marker other than a stuffed byte or RSTn. */
  predicate MarkerAt(d: seq<byte>, p: nat) {
    p + 1 < |d| && d[p] == 0xFF && d[p + 1] != 0 && !(0xD0 <= d[p + 1] <= 0xD7)
  }

  function NextMarker(d: seq<byte>, p: nat): nat
    decreases |d| - p
  {
    if p + 1 < |d| && !MarkerAt(d, p) then NextMarker(d, p + 1) else p
  }

  /** The first 0xFF behind `p` that neither a 0 nor the second byte of an RSTn follows; without one, the last byte. */
  lemma {:induction false} NextMarkerIs(d: seq<byte>, p: nat)
    ensures var q := NextMarker(d, p);
      && q >= p && (q + 1 < |d| ==> d[q] == 0xFF && d[q + 1] != 0 && !(0xD0 <= d[q + 1] <= 0xD7))
      && (q > p ==> q < |d|)
      && forall i :: p <= i < q ==> d[i] != 0xFF || d[i + 1] == 0 || 0xD0 <= d[i + 1] <= 0xD7
    decreases |d| - p
  {
    if p + 1 < |d| && !MarkerAt(d, p) { NextMarkerIs(d, p + 1); }
  }

  // ---------- the decoder inverts the encoder ----------

  /** What the decoder shall output for the blocks `bs`. */
  function Pictured(s: Scan, pic: Picture, bs: seq<Block>): seq<Placed>
    requires ValidScan(s) && forall i :: 0 <= i < |bs| ==> bs[i].comp < |s.sampling|
    decreases |bs|
  {
    if bs == [] then [] else [Shown(s, pic, bs[0])] + Pictured(s, pic, bs[1..])
  }

  function Shown(s: Scan, pic: Picture, b: Block): Placed
    requires ValidScan(s) && b.comp < |s.sampling|
  {
    Placed(b, Dequantised(s.tables[b.comp], pic(b)))
  }

  lemma {:induction false} BlocksInvert(d: seq<byte>, s: Scan, pic: Picture, st: State, bs: seq<Block>, more: seq<bit>,
      end: nat)
    requires ValidScan(s) && ValidState(s, st) && forall i :: 0 <= i < |bs| ==> bs[i].comp < |s.sampling|
    requires Codeable(s, pic, st.preds, bs) && Ahead(d, st.cursor, McuBits(s, pic, st.preds, bs) + more, end)
    ensures DecodeBlocks(d, s, st, bs).Some?
    ensures var r := DecodeBlocks(d, s, st, bs).value;
      && r.preds == Preds(s, pic, st.preds, bs) && r.out == st.out + Pictured(s, pic, bs)
          && Ahead(d, r.cursor, more, end)
    decreases |bs|
  {
    if bs == [] {
      hide Ahead, Read;
      NothingLeft(s, pic, st, more);
    } else {
      var next := BlockStep(d, s, pic, st, bs, more, end);
      hide Ahead, DecodeBlock, McuBits, Codeable, Shown;
      BlocksInvert(d, s, pic, next, bs[1..], more, end);
      AppendAll(st.out, [Shown(s, pic, bs[0])], Pictured(s, pic, bs[1..]));
    }
  }

  lemma NothingLeft(s: Scan, pic: Picture, st: State, more: seq<bit>)
    requires ValidScan(s) && ValidState(s, st)
    ensures McuBits(s, pic, st.preds, []) + more == more && st.out + Pictured(s, pic, []) == st.out
  {}

  lemma AppendAll<T>(a: seq<T>, b: seq<T>, c: seq<T>)
    ensures a + b + c == a + (b + c)
  {}

  lemma BlockStep(d: seq<byte>, s: Scan, pic: Picture, st: State, bs: seq<Block>, more: seq<bit>, end: nat)
      returns (next: State)
    requires ValidScan(s) && ValidState(s, st) && forall i :: 0 <= i < |bs| ==> bs[i].comp < |s.sampling|
    requires bs != [] && Codeable(s, pic, st.preds, bs)
        && Ahead(d, st.cursor, McuBits(s, pic, st.preds, bs) + more, end)
    ensures DecodeBlock(d, s, st, bs[0]) == Some(next) && ValidState(s, next)
    ensures next.preds == st.preds[s.slot[bs[0].comp] := pic(bs[0])[0]] && next.out == st.out + [Shown(s, pic, bs[0])]
    ensures Codeable(s, pic, next.preds, bs[1..])
        && Ahead(d, next.cursor, McuBits(s, pic, next.preds, bs[1..]) + more, end)
  {
    hide Ahead, ReadBlock, BlockBits, Encodable, Dequantised;
    var b := bs[0];
    var t, p := s.tables[b.comp], st.preds[s.slot[b.comp]];
    var tail := McuBits(s, pic, st.preds[s.slot[b.comp] := pic(b)[0]], bs[1..]);
    Associate(BlockBits(t, pic(b), p), tail, more);
    BlockInverts(d, st.cursor, t, pic(b), p, tail + more, end);
    next := DecodeBlock(d, s, st, b).value;
  }

  /** From cursor `c` on, `d` holds the encoded data `e`, which ends at `fin`. */
  ghost predicate Feeds(d: seq<byte>, c: Cursor, e: Stream, fin: nat) {
    fin <= |d| && |e.rest| <= fin && d[fin - |e.rest|..fin] == e.rest && Ahead(d, c, e.bits, fin - |e.rest|)
  }

  /** A segment that starts at a byte boundary feeds the reader with its bits. */
  lemma SegmentFeeds(d: seq<byte>, c: Cursor, e: Stream, fin: nat)
    requires c.nbits == 0 && c.pos <= fin <= |d| && d[c.pos..fin] == Segment(e.bits) + e.rest
    ensures Feeds(d, c, e, fin)
  {
    var all, seg := d[c.pos..fin], Segment(e.bits);
    assert d[fin - |e.rest|..fin] == all[|seg|..];
    assert d[Min(c.pos, |d|)..][..|seg|] == all[..|seg|];
    ReadSegment(d, c, e.bits);
  }

  /** The restart at the head of an MCU leads from one segment to the next. */
  lemma RestartFeeds(d: seq<byte>, s: Scan, pic: Picture, st: State, m: nat, fin: nat)
    requires ValidScan(s) && ValidState(s, st) && m < McuCount(s) && PictureCodeable(s, pic, m, st.preds)
    requires Feeds(d, st.cursor, EncodeFrom(s, pic, m, st.preds), fin)
    ensures var r := Restarted(d, s, st, m);
      && Codeable(s, pic, r.preds, Order(s, m)) && PictureCodeable(s, pic, m + 1, Preds(s, pic, r.preds, Order(s, m)))
      && Feeds(d, r.cursor, EncodeMcu(s, pic, m, r.preds), fin) && r.out == st.out
  {
    hide Codeable, Preds, Order;
    if Boundary(s, m) {
      var r, e := Restarted(d, s, st, m), EncodeMcu(s, pic, m, Zeros(s));
      var rest := EncodeFrom(s, pic, m, st.preds).rest;
      assert rest == RestartMarker(s, m) + (Segment(e.bits) + e.rest);
      MarkerSkipped(d, st.cursor.pos, RestartMarker(s, m), Segment(e.bits) + e.rest, fin);
      SegmentFeeds(d, r.cursor, e, fin);
    }
  }

  lemma MarkerSkipped(d: seq<byte>, p: nat, marker: seq<byte>, rest: seq<byte>, fin: nat)
    requires |marker| == 2 && marker[0] == 0xFF && 0xD0 <= marker[1] <= 0xD7
    requires p <= fin <= |d| && d[p..fin] == marker + rest
    ensures AfterRestart(d, p) == p + 2 <= fin && d[p + 2..fin] == rest
  {
    assert d[p] == d[p..fin][0] && d[p + 1] == d[p..fin][1];
    assert d[p + 2..fin] == d[p..fin][2..];
  }

  function PicturedFrom(s: Scan, pic: Picture, m: nat): seq<Placed>
    requires ValidScan(s) && m <= McuCount(s)
    decreases McuCount(s) - m
  {
    if m == McuCount(s) then [] else Pictured(s, pic, Order(s, m)) + PicturedFrom(s, pic, m + 1)
  }

  lemma {:induction false} ScanInverts(d: seq<byte>, s: Scan, pic: Picture, st: State, m: nat, fin: nat)
    requires ValidScan(s) && ValidState(s, st) && m <= McuCount(s) && PictureCodeable(s, pic, m, st.preds)
    requires Feeds(d, st.cursor, EncodeFrom(s, pic, m, st.preds), fin)
    ensures DecodeMcus(d, s, st, m).Some?
    ensures var r := DecodeMcus(d, s, st, m).value; r.out == st.out + PicturedFrom(s, pic, m) && r.cursor.pos == fin
    decreases McuCount(s) - m
  {
    hide Feeds, Ahead, EncodeFrom, PictureCodeable, Restarted, Order, DecodeBlocks, Pictured, DecodeMcus, McuCount;
    if m == McuCount(s) {
      EndOfScan(d, s, pic, st, fin);
    } else {
      var next := McuStep(d, s, pic, st, m, fin);
      NextMcu(d, s, st, m, next);
      ScanInverts(d, s, pic, next, m + 1, fin);
      AppendAll(st.out, Pictured(s, pic, Order(s, m)), PicturedFrom(s, pic, m + 1));
    }
  }

  lemma NextMcu(d: seq<byte>, s: Scan, st: State, m: nat, next: State)
    requires ValidScan(s) && ValidState(s, st) && m < McuCount(s)
    requires DecodeBlocks(d, s, Restarted(d, s, st, m), Order(s, m)) == Some(next)
    ensures DecodeMcus(d, s, st, m) == DecodeMcus(d, s, next, m + 1)
  {
    hide DecodeBlocks, Restarted, Order;
  }

  /** One MCU of the loop, with the restart that may precede it. */
  lemma McuStep(d: seq<byte>, s: Scan, pic: Picture, st: State, m: nat, fin: nat) returns (next: State)
    requires ValidScan(s) && ValidState(s, st) && m < McuCount(s) && PictureCodeable(s, pic, m, st.preds)
    requires Feeds(d, st.cursor, EncodeFrom(s, pic, m, st.preds), fin)
    ensures DecodeBlocks(d, s, Restarted(d, s, st, m), Order(s, m)) == Some(next) && ValidState(s, next)
    ensures next.out == st.out + Pictured(s, pic, Order(s, m)) && PictureCodeable(s, pic, m + 1, next.preds)
    ensures Feeds(d, next.cursor, EncodeFrom(s, pic, m + 1, next.preds), fin)
  {
    RestartFeeds(d, s, pic, st, m, fin);
    hide Order, Codeable, Preds, Ahead, Restarted, DecodeBlocks, McuBits, Pictured, PictureCodeable, EncodeFrom;
    var r, order := Restarted(d, s, st, m), Order(s, m);
    var e := EncodeFrom(s, pic, m + 1, Preds(s, pic, r.preds, order));
    BlocksInvert(d, s, pic, r, order, e.bits, fin - |e.rest|);
    next := DecodeBlocks(d, s, r, order).value;
  }

  lemma EndOfScan(d: seq<byte>, s: Scan, pic: Picture, st: State, fin: nat)
    requires ValidScan(s) && ValidState(s, st) && PictureCodeable(s, pic, McuCount(s), st.preds)
    requires Feeds(d, st.cursor, EncodeFrom(s, pic, McuCount(s), st.preds), fin)
    ensures DecodeMcus(d, s, st, McuCount(s)) == Some(st)
    ensures st.out == st.out + PicturedFrom(s, pic, McuCount(s)) && st.cursor.pos == fin
  {}

  /**
   * Decoding an encoded scan yields every block of the picture in coding order, each with exactly the coefficients that
   * were encoded, and finds the marker behind the scan: for any components, sampling factors and restart interval.
   */
  lemma ScanRoundTrip(d: seq<byte>, s: Scan, pic: Picture, start: nat, fin: nat)
    requires ValidScan(s) && PictureCodeable(s, pic, 0, Zeros(s))
    requires start <= fin <= |d| && d[start..fin] == Encode(s, pic) && MarkerAt(d, fin)
    ensures DecodeMcus(d, s, Start(s, start), 0).Some?
    ensures var r := DecodeMcus(d, s, Start(s, start), 0).value;
      r.out == PicturedFrom(s, pic, 0) && NextMarker(d, r.cursor.pos) == fin
  {
    hide DecodeMcus, Segment, PictureCodeable;
    var st := Start(s, start);
    SegmentFeeds(d, st.cursor, EncodeFrom(s, pic, 0, Zeros(s)), fin);
    ScanInverts(d, s, pic, st, 0, fin);
    assert [] + PicturedFrom(s, pic, 0) == PicturedFrom(s, pic, 0);
  }

  // ---------- restarts ----------

  /** MCU `m` opens a new interval exactly when it is a positive multiple of the interval, if there is one. */
  lemma BoundaryIff(s: Scan, m: nat)
    ensures Boundary(s, m) <==> s.restart > 0 && exists n: nat :: n >= 1 && m == n * s.restart
  {
    if Boundary(s, m) {
      var n := m / s.restart;
      assert m == n * s.restart;
      assert n != 0;
    } else if n: nat :| s.restart > 0 && n >= 1 && m == n * s.restart {
      DivModUnique(m, s.restart, n, 0);
    }
  }

  /**
   * There every prediction is 0 again and decoding goes on behind the marker at a whole byte; elsewhere nothing
   * changes.
   */
  lemma RestartedIs(d: seq<byte>, s: Scan, st: State, m: nat)
    requires ValidState(s, st)
    ensures var r := Restarted(d, s, st, m);
      && r.out == st.out
      && (Boundary(s, m) ==>
            && |r.preds| == |s.sampling| && (forall i :: 0 <= i < |r.preds| ==> r.preds[i] == 0)
            && r.cursor.nbits == 0 && r.cursor.pos == AfterRestart(d, st.cursor.pos))
      && (!Boundary(s, m) ==> r == st)
  {}

  // ---------- every block once ----------

  /** The blocks of the scan from MCU `m` on, in coding order. */
  function Blocks(s: Scan, m: nat): (bs: seq<Block>)
    requires ValidScan(s) && m <= McuCount(s)
    ensures forall i :: 0 <= i < |bs| ==> bs[i].comp < |s.sampling|
    decreases McuCount(s) - m
  {
    if m == McuCount(s) then [] else Order(s, m) + Blocks(s, m + 1)
  }

  predicate Scanned(s: Scan, b: Block) {
    ValidScan(s) && AllFit(s.frame, s.sampling) && Covered(s.frame, s.sampling, b)
  }

  function UnitOf(s: Scan, b: Block): nat { if Scanned(s, b) then McuOf(s.frame, s.sampling, b) else 0 }

  lemma UnitBlocks(s: Scan, m: nat, b: Block)
    requires ValidScan(s) && AllFit(s.frame, s.sampling) && m < McuCount(s)
    ensures b in Order(s, m) <==> Scanned(s, b) && UnitOf(s, b) == m
  {
    hide Mcu, McuOf;
    if b.comp < |s.sampling| { McuMembers(s.frame, s.sampling, m, b); }
  }

  lemma UnitNoRepeats(s: Scan, m: nat)
    requires ValidScan(s) && AllFit(s.frame, s.sampling) && m < McuCount(s)
    ensures NoRepeats(Order(s, m))
  {
    var perRow := PerRow(s.frame, s.sampling);
    NonEmptyRow(s.frame, s.sampling, m);
    McuFromNoRepeats(s.sampling, m % perRow, m / perRow, 0, 0, 0);
  }

  lemma JoinNoRepeats(a: seq<Block>, b: seq<Block>)
    requires NoRepeats(a) && NoRepeats(b) && forall x :: x in a ==> x !in b
    ensures NoRepeats(a + b)
  {
    forall i, j | 0 <= i < j < |a + b| ensures (a + b)[i] != (a + b)[j] {
      if i < |a| && |a| <= j { assert a[i] !in b && (a + b)[j] == b[j - |a|]; }
    }
  }

  /** The scan codes exactly the blocks it covers, each one once. */
  lemma {:induction false} BlocksOnce(s: Scan, m: nat)
    requires ValidScan(s) && AllFit(s.frame, s.sampling) && m <= McuCount(s)
    ensures NoRepeats(Blocks(s, m))
    ensures forall b :: b in Blocks(s, m) <==> Scanned(s, b) && UnitOf(s, b) >= m
    decreases McuCount(s) - m
  {
    hide Order, AllFit, UnitOf, NoRepeats, Scanned;
    if m == McuCount(s) {
      NoRepeatsEmpty();
      forall b | Scanned(s, b) ensures UnitOf(s, b) < m { UnitInRange(s, b); }
    } else {
      BlocksOnce(s, m + 1);
      forall b ensures b in Order(s, m) <==> Scanned(s, b) && UnitOf(s, b) == m { UnitBlocks(s, m, b); }
      UnitNoRepeats(s, m);
      JoinNoRepeats(Order(s, m), Blocks(s, m + 1));
    }
  }

  lemma NoRepeatsEmpty()
    ensures NoRepeats([])
  {}

  lemma UnitInRange(s: Scan, b: Block)
    requires Scanned(s, b)
    ensures UnitOf(s, b) < McuCount(s)
  {
    McuOfInRange(s.frame, s.sampling, b);
  }

  lemma {:induction false} PicturedAppend(s: Scan, pic: Picture, a: seq<Block>, b: seq<Block>)
    requires ValidScan(s) && forall i :: 0 <= i < |a| ==> a[i].comp < |s.sampling|
    requires forall i :: 0 <= i < |b| ==> b[i].comp < |s.sampling|
    ensures Pictured(s, pic, a + b) == Pictured(s, pic, a) + Pictured(s, pic, b)
    decreases |a|
  {
    hide Shown;
    if a == [] {
      assert a + b == b;
    } else {
      assert (a + b)[1..] == a[1..] + b;
      PicturedAppend(s, pic, a[1..], b);
    }
  }

  lemma {:induction false} PicturedBlocks(s: Scan, pic: Picture, m: nat)
    requires ValidScan(s) && m <= McuCount(s)
    ensures PicturedFrom(s, pic, m) == Pictured(s, pic, Blocks(s, m))
    decreases McuCount(s) - m
  {
    hide Order;
    if m < McuCount(s) {
      PicturedBlocks(s, pic, m + 1);
      PicturedAppend(s, pic, Order(s, m), Blocks(s, m + 1));
    }
  }

  lemma {:induction false} PicturedAt(s: Scan, pic: Picture, bs: seq<Block>)
    requires ValidScan(s) && forall i :: 0 <= i < |bs| ==> bs[i].comp < |s.sampling|
    ensures |Pictured(s, pic, bs)| == |bs|
    ensures forall i :: 0 <= i < |bs| ==> Pictured(s, pic, bs)[i] == Shown(s, pic, bs[i])
    decreases |bs|
  {
    hide Shown;
    if bs != [] { PicturedAt(s, pic, bs[1..]); }
  }

  /**
   * The round trip, block by block: what is decoded are the coefficients of distinct blocks, and a block is among them
   * exactly when the scan covers it.
   */
  lemma EveryBlockOnce(d: seq<byte>, s: Scan, pic: Picture, start: nat, fin: nat)
    requires ValidScan(s) && AllFit(s.frame, s.sampling) && PictureCodeable(s, pic, 0, Zeros(s))
    requires start <= fin <= |d| && d[start..fin] == Encode(s, pic) && MarkerAt(d, fin)
    ensures DecodeMcus(d, s, Start(s, start), 0).Some?
    ensures var out, bs := DecodeMcus(d, s, Start(s, start), 0).value.out, Blocks(s, 0);
      && |out| == |bs| && NoRepeats(bs) && (forall b :: b in bs <==> Covered(s.frame, s.sampling, b))
      && (forall i :: 0 <= i < |out| ==>
            out[i] == Placed(bs[i], Dequantised(s.tables[bs[i].comp], pic(bs[i]))))
  {
    hide DecodeMcus, PictureCodeable, Encode, PicturedFrom, Pictured, Blocks, AllFit, Dequantised, NoRepeats, UnitOf;
    ScanRoundTrip(d, s, pic, start, fin);
    BlocksOnce(s, 0);
    PicturedBlocks(s, pic, 0);
    PicturedAt(s, pic, Blocks(s, 0));
  }
}
