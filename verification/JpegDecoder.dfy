/** `decodeScan` of image-io.ts as it runs: one reader, one coefficient buffer and a prediction per component. */
module JpegDecoder {
  import opened Bits
  import opened Huffman
  import opened EntropyBits
  import opened ZigZagOrder
  import opened JpegBlock
  import opened JpegGeometry
  import opened JpegScan
  import opened Wrappers

  /** A component of the scan: its sampling factors, its quantiser and Huffman tables, and the running DC prediction. */
  class Component {
    const sampling: Sampling
    const tables: Tables
    const dcTable: Table
    const acTable: Table
    var pred: int

    constructor (sampling: Sampling, tables: Tables, dcTable: Table, acTable: Table)
      ensures this.sampling == sampling && this.tables == tables && this.dcTable == dcTable && this.acTable == acTable
      ensures pred == 0
    {
      this.sampling, this.tables, this.dcTable, this.acTable, pred := sampling, tables, dcTable, acTable, 0;
    }

    /** The decoding tables are the ones `buildHuffman` makes of the component's code lengths. */
    predicate Built() {
      && ValidTables(tables)
      && Describes(dcTable, tables.dc.counts) && dcTable.values == tables.dc.values
      && Describes(acTable, tables.ac.counts) && acTable.values == tables.ac.values
    }
  }

  method DecodeByte(br: BitReader, h: Table, coder: Coder) returns (s: Option<byte>)
    requires Describes(h, coder.counts) && h.values == coder.values
    modifies br
    ensures match NextByte(br.d, old(br.Cur()), coder)
            case Some((x, c)) => s == Some(x) && br.Cur() == c
            case None => s == None
  {
    s := br.Decode(h, coder.counts);
  }

  method ReceiveValue(br: BitReader, t: nat) returns (v: int)
    requires t > 0
    modifies br
    ensures (v, br.Cur()) == ReadValue(br.d, old(br.Cur()), t)
  {
    v := br.Receive(t);
    v := Extend(v, t);
  }

  /** The DC part of the closure `block`. */
  method DecodeDc(br: BitReader, c: Component) returns (ok: bool)
    requires c.Built()
    modifies br, c`pred
    ensures match ReadDc(br.d, old(br.Cur()), c.tables.dc, old(c.pred))
            case None => !ok
            case Some((p, c1)) => ok && c.pred == p && br.Cur() == c1
  {
    var t := DecodeByte(br, c.dcTable, c.tables.dc);
    if t == None { return false; }
    if t.value != 0 {
      var v := ReceiveValue(br, t.value);
      c.pred := c.pred + v;
    }
    ok := true;
  }

  /** The AC loop of the closure `block`. */
  method DecodeAc(br: BitReader, coef: array<int>, c: Component) returns (ok: bool)
    requires c.Built() && coef.Length == 64
    modifies br, coef
    ensures match ReadAc(br.d, old(br.Cur()), c.tables, 1, old(coef[..]))
            case None => !ok
            case Some((x, c1)) => ok && coef[..] == x && br.Cur() == c1
  {
    hide NextByte, ReadValue, Scaled, Natural;
    ghost var goal := ReadAc(br.d, br.Cur(), c.tables, 1, coef[..]);
    var k, broke := 1, false;
    while k < 64 && !broke
      invariant broke ==> goal == Some((coef[..], br.Cur()))
      invariant !broke ==> goal == ReadAc(br.d, br.Cur(), c.tables, k, coef[..])
      decreases 64 - k, if broke then 0 else 1
    {
      var rs := DecodeByte(br, c.acTable, c.tables.ac);
      if rs == None { return false; }
      var r, s := rs.value / 16, rs.value % 16;
      if s == 0 {
        if r == 15 { k := k + 16; } else { broke := true; }
      } else {
        k := k + r;
        if k > 63 {
          broke := true;
        } else {
          var v := ReceiveValue(br, s);
          ghost var before := coef[..];
          coef[Natural(k)] := Scaled(v, c.tables.q[k]);
          assert coef[..] == before[Natural(k) := Scaled(v, c.tables.q[k])];
          k := k + 1;
        }
      }
    }
    ok := true;
  }

  /** The closure `block`, up to the call of idctInto. */
  method DecodeOne(br: BitReader, coef: array<int>, c: Component) returns (ok: bool)
    requires c.Built() && coef.Length == 64
    modifies br, coef, c`pred
    ensures match ReadBlock(br.d, old(br.Cur()), c.tables, old(c.pred))
            case None => !ok
            case Some(x) => ok && coef[..] == x.coef && c.pred == x.pred && br.Cur() == x.cursor
  {
    hide ReadDc, ReadAc;
    forall i | 0 <= i < 64 { coef[i] := 0; }
    ok := DecodeDc(br, c);
    if !ok { return; }
    coef[0] := Scaled(c.pred, c.tables.q[0]);
    assert coef[..] == DcOnly(c.tables, c.pred);
    ok := DecodeAc(br, coef, c);
  }

  // ---------- the MCU loop ----------

  predicate Usable(frame: Frame, comps: seq<Component>) {
    && ValidFrame(frame) && comps != []
    && (forall i :: 0 <= i < |comps| ==> comps[i].Built())
  }

  /** Where the component at place `i` is named first. */
  function FirstPlace(comps: seq<Component>, i: nat): (f: nat)
    requires i < |comps|
    ensures f <= i && comps[f] == comps[i] && forall j :: 0 <= j < f ==> comps[j] != comps[i]
  {
    FirstFrom(comps, comps[i], 0)
  }

  function FirstFrom(comps: seq<Component>, c: Component, j: nat): (f: nat)
    requires j <= |comps| && c in comps[j..]
    ensures j <= f < |comps| && comps[f] == c && forall k :: j <= k < f ==> comps[k] != c
    decreases |comps| - j
  {
    if comps[j] == c then j else FirstFrom(comps, c, j + 1)
  }

  function ScanOf(frame: Frame, comps: seq<Component>, restart: nat): (s: Scan)
    requires Usable(frame, comps)
    ensures ValidScan(s)
  {
    Scan(frame, seq(|comps|, i requires 0 <= i < |comps| => comps[i].sampling),
         seq(|comps|, i requires 0 <= i < |comps| => comps[i].tables),
         seq(|comps|, i requires 0 <= i < |comps| => FirstPlace(comps, i)), restart)
  }

  function Predictions(comps: seq<Component>): (ps: seq<int>)
    reads comps
    ensures |ps| == |comps|
  {
    seq(|comps|, i requires 0 <= i < |comps| reads comps => if FirstPlace(comps, i) == i then comps[i].pred else 0)
  }

  /** One block of the scan, recorded where the original calls idctInto. */
  method Record(br: BitReader, coef: array<int>, comps: seq<Component>, ghost s: Scan, frame: Frame, b: Block,
                out: seq<Placed>) returns (ok: bool, out': seq<Placed>)
    requires Usable(frame, comps) && s == ScanOf(frame, comps, s.restart) && coef.Length == 64 && b.comp < |comps|
    modifies br, coef, comps
    ensures match DecodeBlock(br.d, s, old(State(br.Cur(), Predictions(comps), out)), b)
            case None => !ok
            case Some(st) => ok && st == State(br.Cur(), Predictions(comps), out')
  {
    hide ReadBlock;
    var c := comps[b.comp];
    ghost var before := Predictions(comps);
    out' := out;
    ok := DecodeOne(br, coef, c);
    if ok {
      out' := out + [Placed(b, coef[..])];
      assert Predictions(comps) == before[s.slot[b.comp] := c.pred];
    }
  }

  /** What the rest of an MCU, from block (h, v) of component `i` on, makes of state `st`. */
  function Remaining(d: seq<byte>, s: Scan, st: State, mx: nat, my: nat, i: nat, v: nat, h: nat): (r: Option<State>)
    requires ValidScan(s) && ValidState(s, st)
    requires i <= |s.sampling| && (i < |s.sampling| ==> v <= s.sampling[i].v && h <= s.sampling[i].h)
    ensures r.Some? ==> ValidState(s, r.value)
  {
    DecodeBlocks(d, s, st, McuFrom(s.sampling, mx, my, i, v, h))
  }

  /** The three ways the nested loops of an MCU move on. */
  lemma Advance(d: seq<byte>, s: Scan, st: State, mx: nat, my: nat, i: nat, v: nat, h: nat)
    requires ValidScan(s) && ValidState(s, st)
    requires i < |s.sampling| && v <= s.sampling[i].v && h <= s.sampling[i].h
    ensures v == s.sampling[i].v ==> Remaining(d, s, st, mx, my, i, v, h) == Remaining(d, s, st, mx, my, i + 1, 0, 0)
    ensures v < s.sampling[i].v && h == s.sampling[i].h
            ==> Remaining(d, s, st, mx, my, i, v, h) == Remaining(d, s, st, mx, my, i, v + 1, 0)
    ensures v < s.sampling[i].v && h < s.sampling[i].h
            ==> match DecodeBlock(d, s, st, Block(i, mx * s.sampling[i].h + h, my * s.sampling[i].v + v))
                case None => Remaining(d, s, st, mx, my, i, v, h) == None
                case Some(next) => Remaining(d, s, st, mx, my, i, v, h) == Remaining(d, s, next, mx, my, i, v, h + 1)
  {
    hide DecodeBlock;
    var bs := McuFrom(s.sampling, mx, my, i, v, h);
    if v < s.sampling[i].v && h < s.sampling[i].h {
      assert bs[1..] == McuFrom(s.sampling, mx, my, i, v, h + 1);
    }
  }

  /** The blocks of one MCU, component by component, row by row. */
  method DecodeMcu(br: BitReader, coef: array<int>, comps: seq<Component>, ghost s: Scan, frame: Frame, mx: nat,
      my: nat,
                   out: seq<Placed>) returns (ok: bool, out': seq<Placed>)
    requires Usable(frame, comps) && s == ScanOf(frame, comps, s.restart) && coef.Length == 64
    modifies br, coef, comps
    ensures match Remaining(br.d, s, old(State(br.Cur(), Predictions(comps), out)), mx, my, 0, 0, 0)
            case None => !ok
            case Some(st) => ok && st == State(br.Cur(), Predictions(comps), out')
  {
    hide DecodeBlock, Remaining, Predictions, br.Cur;
    ghost var goal := Remaining(br.d, s, State(br.Cur(), Predictions(comps), out), mx, my, 0, 0, 0);
    out' := out;
    var i := 0;
    while i < |comps|
      invariant 0 <= i <= |comps|
      invariant goal == Remaining(br.d, s, State(br.Cur(), Predictions(comps), out'), mx, my, i, 0, 0)
    {
      var c := comps[i];
      var v := 0;
      while v < c.sampling.v
        invariant 0 <= v <= c.sampling.v
        invariant goal == Remaining(br.d, s, State(br.Cur(), Predictions(comps), out'), mx, my, i, v, 0)
      {
        var h := 0;
        while h < c.sampling.h
          invariant 0 <= h <= c.sampling.h
          invariant goal == Remaining(br.d, s, State(br.Cur(), Predictions(comps), out'), mx, my, i, v, h)
        {
          Advance(br.d, s, State(br.Cur(), Predictions(comps), out'), mx, my, i, v, h);
          ok, out' := Record(br, coef, comps, s, frame, Block(i, mx * c.sampling.h + h, my * c.sampling.v + v), out');
          if !ok { return; }
          h := h + 1;
        }
        Advance(br.d, s, State(br.Cur(), Predictions(comps), out'), mx, my, i, v, h);
        v := v + 1;
      }
      Advance(br.d, s, State(br.Cur(), Predictions(comps), out'), mx, my, i, v, 0);
      i := i + 1;
    }
    Nothing(br.d, s, State(br.Cur(), Predictions(comps), out'), mx, my);
    ok := true;
  }

  lemma Nothing(d: seq<byte>, s: Scan, st: State, mx: nat, my: nat)
    requires ValidScan(s) && ValidState(s, st)
    ensures Remaining(d, s, st, mx, my, |s.sampling|, 0, 0) == Some(st)
  {}

  method RestartIfDue(br: BitReader, comps: seq<Component>, ghost s: Scan, restart: nat, m: nat, ghost out: seq<Placed>)
    requires |s.sampling| == |comps| && s.restart == restart
    modifies br, comps
    ensures State(br.Cur(), Predictions(comps), out)
        == Restarted(br.d, s, old(State(br.Cur(), Predictions(comps), out)), m)
  {
    hide AfterRestart;
    if restart > 0 && m > 0 && m % restart == 0 {
      br.Restart();
      ResetAll(comps);
      assert Predictions(comps) == Zeros(s);
    }
  }

  /** One turn of the MCU loop: the restart that may precede the MCU, and its blocks. */
  method DecodeUnit(br: BitReader, coef: array<int>, comps: seq<Component>, ghost s: Scan, frame: Frame, restart: nat,
                    m: nat, perRow: nat, out: seq<Placed>) returns (ok: bool, out': seq<Placed>)
    requires Usable(frame, comps) && s == ScanOf(frame, comps, restart) && coef.Length == 64
    requires m < McuCount(s) && perRow == PerRow(frame, s.sampling)
    modifies br, coef, comps
    ensures match DecodeBlocks(br.d, s, Restarted(br.d, s, old(State(br.Cur(), Predictions(comps), out)), m),
        Order(s, m))
            case None => !ok
            case Some(st) => ok && st == State(br.Cur(), Predictions(comps), out')
  {
    hide DecodeBlock, DecodeBlocks, Predictions, Restarted;
    NonEmptyRow(frame, s.sampling, m);
    RestartIfDue(br, comps, s, restart, m, out);
    if |comps| == 1 {
      OneBlock(br.d, s, State(br.Cur(), Predictions(comps), out), Order(s, m)[0]);
      ok, out' := Record(br, coef, comps, s, frame, Block(0, m % perRow, m / perRow), out);
    } else {
      ok, out' := DecodeMcu(br, coef, comps, s, frame, m % perRow, m / perRow, out);
    }
  }

  lemma OneBlock(d: seq<byte>, s: Scan, st: State, b: Block)
    requires ValidScan(s) && ValidState(s, st) && b.comp < |s.sampling|
    ensures DecodeBlocks(d, s, st, [b]) == DecodeBlock(d, s, st, b)
  {
    hide DecodeBlock;
    assert [b][1..] == [];
  }

  lemma OneUnit(d: seq<byte>, s: Scan, st: State, m: nat)
    requires ValidScan(s) && ValidState(s, st) && m < McuCount(s)
    ensures match DecodeBlocks(d, s, Restarted(d, s, st, m), Order(s, m))
            case None => DecodeMcus(d, s, st, m) == None
            case Some(next) => DecodeMcus(d, s, st, m) == DecodeMcus(d, s, next, m + 1)
  {
    hide DecodeBlocks, Restarted, Order;
  }

  lemma NoMoreUnits(d: seq<byte>, s: Scan, st: State)
    requires ValidScan(s) && ValidState(s, st)
    ensures DecodeMcus(d, s, st, McuCount(s)) == Some(st)
  {}

  /** decodeScan: the blocks in coding order, and where the next marker is; None for a code that is not in the table. */
  method DecodeScan(d: seq<byte>, start: nat, frame: Frame, comps: seq<Component>, restart: nat)
      returns (r: Option<(seq<Placed>, nat)>)
    requires Usable(frame, comps) && forall i :: 0 <= i < |comps| ==> comps[i].pred == 0
    modifies comps
    ensures var s := ScanOf(frame, comps, restart);
      match DecodeMcus(d, s, Start(s, start), 0)
      case None => r == None
      case Some(st) => r == Some((st.out, NextMarker(d, st.cursor.pos)))
  {
    hide DecodeMcus, DecodeBlocks, Order, Restarted, NextMarker, JpegGeometry.Total, PerRow;
    ghost var s := ScanOf(frame, comps, restart);
    ghost var goal := DecodeMcus(d, s, Start(s, start), 0);
    var br := new BitReader(d, start);
    var coef := new int[64];
    var out: seq<Placed> := [];
    assert Predictions(comps) == Zeros(s);
    hide Predictions, Zeros;
    var sampling := seq(|comps|, i requires 0 <= i < |comps| => comps[i].sampling);
    assert sampling == s.sampling;
    var total, perRow := JpegGeometry.Total(frame, sampling), PerRow(frame, sampling);
    for m := 0 to total
      invariant br.d == d && fresh(br) && fresh(coef)
      invariant goal == DecodeMcus(d, s, State(br.Cur(), Predictions(comps), out), m)
    {
      OneUnit(d, s, State(br.Cur(), Predictions(comps), out), m);
      var ok;
      ok, out := DecodeUnit(br, coef, comps, s, frame, restart, m, perRow, out);
      if !ok { return None; }
    }
    NoMoreUnits(d, s, State(br.Cur(), Predictions(comps), out));
    var p := FindMarker(d, br.pos);
    r := Some((out, p));
  }

  method FindMarker(d: seq<byte>, start: nat) returns (p: nat)
    ensures p == NextMarker(d, start)
  {
    p := start;
    while p + 1 < |d| && !MarkerAt(d, p)
      invariant NextMarker(d, start) == NextMarker(d, p)
      decreases |d| - p
    {
      p := p + 1;
    }
  }

  method ResetAll(comps: seq<Component>)
    modifies comps
    ensures forall i :: 0 <= i < |comps| ==> comps[i].pred == 0
  {
    for k := 0 to |comps|
      invariant forall i :: 0 <= i < k ==> comps[i].pred == 0
    {
      comps[k].pred := 0;
    }
  }
}
