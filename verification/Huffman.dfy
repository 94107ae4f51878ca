/**
 * Canonical Huffman codes of ITU-T T.81 Annex C, the table that image-io.ts builds from a DHT segment, and the proof
 * that the table describes a prefix code.
 */
module Huffman {
  import opened Bits
  import opened Wrappers

  /** Number of code words of every length 1..16, as a DHT segment stores them. */
  type Counts = c: seq<byte> | |c| == 16 witness seq(16, _ => 0)

  const LONGEST := 16

  /** The first code word of length `len` (as a number): Annex C numbers the codes of one length consecutively. */
  function First(c: Counts, len: nat): nat
    requires 1 <= len <= 17
  {
    if len == 1 then 0 else 2 * (First(c, len - 1) + c[len - 2])
  }

  /** How many code words are shorter than `len`. */
  function Offset(c: Counts, len: nat): nat
    requires 1 <= len <= 17
  {
    if len == 1 then 0 else Offset(c, len - 1) + c[len - 2]
  }

  function Total(c: Counts): nat { Offset(c, LONGEST + 1) }

  /** The Kraft sum of the lengths up to `len`, in units of 2^-len. */
  function KraftSum(c: Counts, len: nat): nat
    requires len <= 16
  {
    if len == 0 then 0 else 2 * KraftSum(c, len - 1) + c[len - 1]
  }

  /** Kraft's inequality: sum over all code words of 2^-length is at most 1. */
  predicate Kraft(c: Counts) { KraftSum(c, LONGEST) <= Pow2(LONGEST) }

  /** The length of the k-th code word, the shortest words first (HUFFSIZE of Annex C). */
  ghost function Size(c: Counts, k: nat): (len: nat)
    requires k < Total(c)
    ensures 1 <= len <= 16 && Offset(c, len) <= k < Offset(c, len + 1)
  {
    SizeExists(c, k, LONGEST);
    var len :| 1 <= len <= 16 && Offset(c, len) <= k < Offset(c, len + 1);
    len
  }

  lemma {:induction false} SizeExists(c: Counts, k: nat, top: nat)
    requires top <= 16 && k < Offset(c, top + 1)
    ensures exists len :: 1 <= len <= 16 && Offset(c, len) <= k < Offset(c, len + 1)
  {
    if k < Offset(c, top) { SizeExists(c, k, top - 1); }
  }

  /** HUFFCODE of Annex C, Figure C.2: count up, and append a zero whenever the length grows. */
  ghost function HuffCode(c: Counts, k: nat): nat
    requires k < Total(c)
  {
    if k == 0 then 0 else Shl(HuffCode(c, k - 1) + 1, ShiftTo(c, k))
  }

  ghost function ShiftTo(c: Counts, k: nat): nat
    requires 0 < k < Total(c)
  {
    SizeMonotone(c, k - 1, k);
    Size(c, k) - Size(c, k - 1)
  }

  lemma {:induction false} OffsetMonotone(c: Counts, a: nat, b: nat)
    requires 1 <= a <= b <= 17
    ensures Offset(c, a) <= Offset(c, b)
  {
    if a < b { OffsetMonotone(c, a, b - 1); }
  }

  lemma SizeMonotone(c: Counts, j: nat, k: nat)
    requires j <= k < Total(c)
    ensures Size(c, j) <= Size(c, k)
  {
    if Size(c, k) < Size(c, j) { OffsetMonotone(c, Size(c, k) + 1, Size(c, j)); }
  }

  lemma {:induction false} FirstThroughEmpty(c: Counts, a: nat, b: nat)
    requires 1 <= a < b <= 16 && Offset(c, a + 1) == Offset(c, b)
    ensures First(c, b) == Shl(First(c, a) + c[a - 1], b - a)
  {
    if b > a + 1 {
      OffsetMonotone(c, a + 1, b - 1);
      FirstThroughEmpty(c, a, b - 1);
    }
  }

  lemma {:induction false} FirstZero(c: Counts, b: nat)
    requires 1 <= b <= 16 && Offset(c, b) == 0
    ensures First(c, b) == 0
  {
    if b > 1 { FirstZero(c, b - 1); }
  }

  /** One step of Annex C in the closed form: from the last code of length `p` to the first one of length `l`. */
  lemma ClosedStep(c: Counts, k: nat, p: nat, l: nat)
    requires 1 <= p <= l <= 16 && 0 < k
    requires Offset(c, p) <= k - 1 < Offset(c, p + 1) && Offset(c, l) <= k < Offset(c, l + 1)
    ensures First(c, l) + k - Offset(c, l) == Shl(First(c, p) + (k - 1) - Offset(c, p) + 1, l - p)
  {
    if p < l {
      OffsetMonotone(c, p + 1, l);
      FirstThroughEmpty(c, p, l);
    }
  }

  /** Annex C's running code equals the closed form that the decoding table is built from. */
  lemma {:induction false} AnnexC(c: Counts, k: nat)
    requires k < Total(c)
    ensures HuffCode(c, k) == First(c, Size(c, k)) + k - Offset(c, Size(c, k))
  {
    if k == 0 {
      FirstZero(c, Size(c, k));
    } else {
      AnnexC(c, k - 1);
      var p, l := Size(c, k - 1), Size(c, k);
      SizeMonotone(c, k - 1, k);
      ClosedStep(c, k, p, l);
    }
  }

  lemma {:induction false} FirstIsKraft(c: Counts, len: nat)
    requires 1 <= len <= 16
    ensures First(c, len) + c[len - 1] == KraftSum(c, len)
  {
    if len > 1 { FirstIsKraft(c, len - 1); }
  }

  lemma {:induction false} KraftPrefix(c: Counts, len: nat)
    requires len <= 16
    ensures Shl(KraftSum(c, len), 16 - len) <= KraftSum(c, 16)
    decreases 16 - len
  {
    if len < 16 {
      KraftPrefix(c, len + 1);
      ShlDouble(KraftSum(c, len), 15 - len);
      if 2 * KraftSum(c, len) < KraftSum(c, len + 1) {
        ShlStrict(2 * KraftSum(c, len), KraftSum(c, len + 1), 15 - len);
      }
    }
  }

  /** Under Kraft's inequality the codes of every length fit into that many bits. */
  lemma CodesFit(c: Counts, len: nat)
    requires Kraft(c) && 1 <= len <= 16
    ensures First(c, len) + c[len - 1] <= Pow2(len)
  {
    FirstIsKraft(c, len);
    KraftPrefix(c, len);
    ShlPow2(len, 16 - len);
    if KraftSum(c, len) > Pow2(len) { ShlStrict(Pow2(len), KraftSum(c, len), 16 - len); }
  }

  /** The k-th code word. */
  ghost function Code(c: Counts, k: nat): (bs: seq<bit>)
    requires k < Total(c)
    ensures |bs| == Size(c, k)
  {
    BitsOf(HuffCode(c, k), Size(c, k))
  }

  /** The index of the code word that `bs` spells, if any. */
  function Match(c: Counts, bs: seq<bit>): Option<nat> {
    var len, v := |bs|, Value(bs);
    if 1 <= len <= 16 && First(c, len) <= v < First(c, len) + c[len - 1]
    then Some(Offset(c, len) + v - First(c, len)) else None
  }

  lemma SizeUnique(c: Counts, k: nat, len: nat)
    requires 1 <= len <= 16 && Offset(c, len) <= k < Offset(c, len + 1)
    ensures k < Total(c) && Size(c, k) == len
  {
    OffsetMonotone(c, len + 1, 17);
    var s := Size(c, k);
    if s < len { OffsetMonotone(c, s + 1, len); }
    if len < s { OffsetMonotone(c, len + 1, s); }
  }

  lemma CodeValue(c: Counts, k: nat)
    requires Kraft(c) && k < Total(c)
    ensures Value(Code(c, k)) == First(c, Size(c, k)) + k - Offset(c, Size(c, k))
  {
    AnnexC(c, k);
    CodesFit(c, Size(c, k));
    ValueOfBitsOf(HuffCode(c, k), Size(c, k));
  }

  /** `Match` finds every code word ... */
  lemma MatchCode(c: Counts, k: nat)
    requires Kraft(c) && k < Total(c)
    ensures Match(c, Code(c, k)) == Some(k)
  {
    CodeValue(c, k);
  }

  /** ... and nothing else. */
  lemma MatchedIsCode(c: Counts, bs: seq<bit>, k: nat)
    requires Match(c, bs) == Some(k)
    ensures k < Total(c) && bs == Code(c, k)
  {
    SizeUnique(c, k, |bs|);
    AnnexC(c, k);
    BitsOfValue(bs);
  }

  /** Codes of a longer length start after everything the shorter codes cover. */
  lemma {:induction false} FirstGrows(c: Counts, a: nat, b: nat)
    requires 1 <= a < b <= 16
    ensures Shl(First(c, a) + c[a - 1], b - a) <= First(c, b)
  {
    if b > a + 1 { FirstGrows(c, a, b - 1); }
  }

  /** No code word is a proper prefix of another one, and no two code words are equal. */
  lemma PrefixFree(c: Counts, j: nat, k: nat)
    requires Kraft(c) && j < Total(c) && k < Total(c)
    requires Code(c, j) <= Code(c, k)
    ensures j == k
  {
    MatchCode(c, j);
    MatchCode(c, k);
    var a, b := Code(c, j), Code(c, k);
    if |a| < |b| {
      LongerCode(c, a, b);
    } else {
      assert a == b;
    }
  }

  lemma LongerCode(c: Counts, a: seq<bit>, b: seq<bit>)
    requires 1 <= |a| < |b| <= 16 && a <= b && Match(c, a).Some?
    ensures Match(c, b).None?
  {
    var rest := b[|a|..];
    assert b == a + rest;
    ValueConcat(a, rest);
    BitsOfValue(rest);
    FirstGrows(c, |a|, |b|);
    ShlStrict(Value(a), First(c, |a|) + c[|a| - 1], |rest|);
  }

  /** The decoding table of image-io.ts: entry `len` describes the code words of that length. */
  datatype Table = Table(maxcode: seq<int>, valptr: seq<int>, mincode: seq<int>, values: seq<byte>)

  /** The table entry of length `len`. */
  predicate Entry(c: Counts, len: nat, maxcode: int, valptr: int, mincode: int)
    requires 1 <= len <= 16
  {
    if c[len - 1] == 0 then maxcode == -1
    else maxcode == First(c, len) + c[len - 1] - 1 && mincode == First(c, len) && valptr == Offset(c, len)
  }

  predicate Describes(t: Table, c: Counts) {
    && |t.maxcode| == 17 && |t.valptr| == 17 && |t.mincode| == 17
    && forall len :: 1 <= len <= 16 ==> Entry(c, len, t.maxcode[len], t.valptr[len], t.mincode[len])
  }

  /** A code not above `maxcode` is a code word, and the table finds its index. */
  lemma TableHit(t: Table, c: Counts, len: nat, code: nat)
    requires Describes(t, c) && 1 <= len <= 16 && First(c, len) <= code <= t.maxcode[len]
    ensures code < First(c, len) + c[len - 1]
    ensures t.valptr[len] + code - t.mincode[len] == Offset(c, len) + code - First(c, len) < Total(c)
  {
    assert Entry(c, len, t.maxcode[len], t.valptr[len], t.mincode[len]);
    OffsetMonotone(c, len + 1, 17);
  }

  lemma TableMiss(t: Table, c: Counts, len: nat, code: nat)
    requires Describes(t, c) && 1 <= len <= 16 && First(c, len) <= code && code > t.maxcode[len]
    ensures First(c, len) + c[len - 1] <= code
  {
    assert Entry(c, len, t.maxcode[len], t.valptr[len], t.mincode[len]);
  }

  /** For any counts, Kraft or not, the running code stays far below 2^31: `<<=` never wraps. */
  lemma {:induction false} NoOverflow(c: Counts, len: nat)
    requires 1 <= len <= 17
    ensures First(c, len) <= 510 * (Pow2(len - 1) - 1) && First(c, len) < 0x8000_0000
  {
    if len > 1 { NoOverflow(c, len - 1); }
    Pow2Monotone(len - 1, 16);
    Pow2Sixteen();
  }

  /** `code <<= 1` after the codes of length `len` have been counted off. */
  function Shl1(c: Counts, len: nat, code: nat): (r: nat)
    requires 1 <= len <= 16 && code == First(c, len) + c[len - 1]
    ensures r == First(c, len + 1)
  {
    NoOverflow(c, len + 1);
    Int32(2 * code)
  }

  /** buildHuffman; a segment cut short leaves fewer values than codes. */
  method Build(counts: Counts, values: seq<byte>) returns (t: Table)
    ensures Describes(t, counts) && t.values == values
  {
    var maxcode, valptr, mincode := new int[17](_ => -1), new int[17](_ => 0), new int[17](_ => 0);
    var code: nat, k: nat, len := 0, 0, 1;
    while len <= 16
      invariant 1 <= len <= 17
      invariant code == First(counts, len) && k == Offset(counts, len)
      invariant forall l :: len <= l < 17 ==> maxcode[l] == -1
      invariant forall l :: 1 <= l < len ==> Entry(counts, l, maxcode[l], valptr[l], mincode[l])
    {
      var n := counts[len - 1];
      if n != 0 {
        valptr[len] := k;
        mincode[len] := code;
        code := code + n;
        k := k + n;
        maxcode[len] := code - 1;
      }
      code := Shl1(counts, len, code);
      len := len + 1;
    }
    t := Table(maxcode[..], valptr[..], mincode[..], values);
  }
}
