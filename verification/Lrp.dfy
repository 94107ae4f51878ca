/**
 * The leakage resilient primitive of libsdm/lrp.py: evaluation, encryption in counter mode with bit padding, and CMAC.
 * AES is a pair of functions of which only "decryption inverts encryption" is used; doubling in GF(2^128) is a
 * parameter.
 */
module Lrp {
  import opened Bits
  import opened Wrappers

  const BLOCK_SIZE := 16
  const ZEROS: seq<byte> := [0, 0, 0, 0, 0, 0, 0, 0, 0, 0, 0, 0, 0, 0, 0, 0]

  type Block = b: seq<byte> | |b| == 16 witness ZEROS

  /** AES on one block, and multiplication by 2 and by 4 in GF(2^128). */
  datatype Cipher = Cipher(enc: (Block, Block) -> Block, dec: (Block, Block) -> Block, times2: Block -> Block,
      times4: Block -> Block)

  ghost predicate Inverts(c: Cipher) { forall k: Block, x: Block :: c.dec(k, c.enc(k, x)) == x }

  function Fill(b: byte, n: nat): (r: seq<byte>)
    ensures |r| == n && forall i :: 0 <= i < n ==> r[i] == b
  {
    if n == 0 then [] else [b] + Fill(b, n - 1)
  }

  // ---------- keys (algorithms 1 and 2) ----------

  function Half(): Block { Fill(0x55, 16) }

  function Other(): Block { Fill(0xaa, 16) }

  /** `n` secrets derived from `h`, one after the other. */
  function Derived(c: Cipher, h: Block, n: nat): (s: seq<Block>)
    ensures |s| == n
    decreases n
  {
    if n == 0 then [] else [c.enc(h, Other())] + Derived(c, c.enc(h, Half()), n - 1)
  }

  function Plaintexts(c: Cipher, key: Block): (p: seq<Block>)
    ensures |p| == 16
  {
    Derived(c, c.enc(key, Half()), 16)
  }

  function UpdatedKeys(c: Cipher, key: Block): (uk: seq<Block>)
    ensures |uk| == 4
  {
    Derived(c, c.enc(key, Other()), 4)
  }

  // ---------- evaluation (algorithm 3) ----------

  /** High nibble first. */
  function Nibbles(x: seq<byte>): (n: seq<nat>)
    ensures |n| == 2 * |x| && forall i :: 0 <= i < |n| ==> n[i] < 16
  {
    if x == [] then [] else [x[0] / 16, x[0] % 16] + Nibbles(x[1..])
  }

  function Walk(c: Cipher, p: seq<Block>, y: Block, n: seq<nat>): Block
    requires |p| == 16 && forall i :: 0 <= i < |n| ==> n[i] < 16
    decreases |n|
  {
    if n == [] then y else Walk(c, p, c.enc(y, p[n[0]]), n[1..])
  }

  function Eval(c: Cipher, p: seq<Block>, kp: Block, x: seq<byte>, final: bool): Block
    requires |p| == 16
  {
    var y := Walk(c, p, kp, Nibbles(x));
    if final then c.enc(y, ZEROS) else y
  }

  // ---------- the counter ----------

  /** int.from_bytes(r, "big") */
  function Number(r: seq<byte>): nat { if r == [] then 0 else Number(r[..|r| - 1]) * 256 + r[|r| - 1] }

  /** 256^n */
  function Size(n: nat): (s: nat)
    ensures s >= 1
  {
    if n == 0 then 1 else 256 * Size(n - 1)
  }

  function ToBytes(v: nat, n: nat): (r: seq<byte>)
    ensures |r| == n
  {
    if n == 0 then [] else ToBytes(v / 256, n - 1) + [v % 256]
  }

  /** incr_counter: an overflow resets the counter to zero. */
  function Incr(r: seq<byte>): (s: seq<byte>)
    ensures |s| == |r|
  {
    if Number(r) + 1 >= Size(|r|) then Fill(0, |r|) else ToBytes(Number(r) + 1, |r|)
  }

  lemma {:induction false} NumberBound(r: seq<byte>)
    ensures Number(r) < Size(|r|)
  {
    if r != [] { NumberBound(r[..|r| - 1]); }
  }

  lemma {:induction false} NumberOfBytes(v: nat, n: nat)
    requires v < Size(n)
    ensures Number(ToBytes(v, n)) == v
  {
    if n > 0 {
      NumberOfBytes(v / 256, n - 1);
      assert ToBytes(v, n)[..n - 1] == ToBytes(v / 256, n - 1);
    }
  }

  lemma {:induction false} NumberOfZeros(n: nat)
    ensures Number(Fill(0, n)) == 0
  {
    if n > 0 {
      assert Fill(0, n)[..n - 1] == Fill(0, n - 1);
      NumberOfZeros(n - 1);
    }
  }

  /** The counter counts modulo 256^length. */
  lemma IncrCounts(r: seq<byte>)
    ensures Number(Incr(r)) == if Number(r) + 1 < Size(|r|) then Number(r) + 1 else 0
  {
    hide Number, Size, ToBytes, Fill;
    if Number(r) + 1 < Size(|r|) { NumberOfBytes(Number(r) + 1, |r|); } else { NumberOfZeros(|r|); }
  }

  /** The counter after `n` blocks. */
  function Counted(r: seq<byte>, n: nat): (s: seq<byte>)
    ensures |s| == |r|
    decreases n
  {
    if n == 0 then r else Counted(Incr(r), n - 1)
  }

  // ---------- padding ----------

  datatype Error = Unaligned | Empty | InvalidPadding

  /** 0x80, then zeros up to the block size. */
  function Padded(m: seq<byte>): (r: seq<byte>)
    ensures |r| % 16 == 0
  {
    m + [0x80] + Fill(0, (15 - |m| % 16))
  }

  /** remove_pad; a text of zeros alone has no 0x80 and still passes, as the empty text. */
  function RemovePad(pt: seq<byte>): Result<seq<byte>, Error> {
    if pt == [] then Ok([])
    else if pt[|pt| - 1] == 0x80 then Ok(pt[..|pt| - 1])
    else if pt[|pt| - 1] != 0 then Err(InvalidPadding)
    else RemovePad(pt[..|pt| - 1])
  }

  lemma {:induction false} PadRemoved(m: seq<byte>, n: nat)
    ensures RemovePad(m + [0x80] + Fill(0, n)) == Ok(m)
  {
    var pt := m + [0x80] + Fill(0, n);
    if n == 0 {
      assert pt == m + [0x80] && pt[..|pt| - 1] == m;
    } else {
      assert Fill(0, n)[..n - 1] == Fill(0, n - 1);
      assert pt[..|pt| - 1] == m + [0x80] + Fill(0, n - 1);
      PadRemoved(m, n - 1);
    }
  }

  lemma {:induction false} FillSnoc(b: byte, n: nat)
    ensures Fill(b, n + 1) == Fill(b, n) + [b]
  {}

  /** What remove_pad accepts: a text, 0x80 and zeros, or zeros alone, which it takes for the empty text. */
  lemma {:induction false} RemovePadIff(pt: seq<byte>, m: seq<byte>)
    ensures RemovePad(pt) == Ok(m) <==>
      (m == [] && pt == Fill(0, |pt|)) || (|m| < |pt| && pt == m + [0x80] + Fill(0, |pt| - |m| - 1))
  {
    if pt != [] {
      var init, last := pt[..|pt| - 1], pt[|pt| - 1];
      assert pt == init + [last];
      FillSnoc(0, |init|);
      if last == 0 {
        RemovePadIff(init, m);
        if |m| < |init| { FillSnoc(0, |init| - |m| - 1); }
        if |m| + 1 == |pt| { assert pt != m + [0x80] + Fill(0, 0); }
      } else if |m| < |pt| {
        var k := |pt| - |m| - 1;
        if k > 0 { FillSnoc(0, k - 1); } else { assert m + [0x80] + Fill(0, 0) == m + [0x80]; }
      }
    }
  }

  // ---------- encryption and decryption ----------

  function Key(c: Cipher, p: seq<Block>, kp: Block, r: seq<byte>): Block
    requires |p| == 16
  {
    Eval(c, p, kp, r, true)
  }

  /** The blocks of `data`, each under the key of its counter. */
  function Encrypted(c: Cipher, p: seq<Block>, kp: Block, r: seq<byte>, data: seq<byte>): (ct: seq<byte>)
    requires |p| == 16 && |data| % 16 == 0
    ensures |ct| == |data|
    decreases |data|
  {
    if data == [] then [] else c.enc(Key(c, p, kp, r), data[..16]) + Encrypted(c, p, kp, Incr(r), data[16..])
  }

  function Decrypted(c: Cipher, p: seq<Block>, kp: Block, r: seq<byte>, data: seq<byte>): (pt: seq<byte>)
    requires |p| == 16 && |data| % 16 == 0
    ensures |pt| == |data|
    decreases |data|
  {
    if data == [] then [] else c.dec(Key(c, p, kp, r), data[..16]) + Decrypted(c, p, kp, Incr(r), data[16..])
  }

  lemma {:induction false} DecryptedEncrypted(c: Cipher, p: seq<Block>, kp: Block, r: seq<byte>, data: seq<byte>)
    requires |p| == 16 && |data| % 16 == 0 && Inverts(c)
    ensures Decrypted(c, p, kp, r, Encrypted(c, p, kp, r, data)) == data
    decreases |data|
  {
    hide Key, Incr;
    if data != [] {
      var ct := Encrypted(c, p, kp, r, data);
      DecryptedEncrypted(c, p, kp, Incr(r), data[16..]);
      var block: Block := data[..16];
      assert ct[..16] == c.enc(Key(c, p, kp, r), block) && ct[16..] == Encrypted(c, p, kp, Incr(r), data[16..]);
      assert c.dec(Key(c, p, kp, r), c.enc(Key(c, p, kp, r), block)) == block;
    }
  }

  /** What encrypt works on; the errors of the two unpadded cases. */
  function Prepared(pad: bool, data: seq<byte>): (r: Result<seq<byte>, Error>)
    ensures r.Ok? ==> |r.value| % 16 == 0
  {
    if pad then Ok(Padded(data))
    else if |data| % 16 != 0 then Err(Unaligned)
    else if |data| == 0 then Err(Empty)
    else Ok(data)
  }

  /** The result and the new counter of encrypt; an error leaves the counter. */
  function EncryptStep(c: Cipher, p: seq<Block>, kp: Block, pad: bool, r: seq<byte>,
      data: seq<byte>): (Result<seq<byte>, Error>, seq<byte>)
    requires |p| == 16
  {
    match Prepared(pad, data)
    case Err(e) => (Err(e), r)
    case Ok(x) => (Ok(Encrypted(c, p, kp, r, x)), Counted(r, |x| / 16))
  }

  /** decrypt: a short last block is refused by AES after the counter has passed the full ones. */
  function DecryptStep(c: Cipher, p: seq<Block>, kp: Block, pad: bool, r: seq<byte>,
      data: seq<byte>): (Result<seq<byte>, Error>, seq<byte>)
    requires |p| == 16
  {
    var after := Counted(r, |data| / 16);
    if |data| % 16 != 0 then (Err(Unaligned), after) else
      var pt := Decrypted(c, p, kp, r, data);
      (if pad then RemovePad(pt) else Ok(pt), after)
  }

  /**
   * decrypt inverts encrypt for every message that encrypt accepts, key, padding mode and counter, also across a
   * counter overflow, and both end on the same counter.
   */
  lemma DecryptInverts(c: Cipher, p: seq<Block>, kp: Block, pad: bool, r: seq<byte>, data: seq<byte>)
    requires |p| == 16 && Inverts(c) && EncryptStep(c, p, kp, pad, r, data).0.Ok?
    ensures var (ct, after) := EncryptStep(c, p, kp, pad, r, data);
      DecryptStep(c, p, kp, pad, r, ct.value) == (Ok(data), after)
  {
    hide Encrypted, Decrypted, Counted, RemovePad, Inverts;
    DecryptedEncrypted(c, p, kp, r, Prepared(pad, data).value);
    if pad { PadRemoved(data, 15 - |data| % 16); }
  }

  /** Every message can be encrypted with padding; without it, exactly the nonempty ones of whole blocks. */
  lemma EncryptsIff(c: Cipher, p: seq<Block>, kp: Block, pad: bool, r: seq<byte>, data: seq<byte>)
    requires |p| == 16
    ensures EncryptStep(c, p, kp, pad, r, data).0.Ok? <==> pad || (data != [] && |data| % 16 == 0)
  {}

  // ---------- CMAC (NIST SP 800-38B section 6.2) ----------

  /** Bitwise exclusive or of the last `n` binary digits. */
  function XorBits(a: nat, b: nat, n: nat): (x: nat)
    ensures x < Pow2(n)
  {
    if n == 0 then 0 else 2 * XorBits(a / 2, b / 2, n - 1) + (a + b) % 2
  }

  function XorByte(a: byte, b: byte): byte {
    Pow2Sixteen();
    XorBits(a, b, 8)
  }

  lemma Halves(a: nat, b: nat, n: nat)
    requires n > 0
    ensures XorBits(a, b, n) / 2 == XorBits(a / 2, b / 2, n - 1) && XorBits(a, b, n) % 2 == (a + b) % 2
  {}

  lemma Parity(u: nat, v: nat, k: nat)
    requires u % 2 == v % 2
    ensures (u + k) % 2 == (v + k) % 2 == (k + u) % 2
  {}

  lemma SameHalves(u: nat, v: nat)
    requires u / 2 == v / 2 && u % 2 == v % 2
    ensures u == v
  {}

  /** Both orders of masking, half by half. */
  lemma MaskedTwice(x: nat, y: nat, k: nat, n: nat)
    requires n > 0
    ensures XorBits(XorBits(x, y, n), k, n) / 2 == XorBits(XorBits(x / 2, y / 2, n - 1), k / 2, n - 1)
    ensures XorBits(XorBits(x, y, n), k, n) % 2 == (x + y + k) % 2
    ensures XorBits(k, XorBits(x, y, n), n) / 2 == XorBits(k / 2, XorBits(x / 2, y / 2, n - 1), n - 1)
    ensures XorBits(k, XorBits(x, y, n), n) % 2 == (x + y + k) % 2
  {
    var u := XorBits(x, y, n);
    Halves(x, y, n);
    Halves(u, k, n);
    Halves(k, u, n);
    hide XorBits;
    Parity(u, x + y, k);
  }

  /** Masks may be applied in either order. */
  lemma {:induction false} XorTwist(x: nat, y: nat, k: nat, n: nat)
    ensures XorBits(XorBits(x, y, n), k, n) == XorBits(y, XorBits(x, k, n), n)
  {
    if n > 0 {
      hide XorBits;
      XorTwist(x / 2, y / 2, k / 2, n - 1);
      MaskedTwice(x, y, k, n);
      MaskedTwice(x, k, y, n);
      assert x + y + k == x + k + y;
      SameHalves(XorBits(XorBits(x, y, n), k, n), XorBits(y, XorBits(x, k, n), n));
    }
  }

  function Xor(a: Block, b: Block): (r: Block) {
    seq(16, i requires 0 <= i < 16 => XorByte(a[i], b[i]))
  }

  lemma XorBlocks(x: Block, y: Block, k: Block)
    ensures Xor(Xor(x, y), k) == Xor(y, Xor(x, k))
  {
    forall i | 0 <= i < 16 ensures Xor(Xor(x, y), k)[i] == Xor(y, Xor(x, k))[i] {
      hide XorBits;
      XorTwist(x[i], y[i], k[i], 8);
    }
  }

  /** The number of blocks: one for the empty message. */
  function BlockCount(m: seq<byte>): (n: nat)
    ensures n >= 1 && (n - 1) * 16 <= |m| <= n * 16 && (|m| > 0 ==> (n - 1) * 16 < |m|)
  {
    if m == [] then 1 else (|m| + 15) / 16
  }

  /** C_i, from C_0 = 0 and the complete blocks M_1 … M_i. */
  function Chained(c: Cipher, p: seq<Block>, kp: Block, m: seq<byte>, i: nat): Block
    requires |p| == 16 && i * 16 <= |m|
  {
    if i == 0 then ZEROS else Key(c, p, kp, Xor(m[(i - 1) * 16..i * 16], Chained(c, p, kp, m, i - 1)))
  }

  function Subkey1(c: Cipher, p: seq<Block>, kp: Block): Block
    requires |p| == 16
  {
    c.times2(Key(c, p, kp, ZEROS))
  }

  function Subkey2(c: Cipher, p: seq<Block>, kp: Block): Block
    requires |p| == 16
  {
    c.times4(Key(c, p, kp, ZEROS))
  }

  /** M_n: the last block masked with the first subkey when complete, padded and masked with the second otherwise. */
  function LastBlock(c: Cipher, p: seq<Block>, kp: Block, last: seq<byte>): Block
    requires |p| == 16 && |last| <= 16
  {
    if |last| == 16 then Xor(last, Subkey1(c, p, kp)) else Xor(last + [0x80] + Fill(0, 15 - |last|), Subkey2(c, p, kp))
  }

  function Mac(c: Cipher, p: seq<Block>, kp: Block, m: seq<byte>): Block
    requires |p| == 16
  {
    var n := BlockCount(m);
    Key(c, p, kp, Xor(Chained(c, p, kp, m, n - 1), LastBlock(c, p, kp, m[(n - 1) * 16..])))
  }

  // ---------- the algorithms, value by value ----------

  const FIVES: Block := [0x55, 0x55, 0x55, 0x55, 0x55, 0x55, 0x55, 0x55, 0x55, 0x55, 0x55, 0x55, 0x55, 0x55, 0x55, 0x55]
  const TENS: Block := [0xaa, 0xaa, 0xaa, 0xaa, 0xaa, 0xaa, 0xaa, 0xaa, 0xaa, 0xaa, 0xaa, 0xaa, 0xaa, 0xaa, 0xaa, 0xaa]

  /** `h` after `n` encryptions of 55…55. */
  function Ratchet(c: Cipher, h: Block, n: nat): Block { if n == 0 then h else c.enc(Ratchet(c, h, n - 1), FIVES) }

  lemma {:induction false} RatchetFirst(c: Cipher, h: Block, n: nat)
    ensures Ratchet(c, c.enc(h, FIVES), n) == Ratchet(c, h, n + 1)
  {
    if n > 0 { RatchetFirst(c, h, n - 1); }
  }

  lemma FillsAre()
    ensures Half() == FIVES && Other() == TENS
  {}

  lemma {:induction false} DerivedAt(c: Cipher, h: Block, n: nat, i: nat)
    requires i < n
    ensures Derived(c, h, n)[i] == c.enc(Ratchet(c, h, i), TENS)
    decreases n
  {
    FillsAre();
    hide Half, Other;
    if i > 0 {
      DerivedAt(c, c.enc(h, FIVES), n - 1, i - 1);
      RatchetFirst(c, h, i - 1);
    }
  }

  /** Algorithms 1 and 2: every secret plaintext and every updated key. */
  lemma SecretsAre(c: Cipher, key: Block, i: nat)
    ensures i < 16 ==> Plaintexts(c, key)[i] == c.enc(Ratchet(c, key, i + 1), TENS)
    ensures i < 4 ==> UpdatedKeys(c, key)[i] == c.enc(Ratchet(c, c.enc(key, TENS), i), TENS)
  {
    FillsAre();
    hide Half, Other, Derived;
    if i < 16 {
      DerivedAt(c, c.enc(key, FIVES), 16, i);
      RatchetFirst(c, key, i);
    }
    if i < 4 { DerivedAt(c, c.enc(key, TENS), 4, i); }
  }

  /** Hexadecimal digit `i` of `x`, most significant first. */
  function DigitAt(x: seq<byte>, i: nat): (d: nat)
    requires i < 2 * |x|
    ensures d < 16
  {
    if i % 2 == 0 then x[i / 2] / 16 else x[i / 2] % 16
  }

  /** Algorithm 3 after `i` digits: each selects the plaintext that is encrypted next. */
  function After(c: Cipher, p: seq<Block>, kp: Block, x: seq<byte>, i: nat): Block
    requires |p| == 16 && i <= 2 * |x|
  {
    if i == 0 then kp else c.enc(After(c, p, kp, x, i - 1), p[DigitAt(x, i - 1)])
  }

  lemma {:induction false} NibbleAt(x: seq<byte>, i: nat)
    requires i < 2 * |x|
    ensures Nibbles(x)[i] == DigitAt(x, i)
  {
    if i >= 2 {
      NibbleAt(x[1..], i - 2);
      assert x[1..][(i - 2) / 2] == x[i / 2];
    }
  }

  lemma {:induction false} WalkIs(c: Cipher, p: seq<Block>, kp: Block, x: seq<byte>, i: nat)
    requires |p| == 16 && i <= 2 * |x|
    ensures Walk(c, p, After(c, p, kp, x, i), Nibbles(x)[i..]) == Walk(c, p, kp, Nibbles(x))
  {
    if i == 0 {
      assert Nibbles(x)[0..] == Nibbles(x);
    } else {
      WalkIs(c, p, kp, x, i - 1);
      NibbleAt(x, i - 1);
      assert Nibbles(x)[i - 1..][1..] == Nibbles(x)[i..];
    }
  }

  /** The evaluation runs over all digits, and once more over a block of zeros to finish. */
  lemma EvalIs(c: Cipher, p: seq<Block>, kp: Block, x: seq<byte>, final: bool)
    requires |p| == 16
    ensures var y := After(c, p, kp, x, 2 * |x|);
      Eval(c, p, kp, x, final) == if final then c.enc(y, [0, 0, 0, 0, 0, 0, 0, 0, 0, 0, 0, 0, 0, 0, 0, 0]) else y
  {
    WalkIs(c, p, kp, x, 2 * |x|);
    assert Nibbles(x)[2 * |x|..] == [];
  }

  /** The padding is 0x80 and as few zeros as fill the block. */
  lemma PaddedIs(m: seq<byte>)
    ensures m + [0x80] <= Padded(m) && |m| < |Padded(m)| <= |m| + 16 && |Padded(m)| % 16 == 0
    ensures forall i :: |m| < i < |Padded(m)| ==> Padded(m)[i] == 0
  {}

  /**
   * The counter runs through all values of its length and starts over: after `n` steps it has done so `rounds` times.
   */
  lemma {:induction false} CountedIs(r: seq<byte>, n: nat) returns (rounds: nat)
    ensures Number(r) + n == rounds * Size(|r|) + Number(Counted(r, n)) && Number(Counted(r, n)) < Size(|r|)
    decreases n
  {
    hide Number, Size, Incr;
    NumberBound(r);
    if n == 0 {
      rounds := 0;
    } else {
      rounds := CountedIs(Incr(r), n - 1);
      IncrCounts(r);
      if Number(r) + 1 >= Size(|r|) {
        NextRound(rounds, Size(|r|));
        rounds := rounds + 1;
      }
    }
  }

  lemma NextRound(rounds: nat, size: nat)
    ensures (rounds + 1) * size == rounds * size + size
  {}

  /** Block `i` is encrypted under the evaluation of the counter `i` steps on. */
  lemma {:induction false} EncryptedAt(c: Cipher, p: seq<Block>, kp: Block, r: seq<byte>, data: seq<byte>, i: nat)
    requires |p| == 16 && |data| % 16 == 0 && 16 * i + 16 <= |data|
    ensures Encrypted(c, p, kp, r, data)[16 * i..16 * i + 16]
         == c.enc(Eval(c, p, kp, Counted(r, i), true), data[16 * i..16 * i + 16])
    decreases i
  {
    hide Eval, Incr;
    if i > 0 {
      EncryptedAt(c, p, kp, Incr(r), data[16..], i - 1);
      var all, rest := Encrypted(c, p, kp, r, data), Encrypted(c, p, kp, Incr(r), data[16..]);
      assert all[16..] == rest && all[16 * i..16 * i + 16] == rest[16 * (i - 1)..16 * (i - 1) + 16];
      assert data[16..][16 * (i - 1)..16 * (i - 1) + 16] == data[16 * i..16 * i + 16];
    }
  }

  /** An encryption moves the counter on by one for each block, the padding's block included; an error leaves it. */
  lemma CounterAfter(c: Cipher, p: seq<Block>, kp: Block, pad: bool, r: seq<byte>, data: seq<byte>)
    requires |p| == 16
    ensures var (ct, after) := EncryptStep(c, p, kp, pad, r, data);
      && (ct.Ok? ==> after == Counted(r, |data| / 16 + if pad then 1 else 0))
      && (ct.Err? ==> after == r)
      && (ct.Ok? ==> |ct.value| == if pad then |data| / 16 * 16 + 16 else |data|)
  {
    hide Encrypted, Counted;
    if pad { PaddedIs(data); }
  }

  /** What decrypt returns: whole blocks only, and with padding what stands before it. */
  lemma DecryptsIff(c: Cipher, p: seq<Block>, kp: Block, pad: bool, r: seq<byte>, data: seq<byte>, m: seq<byte>)
    requires |p| == 16
    ensures DecryptStep(c, p, kp, pad, r, data).0 == Ok(m) <==>
      && |data| % 16 == 0
      && var pt := Decrypted(c, p, kp, r, data);
      && if pad then (m == [] && pt == Fill(0, |pt|)) || (|m| < |pt| && pt == m + [0x80] + Fill(0, |pt| - |m| - 1))
         else pt == m
    ensures DecryptStep(c, p, kp, pad, r, data).1 == Counted(r, |data| / 16)
  {
    hide Decrypted, Counted, RemovePad;
    if |data| % 16 == 0 { RemovePadIff(Decrypted(c, p, kp, r, data), m); }
  }

  // ---------- CMAC from the left ----------

  /** Binary digit `i`, least significant first. */
  function BitOf(n: nat, i: nat): nat { if i == 0 then n % 2 else BitOf(n / 2, i - 1) }

  lemma BitOfIs(n: nat, b: nat, i: nat)
    requires b < 2
    ensures BitOf(2 * n + b, 0) == b && BitOf(2 * n + b, i + 1) == BitOf(n, i)
  {
    assert (2 * n + b) / 2 == n;
  }

  /** A digit of the exclusive or is 1 exactly where the two differ. */
  lemma {:induction false} XorBitAt(a: nat, b: nat, n: nat, i: nat)
    requires i < n
    ensures BitOf(XorBits(a, b, n), i) == if BitOf(a, i) == BitOf(b, i) then 0 else 1
  {
    Halves(a, b, n);
    hide XorBits;
    if i == 0 {
      Odd(a, b);
    } else {
      XorBitAt(a / 2, b / 2, n - 1, i - 1);
    }
  }

  lemma Odd(a: nat, b: nat)
    ensures (a + b) % 2 == if a % 2 == b % 2 then 0 else 1
  {}

  /** CBC over whole blocks, starting with `y`. */
  function Cbc(c: Cipher, p: seq<Block>, kp: Block, y: Block, m: seq<byte>): Block
    requires |p| == 16 && |m| % 16 == 0
    decreases |m|
  {
    if m == [] then y else Cbc(c, p, kp, Eval(c, p, kp, Xor(m[..16], y), true), m[16..])
  }

  lemma {:induction false} CbcLast(c: Cipher, p: seq<Block>, kp: Block, y: Block, m: seq<byte>, b: Block)
    requires |p| == 16 && |m| % 16 == 0
    ensures Cbc(c, p, kp, y, m + b) == Eval(c, p, kp, Xor(b, Cbc(c, p, kp, y, m)), true)
    decreases |m|
  {
    hide Eval, Xor;
    if m == [] {
      assert [] + b == b && b[..16] == b && b[16..] == [];
    } else {
      assert (m + b)[..16] == m[..16] && (m + b)[16..] == m[16..] + b;
      CbcLast(c, p, kp, Eval(c, p, kp, Xor(m[..16], y), true), m[16..], b);
    }
  }

  lemma {:induction false} ChainedIsCbc(c: Cipher, p: seq<Block>, kp: Block, m: seq<byte>, i: nat)
    requires |p| == 16 && i * 16 <= |m|
    ensures Chained(c, p, kp, m, i) == Cbc(c, p, kp, ZEROS, m[..i * 16])
  {
    hide Eval, Xor;
    if i > 0 {
      var b: Block := m[(i - 1) * 16..i * 16];
      ChainedIsCbc(c, p, kp, m, i - 1);
      CbcLast(c, p, kp, ZEROS, m[..(i - 1) * 16], b);
      assert m[..(i - 1) * 16] + b == m[..i * 16];
    }
  }

  /** The last block to be chained: complete, or empty or short and then padded. */
  predicate Tail(m: seq<byte>, k: nat) {
    k % 16 == 0 && k <= |m| <= k + 16 && (k == |m| ==> m == [])
  }

  /**
   * The code is CBC over the message whose last block is masked: a complete one with twice the encrypted zero block, a
   * short one, padded with 0x80 and zeros, with four times it.
   */
  lemma MacIs(c: Cipher, p: seq<Block>, kp: Block, m: seq<byte>, k: nat)
    requires |p| == 16 && Tail(m, k)
    ensures var zero := Eval(c, p, kp, [0, 0, 0, 0, 0, 0, 0, 0, 0, 0, 0, 0, 0, 0, 0, 0], true);
      var last := if |m| == k + 16 then Xor(m[k..], c.times2(zero))
                  else Xor(m[k..] + [0x80] + Fill(0, 15 - (|m| - k)), c.times4(zero));
      Mac(c, p, kp, m) == Eval(c, p, kp, Xor(Cbc(c, p, kp, ZEROS, m[..k]), last), true)
  {
    hide Eval, Xor, Fill;
    assert BlockCount(m) - 1 == k / 16;
    ChainedIsCbc(c, p, kp, m, k / 16);
  }

  // ---------- the object ----------

  lemma KeyIs(c: Cipher, p: seq<Block>, kp: Block, r: seq<byte>)
    requires |p| == 16
    ensures Key(c, p, kp, r) == Eval(c, p, kp, r, true)
  {}

  lemma EncryptedStep(c: Cipher, p: seq<Block>, kp: Block, r: seq<byte>, pt: seq<byte>, i: nat)
    requires |p| == 16 && |pt| % 16 == 0 && i % 16 == 0 && i < |pt|
    ensures Encrypted(c, p, kp, r, pt[i..]) == c.enc(Key(c, p, kp, r), pt[i..i + 16])
        + Encrypted(c, p, kp, Incr(r), pt[i + 16..])
  {
    hide Key, Incr;
    assert pt[i..][..16] == pt[i..i + 16] && pt[i..][16..] == pt[i + 16..];
  }

  lemma DecryptedStep(c: Cipher, p: seq<Block>, kp: Block, r: seq<byte>, ct: seq<byte>, i: nat)
    requires |p| == 16 && |ct| % 16 == 0 && i % 16 == 0 && i < |ct|
    ensures Decrypted(c, p, kp, r, ct[i..]) == c.dec(Key(c, p, kp, r), ct[i..i + 16])
        + Decrypted(c, p, kp, Incr(r), ct[i + 16..])
  {
    hide Key, Incr;
    assert ct[i..][..16] == ct[i..i + 16] && ct[i..][16..] == ct[i + 16..];
  }

  lemma CountedStep(r: seq<byte>, n: nat)
    requires n > 0
    ensures Counted(r, n) == Counted(Incr(r), n - 1)
  {
    hide Incr;
  }

  lemma NothingLeft(c: Cipher, p: seq<Block>, kp: Block, r: seq<byte>)
    requires |p| == 16
    ensures Encrypted(c, p, kp, r, []) == [] && Decrypted(c, p, kp, r, []) == [] && Counted(r, 0) == r
  {}

  lemma Regroup(a: seq<byte>, b: seq<byte>, d: seq<byte>)
    ensures a + (b + d) == a + b + d
  {}

  /** generate_plaintexts */
  method GeneratePlaintexts(c: Cipher, key: Block) returns (p: seq<Block>)
    ensures p == Plaintexts(c, key)
  {
    var h := c.enc(key, Half());
    p := Generate(c, h, 16);
  }

  /** generate_updated_keys */
  method GenerateUpdatedKeys(c: Cipher, key: Block) returns (uk: seq<Block>)
    ensures uk == UpdatedKeys(c, key)
  {
    var h := c.enc(key, Other());
    uk := Generate(c, h, 4);
  }

  /** The loop of both. */
  method Generate(c: Cipher, start: Block, n: nat) returns (s: seq<Block>)
    ensures s == Derived(c, start, n)
  {
    hide Half, Other;
    var h := start;
    s := [];
    for i := 0 to n
      invariant s + Derived(c, h, n - i) == Derived(c, start, n)
    {
      s := s + [c.enc(h, Other())];
      h := c.enc(h, Half());
    }
  }

  class LRP {
    const c: Cipher
    const pad: bool
    const p: seq<Block>
    const kp: Block
    var r: seq<byte>

    constructor (c: Cipher, key: Block, u: nat, r: Option<seq<byte>>, pad: bool)
      requires u < 4
      ensures this.c == c && this.pad == pad && p == Plaintexts(c, key) && kp == UpdatedKeys(c, key)[u]
      ensures this.r == match r case Some(x) => x case None => ZEROS
    {
      this.c, this.pad := c, pad;
      this.p, this.kp := Plaintexts(c, key), UpdatedKeys(c, key)[u];
      this.r := match r case Some(x) => x case None => ZEROS;
    }

    method EvalLrp(x: seq<byte>, final: bool) returns (y: Block)
      requires |p| == 16
      ensures y == Eval(c, p, kp, x, final)
    {
      y := kp;
      var n := Nibbles(x);
      for i := 0 to |n|
        invariant Walk(c, p, kp, n) == Walk(c, p, y, n[i..])
      {
        y := c.enc(y, p[n[i]]);
      }
      if final { y := c.enc(y, ZEROS); }
    }

    /** The loop of encrypt: the counter moves on with each block. */
    method EncryptBlocks(pt: seq<byte>) returns (ct: seq<byte>)
      requires |p| == 16 && |pt| % 16 == 0
      modifies this
      ensures ct == Encrypted(c, p, kp, old(r), pt) && r == Counted(old(r), |pt| / 16)
    {
      hide Key, Incr, Encrypted, Counted;
      ghost var r0, all := r, Encrypted(c, p, kp, r, pt);
      ct := [];
      assert pt[0..] == pt;
      var i := 0;
      while i < |pt|
        invariant 0 <= i <= |pt| && i % 16 == 0
        invariant all == ct + Encrypted(c, p, kp, r, pt[i..])
        invariant Counted(r0, |pt| / 16) == Counted(r, (|pt| - i) / 16)
      {
        EncryptedStep(c, p, kp, r, pt, i);
        CountedStep(r, (|pt| - i) / 16);
        var block: Block := pt[i..i + 16];
        var y := EvalLrp(r, true);
        KeyIs(c, p, kp, r);
        Regroup(ct, c.enc(y, block), Encrypted(c, p, kp, Incr(r), pt[i + 16..]));
        ct := ct + c.enc(y, block);
        r := Incr(r);
        i := i + 16;
      }
      NothingLeft(c, p, kp, r);
      assert ct + [] == ct;
    }

    method Encrypt(data: seq<byte>) returns (result: Result<seq<byte>, Error>)
      requires |p| == 16
      modifies this
      ensures (result, r) == EncryptStep(c, p, kp, pad, old(r), data)
    {
      hide Encrypted, Counted, Prepared;
      var stream := Prepared(pad, data);
      if stream.Err? { return Err(stream.error); }
      var ct := EncryptBlocks(stream.value);
      result := Ok(ct);
    }

    /** The loop of decrypt over whole blocks. */
    method DecryptBlocks(ct: seq<byte>) returns (pt: seq<byte>)
      requires |p| == 16 && |ct| % 16 == 0
      modifies this
      ensures pt == Decrypted(c, p, kp, old(r), ct) && r == Counted(old(r), |ct| / 16)
    {
      hide Key, Incr, Decrypted, Counted;
      ghost var r0, all := r, Decrypted(c, p, kp, r, ct);
      pt := [];
      assert ct[0..] == ct;
      var i := 0;
      while i < |ct|
        invariant 0 <= i <= |ct| && i % 16 == 0
        invariant all == pt + Decrypted(c, p, kp, r, ct[i..])
        invariant Counted(r0, |ct| / 16) == Counted(r, (|ct| - i) / 16)
      {
        DecryptedStep(c, p, kp, r, ct, i);
        CountedStep(r, (|ct| - i) / 16);
        var block: Block := ct[i..i + 16];
        var y := EvalLrp(r, true);
        KeyIs(c, p, kp, r);
        Regroup(pt, c.dec(y, block), Decrypted(c, p, kp, Incr(r), ct[i + 16..]));
        pt := pt + c.dec(y, block);
        r := Incr(r);
        i := i + 16;
      }
      NothingLeft(c, p, kp, r);
      assert pt + [] == pt;
    }

    /** A short last block is refused, after the whole ones. */
    method Decrypt(data: seq<byte>) returns (result: Result<seq<byte>, Error>)
      requires |p| == 16
      modifies this
      ensures (result, r) == DecryptStep(c, p, kp, pad, old(r), data)
    {
      hide Decrypted, Counted, RemovePad;
      var whole := |data| - |data| % 16;
      var pt := DecryptBlocks(data[..whole]);
      if whole < |data| { return Err(Unaligned); }
      assert data[..whole] == data;
      result := if pad then RemovePad(pt) else Ok(pt);
    }

    /** cmac: blocks are folded in while more than one is left. */
    method CmacLrp(data: seq<byte>) returns (mac: Block)
      requires |p| == 16
      ensures mac == Mac(c, p, kp, data)
    {
      hide Eval, Xor;
      var k0 := EvalLrp(ZEROS, true);
      var k1, k2 := c.times2(k0), c.times4(k0);
      var y: Block := ZEROS;
      var i := 0;
      while i + 16 < |data|
        invariant 0 <= i && i % 16 == 0 && (i < |data| || i == 0)
        invariant y == Chained(c, p, kp, data, i / 16)
      {
        var x: Block := data[i..i + 16];
        y := Xor(x, y);
        y := EvalLrp(y, true);
        i := i + 16;
      }
      assert i / 16 == BlockCount(data) - 1;
      var x := data[i..];
      var padBytes := 16 - |x|;
      if padBytes > 0 { x := x + [0x80] + Fill(0, padBytes - 1); }
      XorBlocks(x, y, if padBytes > 0 then k2 else k1);
      y := Xor(x, y);
      y := Xor(y, if padBytes > 0 then k2 else k1);
      mac := EvalLrp(y, true);
    }
  }
}
