/** base58 as txverify.py decodes and encodes it, and as scripts/lib/cli.ts encodes it. */
module Base58 {
  import opened Bits
  import opened Wrappers

  // ---------- numerals ----------

  /** Digits of base `base`, most significant first. */
  predicate Digits(base: nat, ds: seq<nat>) { forall i :: 0 <= i < |ds| ==> ds[i] < base }

  function ValueOf(base: nat, ds: seq<nat>): nat {
    if ds == [] then 0 else ValueOf(base, ds[..|ds| - 1]) * base + ds[|ds| - 1]
  }

  /** `n` without leading zeros; zero has no digits. */
  function Numeral(base: nat, n: nat): (ds: seq<nat>)
    requires base >= 2
    ensures Digits(base, ds) && (ds != [] ==> ds[0] != 0)
    decreases n
  {
    if n == 0 then [] else
      Smaller(base, n);
      Numeral(base, n / base) + [n % base]
  }

  lemma Smaller(base: nat, n: nat)
    requires base >= 2 && n > 0
    ensures n / base < n && n == n / base * base + n % base && n % base < base
    ensures n / base == 0 ==> n % base == n
  {
    var q, r := n / base, n % base;
    assert n == q * base + r;
    Twice(q, base);
  }

  lemma {:induction false} Twice(q: nat, base: nat)
    requires base >= 2
    ensures q * base >= 2 * q
  {
    if base > 2 { Twice(q, base - 1); }
  }

  function Zeros(n: nat): (zs: seq<nat>)
    ensures |zs| == n && forall i :: 0 <= i < n ==> zs[i] == 0
  {
    if n == 0 then [] else [0] + Zeros(n - 1)
  }

  /** How many zeros `ds` starts with. */
  function Leading(ds: seq<nat>): (z: nat)
    ensures z <= |ds| && forall i :: 0 <= i < z ==> ds[i] == 0
    ensures z < |ds| ==> ds[z] != 0
  {
    if ds == [] || ds[0] != 0 then 0 else 1 + Leading(ds[1..])
  }

  /** The number written in another base, with as many leading zeros. */
  function Recode(from: nat, to: nat, ds: seq<nat>): seq<nat>
    requires to >= 2
  {
    Zeros(Leading(ds)) + Numeral(to, ValueOf(from, ds))
  }

  lemma {:induction false} ValueOfNumeral(base: nat, n: nat)
    requires base >= 2
    ensures ValueOf(base, Numeral(base, n)) == n
    decreases n
  {
    if n > 0 {
      Smaller(base, n);
      ValueOfNumeral(base, n / base);
      assert Numeral(base, n)[..|Numeral(base, n)| - 1] == Numeral(base, n / base);
    }
  }

  lemma {:induction false} NumeralOfValue(base: nat, ds: seq<nat>)
    requires base >= 2 && Digits(base, ds) && (ds != [] ==> ds[0] != 0)
    ensures Numeral(base, ValueOf(base, ds)) == ds
    ensures ds != [] ==> ValueOf(base, ds) > 0
  {
    if ds != [] {
      var init, last := ds[..|ds| - 1], ds[|ds| - 1];
      NumeralOfValue(base, init);
      DivMod(ValueOf(base, init), base, last);
      assert ds == init + [last];
    }
  }

  lemma DivMod(v: nat, base: nat, d: nat)
    requires d < base
    ensures (v * base + d) / base == v && (v * base + d) % base == d && (v > 0 ==> v * base + d > 0)
  {
    var q := (v * base + d) / base;
    Apart(q, v, base);
    Apart(v, q, base);
  }

  lemma Apart(a: nat, b: nat, base: nat)
    ensures a < b ==> a * base + base <= b * base
  {
    if a < b { Distribute(a + 1, b - a - 1, base); }
  }

  lemma Distribute(a: int, b: int, base: int)
    ensures (a + b) * base == a * base + b * base
  {}

  lemma {:induction false} LeadingZerosAddNothing(base: nat, z: nat, ds: seq<nat>)
    ensures ValueOf(base, Zeros(z) + ds) == ValueOf(base, ds)
  {
    var all := Zeros(z) + ds;
    if ds != [] {
      assert all[..|all| - 1] == Zeros(z) + ds[..|ds| - 1];
      LeadingZerosAddNothing(base, z, ds[..|ds| - 1]);
    } else if z > 0 {
      assert all[..z - 1] == Zeros(z - 1) + [] by { ZerosPrefix(z); }
      LeadingZerosAddNothing(base, z - 1, []);
    }
  }

  lemma ZerosPrefix(z: nat)
    requires z > 0
    ensures Zeros(z)[..z - 1] == Zeros(z - 1)
  {}

  lemma {:induction false} LeadingOf(z: nat, ds: seq<nat>)
    requires ds != [] ==> ds[0] != 0
    ensures Leading(Zeros(z) + ds) == z
  {
    var all := Zeros(z) + ds;
    if z > 0 {
      assert all[1..] == Zeros(z - 1) + ds;
      LeadingOf(z - 1, ds);
    }
  }

  /** Recoding there and back is the identity, leading zeros included. */
  lemma RecodeInverts(from: nat, to: nat, ds: seq<nat>)
    requires from >= 2 && to >= 2 && Digits(from, ds)
    ensures Recode(to, from, Recode(from, to, ds)) == ds && Digits(to, Recode(from, to, ds))
  {
    hide ValueOf, Numeral, Leading, Zeros;
    var z := Leading(ds);
    var rest, n := ds[z..], ValueOf(from, ds);
    assert ds == Zeros(z) + rest;
    LeadingZerosAddNothing(from, z, rest);
    NumeralOfValue(from, rest);
    LeadingZerosAddNothing(to, z, Numeral(to, n));
    ValueOfNumeral(to, n);
    LeadingOf(z, Numeral(to, n));
  }

  // ---------- bytes of an integer ----------

  function BitLength(n: nat): nat { if n == 0 then 0 else 1 + BitLength(n / 2) }

  /** int.to_bytes(length, "big") for a number that fits. */
  function ToBytes(n: nat, length: nat): seq<nat> {
    if length == 0 then [] else ToBytes(n / 256, length - 1) + [n % 256]
  }

  /** The byte length of the code, (bit_length + 7) // 8, is the length without leading zeros. */
  lemma {:induction false} ToBytesIsNumeral(n: nat)
    ensures ToBytes(n, (BitLength(n) + 7) / 8) == Numeral(256, n)
    decreases n
  {
    if n > 0 {
      Smaller(256, n);
      ToBytesIsNumeral(n / 256);
      ByteLength(n);
    }
  }

  lemma ByteLength(n: nat)
    requires n > 0
    ensures (BitLength(n) + 7) / 8 == 1 + (BitLength(n / 256) + 7) / 8
  {
    if n < 256 {
      Pow2Sixteen();
      SmallLength(n, 8);
    } else {
      hide BitLength;
      Quarter(n);
      Quarter(n / 4);
      Quarter(n / 16);
      Quarter(n / 64);
      assert n / 4 / 4 == n / 16 && n / 16 / 4 == n / 64 && n / 64 / 4 == n / 256;
    }
  }

  lemma Quarter(n: nat)
    requires n >= 4
    ensures BitLength(n) == 2 + BitLength(n / 4)
  {
    assert n / 2 / 2 == n / 4;
    assert BitLength(n / 2) == 1 + BitLength(n / 2 / 2);
  }

  lemma {:induction false} SmallLength(n: nat, k: nat)
    requires 0 < n < Pow2(k)
    ensures 1 <= BitLength(n) <= k
  {
    if n > 1 { SmallLength(n / 2, k - 1); }
  }

  // ---------- the alphabet ----------

  function Nth(from: char, i: nat): char
    requires from as nat + i < 128
  {
    (from as nat + i) as char
  }

  /** "123456789ABCDEFGHJKLMNPQRSTUVWXYZabcdefghijkmnopqrstuvwxyz"[i], run by run: 0, O, I and l are left out. */
  function CharAt(i: nat): char
    requires i < 58
  {
    if i < 9 then Nth('1', i)
    else if i < 17 then Nth('A', i - 9)
    else if i < 22 then Nth('J', i - 17)
    else if i < 33 then Nth('P', i - 22)
    else if i < 44 then Nth('a', i - 33)
    else Nth('m', i - 44)
  }

  function Offset(c: char, from: char, first: nat): nat
    requires c >= from
  {
    first + (c as nat - from as nat)
  }

  /** The position of a character in the alphabet. */
  function IndexOf(c: char): (i: Option<nat>)
    ensures i.Some? ==> i.value < 58
  {
    if '1' <= c <= '9' then Some(Offset(c, '1', 0))
    else if 'A' <= c <= 'H' then Some(Offset(c, 'A', 9))
    else if 'J' <= c <= 'N' then Some(Offset(c, 'J', 17))
    else if 'P' <= c <= 'Z' then Some(Offset(c, 'P', 22))
    else if 'a' <= c <= 'k' then Some(Offset(c, 'a', 33))
    else if 'm' <= c <= 'z' then Some(Offset(c, 'm', 44))
    else None
  }

  /** The index dictionary is the inverse of the alphabet. */
  lemma IndexInverts(c: char, i: nat)
    requires i < 58
    ensures IndexOf(c) == Some(i) <==> c == CharAt(i)
  {}

  function Spelled(ds: seq<nat>): (s: string)
    requires Digits(58, ds)
    ensures |s| == |ds| && forall i :: 0 <= i < |ds| ==> s[i] == CharAt(ds[i])
  {
    if ds == [] then "" else [CharAt(ds[0])] + Spelled(ds[1..])
  }

  /** The digits that a string spells, or None for a character outside the alphabet. */
  function Read(s: string): (r: Option<seq<nat>>)
    ensures r.Some? ==> |r.value| == |s| && Digits(58, r.value) && forall i :: 0 <= i < |s| ==>
        IndexOf(s[i]) == Some(r.value[i])
    ensures r == None <==> exists i :: 0 <= i < |s| && IndexOf(s[i]) == None
  {
    if s == "" then Some([]) else
      var d, rest := IndexOf(s[0]), Read(s[1..]);
      assert forall i :: 0 < i < |s| ==> s[i] == s[1..][i - 1];
      if d == None || rest == None then None else Some([d.value] + rest.value)
  }

  lemma ReadSpelled(ds: seq<nat>)
    requires Digits(58, ds)
    ensures Read(Spelled(ds)) == Some(ds)
  {
    hide IndexOf, CharAt, Read, Spelled;
    var s := Spelled(ds);
    forall i | 0 <= i < |s| ensures IndexOf(s[i]) == Some(ds[i]) { IndexInverts(s[i], ds[i]); }
    assert Read(s).Some?;
    assert Read(s).value == ds;
  }

  lemma SpelledRead(s: string)
    requires Read(s).Some?
    ensures Spelled(Read(s).value) == s
  {
    hide IndexOf, CharAt, Read, Spelled;
    var ds := Read(s).value;
    forall i | 0 <= i < |s| ensures s[i] == CharAt(ds[i]) { IndexInverts(s[i], ds[i]); }
  }

  // ---------- encoding and decoding ----------

  function Widen(b: seq<byte>): (ds: seq<nat>)
    ensures |ds| == |b| && Digits(256, ds) && forall i :: 0 <= i < |b| ==> ds[i] == b[i]
  {
    if b == [] then [] else [b[0]] + Widen(b[1..])
  }

  function Narrow(ds: seq<nat>): (b: seq<byte>)
    requires Digits(256, ds)
    ensures |b| == |ds| && forall i :: 0 <= i < |b| ==> ds[i] == b[i]
  {
    if ds == [] then [] else [ds[0]] + Narrow(ds[1..])
  }

  function Encode(b: seq<byte>): string { Spelled(Recoded(256, 58, Widen(b))) }

  function Decode(s: string): Option<seq<byte>> {
    match Read(s)
    case None => None
    case Some(ds) => Some(Narrow(Recoded(58, 256, ds)))
  }

  /** `Recode` of digits, which are digits again. */
  function Recoded(from: nat, to: nat, ds: seq<nat>): (r: seq<nat>)
    requires to >= 2
    ensures Digits(to, r)
  {
    Recode(from, to, ds)
  }

  /** b58decode(b58encode(b)) == b for all bytes. */
  lemma DecodeEncode(b: seq<byte>)
    ensures Decode(Encode(b)) == Some(b)
  {
    hide Read, Spelled, Recode;
    RecodeInverts(256, 58, Widen(b));
    ReadSpelled(Recoded(256, 58, Widen(b)));
    assert Narrow(Widen(b)) == b;
  }

  /** b58encode(b58decode(s)) == s for every string over the alphabet. */
  lemma EncodeDecode(s: string)
    requires Decode(s).Some?
    ensures Encode(Decode(s).value) == s
  {
    hide Spelled, Recode;
    var ds := Read(s).value;
    RecodeInverts(58, 256, ds);
    SpelledRead(s);
    assert Widen(Narrow(Recoded(58, 256, ds))) == Recoded(58, 256, ds);
  }

  /** A string decodes exactly when all its characters are in the alphabet. */
  lemma DecodesIff(s: string)
    ensures Decode(s).Some? <==> forall i :: 0 <= i < |s| ==> IndexOf(s[i]).Some?
  {
    hide IndexOf;
  }

  // ---------- the loops ----------

  /** The number a string stands for; None where b58decode raises ValueError. */
  method Number(s: string) returns (n: Option<nat>)
    ensures match Read(s) case None => n == None case Some(ds) => n == Some(ValueOf(58, ds))
  {
    hide IndexOf, Read;
    var v: nat := 0;
    ghost var ds: seq<nat> := [];
    for i := 0 to |s|
      invariant |ds| == i && Digits(58, ds) && v == ValueOf(58, ds)
      invariant forall j :: 0 <= j < i ==> IndexOf(s[j]) == Some(ds[j])
    {
      var d := IndexOf(s[i]);
      if d == None { return None; }
      ghost var more := ds + [d.value];
      assert more[..i] == ds;
      v := v * 58 + d.value;
      ds := more;
    }
    assert Read(s).Some? && Read(s).value == ds;
    n := Some(v);
  }

  /** len(s) - len(s.lstrip("1")) */
  method LeadingOnes(s: string) returns (z: nat)
    ensures z <= |s| && (forall j :: 0 <= j < z ==> s[j] == '1') && (z < |s| ==> s[z] != '1')
  {
    z := 0;
    while z < |s| && s[z] == '1'
      invariant z <= |s| && forall j :: 0 <= j < z ==> s[j] == '1'
    {
      z := z + 1;
    }
  }

  lemma DecodeParts(s: string, z: nat)
    requires Read(s).Some? && z <= |s| && (forall j :: 0 <= j < z ==> s[j] == '1') && (z < |s| ==> s[z] != '1')
    ensures Zeros(z) + Numeral(256, ValueOf(58, Read(s).value)) == Recoded(58, 256, Read(s).value)
  {
    hide IndexOf, CharAt, Read, ValueOf, Numeral, Leading;
    var ds := Read(s).value;
    FirstChar();
    forall j | 0 <= j < |s| ensures ds[j] == 0 <==> s[j] == '1' { IndexInverts(s[j], 0); }
    LeadingIs(ds, z);
  }

  lemma LeadingIs(ds: seq<nat>, z: nat)
    requires z <= |ds| && (forall i :: 0 <= i < z ==> ds[i] == 0) && (z < |ds| ==> ds[z] != 0)
    ensures Leading(ds) == z
  {}

  lemma FirstChar()
    ensures CharAt(0) == '1'
  {}

  /** b58decode. */
  method B58Decode(s: string) returns (r: Option<seq<byte>>)
    ensures r == Decode(s)
  {
    hide Read, Numeral, ValueOf, Recode, BitLength, ToBytes, Narrow;
    var n := Number(s);
    if n == None { return None; }
    ToBytesIsNumeral(n.value);
    var body := ToBytes(n.value, (BitLength(n.value) + 7) / 8);
    var ones := LeadingOnes(s);
    DecodeParts(s, ones);
    r := Some(Narrow(Zeros(ones) + body));
  }

  lemma OneDigitLess(n: nat, ds: seq<nat>)
    requires n > 0 && Digits(58, ds)
    ensures Numeral(58, n) + ds == Numeral(58, n / 58) + ([n % 58] + ds)
    ensures n % 58 < 58 && Digits(58, [n % 58] + ds) && Spelled([n % 58] + ds) == [CharAt(n % 58)] + Spelled(ds)
  {
    Smaller(58, n);
    LastDigit(n);
    hide CharAt, Numeral;
    var last := n % 58;
    Regroup(Numeral(58, n / 58), [last], ds);
    assert ([last] + ds)[1..] == ds;
  }

  lemma LastDigit(n: nat)
    requires n > 0
    ensures Numeral(58, n) == Numeral(58, n / 58) + [n % 58]
  {}

  lemma Regroup<T>(a: seq<T>, b: seq<T>, c: seq<T>)
    ensures a + b + c == a + (b + c)
  {}

  /** The loop of divmod by 58. */
  method Spell(start: nat) returns (out: string)
    ensures out == Spelled(Numeral(58, start))
  {
    hide CharAt, Spelled, Numeral;
    var n := start;
    out := "";
    ghost var ds: seq<nat> := [];
    assert Spelled([]) == "";
    while n > 0
      invariant Digits(58, ds) && Numeral(58, start) == Numeral(58, n) + ds && out == Spelled(ds)
      decreases n
    {
      Smaller(58, n);
      OneDigitLess(n, ds);
      ds := [n % 58] + ds;
      out := [CharAt(n % 58)] + out;
      n := n / 58;
    }
    NothingLeft(ds);
  }

  lemma NothingLeft(ds: seq<nat>)
    ensures Numeral(58, 0) + ds == ds
  {}

  /** "1" * n */
  function Ones(n: nat): (s: string)
    ensures |s| == n && forall i :: 0 <= i < n ==> s[i] == '1'
  {
    if n == 0 then "" else "1" + Ones(n - 1)
  }

  lemma EncodeParts(b: seq<byte>, z: nat)
    requires z <= |b| && (forall i :: 0 <= i < z ==> b[i] == 0) && (z < |b| ==> b[z] != 0)
    ensures Encode(b) == Ones(z) + Spelled(Numeral(58, ValueOf(256, Widen(b))))
  {
    hide ValueOf, Numeral, Leading, Widen, Spelled, IndexOf, CharAt, Zeros, Ones;
    var ds := Numeral(58, ValueOf(256, Widen(b)));
    LeadingIs(Widen(b), z);
    FirstChar();
    assert Encode(b) == Ones(z) + Spelled(ds);
  }

  /** b58encode. */
  method B58Encode(b: seq<byte>) returns (s: string)
    ensures s == Encode(b)
  {
    hide ValueOf, Numeral, Encode;
    var out := Spell(ValueOf(256, Widen(b)));
    var zeros := 0;
    while zeros < |b| && b[zeros] == 0
      invariant zeros <= |b| && forall j :: 0 <= j < zeros ==> b[j] == 0
    {
      zeros := zeros + 1;
    }
    EncodeParts(b, zeros);
    s := Ones(zeros) + out;
  }

  /** The hexadecimal digits of the bytes. */
  function Hex(b: seq<byte>): seq<nat> {
    if b == [] then [] else Hex(b[..|b| - 1]) + [b[|b| - 1] / 16, b[|b| - 1] % 16]
  }

  lemma {:induction false} HexValue(b: seq<byte>)
    ensures ValueOf(16, Hex(b)) == ValueOf(256, Widen(b))
  {
    if b != [] {
      var init, last := b[..|b| - 1], b[|b| - 1];
      HexValue(init);
      hide Hex, ValueOf, Widen;
      WidenLast(b);
      Append(256, Widen(init), last);
      Append(16, Hex(init), last / 16);
      Append(16, Hex(init) + [last / 16], last % 16);
      Regroup(Hex(init), [last / 16], [last % 16]);
      HexOf(b);
      Sixteen(ValueOf(16, Hex(init)), last);
    }
  }

  lemma WidenLast(b: seq<byte>)
    requires b != []
    ensures Widen(b) == Widen(b[..|b| - 1]) + [b[|b| - 1] as nat]
  {
    var init, last := b[..|b| - 1], b[|b| - 1];
    var wide := Widen(init);
    hide Widen, Digits;
    assert |wide| == |b| - 1;
    forall i | 0 <= i < |b| ensures Widen(b)[i] == (wide + [last as nat])[i] {
      if i < |b| - 1 { assert wide[i] == init[i] == b[i]; }
    }
  }

  lemma Append(base: nat, ds: seq<nat>, d: nat)
    ensures ValueOf(base, ds + [d]) == ValueOf(base, ds) * base + d
  {
    assert (ds + [d])[..|ds|] == ds;
  }

  lemma Sixteen(v: nat, last: nat)
    ensures (v * 16 + last / 16) * 16 + last % 16 == v * 256 + last
  {}

  lemma HexOf(b: seq<byte>)
    requires b != []
    ensures Hex(b) == Hex(b[..|b| - 1]) + ([b[|b| - 1] / 16] + [b[|b| - 1] % 16])
  {}

  /** bs58encode of scripts/lib/cli.ts, which reads the bytes as one hexadecimal number. */
  method Bs58Encode(b: seq<byte>) returns (out: string)
    ensures out == Encode(b)
  {
    hide ValueOf, Numeral, Encode, Widen, Spelled, Hex, Ones;
    HexValue(b);
    out := Spell(ValueOf(16, if b == [] then [0] else Hex(b)));
    EmptyHex();
    ghost var digits := out;
    assert Ones(0) + digits == digits;
    var i := 0;
    while i < |b| && b[i] == 0
      invariant i <= |b| && (forall j :: 0 <= j < i ==> b[j] == 0) && out == Ones(i) + digits
    {
      OneMore(i, digits);
      out := "1" + out;
      i := i + 1;
    }
    EncodeParts(b, i);
  }

  lemma OneMore(n: nat, s: string)
    ensures "1" + (Ones(n) + s) == Ones(n + 1) + s
  {}

  lemma EmptyHex()
    ensures ValueOf(16, [0]) == ValueOf(16, Hex([]))
  {
    assert [0][..0] == [];
  }

  // ---------- in characters and numbers ----------

  const ALPHABET := "123456789" + "ABCDEFGH" + "JKLMN" + "PQRSTUVWXYZ" + "abcdefghijk" + "mnopqrstuvwxyz"

  lemma Digit(k: nat)
    requires k < 9
    ensures "123456789"[k] == Nth('1', k)
  {
    assert k == 0 || k == 1 || k == 2 || k == 3 || k == 4 || k == 5 || k == 6 || k == 7 || k == 8;
  }

  lemma UpperToH(k: nat)
    requires k < 8
    ensures "ABCDEFGH"[k] == Nth('A', k)
  {
    assert k == 0 || k == 1 || k == 2 || k == 3 || k == 4 || k == 5 || k == 6 || k == 7;
  }

  lemma UpperToN(k: nat)
    requires k < 5
    ensures "JKLMN"[k] == Nth('J', k)
  {
    assert k == 0 || k == 1 || k == 2 || k == 3 || k == 4;
  }

  lemma UpperToZ(k: nat)
    requires k < 11
    ensures "PQRSTUVWXYZ"[k] == Nth('P', k)
  {
    assert k == 0 || k == 1 || k == 2 || k == 3 || k == 4 || k == 5 || k == 6 || k == 7 || k == 8 || k == 9 || k == 10;
  }

  lemma LowerToK(k: nat)
    requires k < 11
    ensures "abcdefghijk"[k] == Nth('a', k)
  {
    assert k == 0 || k == 1 || k == 2 || k == 3 || k == 4 || k == 5 || k == 6 || k == 7 || k == 8 || k == 9 || k == 10;
  }

  lemma LowerToZ(k: nat)
    requires k < 14
    ensures "mnopqrstuvwxyz"[k] == Nth('m', k)
  {
    assert k == 0 || k == 1 || k == 2 || k == 3 || k == 4 || k == 5 || k == 6 || k == 7 || k == 8 || k == 9 || k == 10
        || k == 11 || k == 12 || k == 13;
  }

  /** The alphabet as it is written. */
  lemma AlphabetIs(i: nat)
    requires i < 58
    ensures |ALPHABET| == 58 && CharAt(i) == ALPHABET[i]
  {
    hide Nth;
    if i < 9 { Digit(i); }
    if 9 <= i < 17 { UpperToH(i - 9); }
    if 17 <= i < 22 { UpperToN(i - 17); }
    if 22 <= i < 33 { UpperToZ(i - 22); }
    if 33 <= i < 44 { LowerToK(i - 33); }
    if 44 <= i < 58 { LowerToZ(i - 44); }
  }

  function Power(base: nat, n: nat): nat { if n == 0 then 1 else base * Power(base, n - 1) }

  /** Numerals are read most significant digit first. */
  lemma {:induction false} FirstDigitCounts(base: nat, d: nat, ds: seq<nat>)
    ensures ValueOf(base, [d] + ds) == d * Power(base, |ds|) + ValueOf(base, ds)
  {
    if ds == [] {
      assert ([d] + ds)[..0] == [];
    } else {
      var before := ds[..|ds| - 1];
      assert ([d] + ds)[..|ds|] == [d] + before;
      FirstDigitCounts(base, d, before);
      Spread(d, Power(base, |before|), ValueOf(base, before), base);
    }
  }

  lemma Spread(d: nat, power: nat, v: nat, base: nat)
    ensures (d * power + v) * base == d * (base * power) + v * base
  {
    assert d * power * base == d * (base * power);
  }

  lemma RecodeKeeps(from: nat, to: nat, ds: seq<nat>)
    requires to >= 2
    ensures ValueOf(to, Recode(from, to, ds)) == ValueOf(from, ds) && Leading(Recode(from, to, ds)) == Leading(ds)
  {
    hide ValueOf, Numeral;
    var digits := Numeral(to, ValueOf(from, ds));
    ValueOfNumeral(to, ValueOf(from, ds));
    LeadingZerosAddNothing(to, Leading(ds), digits);
    LeadingOf(Leading(ds), digits);
  }

  /**
   * The code spells the same number as the bytes, with one '1' for each leading zero byte and none before its digits.
   */
  lemma EncodeIs(b: seq<byte>) returns (ds: seq<nat>)
    ensures var s := Encode(b);
      && |s| == |ds| && forall i :: 0 <= i < |s| ==> ds[i] < 58 && s[i] == ALPHABET[ds[i]]
    ensures ValueOf(58, ds) == ValueOf(256, Widen(b)) && Leading(ds) == Leading(Widen(b))
  {
    hide ValueOf, Recode, CharAt, Spelled;
    ds := Recoded(256, 58, Widen(b));
    RecodeKeeps(256, 58, Widen(b));
    forall i | 0 <= i < |ds| ensures CharAt(ds[i]) == ALPHABET[ds[i]] { AlphabetIs(ds[i]); }
  }

  /** A string decodes exactly when it is written in the alphabet. */
  lemma DecodesAlphabet(s: string)
    ensures Decode(s).Some? <==> forall i :: 0 <= i < |s| ==> s[i] in ALPHABET
  {
    hide IndexOf, CharAt;
    DecodesIff(s);
    forall i | 0 <= i < |s| ensures IndexOf(s[i]).Some? <==> s[i] in ALPHABET { Indexed(s[i]); }
  }

  lemma Indexed(c: char)
    ensures IndexOf(c).Some? <==> c in ALPHABET
  {
    hide IndexOf, CharAt;
    if IndexOf(c).Some? {
      IndexInverts(c, IndexOf(c).value);
      AlphabetIs(IndexOf(c).value);
    }
    if c in ALPHABET {
      var i :| 0 <= i < |ALPHABET| && ALPHABET[i] == c;
      AlphabetIs(i);
      IndexInverts(c, i);
    }
  }
}
