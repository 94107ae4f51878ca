/** The coefficient order of JPEG blocks: the table of image-io.ts and the walk of ITU-T T.81 Figure A.6. */
module ZigZagOrder {
  function Pick(j: nat, a0: nat, a1: nat, a2: nat, a3: nat, a4: nat, a5: nat, a6: nat, a7: nat): nat {
    if j < 4 then (if j < 2 then (if j == 0 then a0 else a1) else if j == 2 then a2 else a3)
    else (if j < 6 then (if j == 4 then a4 else a5) else if j == 6 then a6 else a7)
  }

  /** The table NATURAL, eight entries a row: zig-zag index to natural (row-major) index. */
  function Natural(k: nat): (r: nat)
    requires k < 64
    ensures r < 64
  {
    var j := k % 8;
    match k / 8
    case 0 => Pick(j, 0, 1, 8, 16, 9, 2, 3, 10)
    case 1 => Pick(j, 17, 24, 32, 25, 18, 11, 4, 5)
    case 2 => Pick(j, 12, 19, 26, 33, 40, 48, 41, 34)
    case 3 => Pick(j, 27, 20, 13, 6, 7, 14, 21, 28)
    case 4 => Pick(j, 35, 42, 49, 56, 57, 50, 43, 36)
    case 5 => Pick(j, 29, 22, 15, 23, 30, 37, 44, 51)
    case 6 => Pick(j, 58, 59, 52, 45, 38, 31, 39, 46)
    case _ => Pick(j, 53, 60, 61, 54, 47, 55, 62, 63)
  }

  /** The inverse table: natural index to zig-zag index. */
  function Position(n: nat): (r: nat)
    requires n < 64
    ensures r < 64
  {
    var j := n % 8;
    match n / 8
    case 0 => Pick(j, 0, 1, 5, 6, 14, 15, 27, 28)
    case 1 => Pick(j, 2, 4, 7, 13, 16, 26, 29, 42)
    case 2 => Pick(j, 3, 8, 12, 17, 25, 30, 41, 43)
    case 3 => Pick(j, 9, 11, 18, 24, 31, 40, 44, 53)
    case 4 => Pick(j, 10, 19, 23, 32, 39, 45, 52, 54)
    case 5 => Pick(j, 20, 22, 33, 38, 46, 51, 55, 60)
    case 6 => Pick(j, 21, 34, 37, 47, 50, 56, 59, 61)
    case _ => Pick(j, 35, 36, 48, 49, 57, 58, 62, 63)
  }

  /** T.81 Figure A.6 walks the anti-diagonals, turning at the border: the natural index after `n`. */
  function ZigZagStep(n: nat): nat {
    var row, col := n / 8, n % 8;
    if (row + col) % 2 == 0 then (if col == 7 then n + 8 else if row == 0 then n + 1 else n - 7)
    else (if row == 7 then n + 1 else if col == 0 then n + 8 else n + 7)
  }

  function ZigZag(k: nat): nat
    requires k < 64
  {
    if k == 0 then 0 else ZigZagStep(ZigZag(k - 1))
  }

  /** The table is a permutation, row by row ... */
  lemma Permutes0(k: nat) requires 0 <= k < 8 ensures Inverse(k) {}
  lemma Permutes1(k: nat) requires 8 <= k < 16 ensures Inverse(k) {}
  lemma Permutes2(k: nat) requires 16 <= k < 24 ensures Inverse(k) {}
  lemma Permutes3(k: nat) requires 24 <= k < 32 ensures Inverse(k) {}
  lemma Permutes4(k: nat) requires 32 <= k < 40 ensures Inverse(k) {}
  lemma Permutes5(k: nat) requires 40 <= k < 48 ensures Inverse(k) {}
  lemma Permutes6(k: nat) requires 48 <= k < 56 ensures Inverse(k) {}
  lemma Permutes7(k: nat) requires 56 <= k < 64 ensures Inverse(k) {}

  predicate Inverse(k: nat)
    requires k < 64
  {
    Position(Natural(k)) == k && Natural(Position(k)) == k
  }

  lemma NaturalPermutes(k: nat)
    requires k < 64
    ensures Position(Natural(k)) == k && Natural(Position(k)) == k
  {
    match k / 8
    case 0 => Permutes0(k);
    case 1 => Permutes1(k);
    case 2 => Permutes2(k);
    case 3 => Permutes3(k);
    case 4 => Permutes4(k);
    case 5 => Permutes5(k);
    case 6 => Permutes6(k);
    case _ => Permutes7(k);
    assert Inverse(k);
  }

  lemma Steps0(k: nat) requires 0 <= k < 8 ensures Natural(k + 1) == ZigZagStep(Natural(k)) {}
  lemma Steps1(k: nat) requires 8 <= k < 16 ensures Natural(k + 1) == ZigZagStep(Natural(k)) {}
  lemma Steps2(k: nat) requires 16 <= k < 24 ensures Natural(k + 1) == ZigZagStep(Natural(k)) {}
  lemma Steps3(k: nat) requires 24 <= k < 32 ensures Natural(k + 1) == ZigZagStep(Natural(k)) {}
  lemma Steps4(k: nat) requires 32 <= k < 40 ensures Natural(k + 1) == ZigZagStep(Natural(k)) {}
  lemma Steps5(k: nat) requires 40 <= k < 48 ensures Natural(k + 1) == ZigZagStep(Natural(k)) {}
  lemma Steps6(k: nat) requires 48 <= k < 56 ensures Natural(k + 1) == ZigZagStep(Natural(k)) {}
  lemma Steps7(k: nat) requires 56 <= k < 63 ensures Natural(k + 1) == ZigZagStep(Natural(k)) {}

  lemma NaturalStep(k: nat)
    requires k < 63
    ensures Natural(k + 1) == ZigZagStep(Natural(k))
  {
    match k / 8
    case 0 => Steps0(k);
    case 1 => Steps1(k);
    case 2 => Steps2(k);
    case 3 => Steps3(k);
    case 4 => Steps4(k);
    case 5 => Steps5(k);
    case 6 => Steps6(k);
    case _ => Steps7(k);
  }

  /** ... and it is T.81's zig-zag walk. */
  lemma {:induction false} NaturalIsZigZag(k: nat)
    requires k < 64
    ensures Natural(k) == ZigZag(k)
  {
    if k > 0 {
      NaturalIsZigZag(k - 1);
      WalkOn(k, Natural(k - 1), Natural(k));
    }
  }

  lemma WalkOn(k: nat, before: nat, here: nat)
    requires 0 < k < 64 && before == ZigZag(k - 1) && before == Natural(k - 1) && here == Natural(k)
    ensures here == ZigZag(k)
  {
    NaturalStep(k - 1);
  }
}
