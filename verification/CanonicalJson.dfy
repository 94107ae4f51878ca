/**
 * Canonical JSON (canonical.ts; RFC 8785 sections 3.2.2 and 3.2.3) on nested values of integers, strings, booleans and
 * null. Strings and the printed text are sequences of UTF-16 code units, as in JavaScript.
 */
module CanonicalJson {
  import opened Wrappers

  type unit = x: nat | x < 0x1_0000

  type Text = seq<unit>

  const MAX_SAFE := 9_007_199_254_740_991

  /** The integers that a double holds exactly and JavaScript prints in plain decimal. */
  type safe_int = n: int | -MAX_SAFE <= n <= MAX_SAFE

  /** Anything non-finite makes canonicalize throw. */
  datatype Number = Int(n: safe_int) | NonFinite

  /** An object is its fields in insertion order; a field may be undefined (None). */
  datatype Json = Null | Bool(b: bool) | Num(x: Number) | Str(s: Text) | Arr(items: seq<Json>)
      | Obj(fields: seq<(Text, Option<Json>)>)

  // ---------- strings: JSON.stringify ----------

  const QUOTE: unit := 0x22
  const BACKSLASH: unit := 0x5c
  const COMMA: unit := 0x2c
  const COLON: unit := 0x3a
  const MINUS: unit := 0x2d
  const OPEN_ARRAY: unit := 0x5b
  const CLOSE_ARRAY: unit := 0x5d
  const OPEN_OBJECT: unit := 0x7b
  const CLOSE_OBJECT: unit := 0x7d
  const LETTER_B: unit := 0x62
  const LETTER_T: unit := 0x74
  const LETTER_N: unit := 0x6e
  const LETTER_F: unit := 0x66
  const LETTER_R: unit := 0x72
  const LETTER_U: unit := 0x75
  const NULL: Text := [0x6e, 0x75, 0x6c, 0x6c]
  const TRUE: Text := [0x74, 0x72, 0x75, 0x65]
  const FALSE: Text := [0x66, 0x61, 0x6c, 0x73, 0x65]

  predicate High(u: unit) { 0xd800 <= u <= 0xdbff }
  predicate Low(u: unit) { 0xdc00 <= u <= 0xdfff }

  function HexDigit(d: nat): unit
    requires d < 16
  {
    if d < 10 then 0x30 + d else 0x61 + d - 10
  }

  /** `\uxxxx` */
  function Hex(u: unit): Text {
    [BACKSLASH, LETTER_U, HexDigit(u / 0x100 / 16), HexDigit(u / 0x100 % 16), HexDigit(u % 0x100 / 16),
        HexDigit(u % 0x100 % 16)]
  }

  /** One code unit that is not part of a surrogate pair. */
  function Escaped(u: unit): Text {
    if u == QUOTE || u == BACKSLASH then [BACKSLASH, u]
    else if u == 8 then [BACKSLASH, LETTER_B]
    else if u == 9 then [BACKSLASH, LETTER_T]
    else if u == 10 then [BACKSLASH, LETTER_N]
    else if u == 12 then [BACKSLASH, LETTER_F]
    else if u == 13 then [BACKSLASH, LETTER_R]
    else if u < 0x20 || High(u) || Low(u) then Hex(u)
    else [u]
  }

  predicate Pair(s: Text) { |s| >= 2 && High(s[0]) && Low(s[1]) }

  function QuoteBody(s: Text): Text {
    if s == [] then [] else if Pair(s) then [s[0], s[1]] + QuoteBody(s[2..]) else Escaped(s[0]) + QuoteBody(s[1..])
  }

  function Quote(s: Text): Text { [QUOTE] + (QuoteBody(s) + [QUOTE]) }

  // ---------- numbers ----------

  function Digit(d: nat): unit
    requires d < 10
  {
    0x30 + d
  }

  function Decimal(n: nat): (t: Text)
    ensures t != [] && forall i :: 0 <= i < |t| ==> 0x30 <= t[i] <= 0x39
  {
    if n < 10 then [Digit(n)] else Decimal(n / 10) + [Digit(n % 10)]
  }

  function Integer(n: int): Text { if n < 0 then [MINUS] + Decimal(-n) else Decimal(n) }

  // ---------- key order ----------

  /** Lexicographic order by code units, as Array.prototype.sort compares strings. */
  predicate Less(a: Text, b: Text) {
    b != [] && (a == [] || a[0] < b[0] || (a[0] == b[0] && Less(a[1..], b[1..])))
  }

  function Insert<A>(p: (Text, A), ps: seq<(Text, A)>): seq<(Text, A)> {
    if ps == [] || Less(p.0, ps[0].0) then [p] + ps else [ps[0]] + Insert(p, ps[1..])
  }

  function Sort<A>(ps: seq<(Text, A)>): seq<(Text, A)> {
    if ps == [] then [] else Insert(ps[0], Sort(ps[1..]))
  }

  // ---------- canonicalize ----------

  function Join(ts: seq<Text>): Text {
    if ts == [] then [] else if |ts| == 1 then ts[0] else ts[0] + ([COMMA] + Join(ts[1..]))
  }

  function Member(k: Text, t: Text): Text { Quote(k) + ([COLON] + t) }

  function Members(es: seq<(Text, Text)>): seq<Text> {
    if es == [] then [] else [Member(es[0].0, es[0].1)] + Members(es[1..])
  }

  type Fields = seq<(Text, Option<Json>)>

  /** canonicalize; None where it throws. */
  function Canonical(v: Json): Option<Text>
    decreases v, if v.Obj? then |v.fields| + 1 else 0
  {
    match v
    case Null => Some(NULL)
    case Bool(b) => Some(if b then TRUE else FALSE)
    case Num(x) => if x.NonFinite? then None else Some(Integer(x.n))
    case Str(s) => Some(Quote(s))
    case Arr(items) =>
      (match Elements(items) case None => None case Some(ts) => Some([OPEN_ARRAY] + (Join(ts) + [CLOSE_ARRAY])))
    case Obj(_) =>
      (match Entries(v, 0) case None => None case Some(es) =>
          Some([OPEN_OBJECT] + (Join(Members(Sort(es))) + [CLOSE_OBJECT])))
  }

  function Elements(items: seq<Json>): Option<seq<Text>> {
    if items == [] then Some([]) else
      match (Canonical(items[0]), Elements(items[1..]))
      case (Some(t), Some(ts)) => Some([t] + ts)
      case _ => None
  }

  /** The defined fields from number `i` on, with their canonical values; the keys are sorted afterwards. */
  function Entries(v: Json, i: nat): Option<seq<(Text, Text)>>
    requires v.Obj? && i <= |v.fields|
    decreases v, |v.fields| - i
  {
    if i == |v.fields| then Some([])
    else if v.fields[i].1 == None then Entries(v, i + 1)
    else
      match (Canonical(v.fields[i].1.value), Entries(v, i + 1))
      case (Some(t), Some(ts)) => Some([(v.fields[i].0, t)] + ts)
      case _ => None
  }

  // ---------- what a value means ----------

  /** An object's keys are distinct, at every depth. */
  ghost predicate Valid(v: Json) {
    match v
    case Arr(items) => forall i :: 0 <= i < |items| ==> Valid(items[i])
    case Obj(fields) =>
      && (forall i, j :: 0 <= i < j < |fields| ==> fields[i].0 != fields[j].0)
      && forall i :: 0 <= i < |fields| && fields[i].1.Some? ==> Valid(fields[i].1.value)
    case _ => true
  }

  ghost predicate Finite(v: Json) {
    match v
    case Num(x) => x.Int?
    case Arr(items) => forall i :: 0 <= i < |items| ==> Finite(items[i])
    case Obj(fields) => forall i :: 0 <= i < |fields| && fields[i].1.Some? ==> Finite(fields[i].1.value)
    case _ => true
  }

  /** Equal values up to the order of object keys and undefined fields. */
  ghost predicate Equal(v: Json, w: Json)
    decreases v, w, 1
  {
    match (v, w)
    case (Arr(xs), Arr(ys)) => |xs| == |ys| && forall i :: 0 <= i < |xs| ==> Equal(xs[i], ys[i])
    case (Obj(f), Obj(g)) =>
      && (forall i :: 0 <= i < |f| && f[i].1.Some? ==> exists j :: SameField(v, w, i, j))
      && (forall j :: 0 <= j < |g| && g[j].1.Some? ==> exists i :: SameField(v, w, i, j))
    case _ => v == w
  }

  /** Field `i` of `v` and field `j` of `w` have the same key and equal values. */
  ghost predicate SameField(v: Json, w: Json, i: int, j: int)
    requires v.Obj? && w.Obj?
    decreases v, w, 0
  {
    && 0 <= i < |v.fields| && v.fields[i].1.Some? && 0 <= j < |w.fields| && w.fields[j].1.Some?
    && v.fields[i].0 == w.fields[j].0 && Equal(v.fields[i].1.value, w.fields[j].1.value)
  }

  // ---------- trees: values without order and without undefined fields ----------

  datatype Tree = TNull | TBool(b: bool) | TNum(n: int) | TStr(s: Text) | TArr(items: Trees)
      | TObj(members: TreeMembers)

  datatype Trees = Nil | Cons(head: Tree, tail: Trees)

  datatype TreeMembers = Done | More(key: Text, value: Tree, rest: TreeMembers)

  function Print(v: Tree): Text {
    match v
    case TNull => NULL
    case TBool(b) => if b then TRUE else FALSE
    case TNum(n) => Integer(n)
    case TStr(s) => Quote(s)
    case TArr(Nil) => [OPEN_ARRAY, CLOSE_ARRAY]
    case TArr(Cons(x, xs)) => [OPEN_ARRAY] + (Print(x) + PrintItems(xs))
    case TObj(Done) => [OPEN_OBJECT, CLOSE_OBJECT]
    case TObj(More(k, x, ms)) => [OPEN_OBJECT] + (Member(k, Print(x)) + PrintMembers(ms))
  }

  /** The items after the first, and the bracket. */
  function PrintItems(xs: Trees): Text {
    match xs
    case Nil => [CLOSE_ARRAY]
    case Cons(x, more) => [COMMA] + (Print(x) + PrintItems(more))
  }

  function PrintMembers(ms: TreeMembers): Text {
    match ms
    case Done => [CLOSE_OBJECT]
    case More(k, x, rest) => [COMMA] + (Member(k, Print(x)) + PrintMembers(rest))
  }

  // ---------- a parser ----------

  function HexValue(u: unit): Option<nat> {
    if 0x30 <= u <= 0x39 then Some(u - 0x30) else if 0x61 <= u <= 0x66 then Some(u - 0x61 + 10) else None
  }

  function ReadHex(t: Text): Option<unit>
    requires |t| >= 4
  {
    match (HexValue(t[0]), HexValue(t[1]), HexValue(t[2]), HexValue(t[3]))
    case (Some(a), Some(b), Some(c), Some(d)) => Some(0x100 * (0x10 * a + b) + (0x10 * c + d))
    case _ => None
  }

  /** One code unit of a string, and how many units it took; None at the closing quote and on an error. */
  function ReadUnit(t: Text): (r: Option<(unit, nat)>)
    ensures r.Some? ==> 1 <= r.value.1 <= |t|
  {
    if t == [] || t[0] == QUOTE then None
    else if t[0] != BACKSLASH then Some((t[0], 1))
    else if |t| < 2 then None
    else if t[1] == QUOTE || t[1] == BACKSLASH then Some((t[1], 2))
    else if t[1] == LETTER_B then Some((8, 2))
    else if t[1] == LETTER_T then Some((9, 2))
    else if t[1] == LETTER_N then Some((10, 2))
    else if t[1] == LETTER_F then Some((12, 2))
    else if t[1] == LETTER_R then Some((13, 2))
    else if t[1] == LETTER_U && |t| >= 6 then
      match ReadHex(t[2..6]) case Some(u) => Some((u, 6)) case None => None
    else None
  }

  /** The rest of a string up to its closing quote, and what follows it. */
  function ReadString(t: Text): (r: Option<(Text, Text)>)
    ensures r.Some? ==> |r.value.1| < |t|
    decreases |t|
  {
    match ReadUnit(t)
    case Some((u, n)) => (match ReadString(t[n..]) case Some((s, rest)) => Some(([u] + s, rest)) case None => None)
    case None => if t != [] && t[0] == QUOTE then Some(([], t[1..])) else None
  }

  predicate IsDigit(u: unit) { 0x30 <= u <= 0x39 }

  /** The longest run of digits at the start of `t`. */
  function Run(t: Text): (n: nat)
    ensures n <= |t| && (forall i :: 0 <= i < n ==> IsDigit(t[i])) && (n < |t| ==> !IsDigit(t[n]))
  {
    if t == [] || !IsDigit(t[0]) then 0 else 1 + Run(t[1..])
  }

  function ValueOf(t: Text): nat
    requires forall i :: 0 <= i < |t| ==> IsDigit(t[i])
  {
    if t == [] then 0 else
      assert IsDigit(t[|t| - 1]);
      10 * ValueOf(t[..|t| - 1]) + (t[|t| - 1] as int - 0x30)
  }

  function ReadNumber(t: Text): (r: Option<(int, Text)>)
    ensures r.Some? ==> |r.value.1| < |t|
  {
    var signed := t != [] && t[0] == MINUS;
    var u := if signed then t[1..] else t;
    var n := Run(u);
    if n == 0 then None else Some((if signed then -(ValueOf(u[..n]) as int) else ValueOf(u[..n]), u[n..]))
  }

  function Parse(t: Text): (r: Option<(Tree, Text)>)
    ensures r.Some? ==> |r.value.1| < |t|
    decreases |t|, 0
  {
    if t == [] then None
    else if NULL <= t then Some((TNull, t[4..]))
    else if TRUE <= t then Some((TBool(true), t[4..]))
    else if FALSE <= t then Some((TBool(false), t[5..]))
    else if t[0] == QUOTE
        then (match ReadString(t[1..]) case Some((s, rest)) => Some((TStr(s), rest)) case None => None)
    else if t[0] == OPEN_ARRAY then
      if |t| >= 2 && t[1] == CLOSE_ARRAY then Some((TArr(Nil), t[2..]))
      else (match ParseFirst(t[1..]) case Some((xs, rest)) => Some((TArr(xs), rest)) case None => None)
    else if t[0] == OPEN_OBJECT then
      if |t| >= 2 && t[1] == CLOSE_OBJECT then Some((TObj(Done), t[2..]))
      else (match ParseMember(t[1..]) case Some((ms, rest)) => Some((TObj(ms), rest)) case None => None)
    else match ReadNumber(t) case Some((n, rest)) => Some((TNum(n), rest)) case None => None
  }

  /** An item and what follows it up to the bracket. */
  function ParseFirst(t: Text): (r: Option<(Trees, Text)>)
    ensures r.Some? ==> |r.value.1| < |t|
    decreases |t|, 2
  {
    match Parse(t)
    case None => None
    case Some((x, rest)) => match ParseItems(rest) case Some((xs, more)) => Some((Cons(x, xs), more)) case None => None
  }

  function ParseItems(t: Text): (r: Option<(Trees, Text)>)
    ensures r.Some? ==> |r.value.1| < |t|
    decreases |t|, 1
  {
    if t == [] then None
    else if t[0] == CLOSE_ARRAY then Some((Nil, t[1..]))
    else if t[0] == COMMA then ParseFirst(t[1..])
    else None
  }

  /** A member and what follows it up to the brace. */
  function ParseMember(t: Text): (r: Option<(TreeMembers, Text)>)
    ensures r.Some? ==> |r.value.1| < |t|
    decreases |t|, 2
  {
    if t == [] || t[0] != QUOTE then None else
      match ReadString(t[1..])
      case None => None
      case Some((k, rest)) =>
        if rest == [] || rest[0] != COLON then None else
          match Parse(rest[1..])
          case None => None
          case Some((x, more)) => match ParseMembers(more) case Some((ms, last)) =>
              Some((More(k, x, ms), last)) case None => None
  }

  function ParseMembers(t: Text): (r: Option<(TreeMembers, Text)>)
    ensures r.Some? ==> |r.value.1| < |t|
    decreases |t|, 1
  {
    if t == [] then None
    else if t[0] == CLOSE_OBJECT then Some((Done, t[1..]))
    else if t[0] == COMMA then ParseMember(t[1..])
    else None
  }

  // ---------- the parser inverts the printer ----------

  lemma DigitReads(d: nat)
    requires d < 16
    ensures HexValue(HexDigit(d)) == Some(d)
  {}

  lemma HexReads(u: unit, t: Text)
    requires t == Hex(u)[2..]
    ensures ReadHex(t) == Some(u)
  {
    var hi, lo := u / 0x100, u % 0x100;
    assert hi == 0x10 * (hi / 16) + hi % 16 && lo == 0x10 * (lo / 16) + lo % 16 && u == 0x100 * hi + lo;
    DigitReads(hi / 16);
    DigitReads(hi % 16);
    DigitReads(lo / 16);
    DigitReads(lo % 16);
    hide HexDigit, HexValue;
  }

  lemma EscapedReads(u: unit, rest: Text)
    ensures ReadUnit(Escaped(u) + rest) == Some((u, |Escaped(u)|))
    ensures (Escaped(u) + rest)[|Escaped(u)|..] == rest
  {
    hide Hex, ReadHex;
    HexShape(u);
    var t := Escaped(u) + rest;
    if Escaped(u) == Hex(u) && |Escaped(u)| == 6 {
      assert t[2..6] == Hex(u)[2..];
      HexReads(u, t[2..6]);
    }
  }

  lemma HexShape(u: unit)
    ensures |Hex(u)| == 6 && Hex(u)[0] == BACKSLASH && Hex(u)[1] == LETTER_U
  {}

  lemma {:induction false} QuoteReads(s: Text, rest: Text)
    ensures ReadString(QuoteBody(s) + [QUOTE] + rest) == Some((s, rest))
  {
    hide Escaped, ReadUnit;
    var t := QuoteBody(s) + [QUOTE] + rest;
    if s == [] {
      assert t == [QUOTE] + rest;
      EndReads(rest);
    } else if Pair(s) {
      var after := QuoteBody(s[2..]) + [QUOTE] + rest;
      assert t == [s[0]] + ([s[1]] + after);
      PlainReads(s[0], [s[1]] + after);
      PlainReads(s[1], after);
      QuoteReads(s[2..], rest);
      assert s == [s[0]] + ([s[1]] + s[2..]);
    } else {
      var after := QuoteBody(s[1..]) + [QUOTE] + rest;
      assert t == Escaped(s[0]) + after;
      EscapedReads(s[0], after);
      QuoteReads(s[1..], rest);
      assert s == [s[0]] + s[1..];
    }
  }

  lemma EndReads(rest: Text)
    ensures ReadString([QUOTE] + rest) == Some(([], rest))
  {
    assert ([QUOTE] + rest)[1..] == rest;
  }

  lemma PlainReads(u: unit, rest: Text)
    requires High(u) || Low(u)
    ensures ReadUnit([u] + rest) == Some((u, 1)) && ([u] + rest)[1..] == rest
  {}

  lemma {:induction false} DecimalValue(n: nat)
    ensures ValueOf(Decimal(n)) == n
  {
    if n >= 10 {
      DecimalValue(n / 10);
      assert Decimal(n)[..|Decimal(n)| - 1] == Decimal(n / 10);
    }
  }

  /** What may follow a number. */
  predicate Stops(rest: Text) { rest == [] || !IsDigit(rest[0]) }

  lemma {:induction false} RunOf(ds: Text, rest: Text)
    requires (forall i :: 0 <= i < |ds| ==> IsDigit(ds[i])) && Stops(rest)
    ensures Run(ds + rest) == |ds|
  {
    if ds != [] {
      assert (ds + rest)[1..] == ds[1..] + rest;
      RunOf(ds[1..], rest);
    } else {
      assert ds + rest == rest;
    }
  }

  lemma NumberReads(n: int, rest: Text)
    requires Stops(rest)
    ensures ReadNumber(Integer(n) + rest) == Some((n, rest))
  {
    hide Decimal, ValueOf, Run, IsDigit;
    var m := if n < 0 then -n else n;
    DigitsRead(m, rest);
    var t, u := Integer(n) + rest, Decimal(m) + rest;
    if n < 0 {
      assert t[0] == MINUS && t[1..] == u;
    } else {
      assert t == u && t[0] != MINUS;
    }
  }

  lemma DigitsRead(m: nat, rest: Text)
    requires Stops(rest)
    ensures var u, n := Decimal(m) + rest, |Decimal(m)|;
      n > 0 && Run(u) == n && ValueOf(u[..n]) == m && u[n..] == rest
  {
    hide Decimal, ValueOf, Run;
    var ds := Decimal(m);
    RunOf(ds, rest);
    DecimalValue(m);
    assert (ds + rest)[..|ds|] == ds && (ds + rest)[|ds|..] == rest;
  }

  /** How a printed value begins. */
  lemma FirstUnit(v: Tree)
    ensures Print(v) != []
    ensures Print(v)[0] != COMMA && Print(v)[0] != CLOSE_ARRAY && Print(v)[0] != CLOSE_OBJECT
    ensures v.TNum? ==> Print(v)[0] == MINUS || IsDigit(Print(v)[0])
  {
    hide Decimal;
  }

  /**
   * Whatever value is printed, in front of anything that no digit starts, parses back with nothing left over but that.
   */
  lemma {:induction false} ParsePrint(v: Tree, rest: Text)
    requires Stops(rest)
    ensures Parse(Print(v) + rest) == Some((v, rest))
    decreases v, 0
  {
    match v {
      case TNull => Literal(NULL, rest);
      case TBool(b) => Literal(if b then TRUE else FALSE, rest);
      case TNum(n) => ParseNumber(n, rest);
      case TStr(s) => ParseQuoted(s, rest);
      case TArr(xs) =>
        match xs {
          case Nil => EmptyArray(rest);
          case Cons(x, more) =>
            ParseFirstPrint(x, more, rest);
            ArrayOpens(x, more, rest);
        }
      case TObj(ms) =>
        match ms {
          case Done => EmptyObject(rest);
          case More(k, x, more) =>
            ParseMemberPrint(k, x, more, rest);
            ObjectOpens(k, x, more, rest);
        }
    }
  }

  lemma Literal(word: Text, rest: Text)
    requires word in {NULL, TRUE, FALSE}
    ensures Parse(word + rest) == Some((if word == NULL then TNull else TBool(word == TRUE), rest))
  {
    hide Run, ReadString, ReadNumber;
    var t := word + rest;
    assert t[|word|..] == rest && word <= t;
    assert t[0] == word[0];
    assert NULL[0] != TRUE[0] && NULL[0] != FALSE[0] && TRUE[0] != FALSE[0];
  }

  /** A text that begins otherwise is none of the three words. */
  lemma NoWord(t: Text)
    requires t != [] && t[0] !in {LETTER_N, LETTER_T, LETTER_F}
    ensures !(NULL <= t) && !(TRUE <= t) && !(FALSE <= t)
  {
    assert NULL[0] == LETTER_N && TRUE[0] == LETTER_T && FALSE[0] == LETTER_F;
  }

  lemma ParseNumber(n: int, rest: Text)
    requires Stops(rest)
    ensures Parse(Integer(n) + rest) == Some((TNum(n), rest))
  {
    hide ReadNumber, Decimal;
    NumberReads(n, rest);
    NoWord(Integer(n) + rest);
  }

  lemma ParseQuoted(s: Text, rest: Text)
    ensures Parse(Quote(s) + rest) == Some((TStr(s), rest))
  {
    hide ReadString, ReadNumber, QuoteBody;
    var t := Quote(s) + rest;
    QuoteReads(s, rest);
    assert t[1..] == QuoteBody(s) + [QUOTE] + rest;
    NoWord(t);
  }

  lemma EmptyArray(rest: Text)
    ensures Parse([OPEN_ARRAY, CLOSE_ARRAY] + rest) == Some((TArr(Nil), rest))
  {
    hide ReadString, ReadNumber;
    var t := [OPEN_ARRAY, CLOSE_ARRAY] + rest;
    NoWord(t);
    assert t[2..] == rest;
  }

  lemma EmptyObject(rest: Text)
    ensures Parse([OPEN_OBJECT, CLOSE_OBJECT] + rest) == Some((TObj(Done), rest))
  {
    hide ReadString, ReadNumber;
    var t := [OPEN_OBJECT, CLOSE_OBJECT] + rest;
    NoWord(t);
    assert t[2..] == rest;
  }

  lemma Opens(open: unit, a: Text, b: Text, rest: Text)
    ensures [open] + (a + b) + rest == [open] + (a + b + rest)
  {}

  lemma ArrayOpens(x: Tree, more: Trees, rest: Text)
    requires ParseFirst(Print(x) + PrintItems(more) + rest) == Some((Cons(x, more), rest))
    ensures Parse(Print(TArr(Cons(x, more))) + rest) == Some((TArr(Cons(x, more)), rest))
  {
    FirstUnit(x);
    Opens(OPEN_ARRAY, Print(x), PrintItems(more), rest);
    assert Print(TArr(Cons(x, more))) == [OPEN_ARRAY] + (Print(x) + PrintItems(more));
    hide Print, PrintItems;
    ArrayParses(Print(x) + PrintItems(more) + rest, Cons(x, more), rest);
  }

  lemma ArrayParses(inner: Text, xs: Trees, rest: Text)
    requires ParseFirst(inner) == Some((xs, rest)) && inner != [] && inner[0] != CLOSE_ARRAY
    ensures Parse([OPEN_ARRAY] + inner) == Some((TArr(xs), rest))
  {
    hide ParseFirst, ReadString, ReadNumber;
    NoWord([OPEN_ARRAY] + inner);
    assert ([OPEN_ARRAY] + inner)[1..] == inner;
  }

  lemma ObjectOpens(k: Text, x: Tree, more: TreeMembers, rest: Text)
    requires ParseMember(Member(k, Print(x)) + PrintMembers(more) + rest) == Some((More(k, x, more), rest))
    ensures Parse(Print(TObj(More(k, x, more))) + rest) == Some((TObj(More(k, x, more)), rest))
  {
    Opens(OPEN_OBJECT, Member(k, Print(x)), PrintMembers(more), rest);
    assert Print(TObj(More(k, x, more))) == [OPEN_OBJECT] + (Member(k, Print(x)) + PrintMembers(more));
    assert Member(k, Print(x))[0] == QUOTE;
    hide Print, PrintMembers, Member;
    ObjectParses(Member(k, Print(x)) + PrintMembers(more) + rest, More(k, x, more), rest);
  }

  lemma ObjectParses(inner: Text, ms: TreeMembers, rest: Text)
    requires ParseMember(inner) == Some((ms, rest)) && inner != [] && inner[0] == QUOTE
    ensures Parse([OPEN_OBJECT] + inner) == Some((TObj(ms), rest))
  {
    hide ParseMember, ReadString, ReadNumber;
    NoWord([OPEN_OBJECT] + inner);
    assert ([OPEN_OBJECT] + inner)[1..] == inner;
  }

  lemma {:induction false} ParseFirstPrint(x: Tree, more: Trees, rest: Text)
    requires Stops(rest)
    ensures ParseFirst(Print(x) + PrintItems(more) + rest) == Some((Cons(x, more), rest))
    decreases Cons(x, more), 1
  {
    hide Print, Parse;
    var after := PrintItems(more) + rest;
    assert Print(x) + PrintItems(more) + rest == Print(x) + after;
    assert Stops(after);
    ParsePrint(x, after);
    match more {
      case Nil => assert after[1..] == rest;
      case Cons(y, ys) =>
        assert after[1..] == Print(y) + PrintItems(ys) + rest;
        ParseFirstPrint(y, ys, rest);
    }
  }

  lemma {:induction false} ParseMemberPrint(k: Text, x: Tree, more: TreeMembers, rest: Text)
    requires Stops(rest)
    ensures ParseMember(Member(k, Print(x)) + PrintMembers(more) + rest) == Some((More(k, x, more), rest))
    decreases More(k, x, more), 1
  {
    hide Print, Parse, ReadString, QuoteBody;
    var after := PrintMembers(more) + rest;
    var t := Member(k, Print(x)) + PrintMembers(more) + rest;
    var tail := [COLON] + Print(x) + after;
    assert t[1..] == QuoteBody(k) + [QUOTE] + tail && t[0] == QUOTE;
    QuoteReads(k, tail);
    assert tail[1..] == Print(x) + after;
    assert Stops(after);
    ParsePrint(x, after);
    match more {
      case Done => assert after[1..] == rest;
      case More(l, y, ms) =>
        assert after[1..] == Member(l, Print(y)) + PrintMembers(ms) + rest;
        ParseMemberPrint(l, y, ms, rest);
    }
  }

  /** Printing is injective. */
  lemma PrintInjective(v: Tree, w: Tree)
    requires Print(v) == Print(w)
    ensures v == w
  {
    ParsePrint(v, []);
    ParsePrint(w, []);
  }

  // ---------- canonicalize prints the tree of a value ----------

  function Chain(ps: seq<(Text, Tree)>): TreeMembers {
    if ps == [] then Done else More(ps[0].0, ps[0].1, Chain(ps[1..]))
  }

  /** The value without the order of its keys: sorted, and without undefined fields. */
  ghost function Norm(v: Json): Tree
    requires Finite(v)
    decreases v, if v.Obj? then |v.fields| + 1 else 0
  {
    match v
    case Null => TNull
    case Bool(b) => TBool(b)
    case Num(x) => TNum(x.n)
    case Str(s) => TStr(s)
    case Arr(items) => TArr(NormItems(items))
    case Obj(_) => TObj(Chain(Sort(NormFields(v, 0))))
  }

  ghost function NormItems(items: seq<Json>): Trees
    requires forall i :: 0 <= i < |items| ==> Finite(items[i])
  {
    if items == [] then Nil else Cons(Norm(items[0]), NormItems(items[1..]))
  }

  ghost function NormFields(v: Json, i: nat): seq<(Text, Tree)>
    requires v.Obj? && i <= |v.fields| && Finite(v)
    decreases v, |v.fields| - i
  {
    if i == |v.fields| then []
    else if v.fields[i].1 == None then NormFields(v, i + 1)
    else [(v.fields[i].0, Norm(v.fields[i].1.value))] + NormFields(v, i + 1)
  }

  function Texts(xs: Trees): seq<Text> {
    match xs case Nil => [] case Cons(x, more) => [Print(x)] + Texts(more)
  }

  function PrintAll(ps: seq<(Text, Tree)>): seq<(Text, Text)> {
    if ps == [] then [] else [(ps[0].0, Print(ps[0].1))] + PrintAll(ps[1..])
  }

  lemma {:induction false} JoinItems(x: Tree, xs: Trees)
    ensures Join([Print(x)] + Texts(xs)) + [CLOSE_ARRAY] == Print(x) + PrintItems(xs)
    decreases xs
  {
    hide Print;
    match xs {
      case Nil =>
      case Cons(y, ys) =>
        JoinItems(y, ys);
        assert ([Print(x)] + Texts(xs))[1..] == Texts(xs);
        Shift(Print(x), [COMMA], Join(Texts(xs)), [CLOSE_ARRAY]);
    }
  }

  lemma Shift(a: Text, b: Text, c: Text, d: Text)
    ensures a + (b + c) + d == a + (b + (c + d))
  {}

  lemma {:induction false} JoinMembers(ps: seq<(Text, Tree)>)
    requires ps != []
    ensures Join(Members(PrintAll(ps))) + [CLOSE_OBJECT] == Member(ps[0].0, Print(ps[0].1))
        + PrintMembers(Chain(ps[1..]))
  {
    hide Print, Member;
    var first, more := Member(ps[0].0, Print(ps[0].1)), Members(PrintAll(ps[1..]));
    assert PrintAll(ps)[1..] == PrintAll(ps[1..]);
    assert Members(PrintAll(ps)) == [first] + more;
    if |ps| > 1 {
      JoinMembers(ps[1..]);
      assert ([first] + more)[1..] == more;
      assert more != [];
      Shift(first, [COMMA], Join(more), [CLOSE_OBJECT]);
      assert ps[1..][0] == ps[1];
    } else {
      assert ps[1..] == [];
    }
  }

  lemma {:induction false} InsertPrinted(p: (Text, Tree), ps: seq<(Text, Tree)>)
    ensures PrintAll(Insert(p, ps)) == Insert((p.0, Print(p.1)), PrintAll(ps))
  {
    hide Print, Less;
    if ps == [] || Less(p.0, ps[0].0) {
      assert ([p] + ps)[1..] == ps;
    } else {
      InsertPrinted(p, ps[1..]);
      assert ([ps[0]] + Insert(p, ps[1..]))[1..] == Insert(p, ps[1..]);
      assert PrintAll(ps)[1..] == PrintAll(ps[1..]);
    }
  }

  lemma {:induction false} SortPrinted(ps: seq<(Text, Tree)>)
    ensures Sort(PrintAll(ps)) == PrintAll(Sort(ps))
  {
    hide Print, Insert;
    if ps != [] {
      SortPrinted(ps[1..]);
      assert PrintAll(ps)[1..] == PrintAll(ps[1..]);
      InsertPrinted(ps[0], Sort(ps[1..]));
    }
  }

  lemma {:induction false} ElementsPrinted(items: seq<Json>)
    requires forall i :: 0 <= i < |items| ==> Finite(items[i])
    ensures Elements(items) == Some(Texts(NormItems(items)))
    decreases items
  {
    hide Print, Canonical, Norm;
    if items != [] {
      CanonicalIsPrint(items[0]);
      ElementsPrinted(items[1..]);
    }
  }

  lemma {:induction false} EntriesPrinted(v: Json, i: nat)
    requires v.Obj? && i <= |v.fields| && Finite(v)
    ensures Entries(v, i) == Some(PrintAll(NormFields(v, i)))
    decreases v, |v.fields| - i
  {
    if i < |v.fields| {
      EntriesPrinted(v, i + 1);
      var f := v.fields[i];
      if f.1.Some? {
        CanonicalIsPrint(f.1.value);
        hide Print, Canonical, Norm, Finite;
        var p := (f.0, Norm(f.1.value));
        assert ([p] + NormFields(v, i + 1))[1..] == NormFields(v, i + 1);
      }
    }
  }

  /** canonicalize prints exactly the tree of the value. */
  lemma {:induction false} CanonicalIsPrint(v: Json)
    requires Finite(v)
    ensures Canonical(v) == Some(Print(Norm(v)))
    decreases v, if v.Obj? then |v.fields| + 1 else 0
  {
    match v {
      case Arr(items) =>
        ElementsPrinted(items);
        ArrayText(NormItems(items));
      case Obj(fields) =>
        EntriesPrinted(v, 0);
        SortPrinted(NormFields(v, 0));
        ObjectText(Sort(NormFields(v, 0)));
      case _ =>
    }
  }

  lemma ArrayText(xs: Trees)
    ensures [OPEN_ARRAY] + (Join(Texts(xs)) + [CLOSE_ARRAY]) == Print(TArr(xs))
  {
    if xs.Cons? { JoinItems(xs.head, xs.tail); }
  }

  lemma ObjectText(ps: seq<(Text, Tree)>)
    ensures [OPEN_OBJECT] + (Join(Members(PrintAll(ps))) + [CLOSE_OBJECT]) == Print(TObj(Chain(ps)))
  {
    if ps != [] { JoinMembers(ps); }
  }

  // ---------- sorting by key ----------

  lemma {:induction false} LessTotal(a: Text, b: Text)
    ensures !(Less(a, b) && Less(b, a)) && (a == b <==> !Less(a, b) && !Less(b, a))
  {
    if a != [] && b != [] {
      LessTotal(a[1..], b[1..]);
      assert a == [a[0]] + a[1..] && b == [b[0]] + b[1..];
    }
  }

  lemma {:induction false} LessTransitive(a: Text, b: Text, c: Text)
    requires Less(a, b) && Less(b, c)
    ensures Less(a, c)
  {
    if a != [] && a[0] == b[0] == c[0] { LessTransitive(a[1..], b[1..], c[1..]); }
  }

  predicate Sorted<A>(ps: seq<(Text, A)>) { forall i, j :: 0 <= i < j < |ps| ==> Less(ps[i].0, ps[j].0) }

  predicate Distinct<A>(ps: seq<(Text, A)>) { forall i, j :: 0 <= i < j < |ps| ==> ps[i].0 != ps[j].0 }

  lemma {:induction false} InsertMember<A>(p: (Text, A), ps: seq<(Text, A)>, x: (Text, A))
    ensures x in Insert(p, ps) <==> x == p || x in ps
  {
    hide Less;
    if ps != [] && !Less(p.0, ps[0].0) {
      InsertMember(p, ps[1..], x);
      assert ps == [ps[0]] + ps[1..];
    }
  }

  lemma {:induction false} SortMember<A>(ps: seq<(Text, A)>, x: (Text, A))
    ensures x in Sort(ps) <==> x in ps
  {
    hide Less, Insert;
    if ps != [] {
      SortMember(ps[1..], x);
      InsertMember(ps[0], Sort(ps[1..]), x);
      assert ps == [ps[0]] + ps[1..];
    }
  }

  lemma {:induction false} InsertSorted<A>(p: (Text, A), ps: seq<(Text, A)>)
    requires Sorted(ps) && forall i :: 0 <= i < |ps| ==> ps[i].0 != p.0
    ensures Sorted(Insert(p, ps))
  {
    hide Less;
    if ps == [] {
    } else if Less(p.0, ps[0].0) {
      forall j | 0 <= j < |ps| ensures Less(p.0, ps[j].0) {
        if j > 0 { LessTransitive(p.0, ps[0].0, ps[j].0); }
      }
    } else {
      var rest := ps[1..];
      InsertSorted(p, rest);
      LessTotal(p.0, ps[0].0);
      forall j | 0 <= j < |Insert(p, rest)| ensures Less(ps[0].0, Insert(p, rest)[j].0) {
        InsertMember(p, rest, Insert(p, rest)[j]);
      }
    }
  }

  lemma {:induction false} SortSorts<A>(ps: seq<(Text, A)>)
    requires Distinct(ps)
    ensures Sorted(Sort(ps))
  {
    hide Less, Insert;
    if ps != [] {
      var rest := ps[1..];
      SortSorts(rest);
      forall i | 0 <= i < |Sort(rest)| ensures Sort(rest)[i].0 != ps[0].0 {
        SortMember(rest, Sort(rest)[i]);
      }
      InsertSorted(ps[0], Sort(rest));
    }
  }

  /** Sorted lists with the same members are the same. */
  lemma {:induction false} SortedUnique<A>(ps: seq<(Text, A)>, qs: seq<(Text, A)>)
    requires Sorted(ps) && Sorted(qs) && forall x :: x in ps <==> x in qs
    ensures ps == qs
  {
    hide Less;
    if qs != [] { assert qs[0] in qs; }
    if ps != [] {
      SameFirst(ps, qs);
      TailMembers(ps);
      TailMembers(qs);
      SortedUnique(ps[1..], qs[1..]);
    }
  }

  lemma TailMembers<A>(ps: seq<(Text, A)>)
    requires Sorted(ps) && ps != []
    ensures Sorted(ps[1..]) && forall x :: x in ps[1..] <==> x in ps && x != ps[0]
  {
    hide Less;
    LessTotal(ps[0].0, ps[0].0);
    forall x ensures x in ps[1..] <==> x in ps && x != ps[0] {
      if x in ps[1..] {
        var k :| 0 <= k < |ps[1..]| && ps[1..][k] == x;
        assert ps[k + 1] == x;
      }
      if x in ps && x != ps[0] {
        var k :| 0 <= k < |ps| && ps[k] == x;
        assert ps[1..][k - 1] == x;
      }
    }
  }

  lemma SameFirst<A>(ps: seq<(Text, A)>, qs: seq<(Text, A)>)
    requires Sorted(ps) && Sorted(qs) && ps != [] && forall x :: x in ps <==> x in qs
    ensures qs != [] && ps[0] == qs[0]
  {
    hide Less;
    assert ps[0] in qs;
    assert qs[0] in ps;
    if ps[0] != qs[0] {
      LessTotal(ps[0].0, qs[0].0);
      assert false;
    }
  }

  // ---------- equal texts, equal values ----------

  lemma {:induction false} ChainInjective(ps: seq<(Text, Tree)>, qs: seq<(Text, Tree)>)
    requires Chain(ps) == Chain(qs)
    ensures ps == qs
  {
    if ps != [] {
      ChainInjective(ps[1..], qs[1..]);
      assert ps == [ps[0]] + ps[1..] && qs == [qs[0]] + qs[1..];
      assert ps[0] == qs[0];
    }
  }

  /** The normal fields are the defined ones. */
  lemma {:induction false} FieldMembers(v: Json, i: nat, p: (Text, Tree))
    requires v.Obj? && i <= |v.fields| && Finite(v)
    ensures p in NormFields(v, i) <==>
      exists j :: i <= j < |v.fields| && v.fields[j].1.Some? && p == (v.fields[j].0, Norm(v.fields[j].1.value))
    decreases |v.fields| - i
  {
    hide Norm;
    if i < |v.fields| {
      FieldMembers(v, i + 1, p);
    }
  }

  lemma {:induction false} FieldsDistinct(v: Json, i: nat)
    requires v.Obj? && i <= |v.fields| && Finite(v) && Valid(v)
    ensures Distinct(NormFields(v, i))
    decreases |v.fields| - i
  {
    hide Norm;
    if i < |v.fields| {
      FieldsDistinct(v, i + 1);
      var rest := NormFields(v, i + 1);
      forall k | 0 <= k < |rest| ensures rest[k].0 != v.fields[i].0 {
        FieldMembers(v, i + 1, rest[k]);
      }
    }
  }

  lemma {:induction false} ItemsEqualIff(xs: seq<Json>, ys: seq<Json>)
    requires forall i :: 0 <= i < |xs| ==> Valid(xs[i]) && Finite(xs[i])
    requires forall i :: 0 <= i < |ys| ==> Valid(ys[i]) && Finite(ys[i])
    ensures NormItems(xs) == NormItems(ys) <==> |xs| == |ys| && forall i :: 0 <= i < |xs| ==> Equal(xs[i], ys[i])
    decreases xs
  {
    hide Norm, Valid, Finite, Equal;
    if xs != [] && ys != [] {
      EqualIff(xs[0], ys[0]);
      ItemsEqualIff(xs[1..], ys[1..]);
      assert forall i :: 0 < i < |xs| ==> xs[i] == xs[1..][i - 1];
      assert forall i :: 0 < i < |ys| ==> ys[i] == ys[1..][i - 1];
    }
  }

  /** Equality up to key order is equality of the trees. */
  lemma {:induction false} EqualIff(v: Json, w: Json)
    requires Valid(v) && Valid(w) && Finite(v) && Finite(w)
    ensures Equal(v, w) <==> Norm(v) == Norm(w)
    decreases v, if v.Obj? then |v.fields| + 1 else 0
  {
    match (v, w) {
      case (Arr(xs), Arr(ys)) => ItemsEqualIff(xs, ys);
      case (Obj(_), Obj(_)) => ObjectsEqualIff(v, w);
      case _ =>
    }
  }

  lemma {:induction false} ObjectsEqualIff(v: Json, w: Json)
    requires v.Obj? && w.Obj? && Valid(v) && Valid(w) && Finite(v) && Finite(w)
    ensures Equal(v, w) <==> Norm(v) == Norm(w)
    decreases v, 0
  {
    var ps, qs := NormFields(v, 0), NormFields(w, 0);
    FieldsDistinct(v, 0);
    FieldsDistinct(w, 0);
    SortSorts(ps);
    SortSorts(qs);
    forall x ensures (x in Sort(ps) <==> x in ps) && (x in Sort(qs) <==> x in qs) {
      SortMember(ps, x);
      SortMember(qs, x);
    }
    forall i, j | 0 <= i < |v.fields| && v.fields[i].1.Some? && 0 <= j < |w.fields| && w.fields[j].1.Some?
      ensures SameField(v, w, i, j)
          <==> (v.fields[i].0, Norm(v.fields[i].1.value)) == (w.fields[j].0, Norm(w.fields[j].1.value))
    {
      EqualIff(v.fields[i].1.value, w.fields[j].1.value);
    }
    SameFieldsIff(v, w);
    if forall x :: x in ps <==> x in qs { SortedUnique(Sort(ps), Sort(qs)); }
    if Norm(v) == Norm(w) { ChainInjective(Sort(ps), Sort(qs)); }
  }

  /** `x` is a defined field of `v`, normalised. */
  ghost predicate HasField(v: Json, x: (Text, Tree))
    requires v.Obj? && Finite(v)
  {
    exists j :: 0 <= j < |v.fields| && v.fields[j].1.Some? && x == (v.fields[j].0, Norm(v.fields[j].1.value))
  }

  /** The fields of two objects are the same where their normal forms are. */
  ghost predicate FieldsAgree(v: Json, w: Json)
    requires v.Obj? && w.Obj? && Finite(v) && Finite(w)
  {
    forall i, j :: 0 <= i < |v.fields| && v.fields[i].1.Some? && 0 <= j < |w.fields| && w.fields[j].1.Some? ==>
      (SameField(v, w, i, j) <==>
          (v.fields[i].0, Norm(v.fields[i].1.value)) == (w.fields[j].0, Norm(w.fields[j].1.value)))
  }

  /** Equal objects are those whose normal fields are the same. */
  lemma SameFieldsIff(v: Json, w: Json)
    requires v.Obj? && w.Obj? && Finite(v) && Finite(w) && FieldsAgree(v, w)
    ensures Equal(v, w) <==> forall x :: x in NormFields(v, 0) <==> x in NormFields(w, 0)
  {
    forall x ensures (x in NormFields(v, 0) <==> HasField(v, x)) && (x in NormFields(w, 0) <==> HasField(w, x)) {
      FieldMembers(v, 0, x);
      FieldMembers(w, 0, x);
    }
    hide NormFields, Norm, Equal, HasField, FieldsAgree;
    if Equal(v, w) {
      forall x ensures HasField(v, x) <==> HasField(w, x) { EqualHave(v, w, x); }
    } else if forall x :: HasField(v, x) <==> HasField(w, x) {
      HaveEqual(v, w);
    }
  }

  lemma FieldOf(v: Json, w: Json, i: nat) returns (j: int)
    requires v.Obj? && w.Obj? && Equal(v, w) && i < |v.fields| && v.fields[i].1.Some?
    ensures SameField(v, w, i, j)
  {
    hide SameField;
    j :| SameField(v, w, i, j);
  }

  lemma FieldBack(v: Json, w: Json, j: nat) returns (i: int)
    requires v.Obj? && w.Obj? && Equal(v, w) && j < |w.fields| && w.fields[j].1.Some?
    ensures SameField(v, w, i, j)
  {
    hide SameField;
    i :| SameField(v, w, i, j);
  }

  lemma EqualHave(v: Json, w: Json, x: (Text, Tree))
    requires v.Obj? && w.Obj? && Finite(v) && Finite(w) && Equal(v, w) && FieldsAgree(v, w)
    ensures HasField(v, x) <==> HasField(w, x)
  {
    hide Norm, Equal;
    if HasField(v, x) {
      var i :| 0 <= i < |v.fields| && v.fields[i].1.Some? && x == (v.fields[i].0, Norm(v.fields[i].1.value));
      var j := FieldOf(v, w, i);
      assert x == (w.fields[j].0, Norm(w.fields[j].1.value));
    }
    if HasField(w, x) {
      var j :| 0 <= j < |w.fields| && w.fields[j].1.Some? && x == (w.fields[j].0, Norm(w.fields[j].1.value));
      var i := FieldBack(v, w, j);
      assert x == (v.fields[i].0, Norm(v.fields[i].1.value));
    }
  }

  lemma HaveEqual(v: Json, w: Json)
    requires v.Obj? && w.Obj? && Finite(v) && Finite(w) && FieldsAgree(v, w)
    requires forall x :: HasField(v, x) <==> HasField(w, x)
    ensures Equal(v, w)
  {
    hide Norm, Finite, HasField, FieldsAgree, SameField;
    forall i | 0 <= i < |v.fields| && v.fields[i].1.Some? ensures exists j :: SameField(v, w, i, j) {
      var j := Partner(v, w, i);
    }
    forall j | 0 <= j < |w.fields| && w.fields[j].1.Some? ensures exists i :: SameField(v, w, i, j) {
      var i := PartnerBack(v, w, j);
    }
  }

  lemma Partner(v: Json, w: Json, i: nat) returns (j: nat)
    requires v.Obj? && w.Obj? && Finite(v) && Finite(w) && FieldsAgree(v, w)
    requires forall x :: HasField(v, x) <==> HasField(w, x)
    requires i < |v.fields| && v.fields[i].1.Some?
    ensures SameField(v, w, i, j)
  {
    hide Norm, Equal, SameField;
    var x := (v.fields[i].0, Norm(v.fields[i].1.value));
    assert HasField(v, x);
    j :| 0 <= j < |w.fields| && w.fields[j].1.Some? && x == (w.fields[j].0, Norm(w.fields[j].1.value));
  }

  lemma PartnerBack(v: Json, w: Json, j: nat) returns (i: nat)
    requires v.Obj? && w.Obj? && Finite(v) && Finite(w) && FieldsAgree(v, w)
    requires forall x :: HasField(v, x) <==> HasField(w, x)
    requires j < |w.fields| && w.fields[j].1.Some?
    ensures SameField(v, w, i, j)
  {
    hide Norm, Equal, SameField;
    var x := (w.fields[j].0, Norm(w.fields[j].1.value));
    assert HasField(w, x);
    i :| 0 <= i < |v.fields| && v.fields[i].1.Some? && x == (v.fields[i].0, Norm(v.fields[i].1.value));
  }

  /** canonicalize gives equal strings exactly for values that are equal up to the order of their keys. */
  lemma CanonicalIff(v: Json, w: Json)
    requires Valid(v) && Valid(w) && Finite(v) && Finite(w)
    ensures Canonical(v) == Canonical(w) <==> Equal(v, w)
  {
    hide Canonical, Print, Norm, Equal, Valid, Finite;
    CanonicalIsPrint(v);
    CanonicalIsPrint(w);
    EqualIff(v, w);
    if Print(Norm(v)) == Print(Norm(w)) { PrintInjective(Norm(v), Norm(w)); }
  }

  /** It throws exactly when some number in the value, however deep, is not finite. */
  lemma {:induction false} ThrowsIff(v: Json)
    ensures Canonical(v) == None <==> !Finite(v)
    decreases v, if v.Obj? then |v.fields| + 1 else 0
  {
    match v {
      case Arr(items) => ItemsThrowIff(items);
      case Obj(_) => FieldsThrowIff(v, 0);
      case _ =>
    }
  }

  lemma {:induction false} ItemsThrowIff(items: seq<Json>)
    ensures Elements(items) == None <==> exists i :: 0 <= i < |items| && !Finite(items[i])
    decreases items
  {
    hide Canonical, Finite;
    if items != [] {
      ThrowsIff(items[0]);
      ItemsThrowIff(items[1..]);
      assert forall i :: 0 < i < |items| ==> items[i] == items[1..][i - 1];
    }
  }

  lemma {:induction false} FieldsThrowIff(v: Json, i: nat)
    requires v.Obj? && i <= |v.fields|
    ensures Entries(v, i) == None
        <==> exists j :: i <= j < |v.fields| && v.fields[j].1.Some? && !Finite(v.fields[j].1.value)
    decreases v, |v.fields| - i
  {
    if i < |v.fields| {
      FieldsThrowIff(v, i + 1);
      if v.fields[i].1.Some? { ThrowsIff(v.fields[i].1.value); }
      hide Canonical, Finite;
    }
  }

  // ---------- in characters ----------

  lemma SyntaxIs()
    ensures QUOTE == '"' as int && BACKSLASH == '\\' as int && COMMA == ',' as int && COLON == ':' as int
    ensures OPEN_ARRAY == '[' as int && CLOSE_ARRAY == ']' as int && OPEN_OBJECT == '{' as int
        && CLOSE_OBJECT == '}' as int
    ensures MINUS == '-' as int && forall d :: 0 <= d < 10 ==> Digit(d) == '0' as int + d
    ensures NULL == ['n' as int, 'u' as int, 'l' as int, 'l' as int]
    ensures TRUE == ['t' as int, 'r' as int, 'u' as int, 'e' as int]
    ensures FALSE == ['f' as int, 'a' as int, 'l' as int, 's' as int, 'e' as int]
  {}

  function HexCharacter(d: nat): unit
    requires d < 16
  {
    "0123456789abcdef"[d] as int
  }

  lemma HexDigitIs(d: nat)
    requires d < 16
    ensures HexDigit(d) == HexCharacter(d)
  {
    assert d == 0 || d == 1 || d == 2 || d == 3 || d == 4 || d == 5 || d == 6 || d == 7
      || d == 8 || d == 9 || d == 10 || d == 11 || d == 12 || d == 13 || d == 14 || d == 15;
  }

  /** A `\u` escape spells the unit in four hexadecimal digits. */
  lemma HexIs(u: unit) returns (a: nat, b: nat, c: nat, d: nat)
    ensures a < 16 && b < 16 && c < 16 && d < 16 && u == 4096 * a + 256 * b + 16 * c + d
    ensures Hex(u) == ['\\' as int, 'u' as int, HexCharacter(a), HexCharacter(b), HexCharacter(c), HexCharacter(d)]
  {
    a, b, c, d := u / 0x100 / 16, u / 0x100 % 16, u % 0x100 / 16, u % 0x100 % 16;
    HexDigitIs(a);
    HexDigitIs(b);
    HexDigitIs(c);
    HexDigitIs(d);
    hide HexDigit, HexCharacter;
  }

  /** RFC 8785 section 3.2.2.2: what each code unit outside a surrogate pair becomes. */
  lemma EscapedIs(u: unit)
    ensures Escaped(u) ==
      if u == 8 then ['\\' as int, 'b' as int] else if u == 9 then ['\\' as int, 't' as int]
      else if u == 10 then ['\\' as int, 'n' as int] else if u == 12 then ['\\' as int, 'f' as int]
      else if u == 13 then ['\\' as int, 'r' as int] else if u == '"' as int then ['\\' as int, '"' as int]
      else if u == '\\' as int then ['\\' as int, '\\' as int]
      else if u < 32 || 0xd800 <= u <= 0xdfff then Hex(u)
      else [u]
  {
    hide Hex;
  }

  lemma PairIff(s: Text)
    ensures Pair(s) <==> |s| >= 2 && 0xd800 <= s[0] <= 0xdbff && 0xdc00 <= s[1] <= 0xdfff
  {}

  /** A surrogate pair stays as it is, and any other unit becomes what `EscapedIs` says, between quotation marks. */
  lemma QuoteIs(s: Text)
    ensures Quote(s) == [QUOTE] + (QuoteBody(s) + [QUOTE]) && QuoteBody([]) == []
    ensures s != [] ==> QuoteBody(s) == if Pair(s) then [s[0], s[1]] + QuoteBody(s[2..])
                                        else Escaped(s[0]) + QuoteBody(s[1..])
  {
    hide Escaped, Pair;
  }

  /** The items of an array, and the members of an object, are written one after the other with commas between. */
  lemma JoinIs(ts: seq<Text>, t: Text)
    ensures Join([t]) == t && Join([]) == []
    ensures ts != [] ==> Join([t] + ts) == t + [',' as int] + Join(ts)
  {
    assert ts != [] ==> ([t] + ts)[1..] == ts;
  }

  /** `a` comes before `b` where they first differ, or when `b` goes on after it. */
  predicate FirstDifference(a: Text, b: Text, n: nat) {
    n <= |a| && n < |b| && a[..n] == b[..n] && (n == |a| || a[n] < b[n])
  }

  lemma {:induction false} LessIff(a: Text, b: Text)
    ensures Less(a, b) <==> exists n: nat :: FirstDifference(a, b, n)
  {
    if b != [] && a != [] && a[0] == b[0] {
      LessIff(a[1..], b[1..]);
      if n: nat :| FirstDifference(a[1..], b[1..], n) {
        assert a[..n + 1] == [a[0]] + a[1..][..n] && b[..n + 1] == [b[0]] + b[1..][..n];
        assert FirstDifference(a, b, n + 1);
      }
      if n: nat :| FirstDifference(a, b, n) {
        if n > 0 {
          assert a[1..][..n - 1] == a[..n][1..] && b[1..][..n - 1] == b[..n][1..];
          assert FirstDifference(a[1..], b[1..], n - 1);
        }
      }
    } else if Less(a, b) {
      assert FirstDifference(a, b, 0);
    } else {
      forall n: nat ensures !FirstDifference(a, b, n) {
        if 0 < n <= |a| && n <= |b| { assert a[..n][0] == a[0] && b[..n][0] == b[0]; }
      }
    }
  }

  /** Keys are sorted by code units: each is before the next where the two first differ. */
  lemma SortedByUnits<A>(ps: seq<(Text, A)>, i: nat, j: nat)
    requires Distinct(ps) && i < j < |Sort(ps)|
    ensures exists n: nat :: FirstDifference(Sort(ps)[i].0, Sort(ps)[j].0, n)
  {
    hide Sort, Less;
    SortSorts(ps);
    LessIff(Sort(ps)[i].0, Sort(ps)[j].0);
  }
}
