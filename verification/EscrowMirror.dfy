/**
 * The verifier's copy of escrow listings (escrow_orders in db.py): rows keyed by order account and listing time, fed by
 * account reads of any age and by verified outcomes, with placeholder rows for outcomes of listings never read.
 */
module EscrowMirror {
  import opened Wrappers
  import E = Escrow

  type Wallet = nat
  type Pda = nat
  type State = E.State

  predicate Terminal(s: State) { s in {E.Released, E.Dispute, E.Cancelled} }

  datatype Key = Key(pda: Pda, at: int)

  datatype Row = Row(seller: Wallet, buyer: Option<Wallet>, price: nat, state: State)

  type Rows = map<Key, Row>

  /** An Order account as read from chain. */
  datatype Account = Account(listedAt: nat, seller: Wallet, buyer: Option<Wallet>, price: nat, state: State)

  function Or<T>(a: Option<T>, b: Option<T>): Option<T> { if a.Some? then a else b }

  // ---------- the two writes ----------

  ghost predicate IsMax(s: set<int>, m: int) { m in s && forall x :: x in s ==> x <= m }

  ghost predicate Inhabited(s: set<int>) { exists x :: x in s }

  ghost function Max(s: set<int>): (m: int)
    requires Inhabited(s)
    ensures IsMax(s, m)
  {
    var x :| x in s;
    var rest := s - {x};
    assert s == rest + {x};
    if !Inhabited(rest) then x else
      var m := Max(rest);
      if m < x then x else m
  }

  /** Times of the placeholders that a listing from `listedAt` on may have left. */
  ghost function PlaceholderTimes(rows: Rows, p: Pda, listedAt: nat): set<int> {
    set k | k in rows && k.pda == p && k.at < 0 && -k.at >= listedAt :: -k.at
  }

  /** upsert_escrow_order: the newest such placeholder is merged into the listing and all of them are deleted. */
  ghost function Upserted(rows: Rows, p: Pda, o: Account): Rows {
    var times := PlaceholderTimes(rows, p, o.listedAt);
    var rest := map k | k in rows && !(k.pda == p && k.at < 0 && -k.at >= o.listedAt) :: rows[k];
    var state := if Inhabited(times) && !Terminal(o.state) then rows[Key(p, -Max(times))].state else o.state;
    var key := Key(p, o.listedAt);
    if key !in rest then rest[key := Row(o.seller, o.buyer, o.price, state)]
    else if Terminal(rest[key].state) then rest
    else rest[key := rest[key].(buyer := o.buyer, price := o.price, state := state)]
  }

  /** Times of the listings known by `at`. */
  ghost function KnownTimes(rows: Rows, p: Pda, at: Option<int>): set<int> {
    set k | k in rows && k.pda == p && k.at >= 0 && (at == None || k.at <= at.value) :: k.at
  }

  datatype Outcome = Outcome(state: State, at: Option<int>, ts: nat, order: Option<Account>, seller: Option<Wallet>,
                             buyer: Option<Wallet>, price: nat)

  /** The Order read with the transaction counts as its listing when it was listed by then. */
  predicate UsesOrder(e: Outcome) { e.order.Some? && (e.at == None || e.order.value.listedAt <= e.at.value) }

  /** The row that record_escrow_outcome writes; None when it does nothing. */
  ghost function Target(rows: Rows, p: Pda, e: Outcome): Option<Key> {
    if UsesOrder(e) then Some(Key(p, e.order.value.listedAt))
    else if Inhabited(KnownTimes(rows, p, e.at)) then Some(Key(p, Max(KnownTimes(rows, p, e.at))))
    else if e.seller.Some? then Some(Key(p, -(if e.at.Some? then e.at.value else e.ts)))
    else None
  }

  ghost function NewRow(rows: Rows, p: Pda, e: Outcome): Row
    requires Target(rows, p, e).Some?
  {
    var key := Target(rows, p, e).value;
    if UsesOrder(e) then
      var o := e.order.value;
      var b := Or(o.buyer, e.buyer);
      if key in rows then rows[key].(buyer := Or(b, rows[key].buyer), price := o.price, state := e.state)
      else Row(o.seller, b, o.price, e.state)
    else if Inhabited(KnownTimes(rows, p, e.at)) then
      rows[key].(state := e.state, buyer := Or(rows[key].buyer, e.buyer))
    else if key in rows then rows[key].(state := e.state)
    else Row(e.seller.value, e.buyer, e.price, e.state)
  }

  /** record_escrow_outcome. */
  ghost function Recorded(rows: Rows, p: Pda, e: Outcome): Rows {
    match Target(rows, p, e)
    case None => rows
    case Some(key) => rows[key := NewRow(rows, p, e)]
  }

  // ---------- no final row reopens ----------

  /** Whatever is read or recorded, a listing's row that is final stays, and stays final. */
  lemma FinalStaysFinal(rows: Rows, p: Pda, o: Account, e: Outcome, key: Key)
    requires key in rows && key.at >= 0 && Terminal(rows[key].state) && Terminal(e.state)
    ensures key in Upserted(rows, p, o) && Upserted(rows, p, o)[key] == rows[key]
    ensures key in Recorded(rows, p, e) && Terminal(Recorded(rows, p, e)[key].state)
  {
    hide Max;
  }

  // ---------- what really happened on chain ----------

  /** One listing of an order account: who bought it, and how and when it ended. */
  datatype Listing = Listing(listedAt: nat, buyer: Option<Wallet>, price: nat, end: Option<(State, int)>)

  /** The listings of one account, one after the other. */
  predicate History(ls: seq<Listing>) {
    && (forall k :: 0 <= k < |ls| && ls[k].end.Some? ==>
          && Terminal(ls[k].end.value.0) && ls[k].listedAt <= ls[k].end.value.1 && ls[k].end.value.1 > 0
          && (ls[k].end.value.0 != E.Cancelled ==> ls[k].buyer.Some?))
    && (forall j, k :: 0 <= j < k < |ls| ==> ls[j].end.Some? && ls[j].end.value.1 < ls[k].listedAt)
  }

  predicate Settled(l: Listing) { l.end.Some? && l.end.value.0 != E.Cancelled }

  /** The row tells nothing untrue about the listing. */
  predicate Fits(r: Row, seller: Wallet, l: Listing) {
    && r.seller == seller && (r.buyer == None || r.buyer == l.buyer)
    && (Terminal(r.state) ==> l.end.Some? && r.state == l.end.value.0 && (Settled(l) ==> r.buyer == l.buyer))
  }

  predicate FinalRow(rows: Rows, p: Pda, l: Listing) {
    Settled(l) && Key(p, l.listedAt) in rows && rows[Key(p, l.listedAt)].state == l.end.value.0
  }

  predicate Placeholder(rows: Rows, p: Pda, l: Listing) {
    Settled(l) && Key(p, -l.end.value.1) in rows
  }

  /** A listing's own row. */
  ghost predicate OwnRow(r: Row, at: int, seller: Wallet, ls: seq<Listing>) {
    exists k :: 0 <= k < |ls| && ls[k].listedAt == at && Fits(r, seller, ls[k])
  }

  /** A placeholder row for a recorded outcome. */
  ghost predicate HeldRow(r: Row, at: int, seller: Wallet, ls: seq<Listing>, recorded: set<nat>) {
    exists k :: 0 <= k < |ls| && k in recorded && Settled(ls[k]) && ls[k].end.value.1 == -at
                && Fits(r, seller, ls[k]) && r.state == ls[k].end.value.0
  }

  /** The outcome of listing `l` is in one row: its own or a placeholder. */
  predicate OneRow(rows: Rows, p: Pda, l: Listing) {
    Settled(l) && (FinalRow(rows, p, l) <==> !Placeholder(rows, p, l))
  }

  /** Every row belongs to a listing and fits it; every recorded outcome is one row. */
  ghost predicate Faithful(rows: Rows, p: Pda, seller: Wallet, ls: seq<Listing>, recorded: set<nat>) {
    && (forall key :: key in rows && key.pda == p && key.at >= 0 ==> OwnRow(rows[key], key.at, seller, ls))
    && (forall key :: key in rows && key.pda == p && key.at < 0 ==> HeldRow(rows[key], key.at, seller, ls, recorded))
    && (forall k :: k in recorded ==> k < |ls| && OneRow(rows, p, ls[k]))
  }

  /** A true read of listing `j`, of any age. */
  predicate ReadOf(o: Account, seller: Wallet, l: Listing) {
    && o.listedAt == l.listedAt && Fits(Row(o.seller, o.buyer, o.price, o.state), seller, l)
  }

  /** A true outcome of listing `k`, whatever Order account was read with it. */
  predicate OutcomeOf(e: Outcome, seller: Wallet, l: Listing) {
    && Settled(l) && e.state == l.end.value.0 && e.at == Some(l.end.value.1) && e.seller == Some(seller)
        && e.buyer == l.buyer
  }

  /** The read of `l` clears no placeholder of another listing, and where it merges its own it knows the buyer. */
  ghost predicate ReadIsSafe(rows: Rows, p: Pda, l: Listing, o: Account) {
    forall t :: t in PlaceholderTimes(rows, p, l.listedAt) ==> Settled(l) && t == l.end.value.1 && o.buyer == l.buyer
  }

  predicate Cleared(key: Key, p: Pda, listedAt: nat) { key.pda == p && key.at < 0 && -key.at >= listedAt }

  /** The state a read leaves in a listing's row that was not final. */
  ghost function MergedState(rows: Rows, p: Pda, o: Account): State {
    var times := PlaceholderTimes(rows, p, o.listedAt);
    if Inhabited(times) && !Terminal(o.state) then rows[Key(p, -Max(times))].state else o.state
  }

  /** upsert_escrow_order row by row. */
  lemma UpsertedAt(rows: Rows, p: Pda, o: Account, key: Key)
    ensures var next, own := Upserted(rows, p, o), Key(p, o.listedAt);
      && own in next
      && (key != own ==> (key in next <==> key in rows && !Cleared(key, p, o.listedAt)))
      && (key != own && key in next ==> next[key] == rows[key])
      && (own in rows && Terminal(rows[own].state) ==> next[own] == rows[own])
      && (!(own in rows && Terminal(rows[own].state)) ==>
            next[own] == Row(if own in rows then rows[own].seller else o.seller,
                             o.buyer, o.price, MergedState(rows, p, o)))
  {
    hide Max;
  }

  /** Listings of one account differ in when they were listed and when they ended. */
  lemma TimesDiffer(ls: seq<Listing>, j: nat, k: nat)
    requires History(ls) && j < |ls| && k < |ls| && j != k
    ensures ls[j].listedAt != ls[k].listedAt
    ensures ls[j].end.Some? && ls[k].end.Some? ==> ls[j].end.value.1 != ls[k].end.value.1
  {
    var (first, second) := if j < k then (ls[j], ls[k]) else (ls[k], ls[j]);
    assert first.end.Some? && first.end.value.1 < second.listedAt;
  }

  lemma HeldOf(rows: Rows, p: Pda, seller: Wallet, ls: seq<Listing>, recorded: set<nat>, t: int) returns (k: nat)
    requires Faithful(rows, p, seller, ls, recorded) && t < 0 && Key(p, t) in rows
    ensures k in recorded && k < |ls| && Settled(ls[k]) && ls[k].end.value.1 == -t
    ensures Fits(rows[Key(p, t)], seller, ls[k]) && rows[Key(p, t)].state == ls[k].end.value.0 && OneRow(rows, p, ls[k])
  {
    hide OneRow, Fits;
    assert HeldRow(rows[Key(p, t)], t, seller, ls, recorded);
    k :| 0 <= k < |ls| && k in recorded && Settled(ls[k]) && ls[k].end.value.1 == -t
         && Fits(rows[Key(p, t)], seller, ls[k]) && rows[Key(p, t)].state == ls[k].end.value.0;
  }

  lemma OwnOf(rows: Rows, p: Pda, seller: Wallet, ls: seq<Listing>, recorded: set<nat>, j: nat)
    requires History(ls) && Faithful(rows, p, seller, ls, recorded) && j < |ls| && Key(p, ls[j].listedAt) in rows
    ensures Fits(rows[Key(p, ls[j].listedAt)], seller, ls[j])
  {
    hide OneRow, Fits, History;
    var key := Key(p, ls[j].listedAt);
    assert OwnRow(rows[key], key.at, seller, ls);
    var k :| 0 <= k < |ls| && ls[k].listedAt == key.at && Fits(rows[key], seller, ls[k]);
    if k != j { TimesDiffer(ls, j, k); }
  }

  /** A read keeps the rows faithful exactly when it is safe. */
  lemma ReadKeepsIff(rows: Rows, p: Pda, seller: Wallet, ls: seq<Listing>, recorded: set<nat>, j: nat, o: Account)
    requires History(ls) && Faithful(rows, p, seller, ls, recorded) && j < |ls| && ReadOf(o, seller, ls[j])
    ensures Faithful(Upserted(rows, p, o), p, seller, ls, recorded) <==> ReadIsSafe(rows, p, ls[j], o)
  {
    hide Faithful, History, ReadOf, Upserted, PlaceholderTimes;
    if ReadIsSafe(rows, p, ls[j], o) {
      SafeRead(rows, p, seller, ls, recorded, j, o);
    } else {
      var t :| t in PlaceholderTimes(rows, p, ls[j].listedAt)
          && !(Settled(ls[j]) && t == ls[j].end.value.1 && o.buyer == ls[j].buyer);
      LosingRead(rows, p, seller, ls, recorded, j, o, t);
    }
  }

  lemma LosingRead(rows: Rows, p: Pda, seller: Wallet, ls: seq<Listing>, recorded: set<nat>, j: nat, o: Account, t: int)
    requires History(ls) && Faithful(rows, p, seller, ls, recorded) && j < |ls| && ReadOf(o, seller, ls[j])
    requires t in PlaceholderTimes(rows, p, ls[j].listedAt)
        && !(Settled(ls[j]) && t == ls[j].end.value.1 && o.buyer == ls[j].buyer)
    ensures !Faithful(Upserted(rows, p, o), p, seller, ls, recorded)
  {
    var next := Upserted(rows, p, o);
    var k := HeldOf(rows, p, seller, ls, recorded, -t);
    hide Upserted, Faithful, History;
    UpsertedAt(rows, p, o, Key(p, -t));
    UpsertedAt(rows, p, o, Key(p, ls[k].listedAt));
    if Faithful(next, p, seller, ls, recorded) {
      Contains(next, p, seller, ls, recorded, k);
      if k != j {
        TimesDiffer(ls, j, k);
        assert false;
      } else {
        OwnOf(next, p, seller, ls, recorded, j);
        assert false;
      }
    }
  }

  lemma Contains(rows: Rows, p: Pda, seller: Wallet, ls: seq<Listing>, recorded: set<nat>, k: nat)
    requires Faithful(rows, p, seller, ls, recorded) && k in recorded
    ensures k < |ls| && OneRow(rows, p, ls[k])
  {}

  lemma SafeRead(rows: Rows, p: Pda, seller: Wallet, ls: seq<Listing>, recorded: set<nat>, j: nat, o: Account)
    requires History(ls) && Faithful(rows, p, seller, ls, recorded) && j < |ls| && ReadOf(o, seller, ls[j])
    requires ReadIsSafe(rows, p, ls[j], o)
    ensures Faithful(Upserted(rows, p, o), p, seller, ls, recorded)
  {
    hide Upserted, Fits, History, ReadIsSafe, OneRow;
    var next, own := Upserted(rows, p, o), Key(p, o.listedAt);
    forall key | key in next && key.pda == p && key.at >= 0 ensures OwnRow(next[key], key.at, seller, ls) {
      UpsertedAt(rows, p, o, key);
      if key == own {
        SafeOwnRow(rows, p, seller, ls, recorded, j, o);
      } else {
        assert OwnRow(rows[key], key.at, seller, ls);
      }
    }
    forall key | key in next && key.pda == p && key.at < 0 ensures HeldRow(next[key], key.at, seller, ls, recorded) {
      UpsertedAt(rows, p, o, key);
      assert HeldRow(rows[key], key.at, seller, ls, recorded);
    }
    forall k | k in recorded ensures OneRow(next, p, ls[k]) {
      SafeOneRow(rows, p, seller, ls, recorded, j, o, k);
    }
  }

  /** The merged row takes the outcome of its own placeholder. */
  lemma SafeOwnRow(rows: Rows, p: Pda, seller: Wallet, ls: seq<Listing>, recorded: set<nat>, j: nat, o: Account)
    requires History(ls) && Faithful(rows, p, seller, ls, recorded) && j < |ls| && ReadOf(o, seller, ls[j])
    requires ReadIsSafe(rows, p, ls[j], o)
    ensures var own := Key(p, o.listedAt); own in Upserted(rows, p, o) && Fits(Upserted(rows, p, o)[own], seller, ls[j])
    ensures Inhabited(PlaceholderTimes(rows, p, o.listedAt)) ==>
        Upserted(rows, p, o)[Key(p, o.listedAt)].state == ls[j].end.value.0
  {
    hide Upserted, Faithful, History, OneRow;
    var own, times := Key(p, o.listedAt), PlaceholderTimes(rows, p, o.listedAt);
    UpsertedAt(rows, p, o, own);
    if own in rows { OwnOf(rows, p, seller, ls, recorded, j); }
    if Inhabited(times) {
      var k := HeldOf(rows, p, seller, ls, recorded, -Max(times));
      if k != j { TimesDiffer(ls, j, k); }
    }
  }

  lemma InTimes(rows: Rows, p: Pda, listedAt: nat, t: int)
    requires t > 0
    ensures t in PlaceholderTimes(rows, p, listedAt) <==> t >= listedAt && Key(p, -t) in rows
  {
    assert Key(p, -t) in rows ==> Key(p, -t).at == -t;
  }

  lemma SafeOneRow(rows: Rows, p: Pda, seller: Wallet, ls: seq<Listing>, recorded: set<nat>, j: nat, o: Account, k: nat)
    requires History(ls) && Faithful(rows, p, seller, ls, recorded) && j < |ls| && ReadOf(o, seller, ls[j])
    requires ReadIsSafe(rows, p, ls[j], o) && k in recorded
    ensures OneRow(Upserted(rows, p, o), p, ls[k])
  {
    hide Upserted, Faithful, History, Fits;
    Contains(rows, p, seller, ls, recorded, k);
    UpsertedAt(rows, p, o, Key(p, ls[k].listedAt));
    UpsertedAt(rows, p, o, Key(p, -ls[k].end.value.1));
    SafeOwnRow(rows, p, seller, ls, recorded, j, o);
    EndIsLate(ls, k);
    InTimes(rows, p, o.listedAt, ls[k].end.value.1);
    if k != j {
      TimesDiffer(ls, j, k);
      assert Cleared(Key(p, -ls[k].end.value.1), p, o.listedAt) ==> !Placeholder(rows, p, ls[k]);
    } else {
      assert !Placeholder(Upserted(rows, p, o), p, ls[k]);
      if Placeholder(rows, p, ls[k]) { assert Inhabited(PlaceholderTimes(rows, p, o.listedAt)); }
    }
  }

  lemma EndIsLate(ls: seq<Listing>, k: nat)
    requires History(ls) && k < |ls| && Settled(ls[k])
    ensures ls[k].listedAt <= ls[k].end.value.1 && ls[k].end.value.1 > 0 && Terminal(ls[k].end.value.0)
  {}

  // ---------- outcomes ----------

  /** The outcome of listing `l` goes to its own row, or to a placeholder when no listing up to then is known. */
  ghost predicate OutcomeIsSafe(rows: Rows, p: Pda, l: Listing, e: Outcome) {
    if UsesOrder(e) then e.order.value.listedAt == l.listedAt
    else Key(p, l.listedAt) in rows || !Inhabited(KnownTimes(rows, p, e.at))
  }

  /** record_escrow_outcome row by row. */
  lemma RecordedAt(rows: Rows, p: Pda, e: Outcome, key: Key)
    requires e.at.Some? && e.at.value > 0 && e.seller.Some?
    ensures var next, own := Recorded(rows, p, e), Target(rows, p, e).value;
      && Target(rows, p, e).Some? && own.pda == p
      && own in next && next[own].state == e.state
      && (key != own ==> (key in next <==> key in rows) && (key in rows ==> next[key] == rows[key]))
      && next[own].seller == (if own in rows then rows[own].seller
                              else if UsesOrder(e) then e.order.value.seller
                              else e.seller.value)
      && next[own].buyer == (if UsesOrder(e) then
                               Or(Or(e.order.value.buyer, e.buyer), if own in rows then rows[own].buyer else None)
                             else if own in rows && own.at >= 0 then Or(rows[own].buyer, e.buyer)
                             else if own in rows then rows[own].buyer
                             else e.buyer)
      && next[own].price == (if UsesOrder(e) then e.order.value.price
                             else if own in rows then rows[own].price
                             else e.price)
  {
    hide Max;
    if !UsesOrder(e) && Inhabited(KnownTimes(rows, p, e.at)) {
      assert Max(KnownTimes(rows, p, e.at)) in KnownTimes(rows, p, e.at);
    }
  }

  /** Without a stale Order, the target is the newest known listing; for a safe outcome that is its own. */
  lemma SafeTarget(rows: Rows, p: Pda, seller: Wallet, ls: seq<Listing>, recorded: set<nat>, k: nat, e: Outcome)
    requires History(ls) && Faithful(rows, p, seller, ls, recorded) && k < |ls| && OutcomeOf(e, seller, ls[k])
    requires OutcomeIsSafe(rows, p, ls[k], e)
    ensures Target(rows, p, e) == Some(if UsesOrder(e) || Key(p, ls[k].listedAt) in rows then Key(p, ls[k].listedAt)
                                       else Key(p, -ls[k].end.value.1))
  {
    hide Max, Fits, OneRow;
    EndIsLate(ls, k);
    if !UsesOrder(e) && Key(p, ls[k].listedAt) in rows {
      var known := KnownTimes(rows, p, e.at);
      assert Key(p, ls[k].listedAt).at in known;
      var m := Max(known);
      assert OwnRow(rows[Key(p, m)], m, seller, ls);
      var j :| 0 <= j < |ls| && ls[j].listedAt == m;
    }
  }

  /** The outcome of a listing that was not recorded yet has no placeholder. */
  lemma NoPlaceholderYet(rows: Rows, p: Pda, seller: Wallet, ls: seq<Listing>, recorded: set<nat>, k: nat)
    requires History(ls) && Faithful(rows, p, seller, ls, recorded) && k < |ls| && Settled(ls[k]) && k !in recorded
    ensures Key(p, -ls[k].end.value.1) !in rows
  {
    hide Faithful, History;
    EndIsLate(ls, k);
    if Key(p, -ls[k].end.value.1) in rows {
      var j := HeldOf(rows, p, seller, ls, recorded, -ls[k].end.value.1);
      TimesDiffer(ls, j, k);
    }
  }

  /** A true outcome keeps the rows faithful exactly when it is safe (or its listing was read as final before). */
  lemma OutcomeKeepsIff(rows: Rows, p: Pda, seller: Wallet, ls: seq<Listing>, recorded: set<nat>, k: nat, e: Outcome)
    requires History(ls) && Faithful(rows, p, seller, ls, recorded) && k < |ls| && k !in recorded
        && OutcomeOf(e, seller, ls[k])
    requires UsesOrder(e) && e.order.value.listedAt == ls[k].listedAt ==> ReadOf(e.order.value, seller, ls[k])
    requires !FinalRow(rows, p, ls[k])
    ensures Faithful(Recorded(rows, p, e), p, seller, ls, recorded + {k}) <==> OutcomeIsSafe(rows, p, ls[k], e)
  {
    hide Faithful, History, Recorded, OutcomeIsSafe, ReadOf;
    if OutcomeIsSafe(rows, p, ls[k], e) {
      SafeOutcome(rows, p, seller, ls, recorded, k, e);
    } else {
      LosingOutcome(rows, p, seller, ls, recorded, k, e);
    }
  }

  lemma LosingOutcome(rows: Rows, p: Pda, seller: Wallet, ls: seq<Listing>, recorded: set<nat>, k: nat, e: Outcome)
    requires History(ls) && Faithful(rows, p, seller, ls, recorded) && k < |ls| && k !in recorded
        && OutcomeOf(e, seller, ls[k])
    requires !FinalRow(rows, p, ls[k]) && !OutcomeIsSafe(rows, p, ls[k], e)
    ensures !Faithful(Recorded(rows, p, e), p, seller, ls, recorded + {k})
  {
    NoPlaceholderYet(rows, p, seller, ls, recorded, k);
    EndIsLate(ls, k);
    LosingTarget(rows, p, ls[k], e);
    hide Recorded, Target, Faithful, History, Fits, OutcomeIsSafe;
    var next := Recorded(rows, p, e);
    RecordedAt(rows, p, e, Key(p, ls[k].listedAt));
    RecordedAt(rows, p, e, Key(p, -ls[k].end.value.1));
    if Faithful(next, p, seller, ls, recorded + {k}) {
      Contains(next, p, seller, ls, recorded + {k}, k);
      assert false;
    }
  }

  lemma LosingTarget(rows: Rows, p: Pda, l: Listing, e: Outcome)
    requires !OutcomeIsSafe(rows, p, l, e) && e.at.Some?
    ensures Target(rows, p, e).Some? && Target(rows, p, e).value.at >= 0
        && Target(rows, p, e).value != Key(p, l.listedAt)
  {
    hide Max;
    if !UsesOrder(e) { assert Max(KnownTimes(rows, p, e.at)) in KnownTimes(rows, p, e.at); }
  }

  lemma SafeOutcome(rows: Rows, p: Pda, seller: Wallet, ls: seq<Listing>, recorded: set<nat>, k: nat, e: Outcome)
    requires History(ls) && Faithful(rows, p, seller, ls, recorded) && k < |ls| && k !in recorded
        && OutcomeOf(e, seller, ls[k])
    requires UsesOrder(e) && e.order.value.listedAt == ls[k].listedAt ==> ReadOf(e.order.value, seller, ls[k])
    requires OutcomeIsSafe(rows, p, ls[k], e)
    ensures Faithful(Recorded(rows, p, e), p, seller, ls, recorded + {k})
  {
    hide Recorded, Target, Fits, History, OneRow, OutcomeIsSafe, ReadOf;
    OutcomeRow(rows, p, seller, ls, recorded, k, e);
    var next, own := Recorded(rows, p, e), Target(rows, p, e).value;
    forall key | key in next && key.pda == p && key.at >= 0 ensures OwnRow(next[key], key.at, seller, ls) {
      RecordedAt(rows, p, e, key);
      if key != own { assert OwnRow(rows[key], key.at, seller, ls); }
    }
    forall key | key in next && key.pda == p && key.at < 0
        ensures HeldRow(next[key], key.at, seller, ls, recorded + {k}) {
      RecordedAt(rows, p, e, key);
      if key != own { StillHeld(rows[key], key.at, seller, ls, recorded, k); }
    }
    forall i | i in recorded + {k} ensures OneRow(next, p, ls[i]) {
      OutcomeOneRow(rows, p, seller, ls, recorded, k, e, i);
    }
  }

  lemma StillHeld(r: Row, at: int, seller: Wallet, ls: seq<Listing>, recorded: set<nat>, k: nat)
    requires HeldRow(r, at, seller, ls, recorded)
    ensures HeldRow(r, at, seller, ls, recorded + {k})
  {
    hide Fits;
    var j :| 0 <= j < |ls| && j in recorded && Settled(ls[j]) && ls[j].end.value.1 == -at && Fits(r, seller, ls[j])
        && r.state == ls[j].end.value.0;
    assert j in recorded + {k};
  }

  /** The row that a safe outcome writes. */
  lemma OutcomeRow(rows: Rows, p: Pda, seller: Wallet, ls: seq<Listing>, recorded: set<nat>, k: nat, e: Outcome)
    requires History(ls) && Faithful(rows, p, seller, ls, recorded) && k < |ls| && k !in recorded
        && OutcomeOf(e, seller, ls[k])
    requires UsesOrder(e) && e.order.value.listedAt == ls[k].listedAt ==> ReadOf(e.order.value, seller, ls[k])
    requires OutcomeIsSafe(rows, p, ls[k], e)
    ensures var own, next := Target(rows, p, e).value, Recorded(rows, p, e);
      && e.at.value > 0 && Target(rows, p, e).Some? && own.pda == p && own in next
      && (own.at >= 0 ==> OwnRow(next[own], own.at, seller, ls))
      && (own.at < 0 ==> HeldRow(next[own], own.at, seller, ls, recorded + {k}))
  {
    SafeTarget(rows, p, seller, ls, recorded, k, e);
    EndIsLate(ls, k);
    NoPlaceholderYet(rows, p, seller, ls, recorded, k);
    hide Recorded, Target, Faithful, History, OneRow;
    var own := Target(rows, p, e).value;
    RecordedAt(rows, p, e, own);
    if own.at >= 0 && own in rows { OwnOf(rows, p, seller, ls, recorded, k); }
    assert Fits(Recorded(rows, p, e)[own], seller, ls[k]);
    assert k in recorded + {k};
  }

  lemma OutcomeOneRow(rows: Rows, p: Pda, seller: Wallet, ls: seq<Listing>, recorded: set<nat>, k: nat, e: Outcome,
      i: nat)
    requires History(ls) && Faithful(rows, p, seller, ls, recorded) && k < |ls| && k !in recorded
        && OutcomeOf(e, seller, ls[k])
    requires OutcomeIsSafe(rows, p, ls[k], e) && i in recorded + {k}
    ensures i < |ls| && OneRow(Recorded(rows, p, e), p, ls[i])
  {
    SafeTarget(rows, p, seller, ls, recorded, k, e);
    EndIsLate(ls, k);
    NoPlaceholderYet(rows, p, seller, ls, recorded, k);
    hide Recorded, Target, Faithful, History, Fits, OutcomeIsSafe, UsesOrder, Or;
    if i == k {
      RecordedAt(rows, p, e, Key(p, ls[k].listedAt));
      RecordedAt(rows, p, e, Key(p, -ls[k].end.value.1));
    } else {
      Contains(rows, p, seller, ls, recorded, i);
      EndIsLate(ls, i);
      TimesDiffer(ls, i, k);
      OtherOneRow(rows, p, e, ls[i]);
    }
  }

  lemma OtherOneRow(rows: Rows, p: Pda, e: Outcome, l: Listing)
    requires e.at.Some? && e.at.value > 0 && e.seller.Some? && OneRow(rows, p, l)
    requires Target(rows, p, e) !in {None, Some(Key(p, l.listedAt)), Some(Key(p, -l.end.value.1))}
    ensures OneRow(Recorded(rows, p, e), p, l)
  {
    hide Recorded, Target;
    RecordedAt(rows, p, e, Key(p, l.listedAt));
    RecordedAt(rows, p, e, Key(p, -l.end.value.1));
  }

  // ---------- the condition is needed ----------

  /**
   * A listing sold and closed between two reads: its DISPUTE overwrites the RELEASED of the listing before it, although
   * nothing that was read was out of date.
   */
  lemma UnseenListingOverwrites(p: Pda, seller: Wallet, buyer: Wallet)
    ensures var ls := [Listing(10, Some(buyer), 5, Some((E.Released, 20))),
        Listing(30, Some(buyer), 5, Some((E.Dispute, 40)))];
      var rows := map[Key(p, 10) := Row(seller, Some(buyer), 5, E.Released)];
      var e := Outcome(E.Dispute, Some(40), 41, None, Some(seller), Some(buyer), 5);
      && History(ls) && Faithful(rows, p, seller, ls, {0}) && OutcomeOf(e, seller, ls[1])
      && Recorded(rows, p, e) == map[Key(p, 10) := Row(seller, Some(buyer), 5, E.Dispute)]
  {
    hide Max;
    var ls := [Listing(10, Some(buyer), 5, Some((E.Released, 20))), Listing(30, Some(buyer), 5, Some((E.Dispute, 40)))];
    var rows := map[Key(p, 10) := Row(seller, Some(buyer), 5, E.Released)];
    var e := Outcome(E.Dispute, Some(40), 41, None, Some(seller), Some(buyer), 5);
    assert ls[0].listedAt == 10 && Fits(rows[Key(p, 10)], seller, ls[0]);
    var known := KnownTimes(rows, p, e.at);
    assert Key(p, 10).at in known;
    assert Max(known) in known;
  }

  /** A placeholder absorbed by a read from before the buyer reserved: the outcome stays, its buyer is lost. */
  lemma EarlyReadLosesBuyer(p: Pda, seller: Wallet, buyer: Wallet)
    ensures var ls := [Listing(10, Some(buyer), 5, Some((E.Released, 20)))];
      var rows := map[Key(p, -20) := Row(seller, Some(buyer), 5, E.Released)];
      var o := Account(10, seller, None, 5, E.Listed);
      && History(ls) && Faithful(rows, p, seller, ls, {0}) && ReadOf(o, seller, ls[0])
      && Upserted(rows, p, o) == map[Key(p, 10) := Row(seller, None, 5, E.Released)]
      && !Faithful(Upserted(rows, p, o), p, seller, ls, {0})
  {
    hide Max;
    var ls := [Listing(10, Some(buyer), 5, Some((E.Released, 20)))];
    var rows := map[Key(p, -20) := Row(seller, Some(buyer), 5, E.Released)];
    var o := Account(10, seller, None, 5, E.Listed);
    assert Fits(rows[Key(p, -20)], seller, ls[0]);
    assert OneRow(rows, p, ls[0]);
    Absorbed(rows, p, o, 20);
    ReadKeepsIff(rows, p, seller, ls, {0}, 0, o);
  }

  /** A stale read of a cancelled listing takes the outcome of the listing after it. */
  lemma StaleReadTakesOutcome(p: Pda, seller: Wallet, buyer: Wallet)
    ensures var ls := [Listing(10, None, 5, Some((E.Cancelled, 20))),
        Listing(30, Some(buyer), 5, Some((E.Released, 40)))];
      var rows := map[Key(p, -40) := Row(seller, Some(buyer), 5, E.Released)];
      var o := Account(10, seller, None, 5, E.Listed);
      && History(ls) && Faithful(rows, p, seller, ls, {1}) && ReadOf(o, seller, ls[0])
      && Upserted(rows, p, o) == map[Key(p, 10) := Row(seller, None, 5, E.Released)]
      && !Faithful(Upserted(rows, p, o), p, seller, ls, {1})
  {
    hide Max;
    var ls := [Listing(10, None, 5, Some((E.Cancelled, 20))), Listing(30, Some(buyer), 5, Some((E.Released, 40)))];
    var rows := map[Key(p, -40) := Row(seller, Some(buyer), 5, E.Released)];
    var o := Account(10, seller, None, 5, E.Listed);
    assert Fits(rows[Key(p, -40)], seller, ls[1]);
    assert OneRow(rows, p, ls[1]);
    Absorbed(rows, p, o, 40);
    ReadKeepsIff(rows, p, seller, ls, {1}, 0, o);
  }

  /** A read of an open listing and a single placeholder. */
  lemma Absorbed(rows: Rows, p: Pda, o: Account, time: int)
    requires time >= o.listedAt && time > 0 && rows.Keys == {Key(p, -time)} && !Terminal(o.state)
    ensures Upserted(rows, p, o)
        == map[Key(p, o.listedAt) := Row(o.seller, o.buyer, o.price, rows[Key(p, -time)].state)]
    ensures PlaceholderTimes(rows, p, o.listedAt) == {time}
  {
    hide Max;
    var times := PlaceholderTimes(rows, p, o.listedAt);
    InTimes(rows, p, o.listedAt, time);
    assert times == {time};
    assert Max(times) in times;
  }

  // ---------- counters ----------

  datatype Counters = Counters(ok: nat, disputed: nat)

  predicate Plays(r: Row, w: Wallet) { r.seller == w || r.buyer == Some(w) }

  function Having(rows: Rows, w: Wallet, st: State): set<Key> {
    set k | k in rows && rows[k].state == st && Plays(rows[k], w)
  }

  function CountersOf(rows: Rows, w: Wallet): Counters {
    Counters(|Having(rows, w, E.Released)|, |Having(rows, w, E.Dispute)|)
  }

  /** Every participant has counters, and all counters equal the numbers of released and disputed rows. */
  ghost predicate Exact(counters: map<Wallet, Counters>, rows: Rows) {
    && (forall w :: w in counters ==> counters[w] == CountersOf(rows, w))
    && (forall k, w :: k in rows && Plays(rows[k], w) ==> w in counters)
  }

  function Players(seller: Wallet, buyer: Option<Wallet>): set<Wallet> {
    {seller} + (match buyer case Some(b) => {b} case None => {})
  }

  /** The wallets whose counters a recorded outcome recomputes. */
  ghost function SyncSet(rows: Rows, p: Pda, e: Outcome): set<Wallet>
    requires Target(rows, p, e).Some?
  {
    var key := Target(rows, p, e).value;
    if UsesOrder(e) then Players(e.order.value.seller, Or(e.order.value.buyer, e.buyer))
    else if Inhabited(KnownTimes(rows, p, e.at)) then Players(rows[key].seller, Or(rows[key].buyer, e.buyer))
    else Players(e.seller.value, e.buyer)
  }

  /** sync_escrow_counters: everyone gets a row; `only` limits the recomputation. */
  ghost predicate SyncedTo(counters: map<Wallet, Counters>, next: map<Wallet, Counters>, rows: Rows,
      only: Option<set<Wallet>>)
  {
    && (forall w :: w in next <==> w in counters || exists k :: k in rows && Plays(rows[k], w))
    && (forall w :: w in next ==>
          next[w] == (if only == None || w in only.value then CountersOf(rows, w)
                      else if w in counters then counters[w] else Counters(0, 0)))
  }

  lemma FullSyncIsExact(counters: map<Wallet, Counters>, next: map<Wallet, Counters>, rows: Rows)
    requires SyncedTo(counters, next, rows, None)
    ensures Exact(next, rows)
  {}

  /** Recomputing only the participants of the one changed row is enough, when it kept its participants. */
  lemma PartSyncIsExact(counters: map<Wallet, Counters>, next: map<Wallet, Counters>, rows: Rows, key: Key, r: Row,
      only: set<Wallet>)
    requires Exact(counters, rows) && SyncedTo(counters, next, rows[key := r], Some(only))
        && Players(r.seller, r.buyer) <= only
    requires key in rows ==> rows[key].seller == r.seller && (rows[key].buyer == None || rows[key].buyer == r.buyer)
    ensures Exact(next, rows[key := r])
  {
    var rows' := rows[key := r];
    forall w | w in next ensures next[w] == CountersOf(rows', w) {
      if w !in only {
        forall k | k in rows' && Plays(rows'[k], w) ensures k in rows && k != key && rows[k] == rows'[k] {}
        assert forall st :: Having(rows', w, st) == Having(rows, w, st) by {
          forall st ensures Having(rows', w, st) == Having(rows, w, st) { SameHaving(rows, key, r, w, st); }
        }
      }
    }
  }

  lemma SameHaving(rows: Rows, key: Key, r: Row, w: Wallet, st: State)
    requires w !in Players(r.seller, r.buyer)
    requires key in rows ==> rows[key].seller == r.seller && (rows[key].buyer == None || rows[key].buyer == r.buyer)
    ensures Having(rows[key := r], w, st) == Having(rows, w, st)
  {
    var rows' := rows[key := r];
    forall k ensures k in Having(rows', w, st) <==> k in Having(rows, w, st) {
      if k == key {
        assert !Plays(r, w);
        assert key in rows ==> !Plays(rows[key], w);
      } else {
        assert k in rows' <==> k in rows;
      }
    }
  }

  /** After a safe outcome of an account, recomputing its two parties leaves every wallet's counters exact. */
  lemma OutcomeKeepsExact(rows: Rows, p: Pda, seller: Wallet, ls: seq<Listing>, recorded: set<nat>, k: nat, e: Outcome,
                          counters: map<Wallet, Counters>, next: map<Wallet, Counters>)
    requires History(ls) && Faithful(rows, p, seller, ls, recorded) && k < |ls| && k !in recorded
        && OutcomeOf(e, seller, ls[k])
    requires UsesOrder(e) && e.order.value.listedAt == ls[k].listedAt ==> ReadOf(e.order.value, seller, ls[k])
    requires OutcomeIsSafe(rows, p, ls[k], e) && Exact(counters, rows)
    requires Target(rows, p, e).Some? && SyncedTo(counters, next, Recorded(rows, p, e), Some(SyncSet(rows, p, e)))
    ensures Exact(next, Recorded(rows, p, e))
  {
    SafeTarget(rows, p, seller, ls, recorded, k, e);
    EndIsLate(ls, k);
    NoPlaceholderYet(rows, p, seller, ls, recorded, k);
    var own := Target(rows, p, e).value;
    if own in rows { OwnOf(rows, p, seller, ls, recorded, k); }
    KnownOwn(rows, p, e, own);
    hide Target, Exact, SyncedTo, History, Faithful, Max, NewRow;
    RecordedAt(rows, p, e, own);
    var r := Recorded(rows, p, e)[own];
    assert Recorded(rows, p, e) == rows[own := r];
    PartSyncIsExact(counters, next, rows, own, r, SyncSet(rows, p, e));
  }

  lemma KnownOwn(rows: Rows, p: Pda, e: Outcome, own: Key)
    requires Target(rows, p, e) == Some(own) && e.at.Some?
    ensures !UsesOrder(e) && Inhabited(KnownTimes(rows, p, e.at)) ==> own in rows && own.at >= 0
  {
    hide Max;
    if Inhabited(KnownTimes(rows, p, e.at)) { assert Max(KnownTimes(rows, p, e.at)) in KnownTimes(rows, p, e.at); }
  }

  // ---------- many accounts ----------

  /** What really happened: for each order account its seller and its listings. */
  datatype Truth = Truth(seller: Pda -> Wallet, listings: Pda -> seq<Listing>)

  /** The tables, and (for the statements) which outcomes were recorded: account and position of the listing. */
  datatype Store = Store(rows: Rows, counters: map<Wallet, Counters>, recorded: set<(Pda, nat)>)

  /** An account as read, and which of its listings it shows. */
  datatype Seen = Seen(p: Pda, listing: nat, account: Account)

  /** One transaction: all accounts read by the reconcile job, or an outcome with the listing its Order shows. */
  datatype Change = Reconcile(shown: seq<Seen>) | Settle(p: Pda, listing: nat, outcome: Outcome, orderOf: nat)

  function Of(recorded: set<(Pda, nat)>, p: Pda): set<nat> { set x | x in recorded && x.0 == p :: x.1 }

  function WalletsOf(counters: map<Wallet, Counters>, rows: Rows): set<Wallet> {
    counters.Keys + (set k | k in rows :: rows[k].seller)
        + (set k | k in rows && rows[k].buyer.Some? :: rows[k].buyer.value)
  }

  /** The counters that sync_escrow_counters leaves behind. */
  function Synced(counters: map<Wallet, Counters>, rows: Rows, only: Option<set<Wallet>>): map<Wallet, Counters> {
    map w | w in WalletsOf(counters, rows) ::
      if only == None || w in only.value then CountersOf(rows, w)
      else if w in counters then counters[w] else Counters(0, 0)
  }

  lemma SyncedIs(counters: map<Wallet, Counters>, rows: Rows, only: Option<set<Wallet>>)
    ensures SyncedTo(counters, Synced(counters, rows, only), rows, only)
  {
    hide CountersOf;
    forall w ensures w in WalletsOf(counters, rows) <==> w in counters || exists k :: k in rows && Plays(rows[k], w) {
      if k :| k in rows && Plays(rows[k], w) { assert w in WalletsOf(counters, rows); }
    }
  }

  lemma SyncedOnly(counters: map<Wallet, Counters>, next: map<Wallet, Counters>, rows: Rows, only: Option<set<Wallet>>)
    requires SyncedTo(counters, next, rows, only)
    ensures next == Synced(counters, rows, only)
  {
    SyncedIs(counters, rows, only);
    hide CountersOf, Plays;
    assert next.Keys == Synced(counters, rows, only).Keys;
  }

  ghost function ReadAll(rows: Rows, shown: seq<Seen>): Rows
    decreases |shown|
  {
    if shown == [] then rows else ReadAll(Upserted(rows, shown[0].p, shown[0].account), shown[1..])
  }

  ghost function Apply(s: Store, c: Change): Store {
    match c
    case Reconcile(shown) =>
      var rows := ReadAll(s.rows, shown);
      Store(rows, Synced(s.counters, rows, None), s.recorded)
    case Settle(p, k, e, _) =>
      var rows := Recorded(s.rows, p, e);
      if Target(s.rows, p, e) == None then s
      else Store(rows, Synced(s.counters, rows, Some(SyncSet(s.rows, p, e))), s.recorded + {(p, k)})
  }

  ghost function Run(s: Store, cs: seq<Change>): Store
    decreases |cs|
  {
    if cs == [] then s else Run(Apply(s, cs[0]), cs[1..])
  }

  /** Every account's rows tell the truth, each of its recorded outcomes is one row, and all counters are exact. */
  ghost predicate AllFaithful(t: Truth, rows: Rows, recorded: set<(Pda, nat)>) {
    forall p :: Faithful(rows, p, t.seller(p), t.listings(p), Of(recorded, p))
  }

  ghost predicate Right(t: Truth, s: Store) { AllFaithful(t, s.rows, s.recorded) && Exact(s.counters, s.rows) }

  ghost predicate Real(t: Truth) { forall p :: History(t.listings(p)) }

  predicate TrueRead(t: Truth, x: Seen) {
    x.listing < |t.listings(x.p)| && ReadOf(x.account, t.seller(x.p), t.listings(x.p)[x.listing])
  }

  /** The outcome is the one of its listing, not recorded before, and an Order that came with it is a true read. */
  predicate TrueOutcome(t: Truth, recorded: set<(Pda, nat)>, p: Pda, k: nat, e: Outcome, orderOf: nat) {
    && k < |t.listings(p)| && (p, k) !in recorded && OutcomeOf(e, t.seller(p), t.listings(p)[k])
    && (e.order.Some? ==> TrueRead(t, Seen(p, orderOf, e.order.value)))
  }

  ghost predicate SafeReads(t: Truth, rows: Rows, shown: seq<Seen>)
    decreases |shown|
  {
    shown == [] ||
      (&& TrueRead(t, shown[0])
       && ReadIsSafe(rows, shown[0].p, t.listings(shown[0].p)[shown[0].listing], shown[0].account)
       && SafeReads(t, Upserted(rows, shown[0].p, shown[0].account), shown[1..]))
  }

  ghost predicate Safe(t: Truth, s: Store, c: Change) {
    match c
    case Reconcile(shown) => SafeReads(t, s.rows, shown)
    case Settle(p, k, e, of) => TrueOutcome(t, s.recorded, p, k, e, of) && OutcomeIsSafe(s.rows, p, t.listings(p)[k], e)
  }

  ghost predicate SafeRun(t: Truth, s: Store, cs: seq<Change>)
    decreases |cs|
  {
    cs == [] || (Safe(t, s, cs[0]) && SafeRun(t, Apply(s, cs[0]), cs[1..]))
  }

  /** A write to one account leaves the rows of the others as they were. */
  lemma OthersFaithful(rows: Rows, next: Rows, p: Pda, seller: Wallet, ls: seq<Listing>, recorded: set<nat>)
    requires Faithful(rows, p, seller, ls, recorded)
    requires forall key: Key :: key.pda == p ==>
        (key in rows <==> key in next) && (key in rows ==> rows[key] == next[key])
    ensures Faithful(next, p, seller, ls, recorded)
  {
    hide OwnRow, HeldRow;
    forall k | k in recorded ensures OneRow(next, p, ls[k]) {
      var own := Key(p, ls[k].listedAt);
      assert Key(p, ls[k].listedAt).pda == p && OneRow(rows, p, ls[k]);
      var held := Key(p, -ls[k].end.value.1);
      assert held.pda == p;
    }
  }

  lemma ReadKeepsAll(t: Truth, rows: Rows, recorded: set<(Pda, nat)>, x: Seen)
    requires Real(t) && AllFaithful(t, rows, recorded) && TrueRead(t, x)
    requires ReadIsSafe(rows, x.p, t.listings(x.p)[x.listing], x.account)
    ensures AllFaithful(t, Upserted(rows, x.p, x.account), recorded)
  {
    hide Faithful, History, Upserted, ReadOf, ReadIsSafe, Of;
    var next := Upserted(rows, x.p, x.account);
    forall q ensures Faithful(next, q, t.seller(q), t.listings(q), Of(recorded, q)) {
      if q == x.p {
        SafeRead(rows, q, t.seller(q), t.listings(q), Of(recorded, q), x.listing, x.account);
      } else {
        forall key: Key | key.pda == q
          ensures (key in rows <==> key in next) && (key in rows ==> rows[key] == next[key])
        {
          UpsertedAt(rows, x.p, x.account, key);
        }
        OthersFaithful(rows, next, q, t.seller(q), t.listings(q), Of(recorded, q));
      }
    }
  }

  lemma {:induction false} ReadsKeepAll(t: Truth, rows: Rows, recorded: set<(Pda, nat)>, shown: seq<Seen>)
    requires Real(t) && AllFaithful(t, rows, recorded) && SafeReads(t, rows, shown)
    ensures AllFaithful(t, ReadAll(rows, shown), recorded)
    decreases |shown|
  {
    hide AllFaithful, Real, Upserted, ReadIsSafe, TrueRead;
    if shown != [] {
      ReadKeepsAll(t, rows, recorded, shown[0]);
      ReadsKeepAll(t, Upserted(rows, shown[0].p, shown[0].account), recorded, shown[1..]);
    }
  }

  lemma OfMore(recorded: set<(Pda, nat)>, p: Pda, k: nat, q: Pda)
    ensures Of(recorded + {(p, k)}, q) == if q == p then Of(recorded, p) + {k} else Of(recorded, q)
    ensures k in Of(recorded, p) <==> (p, k) in recorded
  {
    var more := recorded + {(p, k)};
    forall i ensures i in Of(recorded, q) <==> (q, i) in recorded {
      if (q, i) in recorded { assert (q, i).0 == q && (q, i).1 == i; }
    }
    forall i ensures i in Of(more, q) <==> (q, i) in more {
      if (q, i) in more { assert (q, i).0 == q && (q, i).1 == i; }
    }
    forall i ensures i in Of(recorded, p) <==> (p, i) in recorded {
      if (p, i) in recorded { assert (p, i).0 == p && (p, i).1 == i; }
    }
  }

  lemma OutcomeKeepsAll(t: Truth, rows: Rows, recorded: set<(Pda, nat)>, p: Pda, k: nat, e: Outcome, of: nat)
    requires Real(t) && AllFaithful(t, rows, recorded) && TrueOutcome(t, recorded, p, k, e, of)
    requires OutcomeIsSafe(rows, p, t.listings(p)[k], e)
    ensures AllFaithful(t, Recorded(rows, p, e), recorded + {(p, k)})
  {
    OrderFits(t, recorded, p, k, e, of);
    EndIsLate(t.listings(p), k);
    OfMore(recorded, p, k, p);
    hide Faithful, History, Recorded, ReadOf, OutcomeIsSafe, Of;
    var next := Recorded(rows, p, e);
    forall q ensures Faithful(next, q, t.seller(q), t.listings(q), Of(recorded + {(p, k)}, q)) {
      OfMore(recorded, p, k, q);
      if q == p {
        SafeOutcome(rows, p, t.seller(p), t.listings(p), Of(recorded, p), k, e);
      } else {
        forall key: Key | key.pda == q
          ensures (key in rows <==> key in next) && (key in rows ==> rows[key] == next[key])
        {
          RecordedAt(rows, p, e, key);
        }
        OthersFaithful(rows, next, q, t.seller(q), t.listings(q), Of(recorded, q));
      }
    }
  }

  lemma OrderFits(t: Truth, recorded: set<(Pda, nat)>, p: Pda, k: nat, e: Outcome, of: nat)
    requires Real(t) && TrueOutcome(t, recorded, p, k, e, of)
    ensures var l := t.listings(p)[k];
      UsesOrder(e) && e.order.value.listedAt == l.listedAt ==> ReadOf(e.order.value, t.seller(p), l)
  {
    hide Fits, History;
    if e.order.Some? && of != k { TimesDiffer(t.listings(p), of, k); }
  }

  lemma SafeChange(t: Truth, s: Store, c: Change)
    requires Real(t) && Right(t, s) && Safe(t, s, c)
    ensures Right(t, Apply(s, c))
  {
    hide AllFaithful, Real, Exact, SyncedTo, Synced, Recorded, Target, SyncSet, OutcomeIsSafe, TrueOutcome, ReadAll;
    match c {
      case Reconcile(shown) =>
        ReadsKeepAll(t, s.rows, s.recorded, shown);
        SyncedIs(s.counters, ReadAll(s.rows, shown), None);
        FullSyncIsExact(s.counters, Apply(s, c).counters, ReadAll(s.rows, shown));
      case Settle(p, k, e, of) =>
        OutcomeKeepsAll(t, s.rows, s.recorded, p, k, e, of);
        SettleIsExact(t, s, p, k, e, of);
    }
  }

  lemma SettleIsExact(t: Truth, s: Store, p: Pda, k: nat, e: Outcome, of: nat)
    requires Real(t) && Right(t, s) && TrueOutcome(t, s.recorded, p, k, e, of)
    requires OutcomeIsSafe(s.rows, p, t.listings(p)[k], e)
    ensures Target(s.rows, p, e).Some?
    ensures Exact(Synced(s.counters, Recorded(s.rows, p, e), Some(SyncSet(s.rows, p, e))), Recorded(s.rows, p, e))
  {
    OrderFits(t, s.recorded, p, k, e, of);
    OfMore(s.recorded, p, k, p);
    SomeTarget(s.rows, p, e);
    hide Faithful, History, Exact, SyncedTo, Synced, Recorded, Target, SyncSet, OutcomeIsSafe, ReadOf, Of;
    var rows := Recorded(s.rows, p, e);
    var only := Some(SyncSet(s.rows, p, e));
    SyncedIs(s.counters, rows, only);
    OutcomeKeepsExact(s.rows, p, t.seller(p), t.listings(p), Of(s.recorded, p), k, e, s.counters,
        Synced(s.counters, rows, only));
  }

  lemma SomeTarget(rows: Rows, p: Pda, e: Outcome)
    requires e.seller.Some?
    ensures Target(rows, p, e).Some?
  {}

  /**
   * In every safe run over any number of accounts, reads and outcomes interleaved: every row tells the truth, each
   * recorded outcome stays exactly one row, and every wallet's counters equal its released and disputed rows.
   */
  lemma {:induction false} RunIsRight(t: Truth, s: Store, cs: seq<Change>)
    requires Real(t) && Right(t, s) && SafeRun(t, s, cs)
    ensures Right(t, Run(s, cs))
    decreases |cs|
  {
    hide Real, Right, Safe, Apply;
    if cs != [] {
      SafeChange(t, s, cs[0]);
      RunIsRight(t, Apply(s, cs[0]), cs[1..]);
    }
  }

  lemma {:induction false} ReadsKeepFinal(rows: Rows, shown: seq<Seen>, key: Key)
    requires key in rows && key.at >= 0 && Terminal(rows[key].state)
    ensures key in ReadAll(rows, shown) && ReadAll(rows, shown)[key] == rows[key]
    decreases |shown|
  {
    hide Upserted;
    if shown != [] {
      UpsertedAt(rows, shown[0].p, shown[0].account, key);
      ReadsKeepFinal(Upserted(rows, shown[0].p, shown[0].account), shown[1..], key);
    }
  }

  /** Over every run, safe or not, a listing's final row stays and stays final. */
  lemma {:induction false} RunKeepsFinal(s: Store, cs: seq<Change>, key: Key)
    requires key in s.rows && key.at >= 0 && Terminal(s.rows[key].state)
    requires forall i :: 0 <= i < |cs| && cs[i].Settle? ==> Terminal(cs[i].outcome.state)
    ensures key in Run(s, cs).rows && Terminal(Run(s, cs).rows[key].state)
    decreases |cs|
  {
    hide Upserted, Recorded, Target, Synced, SyncSet;
    if cs != [] {
      match cs[0] {
        case Reconcile(shown) => ReadsKeepFinal(s.rows, shown, key);
        case Settle(p, _, e, _) => FinalStaysFinal(s.rows, p, Account(0, 0, None, 0, E.Listed), e, key);
      }
      RunKeepsFinal(Apply(s, cs[0]), cs[1..], key);
    }
  }

  // ---------- a condition on the schedule alone ----------

  /** What the order of reads and outcomes tells: listings read, outcomes waiting in placeholders, outcomes recorded. */
  datatype Schedule = Schedule(seen: set<(Pda, nat)>, held: set<(Pda, nat)>, recorded: set<(Pda, nat)>)

  /** No outcome of a later listing waits, and the own one meets a read that shows the buyer. */
  predicate ReadInOrder(d: Schedule, x: Seen) {
    forall i :: i in d.held && i.0 == x.p ==> i.1 < x.listing || (i.1 == x.listing && x.account.buyer.Some?)
  }

  function AfterRead(d: Schedule, x: Seen): Schedule {
    d.(seen := d.seen + {(x.p, x.listing)}, held := d.held - {(x.p, x.listing)})
  }

  predicate ReadsInOrder(d: Schedule, shown: seq<Seen>)
    decreases |shown|
  {
    shown == [] || (ReadInOrder(d, shown[0]) && ReadsInOrder(AfterRead(d, shown[0]), shown[1..]))
  }

  function AfterReads(d: Schedule, shown: seq<Seen>): Schedule
    decreases |shown|
  {
    if shown == [] then d else AfterReads(AfterRead(d, shown[0]), shown[1..])
  }

  /** The listing comes with its own Order, or was read before, or no listing up to it was. */
  predicate OutcomeInOrder(d: Schedule, p: Pda, k: nat, e: Outcome, orderOf: nat) {
    if UsesOrder(e) then orderOf == k else (p, k) in d.seen || forall i :: i in d.seen && i.0 == p ==> k < i.1
  }

  function AfterOutcome(d: Schedule, p: Pda, k: nat, e: Outcome): Schedule {
    Schedule(if UsesOrder(e) then d.seen + {(p, k)} else d.seen,
             if UsesOrder(e) || (p, k) in d.seen then d.held else d.held + {(p, k)},
             d.recorded + {(p, k)})
  }

  predicate InOrder(d: Schedule, cs: seq<Change>)
    decreases |cs|
  {
    cs == [] ||
      match cs[0]
      case Reconcile(shown) => ReadsInOrder(d, shown) && InOrder(AfterReads(d, shown), cs[1..])
      case Settle(p, k, e, of) => OutcomeInOrder(d, p, k, e, of) && InOrder(AfterOutcome(d, p, k, e), cs[1..])
  }

  /** Only true reads and outcomes arrive, each outcome once. */
  ghost predicate TrueRun(t: Truth, recorded: set<(Pda, nat)>, cs: seq<Change>)
    decreases |cs|
  {
    cs == [] ||
      match cs[0]
      case Reconcile(shown) => (forall x :: x in shown ==> TrueRead(t, x)) && TrueRun(t, recorded, cs[1..])
      case Settle(p, k, e, of) => TrueOutcome(t, recorded, p, k, e, of) && TrueRun(t, recorded + {(p, k)}, cs[1..])
  }

  /** Of listing `j` of account `p` the schedule knows what the table holds. */
  predicate LinkedAt(t: Truth, rows: Rows, d: Schedule, p: Pda, j: nat)
    requires j < |t.listings(p)|
  {
    var l := t.listings(p)[j];
    && ((p, j) in d.seen <==> Key(p, l.listedAt) in rows)
    && (Settled(l) ==> ((p, j) in d.held <==> Key(p, -l.end.value.1) in rows))
    && ((p, j) in d.held ==> Settled(l))
  }

  ghost predicate Linked(t: Truth, rows: Rows, d: Schedule) {
    && (forall p, j: nat :: j < |t.listings(p)| ==> LinkedAt(t, rows, d, p, j))
    && (forall x :: x in d.held ==> x.1 < |t.listings(x.0)|)
  }

  lemma InOrderReadIsSafe(t: Truth, rows: Rows, d: Schedule, x: Seen)
    requires Real(t) && AllFaithful(t, rows, d.recorded) && Linked(t, rows, d) && TrueRead(t, x) && ReadInOrder(d, x)
    ensures ReadIsSafe(rows, x.p, t.listings(x.p)[x.listing], x.account)
  {
    hide Faithful, History, OneRow;
    var p, ls := x.p, t.listings(x.p);
    var l := ls[x.listing];
    forall u | u in PlaceholderTimes(rows, p, l.listedAt)
      ensures Settled(l) && u == l.end.value.1 && x.account.buyer == l.buyer
    {
      var i := HeldOf(rows, p, t.seller(p), ls, Of(d.recorded, p), -u);
      assert LinkedAt(t, rows, d, p, i);
      assert (p, i) in d.held && (p, i).0 == p;
      if i < x.listing { EndedBefore(ls, i, x.listing); }
    }
  }

  lemma EndedBefore(ls: seq<Listing>, i: nat, j: nat)
    requires History(ls) && i < j < |ls|
    ensures ls[i].end.Some? && ls[i].listedAt <= ls[i].end.value.1 < ls[j].listedAt
  {}

  lemma LinkedAfterRead(t: Truth, rows: Rows, d: Schedule, x: Seen)
    requires Real(t) && Linked(t, rows, d) && TrueRead(t, x) && ReadInOrder(d, x)
    ensures Linked(t, Upserted(rows, x.p, x.account), AfterRead(d, x))
  {
    hide Upserted, History, Fits;
    var next, ls := Upserted(rows, x.p, x.account), t.listings(x.p);
    forall p, j: nat | j < |t.listings(p)| ensures LinkedAt(t, next, AfterRead(d, x), p, j) {
      var l := t.listings(p)[j];
      assert LinkedAt(t, rows, d, p, j);
      UpsertedAt(rows, x.p, x.account, Key(p, l.listedAt));
      if p == x.p && j != x.listing { TimesDiffer(ls, j, x.listing); }
      if Settled(l) {
        EndIsLate(t.listings(p), j);
        UpsertedAt(rows, x.p, x.account, Key(p, -l.end.value.1));
        if p == x.p && j < x.listing { EndedBefore(ls, j, x.listing); }
        if p == x.p && (p, j) in d.held { assert (p, j).0 == x.p; }
      }
    }
  }

  lemma InOrderOutcomeIsSafe(t: Truth, rows: Rows, d: Schedule, p: Pda, k: nat, e: Outcome, of: nat)
    requires Real(t) && AllFaithful(t, rows, d.recorded) && Linked(t, rows, d)
    requires TrueOutcome(t, d.recorded, p, k, e, of) && OutcomeInOrder(d, p, k, e, of)
    ensures OutcomeIsSafe(rows, p, t.listings(p)[k], e)
  {
    hide History, OneRow, HeldRow, Fits;
    var ls := t.listings(p);
    assert LinkedAt(t, rows, d, p, k);
    if !UsesOrder(e) && (p, k) !in d.seen {
      forall u | u in KnownTimes(rows, p, e.at) ensures false {
        assert OwnRow(rows[Key(p, u)], u, t.seller(p), ls);
        var j: nat :| j < |ls| && ls[j].listedAt == u && Fits(rows[Key(p, u)], t.seller(p), ls[j]);
        assert LinkedAt(t, rows, d, p, j);
        assert (p, j) in d.seen && (p, j).0 == p;
        EndedBefore(ls, k, j);
      }
    }
  }

  lemma LinkedAfterOutcome(t: Truth, rows: Rows, d: Schedule, p: Pda, k: nat, e: Outcome, of: nat)
    requires Real(t) && AllFaithful(t, rows, d.recorded) && Linked(t, rows, d)
    requires TrueOutcome(t, d.recorded, p, k, e, of) && OutcomeInOrder(d, p, k, e, of)
    ensures Linked(t, Recorded(rows, p, e), AfterOutcome(d, p, k, e))
  {
    InOrderOutcomeIsSafe(t, rows, d, p, k, e, of);
    SafeTarget(rows, p, t.seller(p), t.listings(p), Of(d.recorded, p), k, e);
    EndIsLate(t.listings(p), k);
    assert LinkedAt(t, rows, d, p, k);
    hide Recorded, Target, History, Faithful, Fits, OutcomeIsSafe, UsesOrder, LinkedAt, AfterOutcome;
    var next := Recorded(rows, p, e);
    forall q, j: nat | j < |t.listings(q)| ensures LinkedAt(t, next, AfterOutcome(d, p, k, e), q, j) {
      assert LinkedAt(t, rows, d, q, j);
      RecordedAt(rows, p, e, Key(q, t.listings(q)[j].listedAt));
      if Settled(t.listings(q)[j]) { RecordedAt(rows, p, e, Key(q, -t.listings(q)[j].end.value.1)); }
      LinkedPair(t, rows, next, d, p, k, e, q, j);
    }
    forall x | x in AfterOutcome(d, p, k, e).held ensures x.1 < |t.listings(x.0)| { HeldAfter(d, p, k, e, x); }
  }

  lemma HeldAfter(d: Schedule, p: Pda, k: nat, e: Outcome, x: (Pda, nat))
    requires x in AfterOutcome(d, p, k, e).held
    ensures x in d.held || x == (p, k)
  {}

  /** The one new key is the own row or the placeholder of the recorded listing. */
  lemma LinkedPair(t: Truth, rows: Rows, next: Rows, d: Schedule, p: Pda, k: nat, e: Outcome, q: Pda, j: nat)
    requires Real(t) && k < |t.listings(p)| && Settled(t.listings(p)[k]) && j < |t.listings(q)|
    requires LinkedAt(t, rows, d, p, k) && LinkedAt(t, rows, d, q, j)
    requires var l, m := t.listings(p)[k], t.listings(q)[j];
      var own := if UsesOrder(e) || Key(p, l.listedAt) in rows then Key(p, l.listedAt) else Key(p, -l.end.value.1);
      && (Key(q, m.listedAt) in next <==> Key(q, m.listedAt) in rows || Key(q, m.listedAt) == own)
      && (Settled(m) ==>
            (Key(q, -m.end.value.1) in next <==> Key(q, -m.end.value.1) in rows || Key(q, -m.end.value.1) == own))
    ensures LinkedAt(t, next, AfterOutcome(d, p, k, e), q, j)
  {
    hide History, UsesOrder;
    EndIsLate(t.listings(p), k);
    if Settled(t.listings(q)[j]) { EndIsLate(t.listings(q), j); }
    if q == p && j != k { TimesDiffer(t.listings(p), j, k); }
  }

  lemma {:induction false} ReadsInOrderAreSafe(t: Truth, rows: Rows, d: Schedule, shown: seq<Seen>)
    requires Real(t) && AllFaithful(t, rows, d.recorded) && Linked(t, rows, d)
    requires (forall x :: x in shown ==> TrueRead(t, x)) && ReadsInOrder(d, shown)
    ensures SafeReads(t, rows, shown) && Linked(t, ReadAll(rows, shown), AfterReads(d, shown))
    ensures AfterReads(d, shown).recorded == d.recorded
    decreases |shown|
  {
    hide AllFaithful, Real, Linked, Upserted, ReadIsSafe, TrueRead, ReadInOrder;
    if shown != [] {
      InOrderReadIsSafe(t, rows, d, shown[0]);
      LinkedAfterRead(t, rows, d, shown[0]);
      ReadKeepsAll(t, rows, d.recorded, shown[0]);
      ReadsInOrderAreSafe(t, Upserted(rows, shown[0].p, shown[0].account), AfterRead(d, shown[0]), shown[1..]);
    }
  }

  /** A run in order is safe: the condition looks only at which listing each read and outcome is about. */
  lemma {:induction false} InOrderIsSafe(t: Truth, s: Store, d: Schedule, cs: seq<Change>)
    requires Real(t) && Right(t, s) && d.recorded == s.recorded && Linked(t, s.rows, d)
    requires TrueRun(t, s.recorded, cs) && InOrder(d, cs)
    ensures SafeRun(t, s, cs)
    decreases |cs|
  {
    hide Real, AllFaithful, Exact, Linked, TrueRead, TrueOutcome, OutcomeInOrder, OutcomeIsSafe, Recorded, Target,
        Synced,
         SyncSet, ReadAll, SafeReads, ReadsInOrder, AfterReads;
    if cs != [] {
      match cs[0] {
        case Reconcile(shown) =>
          ReadsInOrderAreSafe(t, s.rows, d, shown);
          SafeChange(t, s, cs[0]);
          InOrderIsSafe(t, Apply(s, cs[0]), AfterReads(d, shown), cs[1..]);
        case Settle(p, k, e, of) =>
          InOrderOutcomeIsSafe(t, s.rows, d, p, k, e, of);
          LinkedAfterOutcome(t, s.rows, d, p, k, e, of);
          SettleIsExact(t, s, p, k, e, of);
          SafeChange(t, s, cs[0]);
          InOrderIsSafe(t, Apply(s, cs[0]), AfterOutcome(d, p, k, e), cs[1..]);
      }
    }
  }

  const EMPTY := Store(map[], map[], {})
  const UNSEEN := Schedule({}, {}, {})

  /**
   * From empty tables, over any number of accounts: when reads and outcomes come in order, each recorded outcome is
   * exactly one row, every row tells the truth, and every wallet's counters equal its released and disputed rows.
   */
  lemma RunIsFaithful(t: Truth, cs: seq<Change>)
    requires Real(t) && TrueRun(t, {}, cs) && InOrder(UNSEEN, cs)
    ensures Right(t, Run(EMPTY, cs))
    ensures var end := Run(EMPTY, cs);
      forall w :: w in end.counters ==>
        && end.counters[w].ok == |Ended(end.rows, w, E.Released)|
        && end.counters[w].disputed == |Ended(end.rows, w, E.Dispute)|
  {
    EmptyIsRight(t);
    hide Real, Linked, TrueRun, InOrder, SafeRun, Run;
    hide Right, AllFaithful;
    InOrderIsSafe(t, EMPTY, UNSEEN, cs);
    RunIsRight(t, EMPTY, cs);
    CountersAre(t, Run(EMPTY, cs));
  }

  /** The rows in state `st` in which `w` is the seller or the buyer. */
  function Ended(rows: Rows, w: Wallet, st: State): set<Key> {
    set k | k in rows && (rows[k].seller == w || rows[k].buyer == Some(w)) && rows[k].state == st
  }

  lemma CountersAre(t: Truth, s: Store)
    requires Right(t, s)
    ensures forall w :: w in s.counters ==>
        && s.counters[w].ok == |Ended(s.rows, w, E.Released)|
        && s.counters[w].disputed == |Ended(s.rows, w, E.Dispute)|
  {
    hide AllFaithful;
    forall w, st ensures Ended(s.rows, w, st) == Having(s.rows, w, st) {}
  }

  lemma EmptyIsRight(t: Truth)
    ensures Right(t, EMPTY) && Linked(t, EMPTY.rows, UNSEEN)
  {}

  // ---------- the tables as they change ----------

  lemma MaxIs(s: set<int>, m: int)
    requires IsMax(s, m)
    ensures Inhabited(s) && Max(s) == m
  {
    hide Max;
    assert Inhabited(s);
    assert IsMax(s, Max(s));
  }

  class Tables {
    var rows: Rows
    var counters: map<Wallet, Counters>

    constructor ()
      ensures rows == map[] && Exact(counters, rows)
    {
      rows, counters := map[], map[];
    }

    /** The newest placeholder time of `p` not before `listedAt`. */
    method NewestPlaceholder(p: Pda, listedAt: nat) returns (t: Option<int>)
      ensures var times := PlaceholderTimes(rows, p, listedAt);
        match t case None => !Inhabited(times) case Some(m) => IsMax(times, m)
    {
      t := None;
      var left := rows.Keys;
      while left != {}
        invariant left <= rows.Keys
        invariant forall k :: k in rows && k !in left && Cleared(k, p, listedAt) ==> t.Some? && -k.at <= t.value
        invariant t.Some? ==> t.value in PlaceholderTimes(rows, p, listedAt)
      {
        var k :| k in left;
        if k.pda == p && k.at < 0 && -k.at >= listedAt && (t == None || -k.at > t.value) { t := Some(-k.at); }
        left := left - {k};
      }
    }

    method UpsertEscrowOrder(p: Pda, o: Account)
      modifies this
      ensures rows == Upserted(old(rows), p, o) && counters == old(counters)
    {
      hide Max;
      ghost var before := rows;
      var ph := NewestPlaceholder(p, o.listedAt);
      var state := o.state;
      if ph.Some? {
        MaxIs(PlaceholderTimes(rows, p, o.listedAt), ph.value);
        if !Terminal(o.state) { state := rows[Key(p, -ph.value)].state; }
      }
      rows := map k | k in rows && !(k.pda == p && k.at < 0 && -k.at >= o.listedAt) :: rows[k];
      var key := Key(p, o.listedAt);
      if key !in rows {
        rows := rows[key := Row(o.seller, o.buyer, o.price, state)];
      } else if !Terminal(rows[key].state) {
        rows := rows[key := rows[key].(buyer := o.buyer, price := o.price, state := state)];
      }
    }

    /** The part of the reconcile transaction that concerns orders. */
    method ReconcileOrders(shown: seq<Seen>)
      modifies this
      ensures rows == ReadAll(old(rows), shown) && counters == Synced(old(counters), rows, None)
    {
      hide Upserted, Synced, SyncedTo;
      ghost var before := counters;
      for i := 0 to |shown|
        invariant counters == before && ReadAll(rows, shown[i..]) == ReadAll(old(rows), shown)
      {
        UpsertEscrowOrder(shown[i].p, shown[i].account);
        assert shown[i..][1..] == shown[i + 1..];
      }
      SyncEscrowCounters(None);
      SyncedOnly(before, counters, rows, None);
    }

    /** The newest known listing of `p` by `at`. */
    method NewestListing(p: Pda, at: Option<int>) returns (t: Option<int>)
      ensures var times := KnownTimes(rows, p, at);
        match t case None => !Inhabited(times) case Some(m) => IsMax(times, m)
    {
      t := None;
      var left := rows.Keys;
      while left != {}
        invariant left <= rows.Keys
        invariant forall k :: k in rows && k !in left && k.pda == p && k.at >= 0 && (at == None || k.at <= at.value) ==>
            t.Some? && k.at <= t.value
        invariant t.Some? ==> t.value in KnownTimes(rows, p, at)
      {
        var k :| k in left;
        if k.pda == p && k.at >= 0 && (at == None || k.at <= at.value) && (t == None || k.at > t.value) {
          t := Some(k.at);
        }
        left := left - {k};
      }
    }

    /** The outcome and the counters of its listing's participants. */
    method RecordEscrowOutcome(p: Pda, e: Outcome)
      modifies this
      ensures rows == Recorded(old(rows), p, e)
      ensures Target(old(rows), p, e) == None ==> counters == old(counters)
      ensures Target(old(rows), p, e).Some? ==>
                SyncedTo(old(counters), counters, rows, Some(SyncSet(old(rows), p, e)))
    {
      hide Max, SyncedTo;
      var key: Key;
      var only: set<Wallet>;
      if e.order.Some? && (e.at == None || e.order.value.listedAt <= e.at.value) {
        var o := e.order.value;
        key := Key(p, o.listedAt);
        var b := Or(o.buyer, e.buyer);
        only := Players(o.seller, b);
        if key in rows {
          rows := rows[key := rows[key].(buyer := Or(b, rows[key].buyer), price := o.price, state := e.state)];
        } else {
          rows := rows[key := Row(o.seller, b, o.price, e.state)];
        }
      } else {
        var newest := NewestListing(p, e.at);
        if newest.Some? {
          MaxIs(KnownTimes(rows, p, e.at), newest.value);
          key := Key(p, newest.value);
          only := Players(rows[key].seller, Or(rows[key].buyer, e.buyer));
          rows := rows[key := rows[key].(state := e.state, buyer := Or(rows[key].buyer, e.buyer))];
        } else if e.seller.Some? {
          key := Key(p, -(if e.at.Some? then e.at.value else e.ts));
          only := Players(e.seller.value, e.buyer);
          if key in rows {
            rows := rows[key := rows[key].(state := e.state)];
          } else {
            rows := rows[key := Row(e.seller.value, e.buyer, e.price, e.state)];
          }
        } else {
          return;
        }
      }
      SyncEscrowCounters(Some(only));
    }

    method SyncEscrowCounters(only: Option<set<Wallet>>)
      modifies `counters
      ensures SyncedTo(old(counters), counters, rows, only)
    {
      var left := rows.Keys;
      while left != {}
        invariant left <= rows.Keys
        invariant forall w :: w in counters ==> w in old(counters) || exists k :: k in rows && Plays(rows[k], w)
        invariant forall w :: w in old(counters) ==> w in counters && counters[w] == old(counters)[w]
        invariant forall k, w :: k in rows && k !in left && Plays(rows[k], w) ==> w in counters
        invariant forall w :: w in counters && w !in old(counters) ==> counters[w] == Counters(0, 0)
      {
        var k :| k in left;
        var r := rows[k];
        if r.seller !in counters { counters := counters[r.seller := Counters(0, 0)]; }
        if r.buyer.Some? && r.buyer.value !in counters { counters := counters[r.buyer.value := Counters(0, 0)]; }
        left := left - {k};
      }
      counters := map w | w in counters :: if only == None || w in only.value then CountersOf(rows, w) else counters[w];
    }
  }
}
