/**
 * The passport grade on both sides: the program's fold over the scans it records (grade.rs, record_scan.rs) and the
 * verifier's copy, fed by late confirmations in any order and by account reads of any age (proof.py, db.py,
 * reconcile.py).
 */
module PassportGrade {
  import opened Sums

  datatype Grade = A | B | C | D | Void

  const TAMPER_OPENED_NOW := 1
  const TAMPER_OPENED_BEFORE := 2
  const INDICATOR_TRIGGERED := 1
  const FILL_A := 90
  const FILL_B := 60

  /** The fields of a scan that decide its grade, as the message encodes them. */
  datatype Reading = Reading(tamper: nat, heat: nat, hum: nat, fill: nat)

  datatype Passport = Passport(grade: Grade, isVoid: bool)

  // ---------- the program's rule (grade.rs) ----------

  predicate IsOpened(tamper: nat) { tamper == TAMPER_OPENED_NOW || tamper == TAMPER_OPENED_BEFORE }

  predicate IsTriggered(heat: nat, hum: nat) { heat == INDICATOR_TRIGGERED || hum == INDICATOR_TRIGGERED }

  function GradeFromFill(fill: nat): Grade { if fill >= FILL_A then A else if fill >= FILL_B then B else D }

  function ProgramAfterScan(old_: Passport, r: Reading): Passport {
    if old_.isVoid || old_.grade == Void || IsOpened(r.tamper) then Passport(Void, true)
    else if old_.grade == C || IsTriggered(r.heat, r.hum) then Passport(C, false)
    else Passport(GradeFromFill(r.fill), false)
  }

  // ---------- the verifier's rule (proof.py) ----------

  /** compute_grade for a valid tap of a live seal. */
  function ComputeGrade(r: Reading): Grade {
    if r.tamper == TAMPER_OPENED_NOW || r.tamper == TAMPER_OPENED_BEFORE then Void
    else if r.heat == INDICATOR_TRIGGERED || r.hum == INDICATOR_TRIGGERED then C
    else if r.fill >= 90 then A
    else if r.fill >= 60 then B
    else D
  }

  function VerifierAfterScan(old_: Passport, scan: Grade, latest: bool): Passport {
    if old_.isVoid || old_.grade == Void || scan == Void then Passport(Void, true)
    else if old_.grade == C || scan == C then Passport(C, false)
    else Passport(if latest then scan else old_.grade, false)
  }

  /** passport_from_chain. */
  function FromChain(db: Passport, chain: Passport, current: bool): Passport {
    if db.isVoid || chain.isVoid || db.grade == Void || chain.grade == Void then Passport(Void, true)
    else if db.grade == C || chain.grade == C then Passport(C, false)
    else Passport(if current then chain.grade else db.grade, false)
  }

  /** The two implementations of the rule agree on the newest scan, whatever its codes. */
  lemma RulesAgree(p: Passport, r: Reading)
    ensures VerifierAfterScan(p, ComputeGrade(r), true) == ProgramAfterScan(p, r)
  {}

  // ---------- scans ----------

  /** A recorded scan: its seal and counter, and the verifier's event (signing time and row id). */
  datatype Scan = Scan(seal: nat, counter: nat, ts: int, id: nat, reading: Reading)

  /** `a` counts as applied after `b`: on one seal by counter, across seals by signing time, then row id. */
  predicate Newer(a: Scan, b: Scan) {
    if a.seal == b.seal then a.counter > b.counter else a.ts > b.ts || (a.ts == b.ts && a.id > b.id)
  }

  predicate DistinctIds(scans: seq<Scan>) { forall i, j :: 0 <= i < j < |scans| ==> scans[i].id != scans[j].id }

  /** The program's passport after recording `scans` in order. */
  function Fold(p: Passport, scans: seq<Scan>): Passport {
    if scans == [] then p else ProgramAfterScan(Fold(p, scans[..|scans| - 1]), scans[|scans| - 1].reading)
  }

  /** newer_confirmed_scan_exists among the confirmed rows. */
  ghost predicate NewerExists(rows: seq<Scan>, s: Scan) {
    exists i :: 0 <= i < |rows| && rows[i].id != s.id && Newer(rows[i], s)
  }

  /** The verifier's passport after confirming `rows` in order. */
  ghost function Confirmed(p: Passport, rows: seq<Scan>): Passport {
    if rows == [] then p else
      var before, s := rows[..|rows| - 1], rows[|rows| - 1];
      VerifierAfterScan(Confirmed(p, before), ComputeGrade(s.reading), !NewerExists(rows, s))
  }

  // ---------- sticky states ----------

  /** 2 for VOID, 1 for C, 0 for a fill grade. */
  function Rank(p: Passport): nat { if p.isVoid || p.grade == Void then 2 else if p.grade == C then 1 else 0 }

  function ScanRank(s: Scan): nat { Rank(Passport(ComputeGrade(s.reading), false)) }

  /** The void flag and the VOID grade go together. */
  predicate Normal(p: Passport) { p.isVoid <==> p.grade == Void }

  ghost predicate Reaches(p: Passport, scans: seq<Scan>, rank: nat) {
    Rank(p) >= rank || exists s :: s in scans && ScanRank(s) >= rank
  }

  /** Either rule takes the worse of the two ranks. */
  lemma RankAfter(p: Passport, s: Scan, latest: bool)
    ensures var after := VerifierAfterScan(p, ComputeGrade(s.reading), latest);
      && Rank(after) == (if Rank(p) > ScanRank(s) then Rank(p) else ScanRank(s))
  {}

  lemma NormalAfter(p: Passport, s: Scan, latest: bool)
    ensures Normal(p) || latest ==> Normal(VerifierAfterScan(p, ComputeGrade(s.reading), latest))
  {}

  lemma NoReach(p: Passport, rank: nat)
    ensures Reaches(p, [], rank) <==> Rank(p) >= rank
  {}

  lemma MoreReach(p: Passport, before: seq<Scan>, s: Scan, rank: nat)
    ensures Reaches(p, before + [s], rank) <==> Reaches(p, before, rank) || ScanRank(s) >= rank
  {
    assert s in before + [s];
    assert forall x :: x in before + [s] <==> x in before || x == s;
  }

  /** What a reading's fill is worth. */
  function Worth(r: Reading): Grade { if r.fill >= 90 then A else if r.fill >= 60 then B else D }

  /**
   * The program's passport after any scans, from their codes: VOID if it was or some scan says opened (1 or 2), else C
   * if it was or some scan says triggered (1), else the last scan's fill grade.
   */
  lemma {:induction false} FoldIs(p: Passport, scans: seq<Scan>)
    requires scans != []
    ensures Fold(p, scans) == Told(p, AnyOpened(scans), AnyTriggered(scans), Worth(scans[|scans| - 1].reading))
  {
    hide Worth, AnyOpened, AnyTriggered, ProgramAfterScan, Told;
    var before, last := scans[..|scans| - 1], scans[|scans| - 1];
    AnyOf(before, last);
    assert scans == before + [last];
    if before == [] {
      assert Fold(p, before) == p;
      NoneOf();
      FirstTold(p, last.reading);
    } else {
      FoldIs(p, before);
      ToldNext(p, AnyOpened(before), AnyTriggered(before), before[|before| - 1].reading, last.reading);
    }
  }

  function Told(p: Passport, unsealed: bool, triggered: bool, fill: Grade): Passport {
    if p.isVoid || p.grade == Void || unsealed then Passport(Void, true)
    else if p.grade == C || triggered then Passport(C, false)
    else Passport(fill, false)
  }

  lemma FirstTold(p: Passport, r: Reading)
    ensures ProgramAfterScan(p, r) == Told(p, r.tamper in {1, 2}, r.heat == 1 || r.hum == 1, Worth(r))
  {
    WorthIs(r);
  }

  lemma ToldNext(p: Passport, unsealed: bool, triggered: bool, before: Reading, r: Reading)
    ensures ProgramAfterScan(Told(p, unsealed, triggered, Worth(before)), r)
         == Told(p, unsealed || r.tamper in {1, 2}, triggered || r.heat == 1 || r.hum == 1, Worth(r))
  {
    WorthIs(before);
    WorthIs(r);
  }

  ghost predicate AnyOpened(scans: seq<Scan>) { exists s :: s in scans && s.reading.tamper in {1, 2} }

  ghost predicate AnyTriggered(scans: seq<Scan>) {
    exists s :: s in scans && (s.reading.heat == 1 || s.reading.hum == 1)
  }

  lemma NoneOf()
    ensures !AnyOpened([]) && !AnyTriggered([])
  {}

  lemma AnyOf(before: seq<Scan>, s: Scan)
    ensures AnyOpened(before + [s]) <==> AnyOpened(before) || s.reading.tamper in {1, 2}
    ensures AnyTriggered(before + [s]) <==> AnyTriggered(before) || s.reading.heat == 1 || s.reading.hum == 1
  {
    assert s in before + [s];
    assert forall x :: x in before + [s] <==> x in before || x == s;
  }

  lemma WorthIs(r: Reading)
    ensures GradeFromFill(r.fill) == Worth(r) && Worth(r) in {A, B, D}
    ensures r.tamper !in {1, 2} && r.heat != 1 && r.hum != 1 ==> ComputeGrade(r) == Worth(r)
  {}

  /** A fill grade counts unless another confirmed scan is newer: by counter on its seal, else by time, then id. */
  lemma FillCounts(p: Passport, before: seq<Scan>, s: Scan)
    requires var was := Confirmed(p, before); !was.isVoid && was.grade in {A, B, D}
    requires s.reading.tamper !in {1, 2} && s.reading.heat != 1 && s.reading.hum != 1
    ensures Confirmed(p, before + [s])
         == Passport(if Overtaken(before, s) then Confirmed(p, before).grade else Worth(s.reading), false)
  {
    var rows := before + [s];
    assert rows[..|rows| - 1] == before;
    hide NewerExists, Overtaken, Worth, ComputeGrade;
    NewerAmong(before, s);
    WorthIs(s.reading);
  }

  ghost predicate Overtaken(rows: seq<Scan>, s: Scan) {
    exists r :: r in rows && r.id != s.id && (
      if r.seal == s.seal then r.counter > s.counter else r.ts > s.ts || (r.ts == s.ts && r.id > s.id))
  }

  lemma NewerAmong(before: seq<Scan>, s: Scan)
    ensures NewerExists(before + [s], s) <==> Overtaken(before, s)
  {
    var rows := before + [s];
    if i :| 0 <= i < |rows| && rows[i].id != s.id && Newer(rows[i], s) { assert rows[i] in before; }
    if r :| r in before && r.id != s.id && Newer(r, s) {
      var i :| 0 <= i < |before| && before[i] == r;
      assert rows[i] == r;
    }
  }

  lemma {:induction false} FoldRank(p: Passport, scans: seq<Scan>, rank: nat)
    ensures Rank(Fold(p, scans)) >= rank <==> Reaches(p, scans, rank)
    ensures Normal(p) ==> Normal(Fold(p, scans))
  {
    hide Reaches, ComputeGrade, ProgramAfterScan, VerifierAfterScan;
    NoReach(p, rank);
    if scans != [] {
      var before, s := scans[..|scans| - 1], scans[|scans| - 1];
      FoldRank(p, before, rank);
      RulesAgree(Fold(p, before), s.reading);
      RankAfter(Fold(p, before), s, true);
      NormalAfter(Fold(p, before), s, true);
      assert scans == before + [s];
      MoreReach(p, before, s, rank);
    }
  }

  lemma {:induction false} ConfirmedRank(p: Passport, rows: seq<Scan>, rank: nat)
    ensures Rank(Confirmed(p, rows)) >= rank <==> Reaches(p, rows, rank)
    ensures Normal(p) ==> Normal(Confirmed(p, rows))
  {
    hide NewerExists, Reaches, ComputeGrade, VerifierAfterScan;
    NoReach(p, rank);
    if rows != [] {
      var before, s := rows[..|rows| - 1], rows[|rows| - 1];
      ConfirmedRank(p, before, rank);
      RankAfter(Confirmed(p, before), s, !NewerExists(rows, s));
      NormalAfter(Confirmed(p, before), s, !NewerExists(rows, s));
      assert rows == before + [s];
      MoreReach(p, before, s, rank);
    }
  }

  // ---------- any order of confirmation ----------

  /** The scan the program recorded last counts as newer than every other one. */
  predicate NewestDominates(chain: seq<Scan>) {
    chain != [] && forall i :: 0 <= i < |chain| - 1 ==> Newer(chain[|chain| - 1], chain[i])
  }

  /** Once the newest scan is among the rows, a passport without sticky state shows its fill grade. */
  lemma {:induction false} NewestStays(p: Passport, rows: seq<Scan>, newest: Scan)
    requires newest in rows && Rank(Confirmed(p, rows)) == 0
    requires forall i :: 0 <= i < |rows| && rows[i] != newest ==> rows[i].id != newest.id && Newer(newest, rows[i])
    ensures Confirmed(p, rows).grade == ComputeGrade(newest.reading)
  {
    var before, s := rows[..|rows| - 1], rows[|rows| - 1];
    if s == newest {
      assert !NewerExists(rows, s);
    } else {
      assert newest in before;
      var k :| 0 <= k < |rows| && rows[k] == newest;
      assert NewerExists(rows, s);
      NewestStays(p, before, newest);
    }
  }

  /** Confirming the recorded scans in any order ends with the program's passport. */
  lemma AnyOrder(p: Passport, chain: seq<Scan>, order: seq<Scan>)
    requires Normal(p) && DistinctIds(chain) && NewestDominates(chain) && multiset(order) == multiset(chain)
    ensures Confirmed(p, order) == Fold(p, chain)
  {
    hide Fold, Confirmed, NewerExists;
    var newest := chain[|chain| - 1];
    assert newest in multiset(order);
    SameMembers(chain, order);
    SameReach(p, chain, order);
    if Rank(Fold(p, chain)) == 0 {
      forall i | 0 <= i < |order| && order[i] != newest ensures order[i].id != newest.id && Newer(newest, order[i]) {
        assert order[i] in chain;
      }
      NewestStays(p, order, newest);
      NewestOnChain(p, chain);
    }
  }

  lemma SameMembers(chain: seq<Scan>, order: seq<Scan>)
    requires multiset(order) == multiset(chain)
    ensures forall s :: s in order <==> s in chain
  {
    forall s ensures s in order <==> s in chain {
      assert s in order <==> s in multiset(order);
      assert s in chain <==> s in multiset(chain);
    }
  }

  lemma SameReach(p: Passport, chain: seq<Scan>, order: seq<Scan>)
    requires Normal(p) && forall s :: s in order <==> s in chain
    ensures Rank(Confirmed(p, order)) == Rank(Fold(p, chain))
    ensures Normal(Confirmed(p, order)) && Normal(Fold(p, chain))
  {
    hide Fold, Confirmed;
    FoldRank(p, chain, 1);
    FoldRank(p, chain, 2);
    ConfirmedRank(p, order, 1);
    ConfirmedRank(p, order, 2);
  }

  lemma NewestOnChain(p: Passport, chain: seq<Scan>)
    requires chain != [] && Rank(Fold(p, chain)) == 0
    ensures Fold(p, chain).grade == ComputeGrade(chain[|chain| - 1].reading)
  {}

  /** Counters of one seal only rise. */
  predicate Rising(chain: seq<Scan>) {
    forall i, j :: 0 <= i < j < |chain| && chain[i].seal == chain[j].seal ==> chain[i].counter < chain[j].counter
  }

  /** A passport with one seal needs no assumption; with several, signing times must follow the order of recording. */
  lemma OneSealDominates(chain: seq<Scan>)
    requires chain != [] && Rising(chain)
    requires forall i, j :: 0 <= i < j < |chain| ==> chain[i].seal == chain[j].seal || Newer(chain[j], chain[i])
    ensures NewestDominates(chain)
  {}

  /** Without that, the order of recording itself goes wrong when the last grade differs from all the others. */
  lemma DominanceIsNeeded(p: Passport, chain: seq<Scan>, other: nat)
    requires DistinctIds(chain) && other < |chain| - 1 && Newer(chain[other], chain[|chain| - 1])
    requires Rank(Fold(p, chain)) == 0 && Normal(p)
    requires p.grade != ComputeGrade(chain[|chain| - 1].reading)
    requires forall i :: 0 <= i < |chain| - 1 ==>
        ComputeGrade(chain[i].reading) != ComputeGrade(chain[|chain| - 1].reading)
    ensures Confirmed(p, chain) != Fold(p, chain)
  {
    hide Fold, Confirmed;
    var before, s := chain[..|chain| - 1], chain[|chain| - 1];
    SameReach(p, chain, chain);
    NewestOnChain(p, chain);
    assert chain[other].id != s.id;
    NotLatest(p, chain);
    SomeGrade(p, before);
  }

  lemma NotLatest(p: Passport, rows: seq<Scan>)
    requires rows != [] && NewerExists(rows, rows[|rows| - 1]) && Rank(Confirmed(p, rows)) == 0
    ensures Confirmed(p, rows).grade == Confirmed(p, rows[..|rows| - 1]).grade
    ensures Rank(Confirmed(p, rows[..|rows| - 1])) == 0
  {
    hide NewerExists;
  }

  lemma {:induction false} SomeGrade(p: Passport, rows: seq<Scan>)
    requires Rank(Confirmed(p, rows)) == 0
    ensures Confirmed(p, rows).grade == p.grade
            || exists i :: 0 <= i < |rows| && Confirmed(p, rows).grade == ComputeGrade(rows[i].reading)
  {
    hide NewerExists, ComputeGrade;
    if rows != [] {
      var before := rows[..|rows| - 1];
      if Rank(Confirmed(p, before)) == 0 { SomeGrade(p, before); }
    }
  }

  /** The same scans with other readings. */
  function Relabelled(chain: seq<Scan>, readings: seq<Reading>): (r: seq<Scan>)
    requires |readings| == |chain|
    ensures |r| == |chain| && forall i :: 0 <= i < |r| ==> r[i] == chain[i].(reading := readings[i])
  {
    seq(|chain|, i requires 0 <= i < |chain| => chain[i].(reading := readings[i]))
  }

  ghost predicate AgreesAlways(chain: seq<Scan>) {
    forall readings: seq<Reading>, order: seq<Scan> ::
      |readings| == |chain| && multiset(order) == multiset(Relabelled(chain, readings)) ==>
        Confirmed(MINTED, order) == Fold(MINTED, Relabelled(chain, readings))
  }

  /**
   * Every order of confirmation ends right, whatever the scans read, if and only if the last recorded scan is the
   * newest.
   */
  lemma AgreesAlwaysIff(chain: seq<Scan>)
    requires chain != [] && DistinctIds(chain) && Rising(chain)
    ensures AgreesAlways(chain) <==> NewestDominates(chain)
  {
    hide Fold, Confirmed;
    if NewestDominates(chain) {
      forall readings: seq<Reading>, order: seq<Scan>
        | |readings| == |chain| && multiset(order) == multiset(Relabelled(chain, readings))
        ensures Confirmed(MINTED, order) == Fold(MINTED, Relabelled(chain, readings))
      {
        AnyOrder(MINTED, Relabelled(chain, readings), order);
      }
    } else {
      var other :| 0 <= other < |chain| - 1 && !Newer(chain[|chain| - 1], chain[other]);
      var readings := LastIsEmpty(|chain|);
      var worst := Relabelled(chain, readings);
      FillsOnly(worst);
      assert chain[other].id != chain[|chain| - 1].id;
      DominanceIsNeeded(MINTED, worst, other);
    }
  }

  const HALF_FULL := Reading(0, 0, 0, 70)
  const EMPTIED := Reading(0, 0, 0, 10)

  function LastIsEmpty(n: nat): (r: seq<Reading>)
    requires n > 0
    ensures |r| == n && r[n - 1] == EMPTIED && forall i :: 0 <= i < n - 1 ==> r[i] == HALF_FULL
  {
    seq(n, i => if i == n - 1 then EMPTIED else HALF_FULL)
  }

  lemma FillsOnly(scans: seq<Scan>)
    requires forall s :: s in scans ==> s.reading in {HALF_FULL, EMPTIED}
    ensures Rank(Fold(MINTED, scans)) == 0
  {
    hide Fold;
    FoldRank(MINTED, scans, 1);
  }

  /** Two seals, the one signed first recorded last: the program shows D, the verifier, confirming in that order, B. */
  lemma TwoSealsDisagree()
    ensures var chain := [Scan(1, 1, 20, 2, HALF_FULL), Scan(2, 1, 10, 1, EMPTIED)];
      && DistinctIds(chain) && Rising(chain)
      && Fold(MINTED, chain) == Passport(D, false) && Confirmed(MINTED, chain) == Passport(B, false)
  {
    var first, last := Scan(1, 1, 20, 2, HALF_FULL), Scan(2, 1, 10, 1, EMPTIED);
    assert [first, last][..1] == [first] && [first][..0] == [];
    assert Confirmed(MINTED, []) == Fold(MINTED, []) == MINTED;
    assert Newer([first, last][0], last);
    assert Confirmed(MINTED, [first]) == Fold(MINTED, [first]) == Passport(B, false);
  }

  // ---------- the program and the verifier as one state machine ----------

  /** A Passport account as an RPC node may show it. */
  datatype Account = Account(passport: Passport, scanCount: nat)

  /** What the program recorded, and every state of the account so far, the current one last. */
  datatype Chain = Chain(scans: seq<Scan>, last: map<nat, nat>, dead: set<nat>, views: seq<Account>)

  datatype Status = Pending | Failed | Done

  /** A scan signed by the verifier: not anchored yet, given up, or confirmed on chain. */
  datatype Event = Event(scan: Scan, status: Status)

  /** The verifier's side: its passport row, the events by row id, and the confirmed ones in order of confirmation. */
  datatype Copy = Copy(passport: Passport, events: map<nat, Event>, rows: seq<Scan>)

  datatype System = System(chain: Chain, copy: Copy)

  const MINTED := Passport(A, false)

  function Now(c: Chain): Account
    requires c.views != []
  {
    c.views[|c.views| - 1]
  }

  predicate Records(c: Chain, s: Scan)
    requires c.views != []
  {
    && s.seal in c.last && s.seal !in c.dead && s.counter > c.last[s.seal]
    && !Now(c).passport.isVoid && Now(c).passport.grade != Void
  }

  function Recorded(c: Chain, s: Scan): Chain
    requires c.views != []
  {
    Chain(c.scans + [s], c.last[s.seal := s.counter], c.dead,
          c.views + [Account(ProgramAfterScan(Now(c).passport, s.reading), Now(c).scanCount + 1)])
  }

  function MarkedDead(c: Chain, seal: nat): Chain
    requires c.views != []
  {
    c.(dead := c.dead + {seal}, views := c.views + [Now(c).(passport := Passport(Void, true))])
  }

  /** /api/verify signs no tap (seal and counter) twice. */
  predicate Signs(v: Copy, s: Scan) {
    && s.id !in v.events
    && forall id :: id in v.events ==> v.events[id].scan.seal != s.seal || v.events[id].scan.counter != s.counter
  }

  /** has_pending_events */
  predicate HasPending(v: Copy) { exists id :: id in v.events && v.events[id].status == Pending }

  function WithStatus(v: Copy, id: nat, status: Status): Copy
    requires id in v.events
  {
    v.(events := v.events[id := v.events[id].(status := status)])
  }

  /** The event turns confirmed and its grade is applied. */
  ghost function WithScan(v: Copy, id: nat): Copy
    requires id in v.events
  {
    var s := v.events[id].scan;
    Copy(VerifierAfterScan(v.passport, ComputeGrade(s.reading), !NewerExists(v.rows + [s], s)),
         v.events[id := Event(s, Done)], v.rows + [s])
  }

  /** An account without scans teaches nothing unless it is void. */
  predicate Teaches(view: Account) { view.scanCount > 0 || view.passport.isVoid }

  /** The refresh from one account read, left out while an event of the passport is pending. */
  function Refreshed(v: Copy, view: Account): Copy {
    if HasPending(v) || !Teaches(view) then v
    else v.(passport := FromChain(v.passport, view.passport, view.scanCount >= |v.rows|))
  }

  /** `GiveUp`: the timeout of the reconcile job, or a failed transaction; the scan may be on chain all the same. */
  datatype Action =
    | Sign(scan: Scan)
    | Attach(seal: nat)
    | Record(id: nat)
    | MarkDead(seal: nat)
    | GiveUp(id: nat)
    | Confirm(id: nat)
    | ConfirmDead
    | Read(view: nat)

  predicate WellFormed(y: System) { y.chain.views != [] }

  predicate CanRecord(y: System, id: nat)
    requires WellFormed(y)
  {
    id in y.copy.events && Records(y.chain, y.copy.events[id].scan)
  }

  /** Pending and failed events alike are confirmed once their scan is found on chain. */
  predicate CanConfirm(y: System, id: nat) {
    id in y.copy.events && y.copy.events[id].status != Done && y.copy.events[id].scan in y.chain.scans
  }

  ghost function Step(y: System, a: Action): System
    requires WellFormed(y)
  {
    var c, v := y.chain, y.copy;
    match a
    case Sign(s) => if Signs(v, s) then y.(copy := v.(events := v.events[s.id := Event(s, Pending)])) else y
    case Attach(seal) => if seal in c.last then y else y.(chain := c.(last := c.last[seal := 0]))
    case Record(id) => if CanRecord(y, id) then y.(chain := Recorded(c, v.events[id].scan)) else y
    case MarkDead(seal) => if seal !in c.last || seal in c.dead then y else y.(chain := MarkedDead(c, seal))
    case GiveUp(id) =>
      if id in v.events && v.events[id].status == Pending then y.(copy := WithStatus(v, id, Failed)) else y
    case Confirm(id) => if CanConfirm(y, id) then y.(copy := WithScan(v, id)) else y
    case ConfirmDead => if c.dead == {} then y else y.(copy := v.(passport := Passport(Void, true)))
    case Read(i) => if i < |c.views| then y.(copy := Refreshed(v, c.views[i])) else y
  }

  const START := System(Chain([], map[], {}, [Account(MINTED, 0)]), Copy(MINTED, map[], []))

  // ---------- what every interleaving keeps ----------

  ghost predicate ScansSound(c: Chain) {
    && Rising(c.scans) && DistinctIds(c.scans)
    && (forall i :: 0 <= i < |c.scans| ==> c.scans[i].seal in c.last && c.scans[i].counter <= c.last[c.scans[i].seal])
  }

  /** The account after `k` scans. */
  function AccountAfter(scans: seq<Scan>, k: nat): Account
    requires k <= |scans|
  {
    Account(Fold(MINTED, scans[..k]), k)
  }

  /** The states of the account are the folds over the scans, one by one, and VOID for good once a seal is dead. */
  ghost predicate ViewsSound(c: Chain) {
    && |c.views| > |c.scans|
    && (forall k :: 0 <= k <= |c.scans| ==> c.views[k] == AccountAfter(c.scans, k))
    && (forall k :: |c.scans| < k < |c.views| ==> c.views[k] == Account(Passport(Void, true), |c.scans|))
    && (|c.views| == |c.scans| + 1 <==> c.dead == {})
  }

  ghost predicate ChainSound(c: Chain) { ScansSound(c) && ViewsSound(c) }

  /** Only signed scans are recorded, and the confirmed events are those of the rows. */
  ghost predicate EventsSound(y: System) {
    && (forall id :: id in y.copy.events ==> y.copy.events[id].scan.id == id)
    && (forall s :: s in y.chain.scans ==> s.id in y.copy.events && y.copy.events[s.id].scan == s)
    && (forall s :: s in y.copy.rows ==> s in y.chain.scans)
    && (forall id :: id in y.copy.events ==>
        (y.copy.events[id].status == Done <==> y.copy.events[id].scan in y.copy.rows))
    && DistinctIds(y.copy.rows)
  }

  ghost predicate CopySound(y: System)
    requires WellFormed(y)
  {
    && Normal(y.copy.passport) && Rank(y.copy.passport) <= Rank(Now(y.chain).passport)
    && (forall s :: s in y.copy.rows ==> ScanRank(s) <= Rank(y.copy.passport))
    && (y.chain.scans == [] && y.chain.dead == {} ==> y.copy.passport == MINTED)
  }

  ghost predicate Sound(y: System) { WellFormed(y) && ChainSound(y.chain) && EventsSound(y) && CopySound(y) }

  lemma StartIsSound()
    ensures Sound(START)
  {}

  lemma {:induction false} FoldRises(p: Passport, scans: seq<Scan>, k: nat)
    requires k <= |scans|
    ensures Rank(Fold(p, scans[..k])) <= Rank(Fold(p, scans))
    decreases |scans|
  {
    hide ComputeGrade, ProgramAfterScan, VerifierAfterScan;
    if k == |scans| {
      assert scans[..k] == scans;
    } else {
      var before, s := scans[..|scans| - 1], scans[|scans| - 1];
      assert before[..k] == scans[..k];
      FoldRises(p, before, k);
      RulesAgree(Fold(p, before), s.reading);
      RankAfter(Fold(p, before), s, true);
    }
  }

  /** No earlier view is ahead of the current account, which holds every scan's sticky state. */
  lemma ViewsBelow(c: Chain, i: nat)
    requires ViewsSound(c) && i < |c.views|
    ensures Normal(c.views[i].passport) && Rank(c.views[i].passport) <= Rank(Now(c).passport)
    ensures c.views[i].scanCount <= |c.scans| && Now(c).scanCount == |c.scans|
  {
    hide Fold;
    if i <= |c.scans| {
      FoldRises(MINTED, c.scans, i);
      FoldRank(MINTED, c.scans[..i], 0);
      assert c.scans[..|c.scans|] == c.scans;
    }
  }

  lemma ScanBelow(c: Chain, s: Scan)
    requires ViewsSound(c) && s in c.scans
    ensures ScanRank(s) <= Rank(Now(c).passport)
  {
    hide Fold, ComputeGrade;
    FoldRank(MINTED, c.scans, ScanRank(s));
    assert c.scans[..|c.scans|] == c.scans;
  }

  lemma RecordScans(y: System, id: nat)
    requires Sound(y) && CanRecord(y, id)
    ensures ScansSound(Recorded(y.chain, y.copy.events[id].scan))
  {
    hide ComputeGrade, ProgramAfterScan, CopySound, ViewsSound;
    var s := y.copy.events[id].scan;
    forall i | 0 <= i < |y.chain.scans|
        ensures y.chain.scans[i].id != s.id { assert y.chain.scans[i] in y.chain.scans; }
  }

  lemma RecordViews(c: Chain, s: Scan)
    requires ViewsSound(c) && Records(c, s)
    ensures ViewsSound(Recorded(c, s)) && Rank(Now(c).passport) <= Rank(Now(Recorded(c, s)).passport)
  {
    hide ComputeGrade, ProgramAfterScan, VerifierAfterScan;
    var next := Recorded(c, s);
    var n := |c.scans|;
    assert c.scans[..n] == c.scans && next.scans[..n] == c.scans && next.scans[..n + 1] == next.scans;
    forall k | 0 <= k <= n
        ensures next.views[k] == AccountAfter(next.scans, k) { assert next.scans[..k] == c.scans[..k]; }
    RulesAgree(Now(c).passport, s.reading);
    RankAfter(Now(c).passport, s, true);
  }

  lemma RecordSound(y: System, id: nat)
    requires Sound(y)
    ensures Sound(Step(y, Record(id)))
  {
    hide ScansSound, ViewsSound, ComputeGrade, ProgramAfterScan;
    if CanRecord(y, id) {
      RecordScans(y, id);
      RecordViews(y.chain, y.copy.events[id].scan);
    }
  }

  lemma DeadSound(y: System, seal: nat)
    requires Sound(y)
    ensures Sound(Step(y, MarkDead(seal)))
  {
    hide Fold;
    assert y.chain.dead + {seal} != {};
  }

  lemma ConfirmSound(y: System, id: nat)
    requires Sound(y)
    ensures Sound(Step(y, Confirm(id)))
  {
    hide ComputeGrade, ScansSound, ViewsSound, NewerExists, VerifierAfterScan;
    if CanConfirm(y, id) {
      var s := y.copy.events[id].scan;
      var latest := !NewerExists(y.copy.rows + [s], s);
      RankAfter(y.copy.passport, s, latest);
      NormalAfter(y.copy.passport, s, latest);
      ScanBelow(y.chain, s);
    }
  }

  lemma ReadSound(y: System, i: nat)
    requires Sound(y)
    ensures Sound(Step(y, Read(i)))
  {
    hide ComputeGrade, Fold, Rising, HasPending;
    if i < |y.chain.views| {
      ViewsBelow(y.chain, i);
      if y.chain.scans == [] && y.chain.dead == {} { NothingRecorded(y.chain); }
    }
  }

  lemma SignSound(y: System, s: Scan)
    requires Sound(y)
    ensures Sound(Step(y, Sign(s)))
  {
    hide ScansSound, ViewsSound;
    assert s in y.copy.rows ==> s in y.chain.scans;
  }

  lemma AttachSound(y: System, seal: nat)
    requires Sound(y)
    ensures Sound(Step(y, Attach(seal)))
  {
    hide Fold;
  }

  lemma GiveUpSound(y: System, id: nat)
    requires Sound(y)
    ensures Sound(Step(y, GiveUp(id)))
  {
    hide ScansSound, ViewsSound;
  }

  lemma ConfirmDeadSound(y: System)
    requires Sound(y)
    ensures Sound(Step(y, ConfirmDead))
  {
    hide Fold, ScansSound;
  }

  lemma StepSound(y: System, a: Action)
    requires Sound(y)
    ensures Sound(Step(y, a))
  {
    match a {
      case Sign(s) => SignSound(y, s);
      case Attach(seal) => AttachSound(y, seal);
      case Record(id) => RecordSound(y, id);
      case MarkDead(seal) => DeadSound(y, seal);
      case GiveUp(id) => GiveUpSound(y, id);
      case Confirm(id) => ConfirmSound(y, id);
      case ConfirmDead => ConfirmDeadSound(y);
      case Read(i) => ReadSound(y, i);
    }
  }

  lemma StepWellFormed(y: System, a: Action)
    requires WellFormed(y)
    ensures WellFormed(Step(y, a)) && y.chain.scans <= Step(y, a).chain.scans
  {
    hide ComputeGrade, ProgramAfterScan, VerifierAfterScan, NewerExists;
  }

  /** No step loses a sticky state: neither a late scan nor a read of any age takes VOID or C away. */
  lemma StickyStays(y: System, a: Action)
    requires WellFormed(y)
    ensures Rank(y.copy.passport) <= Rank(Step(y, a).copy.passport)
  {
    hide ComputeGrade, NewerExists;
  }

  /**
   * A read of the current account makes both sides agree in every reachable state, unless an event is pending: then
   * nothing changes.
   */
  lemma CurrentReadAgrees(y: System)
    requires Sound(y)
    ensures Step(y, Read(|y.chain.views| - 1)).copy.passport
         == if HasPending(y.copy) then y.copy.passport else Now(y.chain).passport
  {
    hide ComputeGrade, Fold, Rising, HasPending;
    ViewsBelow(y.chain, |y.chain.views| - 1);
    Pigeonhole(y.copy.rows, y.chain.scans);
    if y.chain.scans == [] && y.chain.dead == {} { NothingRecorded(y.chain); }
  }

  lemma NothingRecorded(c: Chain)
    requires ViewsSound(c) && c.scans == [] && c.dead == {}
    ensures Now(c) == Account(MINTED, 0)
  {
    assert c.views[0] == AccountAfter(c.scans, 0);
    assert Fold(MINTED, []) == MINTED;
  }

  /** Distinct rows of the chain are no more than the chain's. */
  lemma {:induction false} Pigeonhole(rows: seq<Scan>, scans: seq<Scan>)
    requires DistinctIds(rows) && forall i :: 0 <= i < |rows| ==> rows[i] in scans
    ensures |rows| <= |scans|
    decreases |rows|
  {
    if rows != [] {
      var s, before := rows[|rows| - 1], rows[..|rows| - 1];
      var k :| 0 <= k < |scans| && scans[k] == s;
      var others := scans[..k] + scans[k + 1..];
      forall i | 0 <= i < |before| ensures before[i] in others {
        var j :| 0 <= j < |scans| && scans[j] == before[i];
        assert j != k;
        assert others[if j < k then j else j - 1] == before[i];
      }
      Pigeonhole(before, others);
    }
  }

  // ---------- where the verifier's fill grade comes from ----------

  /** The fill grade after `k` scans. */
  function FillAt(scans: seq<Scan>, k: nat): Grade
    requires k <= |scans|
  {
    if k == 0 then MINTED.grade else ComputeGrade(scans[k - 1].reading)
  }

  ghost function Position(scans: seq<Scan>, s: Scan): (k: nat)
    requires s in scans
    ensures k < |scans| && scans[k] == s
  {
    var k: nat :| k < |scans| && scans[k] == s;
    k
  }

  /** The read teaches something and is taken for current. */
  predicate Accepts(y: System, i: nat) {
    && i < |y.chain.views| && !HasPending(y.copy)
    && Teaches(y.chain.views[i]) && y.chain.views[i].scanCount >= |y.copy.rows|
  }

  /**
   * After how many scans the passport was as full as the verifier shows it: set by the newest scan or an accepted read.
   */
  ghost function SourceAfter(y: System, a: Action, source: nat): nat {
    match a
    case Confirm(id) =>
      if CanConfirm(y, id) && !NewerExists(y.copy.rows + [y.copy.events[id].scan], y.copy.events[id].scan)
      then Position(y.chain.scans, y.copy.events[id].scan) + 1 else source
    case Read(i) => if Accepts(y, i) then y.chain.views[i].scanCount else source
    case _ => source
  }

  ghost predicate SourceOk(y: System, source: nat) {
    && source <= |y.chain.scans|
    && (Rank(y.copy.passport) == 0 ==> y.copy.passport.grade == FillAt(y.chain.scans, source))
  }

  lemma SourceStep(y: System, a: Action, source: nat)
    requires Sound(y) && SourceOk(y, source)
    ensures SourceOk(Step(y, a), SourceAfter(y, a, source))
  {
    hide ComputeGrade, Fold, ScansSound, NewerExists, HasPending;
    match a {
      case Read(i) =>
        if i < |y.chain.views| {
          ViewsBelow(y.chain, i);
          if Rank(y.chain.views[i].passport) == 0 { ViewFill(y.chain, i); }
        }
      case _ =>
    }
  }

  lemma ViewFill(c: Chain, i: nat)
    requires ViewsSound(c) && i < |c.views| && Rank(c.views[i].passport) == 0
    ensures c.views[i].scanCount <= |c.scans| && c.views[i].passport.grade == FillAt(c.scans, c.views[i].scanCount)
  {
    var before := c.scans[..c.views[i].scanCount];
    assert c.views[i] == AccountAfter(c.scans, i);
    if before != [] { NewestOnChain(MINTED, before); }
  }

  lemma SoundIsWellFormed(y: System)
    requires Sound(y)
    ensures WellFormed(y)
  {}

  ghost function Run(y: System, as_: seq<Action>): System
    requires WellFormed(y)
    decreases |as_|
  {
    if as_ == [] then y else
      StepWellFormed(y, as_[0]);
      Run(Step(y, as_[0]), as_[1..])
  }

  ghost function SourceOf(y: System, as_: seq<Action>, source: nat): nat
    requires WellFormed(y)
    decreases |as_|
  {
    if as_ == [] then source else
      StepWellFormed(y, as_[0]);
      SourceOf(Step(y, as_[0]), as_[1..], SourceAfter(y, as_[0], source))
  }

  /**
   * Over every interleaving the invariant holds, sticky states stay, and the source tells the verifier's fill grade.
   */
  lemma {:induction false} EveryRun(y: System, as_: seq<Action>, source: nat)
    requires Sound(y) && SourceOk(y, source)
    ensures Sound(Run(y, as_)) && SourceOk(Run(y, as_), SourceOf(y, as_, source))
    ensures Rank(y.copy.passport) <= Rank(Run(y, as_).copy.passport)
    decreases |as_|
  {
    hide Sound, SourceOk, Step, SourceAfter;
    if as_ != [] {
      SoundIsWellFormed(y);
      StepSound(y, as_[0]);
      StickyStays(y, as_[0]);
      SourceStep(y, as_[0], source);
      EveryRun(Step(y, as_[0]), as_[1..], SourceAfter(y, as_[0], source));
    }
  }

  /** Every recorded scan, and a seal's death if there was one, has reached the verifier. */
  predicate Caught(y: System) {
    && (forall s :: s in y.chain.scans ==> s in y.copy.rows)
    && (y.chain.dead == {} || y.copy.passport.isVoid)
  }

  lemma CaughtAgrees(y: System, source: nat)
    requires Sound(y) && SourceOk(y, source) && Caught(y)
    ensures y.copy.passport == Now(y.chain).passport
       <==> Rank(Now(y.chain).passport) > 0 || FillAt(y.chain.scans, source) == FillAt(y.chain.scans, |y.chain.scans|)
  {
    hide ComputeGrade, Fold, ScansSound;
    var c := y.chain;
    ViewsBelow(c, |c.views| - 1);
    if c.dead == {} {
      assert c.scans[..|c.scans|] == c.scans;
      FoldRank(MINTED, c.scans, 1);
      FoldRank(MINTED, c.scans, 2);
      if Rank(Now(c).passport) == 0 { ViewFill(c, |c.views| - 1); }
    }
  }

  /**
   * Over every run, with confirmations in any order and reads of any age: once all is confirmed, the verifier's
   * passport is the program's exactly when it is VOID or C or the last accepted change shows the fill grade of the last
   * scan.
   */
  lemma RunAgreesIff(as_: seq<Action>)
    requires Caught(Run(START, as_))
    ensures var y, source := Run(START, as_), SourceOf(START, as_, 0);
      && WellFormed(y) && source <= |y.chain.scans|
      && (y.copy.passport == Now(y.chain).passport
          <==> Rank(Now(y.chain).passport) > 0
               || FillAt(y.chain.scans, source) == FillAt(y.chain.scans, |y.chain.scans|))
  {
    hide Sound, SourceOf, Run;
    StartIsSound();
    EveryRun(START, as_, 0);
    CaughtAgrees(Run(START, as_), SourceOf(START, as_, 0));
    assert WellFormed(Run(START, as_)) by { SoundIsWellFormed(Run(START, as_)); }
  }

  // ---------- reads that are not stale ----------

  /** Later recorded scans count as newer. */
  predicate Ordered(scans: seq<Scan>) { forall i, j :: 0 <= i < j < |scans| ==> Newer(scans[j], scans[i]) }

  /** The newest confirmed scan is no newer than the source. */
  ghost predicate Covers(y: System, source: nat) {
    forall i :: 0 <= i < |y.chain.scans| && y.chain.scans[i] in y.copy.rows ==> i < source
  }

  /** A read that is taken for current is no older than the newest confirmed scan. */
  ghost predicate Fresh(y: System, a: Action) {
    a.Read? && Accepts(y, a.view) ==> Covers(y, y.chain.views[a.view].scanCount)
  }

  ghost predicate AllFresh(y: System, as_: seq<Action>)
    requires WellFormed(y)
    decreases |as_|
  {
    as_ == [] || (Fresh(y, as_[0]) && (StepWellFormed(y, as_[0]); AllFresh(Step(y, as_[0]), as_[1..])))
  }

  lemma CoversStep(y: System, a: Action, source: nat)
    requires Sound(y) && Ordered(y.chain.scans) && Covers(y, source) && Fresh(y, a)
    ensures Covers(Step(y, a), SourceAfter(y, a, source))
  {
    hide ComputeGrade, ProgramAfterScan, VerifierAfterScan, FromChain, Rising, ViewsSound, CopySound, NewerExists;
    match a {
      case Confirm(id) => if CanConfirm(y, id) { CoversConfirm(y, id, source); }
      case Record(id) => if CanRecord(y, id) { RecordScans(y, id); }
      case _ =>
    }
  }

  lemma CoversConfirm(y: System, id: nat, source: nat)
    requires Sound(y) && Ordered(y.chain.scans) && Covers(y, source) && CanConfirm(y, id)
    ensures Covers(Step(y, Confirm(id)), SourceAfter(y, Confirm(id), source))
  {
    hide ComputeGrade, VerifierAfterScan, Rising, ViewsSound, CopySound;
    var s, scans := y.copy.events[id].scan, y.chain.scans;
    var p := Position(scans, s);
    var rows := y.copy.rows + [s];
    forall i | 0 <= i < |scans| && scans[i] in rows ensures i < SourceAfter(y, Confirm(id), source) {
      if i > p { LaterIsNewer(scans, rows, p, i); }
      if NewerExists(rows, s) {
        var k :| 0 <= k < |rows| && rows[k].id != s.id && Newer(rows[k], s);
        assert rows[k] in y.copy.rows;
        var q := Position(scans, rows[k]);
        assert q > p;
      }
    }
  }

  lemma LaterIsNewer(scans: seq<Scan>, rows: seq<Scan>, p: nat, i: nat)
    requires Ordered(scans) && DistinctIds(scans) && p < i < |scans| && scans[i] in rows
    ensures NewerExists(rows, scans[p])
  {
    var k :| 0 <= k < |rows| && rows[k] == scans[i];
    assert Newer(rows[k], scans[p]) && rows[k].id != scans[p].id;
  }

  lemma {:induction false} RunGrows(y: System, as_: seq<Action>)
    requires WellFormed(y)
    ensures y.chain.scans <= Run(y, as_).chain.scans
    decreases |as_|
  {
    hide Step;
    if as_ != [] {
      StepWellFormed(y, as_[0]);
      RunGrows(Step(y, as_[0]), as_[1..]);
    }
  }

  lemma {:induction false} RunCovers(y: System, as_: seq<Action>, source: nat)
    requires Sound(y) && Covers(y, source) && AllFresh(y, as_) && Ordered(Run(y, as_).chain.scans)
    ensures Covers(Run(y, as_), SourceOf(y, as_, source))
    decreases |as_|
  {
    hide Sound, Step, SourceAfter, Covers, Fresh;
    if as_ != [] {
      SoundIsWellFormed(y);
      StepWellFormed(y, as_[0]);
      RunGrows(y, as_);
      StepSound(y, as_[0]);
      CoversStep(y, as_[0], source);
      RunCovers(Step(y, as_[0]), as_[1..], SourceAfter(y, as_[0], source));
    }
  }

  /** Without stale reads that are taken for current, every run ends with both passports equal once all is confirmed. */
  lemma FreshRunAgrees(as_: seq<Action>)
    requires Caught(Run(START, as_)) && Ordered(Run(START, as_).chain.scans) && AllFresh(START, as_)
    ensures WellFormed(Run(START, as_)) && Run(START, as_).copy.passport == Now(Run(START, as_).chain).passport
  {
    hide Sound, Run, SourceOf, AllFresh, FillAt;
    var y, source := Run(START, as_), SourceOf(START, as_, 0);
    RunAgreesIff(as_);
    StartIsSound();
    RunCovers(START, as_, 0);
    if y.chain.scans != [] { assert y.chain.scans[|y.chain.scans| - 1] in y.chain.scans; }
    assert source == |y.chain.scans|;
  }

  /** One seal, or several whose signing times follow the order of recording, give the order. */
  lemma OneSealIsOrdered(y: System)
    requires Sound(y)
    requires forall i, j :: 0 <= i < j < |y.chain.scans| ==> y.chain.scans[i].seal == y.chain.scans[j].seal
    ensures Ordered(y.chain.scans)
  {
    hide Fold;
  }

  lemma RunOfOneSeal(as_: seq<Action>)
    requires var scans := Run(START, as_).chain.scans;
      forall i, j :: 0 <= i < j < |scans| ==> scans[i].seal == scans[j].seal
    requires Caught(Run(START, as_)) && AllFresh(START, as_)
    ensures WellFormed(Run(START, as_)) && Run(START, as_).copy.passport == Now(Run(START, as_).chain).passport
  {
    hide Sound, Run, AllFresh;
    StartIsSound();
    EveryRun(START, as_, 0);
    OneSealIsOrdered(Run(START, as_));
    FreshRunAgrees(as_);
  }

  /** A read can be stale only when the event of a recorded scan was given up. */
  lemma NoneFailedIsFresh(y: System, i: nat)
    requires Sound(y)
    requires forall id :: id in y.copy.events && y.copy.events[id].status == Failed ==>
        y.copy.events[id].scan !in y.chain.scans
    ensures Fresh(y, Read(i))
  {
    hide Fold, Rising;
    if Accepts(y, i) {
      forall k | 0 <= k < |y.chain.scans| ensures y.chain.scans[k] in y.copy.rows {
        var s := y.chain.scans[k];
        assert s in y.chain.scans;
        assert y.copy.events[s.id].status == Done;
      }
      Pigeonhole(y.chain.scans, y.copy.rows);
    }
  }

  /** The positions on the chain of the confirmed scans. */
  ghost function Positions(scans: seq<Scan>, rows: seq<Scan>): set<nat> { set i: nat | i < |scans| && scans[i] in rows }

  lemma {:induction false} PositionsCount(scans: seq<Scan>, rows: seq<Scan>)
    requires DistinctIds(scans) && DistinctIds(rows) && forall i :: 0 <= i < |rows| ==> rows[i] in scans
    ensures |Positions(scans, rows)| == |rows|
  {
    if rows == [] {
      assert Positions(scans, rows) == {};
    } else {
      var s, before := rows[|rows| - 1], rows[..|rows| - 1];
      var k :| 0 <= k < |scans| && scans[k] == s;
      PositionsCount(scans, before);
      assert s !in before;
      OnePosition(scans, before, k);
      assert rows == before + [s];
    }
  }

  lemma OnePosition(scans: seq<Scan>, before: seq<Scan>, k: nat)
    requires DistinctIds(scans) && k < |scans|
    ensures Positions(scans, before + [scans[k]]) == Positions(scans, before) + {k}
  {
    var rows := before + [scans[k]];
    forall i ensures i in Positions(scans, rows) <==> i in Positions(scans, before) || i == k {
      assert forall x :: x in rows <==> x in before || x == scans[k];
    }
  }

  function UpTo(n: nat): (s: set<nat>)
    ensures |s| == n && forall i :: i in s <==> 0 <= i < n
  {
    if n == 0 then {} else UpTo(n - 1) + {n - 1}
  }

  /** A recorded scan whose event is not confirmed although that of a later one is. */
  ghost predicate HasHole(y: System) {
    exists j, k :: 0 <= j < k < |y.chain.scans| && y.chain.scans[j] !in y.copy.rows && y.chain.scans[k] in y.copy.rows
  }

  /**
   * With nothing pending, every read of any age is fresh exactly when no event of an earlier recorded scan was given
   * up.
   */
  lemma FreshIff(y: System)
    requires Sound(y) && !HasPending(y.copy)
    ensures (forall i: nat :: Fresh(y, Read(i))) <==> !HasHole(y)
    ensures HasHole(y) ==>
        exists id :: id in y.copy.events && y.copy.events[id].status == Failed
            && y.copy.events[id].scan in y.chain.scans
  {
    hide Fold, Rising, CopySound, HasPending;
    PositionsCount(y.chain.scans, y.copy.rows);
    if HasHole(y) {
      HoleIsStale(y);
      HoleIsFailed(y);
    } else {
      forall i: nat ensures Fresh(y, Read(i)) { NoHoleIsFresh(y, i); }
    }
  }

  lemma HoleIsFailed(y: System)
    requires Sound(y) && !HasPending(y.copy) && HasHole(y)
    ensures exists id ::
      id in y.copy.events && y.copy.events[id].status == Failed && y.copy.events[id].scan in y.chain.scans
  {
    hide Fold, Rising, CopySound, ViewsSound;
    var j, k :| 0 <= j < k < |y.chain.scans| && y.chain.scans[j] !in y.copy.rows && y.chain.scans[k] in y.copy.rows;
    var s := y.chain.scans[j];
    assert s in y.chain.scans;
    assert y.copy.events[s.id].scan == s;
  }

  lemma HoleIsStale(y: System)
    requires Sound(y) && !HasPending(y.copy) && HasHole(y)
    requires |Positions(y.chain.scans, y.copy.rows)| == |y.copy.rows|
    ensures !Fresh(y, Read(|y.copy.rows|))
  {
    hide Fold, Rising, CopySound, EventsSound, HasPending, Positions;
    var scans, rows := y.chain.scans, y.copy.rows;
    var j: nat, k: nat :| j < k < |scans| && scans[j] !in rows && scans[k] in rows;
    var late := LatePosition(scans, rows, j, k);
    assert y.chain.views[|rows|] == AccountAfter(scans, |rows|);
  }

  /** With a hole, some confirmed scan stands at a position not below their number. */
  lemma LatePosition(scans: seq<Scan>, rows: seq<Scan>, j: nat, k: nat) returns (late: nat)
    requires j < k < |scans| && scans[j] !in rows && scans[k] in rows && |Positions(scans, rows)| == |rows|
    ensures |rows| <= late < |scans| && scans[late] in rows && rows != []
  {
    if forall i :: 0 <= i < |scans| && scans[i] in rows ==> i < |rows| {
      assert k < |rows|;
      assert Positions(scans, rows) <= UpTo(|rows|) - {j};
      SubsetSize(Positions(scans, rows), UpTo(|rows|) - {j});
      assert false;
    }
    late :| late < |scans| && scans[late] in rows && late >= |rows|;
  }

  lemma NoHoleIsFresh(y: System, i: nat)
    requires Sound(y) && !HasHole(y) && |Positions(y.chain.scans, y.copy.rows)| == |y.copy.rows|
    ensures Fresh(y, Read(i))
  {
    hide Fold, Rising, CopySound, EventsSound, ViewsSound, HasPending;
    var scans, rows := y.chain.scans, y.copy.rows;
    forall k: nat | k < |scans| && scans[k] in rows ensures k < |rows| {
      assert UpTo(k + 1) <= Positions(scans, rows);
      SubsetSize(UpTo(k + 1), Positions(scans, rows));
    }
  }

  /** What a read that is not skipped does to a fill grade. */
  lemma ReadEffect(y: System, i: nat)
    requires Sound(y) && Rank(Now(y.chain).passport) == 0 && i < |y.chain.views|
    ensures i <= |y.chain.scans| && y.chain.views[i].scanCount == i
    ensures Step(y, Read(i)).copy.passport.grade
         == if !HasPending(y.copy) && 1 <= i
             && i >= |y.copy.rows| then FillAt(y.chain.scans, i) else y.copy.passport.grade
  {
    hide ComputeGrade, Fold, ScansSound, EventsSound, HasPending;
    ViewsBelow(y.chain, i);
    ViewFill(y.chain, i);
  }

  /**
   * In every reachable state with a fill grade and nothing pending, the reads that are taken for current are those of
   * the last states, as many as recorded scans are not confirmed. No read of any age shows anything but the verifier's
   * own grade or the current one if and only if those states do not either.
   */
  lemma ReadsHarmlessIff(y: System)
    requires Sound(y) && Rank(Now(y.chain).passport) == 0 && !HasPending(y.copy)
    ensures var scans, own := y.chain.scans, y.copy.passport.grade;
      (forall i: nat :: i < |y.chain.views| ==> Step(y, Read(i)).copy.passport.grade in {own, FillAt(scans, |scans|)})
      <==> forall k: nat :: 1 <= k && |y.copy.rows| <= k < |scans| ==> FillAt(scans, k) in {own, FillAt(scans, |scans|)}
  {
    hide Sound, Step, FillAt, HasPending;
    var scans, own := y.chain.scans, y.copy.passport.grade;
    ManyViews(y);
    forall i: nat | i < |y.chain.views|
      ensures Step(y, Read(i)).copy.passport.grade == if 1 <= i && i >= |y.copy.rows| then FillAt(scans, i) else own
    {
      ReadEffect(y, i);
    }
    if forall i: nat :: i < |y.chain.views| ==> Step(y, Read(i)).copy.passport.grade in {own, FillAt(scans, |scans|)} {
      forall k: nat | 1 <= k && |y.copy.rows| <= k < |scans| ensures FillAt(scans, k) in {own, FillAt(scans, |scans|)} {
        assert Step(y, Read(k)).copy.passport.grade == FillAt(scans, k);
      }
    }
  }

  lemma ManyViews(y: System)
    requires Sound(y) && Rank(Now(y.chain).passport) == 0
    ensures WellFormed(y) && |y.chain.views| == |y.chain.scans| + 1
  {
    hide Fold;
  }

  // ---------- a run with a stale read ----------

  const OLD_SCAN := Scan(7, 1, 10, 1, Reading(0, 0, 0, 100))
  const NEW_SCAN := Scan(7, 2, 20, 2, EMPTIED)

  /** Two recorded scans; the event of the first was given up, the second is confirmed. */
  const HOLE := System(Chain([OLD_SCAN, NEW_SCAN], map[7 := 2], {},
                             [Account(MINTED, 0), Account(Passport(A, false), 1), Account(Passport(D, false), 2)]),
                       Copy(Passport(D, false), map[1 := Event(OLD_SCAN, Failed), 2 := Event(NEW_SCAN, Done)],
                           [NEW_SCAN]))

  const HOLE_RUN := [Attach(7), Sign(OLD_SCAN), Sign(NEW_SCAN), Record(1), Record(2), GiveUp(1), Confirm(2)]

  lemma Then(y: System, a: Action, rest: seq<Action>)
    requires WellFormed(y)
    ensures WellFormed(Step(y, a)) && Run(y, [a] + rest) == Run(Step(y, a), rest)
  {
    hide Step;
    StepWellFormed(y, a);
    assert ([a] + rest)[1..] == rest;
  }

  lemma RunIntoHole(rest: seq<Action>)
    ensures Run(START, HOLE_RUN + rest) == Run(HOLE, rest)
  {
    hide Step, Run, NewerExists;
    var y1 := START.(chain := START.chain.(last := map[7 := 0]));
    var y2 := y1.(copy := y1.copy.(events := map[1 := Event(OLD_SCAN, Pending)]));
    var y3 := y1.(copy := y1.copy.(events := map[1 := Event(OLD_SCAN, Pending), 2 := Event(NEW_SCAN, Pending)]));
    var y4 := y3.(chain := Chain([OLD_SCAN], map[7 := 1], {}, [Account(MINTED, 0), Account(Passport(A, false), 1)]));
    var y5 := y3.(chain := HOLE.chain);
    var y6 := y5.(copy := y5.copy.(events := map[1 := Event(OLD_SCAN, Failed), 2 := Event(NEW_SCAN, Pending)]));
    HoleSigns(y1, y2, y3);
    HoleRecords(y3, y4, y5);
    HoleConfirms(y5, y6);
    var r6 := [Confirm(2)] + rest;
    var r5 := [GiveUp(1)] + r6;
    var r4 := [Record(2)] + r5;
    var r3 := [Record(1)] + r4;
    var r2 := [Sign(NEW_SCAN)] + r3;
    var r1 := [Sign(OLD_SCAN)] + r2;
    assert HOLE_RUN + rest == [Attach(7)] + r1;
    Then(START, Attach(7), r1);
    Then(y1, Sign(OLD_SCAN), r2);
    Then(y2, Sign(NEW_SCAN), r3);
    Then(y3, Record(1), r4);
    Then(y4, Record(2), r5);
    Then(y5, GiveUp(1), r6);
    Then(y6, Confirm(2), rest);
  }

  lemma HoleSigns(y1: System, y2: System, y3: System)
    requires y1 == START.(chain := START.chain.(last := map[7 := 0]))
    requires y2 == y1.(copy := y1.copy.(events := map[1 := Event(OLD_SCAN, Pending)]))
    requires y3 == y1.(copy := y1.copy.(events := map[1 := Event(OLD_SCAN, Pending), 2 := Event(NEW_SCAN, Pending)]))
    ensures Step(START, Attach(7)) == y1 && Step(y1, Sign(OLD_SCAN)) == y2 && Step(y2, Sign(NEW_SCAN)) == y3
  {}

  lemma HoleRecords(y3: System, y4: System, y5: System)
    requires y3.chain == START.chain.(last := map[7 := 0]) && 1 in y3.copy.events && 2 in y3.copy.events
    requires y3.copy.events[1].scan == OLD_SCAN && y3.copy.events[2].scan == NEW_SCAN
    requires y4 == y3.(chain := Chain([OLD_SCAN], map[7 := 1], {},
        [Account(MINTED, 0), Account(Passport(A, false), 1)]))
    requires y5 == y3.(chain := HOLE.chain)
    ensures Step(y3, Record(1)) == y4 && Step(y4, Record(2)) == y5
  {}

  lemma HoleConfirms(y5: System, y6: System)
    requires y5.chain == HOLE.chain && y5.copy.passport == MINTED && y5.copy.rows == []
    requires y5.copy.events == map[1 := Event(OLD_SCAN, Pending), 2 := Event(NEW_SCAN, Pending)]
    requires y6 == y5.(copy := y5.copy.(events := map[1 := Event(OLD_SCAN, Failed), 2 := Event(NEW_SCAN, Pending)]))
    ensures Step(y5, GiveUp(1)) == y6 && Step(y6, Confirm(2)) == HOLE
  {
    assert [] + [NEW_SCAN] == [NEW_SCAN];
    assert !NewerExists([NEW_SCAN], NEW_SCAN);
    assert NEW_SCAN in HOLE.chain.scans;
  }

  /**
   * After that run a read from before the second scan replaces D by the older A; the late confirmation of the first
   * scan does not mend it: all is confirmed, and the verifier shows A where the program shows D.
   */
  lemma StaleReadMisleads()
    ensures HOLE.copy.passport == Now(HOLE.chain).passport && Run(START, HOLE_RUN) == HOLE && !Fresh(HOLE, Read(1))
    ensures var y := Run(START, HOLE_RUN + [Read(1), Confirm(1)]);
      Caught(y) && WellFormed(y) && y.copy.passport == Passport(A, false) && Now(y.chain).passport == Passport(D, false)
  {
    hide Run, NewerExists;
    assert HOLE_RUN + [] == HOLE_RUN;
    RunIntoHole([]);
    RunIntoHole([Read(1), Confirm(1)]);
    var after := HOLE.(copy := HOLE.copy.(passport := Passport(A, false)));
    HoleRead(after);
    assert [Read(1), Confirm(1)] == [Read(1)] + ([Confirm(1)] + []);
    Then(HOLE, Read(1), [Confirm(1)] + []);
    Then(after, Confirm(1), []);
    assert !Fresh(HOLE, Read(1)) by { assert HOLE.chain.scans[1] in HOLE.copy.rows; }
    RunNothing(HOLE);
    RunNothing(Step(after, Confirm(1)));
  }

  lemma RunNothing(y: System)
    requires WellFormed(y)
    ensures Run(y, []) == y
  {}

  lemma HoleRead(after: System)
    requires after == HOLE.(copy := HOLE.copy.(passport := Passport(A, false)))
    ensures Step(HOLE, Read(1)) == after
    ensures var y := Step(after, Confirm(1));
      Caught(y) && y.chain == HOLE.chain && y.copy.passport == Passport(A, false)
  {
    var rows := [NEW_SCAN] + [OLD_SCAN];
    assert rows[0] == NEW_SCAN && Newer(rows[0], OLD_SCAN);
    assert NewerExists(rows, OLD_SCAN);
    assert OLD_SCAN == HOLE.chain.scans[0];
  }

  // ---------- the same schedule with other readings ----------

  function RelabelledAction(a: Action, readings: nat -> Reading): Action {
    match a case Sign(s) => Sign(s.(reading := readings(s.id))) case _ => a
  }

  /** The run in which the scan of event `id` reads `readings(id)`. */
  function RelabelledRun(as_: seq<Action>, readings: nat -> Reading): seq<Action> {
    if as_ == [] then [] else [RelabelledAction(as_[0], readings)] + RelabelledRun(as_[1..], readings)
  }

  function Same(id: nat): Reading { HALF_FULL }

  predicate Alike(a: Scan, b: Scan) { a.(reading := HALF_FULL) == b.(reading := HALF_FULL) }

  predicate AllAlike(a: seq<Scan>, b: seq<Scan>) { |a| == |b| && forall i :: 0 <= i < |a| ==> Alike(a[i], b[i]) }

  predicate IsVoid(p: Passport) { p.isVoid || p.grade == Void }

  /** All that two runs of one schedule share as long as neither passport has gone void without a dead seal. */
  predicate SimilarChains(c: Chain, d: Chain) {
    && AllAlike(c.scans, d.scans) && c.last == d.last && c.dead == d.dead && |c.views| == |d.views|
    && forall i :: 0 <= i < |c.views| ==>
      c.views[i].scanCount == d.views[i].scanCount && (IsVoid(c.views[i].passport) <==> IsVoid(d.views[i].passport))
  }

  predicate SimilarCopies(v: Copy, w: Copy) {
    && v.events.Keys == w.events.Keys && AllAlike(v.rows, w.rows)
    && forall id :: id in v.events ==>
      Alike(v.events[id].scan, w.events[id].scan) && v.events[id].status == w.events[id].status
  }

  predicate Similar(y: System, z: System) { SimilarChains(y.chain, z.chain) && SimilarCopies(y.copy, z.copy) }

  /** The scan of event `id` reads `readings(id)`. */
  predicate Labelled(z: System, readings: nat -> Reading) {
    forall id :: id in z.copy.events ==> z.copy.events[id].scan.reading == readings(id)
  }

  lemma LabelledStep(z: System, a: Action, readings: nat -> Reading)
    requires WellFormed(z) && Labelled(z, readings)
    ensures Labelled(Step(z, RelabelledAction(a, readings)), readings)
  {
    hide ComputeGrade, ProgramAfterScan, VerifierAfterScan, NewerExists, FromChain;
  }

  /** Alike events stand for the same recorded or confirmed scans. */
  lemma SameScan(y: System, z: System, id: nat)
    requires Sound(y) && Sound(z) && Similar(y, z) && id in y.copy.events
    ensures y.copy.events[id].scan in y.chain.scans <==> z.copy.events[id].scan in z.chain.scans
  {
    hide ChainSound, CopySound;
    var s, t := y.copy.events[id].scan, z.copy.events[id].scan;
    if s in y.chain.scans {
      var i :| 0 <= i < |y.chain.scans| && y.chain.scans[i] == s;
      assert Alike(s, z.chain.scans[i]) && z.chain.scans[i] in z.chain.scans;
    }
    if t in z.chain.scans {
      var i :| 0 <= i < |z.chain.scans| && z.chain.scans[i] == t;
      assert Alike(y.chain.scans[i], t) && y.chain.scans[i] in y.chain.scans;
    }
  }

  lemma SameConfirm(y: System, z: System, id: nat)
    requires Sound(y) && Sound(z) && Similar(y, z)
    ensures CanConfirm(y, id) <==> CanConfirm(z, id)
    ensures CanConfirm(y, id) ==>
      Position(y.chain.scans, y.copy.events[id].scan) == Position(z.chain.scans, z.copy.events[id].scan)
  {
    if id in y.copy.events { SameScan(y, z, id); }
    hide EventsSound, CopySound, ViewsSound;
    if CanConfirm(y, id) {
      var p := Position(y.chain.scans, y.copy.events[id].scan);
      assert Alike(y.chain.scans[p], z.chain.scans[p]);
      var q := Position(z.chain.scans, z.copy.events[id].scan);
      assert z.chain.scans[p].id == z.chain.scans[q].id;
    }
  }

  lemma SameNewer(rows: seq<Scan>, others: seq<Scan>, s: Scan, t: Scan)
    requires AllAlike(rows, others) && Alike(s, t)
    ensures NewerExists(rows, s) <==> NewerExists(others, t)
  {
    if NewerExists(rows, s) {
      var i :| 0 <= i < |rows| && rows[i].id != s.id && Newer(rows[i], s);
      assert Alike(rows[i], others[i]) && Newer(others[i], t);
    }
    if NewerExists(others, t) {
      var i :| 0 <= i < |others| && others[i].id != t.id && Newer(others[i], t);
      assert Alike(rows[i], others[i]) && Newer(rows[i], s);
    }
  }

  lemma AlikeAppend(a: seq<Scan>, b: seq<Scan>, s: Scan, t: Scan)
    requires AllAlike(a, b) && Alike(s, t)
    ensures AllAlike(a + [s], b + [t])
  {}

  /** One step of a schedule, apart from recording: the two runs stay similar and take the same source. */
  lemma StepSimilar(y: System, z: System, a: Action, readings: nat -> Reading, source: nat)
    requires Sound(y) && Sound(z) && Similar(y, z) && !a.Record?
    ensures var b, c := RelabelledAction(a, Same), RelabelledAction(a, readings);
      && Similar(Step(y, b), Step(z, c)) && SourceAfter(y, b, source) == SourceAfter(z, c, source)
  {
    hide Step, Sound, Similar;
    match a {
      case Sign(s) => SignSimilar(y, z, s, readings);
      case Confirm(id) => ConfirmSimilar(y, z, id, source);
      case Read(i) => ReadSimilar(y, z, i, source);
      case MarkDead(seal) => MarkDeadSimilar(y, z, seal);
      case Attach(seal) => AttachSimilar(y, z, seal);
      case GiveUp(id) => GiveUpSimilar(y, z, id);
      case ConfirmDead => ConfirmDeadSimilar(y, z);
    }
  }

  lemma MarkDeadSimilar(y: System, z: System, seal: nat)
    requires Sound(y) && Sound(z) && Similar(y, z)
    ensures Similar(Step(y, MarkDead(seal)), Step(z, MarkDead(seal)))
  {
    hide ChainSound, EventsSound, CopySound, AllAlike, SimilarCopies;
  }

  lemma AttachSimilar(y: System, z: System, seal: nat)
    requires Sound(y) && Sound(z) && Similar(y, z)
    ensures Similar(Step(y, Attach(seal)), Step(z, Attach(seal)))
  {
    hide ChainSound, EventsSound, CopySound, AllAlike, SimilarCopies;
  }

  lemma GiveUpSimilar(y: System, z: System, id: nat)
    requires Sound(y) && Sound(z) && Similar(y, z)
    ensures Similar(Step(y, GiveUp(id)), Step(z, GiveUp(id)))
  {
    hide ChainSound, EventsSound, CopySound, AllAlike, SimilarChains;
  }

  lemma ConfirmDeadSimilar(y: System, z: System)
    requires Sound(y) && Sound(z) && Similar(y, z)
    ensures Similar(Step(y, ConfirmDead), Step(z, ConfirmDead))
  {
    hide ChainSound, EventsSound, CopySound, AllAlike;
  }

  lemma SignSimilar(y: System, z: System, s: Scan, readings: nat -> Reading)
    requires Sound(y) && Sound(z) && Similar(y, z)
    ensures Similar(Step(y, Sign(s.(reading := HALF_FULL))), Step(z, Sign(s.(reading := readings(s.id)))))
  {
    hide Sound, SimilarChains, AllAlike;
    SoundIsWellFormed(y);
    SoundIsWellFormed(z);
    var t, u := s.(reading := HALF_FULL), s.(reading := readings(s.id));
    if Signs(y.copy, t) {
      forall id | id in z.copy.events
        ensures z.copy.events[id].scan.seal != u.seal || z.copy.events[id].scan.counter != u.counter
      {
        assert id in y.copy.events && Alike(y.copy.events[id].scan, z.copy.events[id].scan);
      }
    }
  }

  lemma ConfirmCopies(v: Copy, w: Copy, id: nat)
    requires SimilarCopies(v, w) && id in v.events
    ensures SimilarCopies(WithScan(v, id), WithScan(w, id))
  {
    hide AllAlike, NewerExists, VerifierAfterScan, ComputeGrade;
    assert Alike(v.events[id].scan, w.events[id].scan);
    AlikeAppend(v.rows, w.rows, v.events[id].scan, w.events[id].scan);
  }

  lemma ConfirmSimilar(y: System, z: System, id: nat, source: nat)
    requires Sound(y) && Sound(z) && Similar(y, z)
    ensures Similar(Step(y, Confirm(id)), Step(z, Confirm(id)))
    ensures SourceAfter(y, Confirm(id), source) == SourceAfter(z, Confirm(id), source)
  {
    SameConfirm(y, z, id);
    SoundIsWellFormed(y);
    SoundIsWellFormed(z);
    hide Sound, SimilarChains, AllAlike, NewerExists, WithScan;
    if CanConfirm(y, id) {
      var s, t := y.copy.events[id].scan, z.copy.events[id].scan;
      assert Alike(s, t);
      hide CanConfirm, Alike;
      AlikeAppend(y.copy.rows, z.copy.rows, s, t);
      SameNewer(y.copy.rows + [s], z.copy.rows + [t], s, t);
      ConfirmCopies(y.copy, z.copy, id);
    }
  }

  lemma SamePending(v: Copy, w: Copy)
    requires SimilarCopies(v, w)
    ensures HasPending(v) <==> HasPending(w)
  {
    if HasPending(v) {
      var id :| id in v.events && v.events[id].status == Pending;
      assert id in w.events && w.events[id].status == Pending;
    }
    if HasPending(w) {
      var id :| id in w.events && w.events[id].status == Pending;
      assert id in v.events && v.events[id].status == Pending;
    }
  }

  lemma SameRead(y: System, z: System, i: nat)
    requires Sound(y) && Sound(z) && Similar(y, z) && i < |y.chain.views|
    ensures i < |z.chain.views| && y.chain.views[i].scanCount == z.chain.views[i].scanCount
    ensures Teaches(y.chain.views[i]) <==> Teaches(z.chain.views[i])
  {
    ViewsBelow(y.chain, i);
    ViewsBelow(z.chain, i);
    hide ChainSound, EventsSound, CopySound, AllAlike;
  }

  lemma ReadSimilar(y: System, z: System, i: nat, source: nat)
    requires Sound(y) && Sound(z) && Similar(y, z)
    ensures Similar(Step(y, Read(i)), Step(z, Read(i)))
    ensures SourceAfter(y, Read(i), source) == SourceAfter(z, Read(i), source)
  {
    SamePending(y.copy, z.copy);
    if i < |y.chain.views| { SameRead(y, z, i); }
    RowsAlike(y, z);
    SoundIsWellFormed(y);
    SoundIsWellFormed(z);
    ReadCopies(y, z, i);
    hide Sound, HasPending, FromChain, Refreshed, SimilarCopies, Teaches, AllAlike, IsVoid;
  }

  lemma RowsAlike(y: System, z: System)
    requires Similar(y, z)
    ensures |y.copy.rows| == |z.copy.rows| && |y.chain.views| == |z.chain.views|
  {}

  lemma ReadCopies(y: System, z: System, i: nat)
    requires Similar(y, z)
    ensures i < |y.chain.views| ==>
      SimilarCopies(Refreshed(y.copy, y.chain.views[i]), Refreshed(z.copy, z.chain.views[i]))
  {
    hide Alike, FromChain, HasPending, Teaches, IsVoid;
  }

  lemma SameRecord(y: System, z: System, id: nat)
    requires Sound(y) && Sound(z) && Similar(y, z)
    ensures CanRecord(y, id) <==> CanRecord(z, id)
    ensures CanRecord(y, id) ==> Alike(y.copy.events[id].scan, z.copy.events[id].scan)
  {
    hide ChainSound, EventsSound, CopySound, AllAlike;
    var last := |y.chain.views| - 1;
    assert y.chain.views[last].scanCount == z.chain.views[last].scanCount;
    if id in y.copy.events { assert Alike(y.copy.events[id].scan, z.copy.events[id].scan); }
  }

  lemma RecordedSimilar(c: Chain, d: Chain, s: Scan, t: Scan)
    requires SimilarChains(c, d) && Alike(s, t) && s.reading == HALF_FULL && c.views != []
    requires Records(c, s) && Records(d, t)
    ensures IsOpened(t.reading.tamper) || SimilarChains(Recorded(c, s), Recorded(d, t))
    ensures IsOpened(t.reading.tamper) ==> IsVoid(Now(Recorded(d, t)).passport)
  {
    AlikeAppend(c.scans, d.scans, s, t);
    hide AllAlike;
    assert c.views[|c.views| - 1].scanCount == d.views[|c.views| - 1].scanCount;
  }

  /** Recording keeps the runs similar unless the scan reads an opened seal, which makes its passport void. */
  lemma RecordSimilar(y: System, z: System, id: nat, readings: nat -> Reading)
    requires Sound(y) && Sound(z) && Similar(y, z) && Labelled(y, Same) && Labelled(z, readings)
    ensures WellFormed(Step(z, Record(id)))
    ensures Similar(Step(y, Record(id)), Step(z, Record(id)))
            || (IsOpened(readings(id).tamper) && IsVoid(Now(Step(z, Record(id)).chain).passport))
  {
    SameRecord(y, z, id);
    hide SimilarChains, SimilarCopies, ChainSound, EventsSound, CopySound, IsOpened, Records, Recorded, Alike;
    StepWellFormed(z, Record(id));
    if CanRecord(y, id) {
      RecordedSimilar(y.chain, z.chain, y.copy.events[id].scan, z.copy.events[id].scan);
    }
  }

  lemma NowRises(z: System, a: Action)
    requires Sound(z) && Sound(Step(z, a)) && IsVoid(Now(z.chain).passport)
    ensures IsVoid(Now(Step(z, a).chain).passport)
  {
    hide ComputeGrade, Fold, ScansSound, EventsSound, CopySound, VerifierAfterScan, FromChain, NewerExists;
  }

  lemma {:induction false} VoidStays(z: System, as_: seq<Action>)
    requires Sound(z) && IsVoid(Now(z.chain).passport)
    ensures WellFormed(Run(z, as_)) && IsVoid(Now(Run(z, as_).chain).passport)
    decreases |as_|
  {
    hide Sound, Step;
    SoundIsWellFormed(z);
    if as_ != [] {
      StepSound(z, as_[0]);
      NowRises(z, as_[0]);
      StepWellFormed(z, as_[0]);
      VoidStays(Step(z, as_[0]), as_[1..]);
    }
  }

  /**
   * Two runs of one schedule stay similar with one source, unless a scan of the second reads an opened seal and voids.
   */
  lemma {:induction false} RunSimilar(y: System, z: System, as_: seq<Action>, readings: nat -> Reading, source: nat)
    requires Sound(y) && Sound(z) && Similar(y, z) && Labelled(y, Same) && Labelled(z, readings)
    ensures var plain, run := RelabelledRun(as_, Same), RelabelledRun(as_, readings);
      && WellFormed(Run(z, run))
      && (((exists id :: IsOpened(readings(id).tamper)) && IsVoid(Now(Run(z, run).chain).passport))
          || (&& Similar(Run(y, plain), Run(z, run)) && Labelled(Run(z, run), readings)
              && SourceOf(y, plain, source) == SourceOf(z, run, source)))
    decreases |as_|
  {
    hide Sound, Step, Similar, Labelled, SourceAfter, RelabelledAction;
    SoundIsWellFormed(y);
    SoundIsWellFormed(z);
    if as_ != [] {
      var b, c := RelabelledAction(as_[0], Same), RelabelledAction(as_[0], readings);
      var y1, z1 := Step(y, b), Step(z, c);
      var restB, restC := RelabelledRun(as_[1..], Same), RelabelledRun(as_[1..], readings);
      assert RelabelledRun(as_, Same) == [b] + restB && RelabelledRun(as_, readings) == [c] + restC;
      StepWellFormed(y, b);
      StepWellFormed(z, c);
      StepSound(y, b);
      StepSound(z, c);
      LabelledStep(y, as_[0], Same);
      LabelledStep(z, as_[0], readings);
      Then(y, b, restB);
      Then(z, c, restC);
      ThenSource(y, b, restB, source);
      ThenSource(z, c, restC, source);
      OneSimilar(y, z, as_[0], readings, source);
      if Similar(y1, z1) {
        RunSimilar(y1, z1, as_[1..], readings, SourceAfter(y, b, source));
      } else {
        VoidStays(z1, restC);
      }
    }
  }

  lemma ThenSource(y: System, a: Action, rest: seq<Action>, source: nat)
    requires WellFormed(y)
    ensures WellFormed(Step(y, a))
        && SourceOf(y, [a] + rest, source) == SourceOf(Step(y, a), rest, SourceAfter(y, a, source))
  {
    hide Step, SourceAfter;
    StepWellFormed(y, a);
    assert ([a] + rest)[1..] == rest;
  }

  lemma OneSimilar(y: System, z: System, a: Action, readings: nat -> Reading, source: nat)
    requires Sound(y) && Sound(z) && Similar(y, z) && Labelled(y, Same) && Labelled(z, readings)
    ensures var b, c := RelabelledAction(a, Same), RelabelledAction(a, readings);
      && WellFormed(Step(z, c)) && SourceAfter(y, b, source) == SourceAfter(z, c, source)
      && (Similar(Step(y, b), Step(z, c))
          || ((exists id :: IsOpened(readings(id).tamper)) && IsVoid(Now(Step(z, c).chain).passport)))
  {
    hide Sound, Step, Similar, Labelled, IsOpened;
    SoundIsWellFormed(z);
    StepWellFormed(z, RelabelledAction(a, readings));
    if a.Record? { RecordSimilar(y, z, a.id, readings); } else { StepSimilar(y, z, a, readings, source); }
  }

  lemma SimilarCaught(y: System, z: System)
    requires Sound(y) && Sound(z) && Similar(y, z) && Caught(y) && y.chain.dead == {}
    ensures Caught(z)
  {
    hide ChainSound, CopySound;
    forall t | t in z.chain.scans ensures t in z.copy.rows {
      var i :| 0 <= i < |z.chain.scans| && z.chain.scans[i] == t;
      assert y.chain.scans[i] in y.chain.scans && Alike(y.chain.scans[i], t);
      var k :| 0 <= k < |y.copy.rows| && y.copy.rows[k] == y.chain.scans[i];
      assert Alike(y.copy.rows[k], z.copy.rows[k]) && z.copy.rows[k] in z.copy.rows;
    }
  }

  ghost predicate RunAgrees(as_: seq<Action>) {
    Caught(Run(START, as_)) ==>
      WellFormed(Run(START, as_)) && Run(START, as_).copy.passport == Now(Run(START, as_).chain).passport
  }

  /** The run agrees once all is confirmed, whatever its scans read. */
  ghost predicate RunAgreesAlways(as_: seq<Action>) { forall readings :: RunAgrees(RelabelledRun(as_, readings)) }

  /**
   * A schedule of signing, recording, confirmations and reads whose scans are all confirmed ends with both passports
   * equal whatever the scans read, if and only if a seal died or the last accepted change stands at the last recorded
   * scan.
   */
  lemma RunAgreesAlwaysIff(as_: seq<Action>)
    requires Caught(Run(START, RelabelledRun(as_, Same)))
    ensures var plain := RelabelledRun(as_, Same);
      RunAgreesAlways(as_) <==>
        Run(START, plain).chain.dead != {} || SourceOf(START, plain, 0) == |Run(START, plain).chain.scans|
  {
    hide Run, SourceOf, RelabelledRun, RunAgrees, Caught;
    var plain := RelabelledRun(as_, Same);
    var y, source := Run(START, plain), SourceOf(START, plain, 0);
    StartIsSound();
    EveryRun(START, plain, 0);
    if y.chain.dead != {} || source == |y.chain.scans| {
      forall readings ensures RunAgrees(RelabelledRun(as_, readings)) { AgreesAtTheLast(as_, readings); }
    } else {
      SourceInRange(y, source);
      var last := y.chain.scans[|y.chain.scans| - 1].id;
      DisagreesBefore(as_, id => if id == last then EMPTIED else HALF_FULL, last);
      assert !RunAgrees(RelabelledRun(as_, id => if id == last then EMPTIED else HALF_FULL));
    }
  }

  lemma SourceInRange(y: System, source: nat)
    requires SourceOk(y, source)
    ensures source <= |y.chain.scans|
  {}

  lemma StartSimilar(readings: nat -> Reading)
    ensures Sound(START) && Similar(START, START) && Labelled(START, readings) && SourceOk(START, 0)
  {}

  lemma DeadIsVoid(y: System)
    requires Sound(y) && y.chain.dead != {}
    ensures IsVoid(Now(y.chain).passport)
  {
    hide Fold, EventsSound, CopySound, ScansSound;
  }

  lemma SimilarShape(y: System, z: System)
    requires Similar(y, z)
    ensures y.chain.dead == z.chain.dead && |y.chain.scans| == |z.chain.scans|
    ensures forall i :: 0 <= i < |y.chain.scans| ==> y.chain.scans[i].id == z.chain.scans[i].id
  {
    forall i | 0 <= i < |y.chain.scans| ensures y.chain.scans[i].id == z.chain.scans[i].id {
      assert Alike(y.chain.scans[i], z.chain.scans[i]);
    }
  }

  lemma AgreesAtTheLast(as_: seq<Action>, readings: nat -> Reading)
    requires var plain := RelabelledRun(as_, Same);
      Run(START, plain).chain.dead != {} || SourceOf(START, plain, 0) == |Run(START, plain).chain.scans|
    ensures RunAgrees(RelabelledRun(as_, readings))
  {
    hide Run, SourceOf, Caught, Similar, Labelled, Sound, ComputeGrade;
    var plain, run := RelabelledRun(as_, Same), RelabelledRun(as_, readings);
    var y, z := Run(START, plain), Run(START, run);
    StartSimilar(Same);
    StartSimilar(readings);
    EveryRun(START, run, 0);
    SoundIsWellFormed(z);
    RunSimilar(START, START, as_, readings, 0);
    if Caught(z) {
      RunAgreesIff(run);
      if Similar(y, z) {
        SimilarShape(y, z);
        if z.chain.dead != {} { DeadIsVoid(z); }
      }
    }
  }

  /** With an emptied last scan behind half-full ones, a source before it shows another grade. */
  lemma DisagreesBefore(as_: seq<Action>, readings: nat -> Reading, last: nat)
    requires var plain := RelabelledRun(as_, Same);
      && Caught(Run(START, plain)) && Run(START, plain).chain.dead == {}
      && SourceOf(START, plain, 0) < |Run(START, plain).chain.scans|
      && last == Run(START, plain).chain.scans[|Run(START, plain).chain.scans| - 1].id
    requires forall id :: readings(id) == if id == last then EMPTIED else HALF_FULL
    ensures !RunAgrees(RelabelledRun(as_, readings))
  {
    hide Run, SourceOf, Caught, Similar, Labelled, Sound, ComputeGrade, Fold, FillAt;
    var plain, run := RelabelledRun(as_, Same), RelabelledRun(as_, readings);
    var y, z, source := Run(START, plain), Run(START, run), SourceOf(START, plain, 0);
    StartSimilar(Same);
    StartSimilar(readings);
    EveryRun(START, plain, 0);
    EveryRun(START, run, 0);
    SoundIsWellFormed(z);
    RunSimilar(START, START, as_, readings, 0);
    SimilarShape(y, z);
    SimilarCaught(y, z);
    RunAgreesIff(run);
    LastDiffers(z, readings, source, last);
  }

  lemma LastDiffers(z: System, readings: nat -> Reading, source: nat, last: nat)
    requires Sound(z) && Labelled(z, readings) && source < |z.chain.scans| && z.chain.dead == {}
    requires forall id :: readings(id) == if id == last then EMPTIED else HALF_FULL
    requires last == z.chain.scans[|z.chain.scans| - 1].id
    ensures Rank(Now(z.chain).passport) == 0
    ensures FillAt(z.chain.scans, source) != FillAt(z.chain.scans, |z.chain.scans|)
  {
    hide Fold, CopySound;
    var scans := z.chain.scans;
    forall i | 0 <= i < |scans| ensures scans[i].reading == readings(scans[i].id) { assert scans[i] in scans; }
    FillsOnly(scans);
    assert scans[..|scans|] == scans;
    if source > 0 { assert scans[source - 1].id != scans[|scans| - 1].id; }
  }

  // ---------- the verifier's rows as they change ----------

  /** The passport row and the events of its signed scans. */
  class PassportRow {
    var grade: Grade
    var isVoid: bool
    var events: map<nat, Event>
    var rows: seq<Scan>

    function State(): Copy
      reads this
    {
      Copy(Passport(grade, isVoid), events, rows)
    }

    method NewerConfirmedScanExists(s: Scan) returns (newer: bool)
      ensures newer <==> NewerExists(rows, s)
    {
      for i := 0 to |rows|
        invariant forall j :: 0 <= j < i ==> !(rows[j].id != s.id && Newer(rows[j], s))
      {
        var r := rows[i];
        if r.id != s.id {
          if r.seal == s.seal {
            if r.counter > s.counter { return true; }
          } else if r.ts > s.ts || (r.ts == s.ts && r.id > s.id) {
            return true;
          }
        }
      }
      newer := false;
    }

    method SetPassportGrade(scan: Grade, latest: bool)
      modifies this
      ensures State() == old(State()).(passport := VerifierAfterScan(old(State()).passport, scan, latest))
    {
      var next := VerifierAfterScan(Passport(grade, isVoid), scan, latest);
      if next.grade != grade || next.isVoid != isVoid { grade, isVoid := next.grade, next.isVoid; }
    }

    /** A pending event that the chain did not confirm in time, or whose transaction failed. */
    method MarkFailed(id: nat)
      requires id in events
      modifies this
      ensures State() == if old(events)[id].status == Pending then WithStatus(old(State()), id, Failed)
          else old(State())
    {
      if events[id].status == Pending { events := events[id := events[id].(status := Failed)]; }
    }

    /** The event turns confirmed and its grade is applied. */
    method Confirm(id: nat)
      requires id in events
      modifies this
      ensures State() == WithScan(old(State()), id)
      ensures old(State()).passport == Confirmed(MINTED, old(rows)) ==> State().passport == Confirmed(MINTED, rows)
    {
      var s := events[id].scan;
      events, rows := events[id := events[id].(status := Done)], rows + [s];
      assert rows[..|rows| - 1] == old(rows);
      var newer := NewerConfirmedScanExists(s);
      SetPassportGrade(ComputeGrade(s.reading), !newer);
    }

    method VoidPassport()
      modifies this
      ensures State() == old(State()).(passport := Passport(Void, true))
    {
      isVoid, grade := true, Void;
    }

    /** The reconcile job's refresh from an account read. */
    method Refresh(view: Account)
      modifies this
      ensures State() == Refreshed(old(State()), view)
    {
      if exists id :: id in events && events[id].status == Pending { return; }
      if view.scanCount == 0 && !view.passport.isVoid { return; }
      var next := FromChain(Passport(grade, isVoid), view.passport, view.scanCount >= |rows|);
      if next.grade != grade || next.isVoid != isVoid { grade, isVoid := next.grade, next.isVoid; }
    }
  }
}
