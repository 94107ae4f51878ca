/**
 * Taps, seals and session nonces of the verifier (service.py, db.py, routes_tag.py, routes_api.py, reconcile.py). Every
 * endpoint is one transaction over a small database; tap authentication is done before it and arrives as its result.
 */
module TapProtocol {
  import opened Wrappers

  type Uid = string
  type Nonce = string
  type Hash = string
  type Serial = string

  const ADOPT_WINDOW_S := 180

  datatype Verdict = Valid | Invalid | Replay | Unregistered | NoResponse | NonceInvalid

  datatype Source = FromT | FromVerify

  datatype Seal = Seal(serial: Serial, last: nat, dead: bool)

  datatype Tap = Tap(ts: int, source: Source, uid: Option<Uid>, ctr: Option<nat>, verdict: Verdict,
                     adoptHash: Option<Hash>, adoptedAt: Option<int>)

  datatype NonceRow = NonceRow(issuedAt: int, expiresAt: int, usedAt: Option<int>)

  datatype Event = Sighting(uid: Uid, ctr: nat) | Scan(uid: Uid, ctr: nat, nonce: Nonce) | DeadReport(nonce: Nonce)

  datatype Db = Db(seals: map<Uid, Seal>, taps: map<nat, Tap>, nonces: map<Nonce, NonceRow>, events: seq<Event>)

  /** What authenticate_tap found out; `named` says whether an invalid request names a well-formed chip UID. */
  datatype Auth = Genuine(uid: Uid, ctr: nat) | Refused(claimed: Option<Uid>, named: bool, shown: Option<nat>)

  datatype Check = Check(verdict: Verdict, uid: Option<Uid>, ctr: Option<nat>)

  // ---------- replay memory ----------

  /** The tap row counts for the replay memory of `uid`. */
  predicate Remembered(t: Tap, uid: Uid) { t.uid == Some(uid) && t.ctr.Some? && t.verdict in {Valid, Unregistered} }

  ghost predicate IsMemory(taps: map<nat, Tap>, uid: Uid, m: nat) {
    && (forall id :: id in taps && Remembered(taps[id], uid) ==> taps[id].ctr.value <= m)
    && (m == 0 || exists id :: id in taps && Remembered(taps[id], uid) && taps[id].ctr.value == m)
  }

  /** last_counter_unregistered: the highest counter of a genuine tap of this chip, 0 if there is none. */
  ghost function Memory(taps: map<nat, Tap>, uid: Uid): (m: nat)
    ensures IsMemory(taps, uid, m)
    decreases |taps|
  {
    if taps == map[] then 0 else
      var id :| id in taps;
      var rest := taps - {id};
      assert taps == rest[id := taps[id]];
      var m := Memory(rest, uid);
      if Remembered(taps[id], uid) && taps[id].ctr.value > m then taps[id].ctr.value else m
  }

  method LastCounterUnregistered(taps: map<nat, Tap>, uid: Uid) returns (m: nat)
    ensures m == Memory(taps, uid)
  {
    m := 0;
    var left := taps.Keys;
    while left != {}
      invariant left <= taps.Keys
      invariant forall id :: id in taps && id !in left && Remembered(taps[id], uid) ==> taps[id].ctr.value <= m
      invariant m == 0 || exists id :: id in taps && Remembered(taps[id], uid) && taps[id].ctr.value == m
    {
      var id :| id in left;
      var t := taps[id];
      if t.uid == Some(uid) && t.ctr.Some? && t.verdict in {Valid, Unregistered}
          && t.ctr.value > m { m := t.ctr.value; }
      left := left - {id};
    }
  }

  /** The counter a tap of `uid` must exceed. */
  ghost function Last(db: Db, uid: Uid): nat {
    if uid in db.seals then db.seals[uid].last else Memory(db.taps, uid)
  }

  // ---------- the transactions, on values ----------

  ghost function Checked(db: Db, auth: Auth): Check {
    match auth
    case Refused(uid, _, ctr) => Check(Invalid, uid, ctr)
    case Genuine(uid, ctr) =>
      Check(if ctr <= Last(db, uid) then Replay else if uid in db.seals then Valid
          else Unregistered, Some(uid), Some(ctr))
  }

  function Max(a: nat, b: nat): nat { if a < b then b else a }

  /** advance_seal_counter after a valid tap. */
  function Advance(db: Db, uid: Uid, ctr: nat): Db {
    if uid in db.seals && db.seals[uid].last < ctr then db.(seals := db.seals[uid := db.seals[uid].(last := ctr)])
        else db
  }

  ghost function Consume(db: Db, auth: Auth): (r: (Db, Check))
    ensures r.1.verdict == Invalid <==> auth.Refused?
    ensures r.1.verdict in {Valid, Unregistered, Replay, Invalid}
    ensures auth.Genuine? ==> r.1.uid == Some(auth.uid) && r.1.ctr == Some(auth.ctr)
    ensures r.0.nonces == db.nonces && r.0.taps == db.taps
  {
    var chk := Checked(db, auth);
    (if chk.verdict == Valid then Advance(db, auth.uid, auth.ctr) else db, chk)
  }

  /** adopt_tap: a /t tap that checked out is claimed once, with its token, within the window. */
  function Adopt(db: Db, id: nat, token: Option<Hash>, ts: int): (Db, Check) {
    if id !in db.taps || db.taps[id].source != FromT || token == None || db.taps[id].adoptHash != token then
      (db, Check(Invalid, None, None))
    else
      var t := db.taps[id];
      if t.verdict != Valid || t.uid == None || t.ctr == None then (db, Check(Invalid, None, None))
      else if t.adoptedAt.Some? || ts - t.ts > ADOPT_WINDOW_S then (db, Check(Replay, t.uid, t.ctr))
      else (db.(taps := db.taps[id := t.(adoptedAt := Some(ts))]),
            Check(if t.uid.value in db.seals then Valid else Unregistered, t.uid, t.ctr))
  }

  /** The first of the drawn ids that is free; the insert fails when none is. */
  function FreeId(taps: map<nat, Tap>, ids: seq<nat>): (r: Option<nat>)
    ensures r.Some? ==> r.value !in taps && r.value in ids
  {
    if ids == [] then None else if ids[0] in taps then FreeId(taps, ids[1..]) else Some(ids[0])
  }

  predicate Dead(db: Db, chk: Check) {
    chk.verdict == Valid && chk.uid.Some? && chk.uid.value in db.seals && db.seals[chk.uid.value].dead
  }

  /** A dead seal answers NO_RESPONSE. */
  function Answered(db: Db, chk: Check): Verdict { if Dead(db, chk) then NoResponse else chk.verdict }

  datatype Fresh = Direct(auth: Auth) | Adoption(id: nat, token: Option<Hash>)

  datatype Request =
    | Landing(auth: Auth, ts: int, ids: seq<nat>, adoptHash: Hash, purgeBefore: Option<int>)
    | Verify(session: Option<Nonce>, tap: Fresh, expected: Option<Serial>, ts: int, ids: seq<nat>)
    | Preview(auth: Auth)
    | Session(nonce: Nonce, ts: int, ttl: int)
    | Attach(uid: Uid, serial: Serial, last: nat, dead: bool)
    | MarkDead(uid: Uid)
    | Refresh(uid: Uid, last: nat, dead: bool)
    | ReportDead(nonce: Nonce, ts: int, allowed: bool)

  datatype Signature = Signature(uid: Uid, ctr: nat, nonce: Nonce)

  /** An answer with the scan it signed, or an error after which the transaction is rolled back. */
  datatype Reply = Answer(verdict: Verdict, signed: Option<Signature>) | Done | Failed

  function WithoutInvalid(taps: map<nat, Tap>, before: int): map<nat, Tap> {
    map id | id in taps && !(taps[id].verdict == Invalid && taps[id].ts < before) :: taps[id]
  }

  function Purged(db: Db, before: Option<int>): (p: Db)
    ensures p.nonces == db.nonces && p.seals == db.seals
  {
    if before == None then db else db.(taps := WithoutInvalid(db.taps, before.value))
  }

  ghost function LandingStep(db: Db, r: Request): (Db, Reply)
    requires r.Landing?
  {
    var (db1, chk) := Consume(db, r.auth);
    var verdict := Answered(db1, chk);
    if verdict == Invalid
        && !(r.auth.Refused? && r.auth.claimed.Some? && r.auth.named)
            then (Purged(db1, r.purgeBefore), Answer(Invalid, None)) else
      match FreeId(db1.taps, r.ids)
      case None => (db, Failed)
      case Some(id) =>
        var row := Tap(r.ts, FromT, chk.uid, chk.ctr, verdict, if verdict == Valid then Some(r.adoptHash)
            else None, None);
        var db2 := db1.(taps := db1.taps[id := row]);
        var db3 := if verdict == Valid then db2.(events := db2.events + [Sighting(r.auth.uid, r.auth.ctr)]) else db2;
        (Purged(db3, r.purgeBefore), Answer(verdict, None))
  }

  predicate NonceOpen(db: Db, n: Nonce, ts: int) {
    n in db.nonces && db.nonces[n].usedAt == None && db.nonces[n].expiresAt >= ts
  }

  function UseNonce(db: Db, n: Nonce, ts: int): Db
    requires n in db.nonces
  {
    db.(nonces := db.nonces[n := db.nonces[n].(usedAt := Some(ts))])
  }

  ghost function TapOf(db: Db, tap: Fresh, ts: int): (Db, Check) {
    match tap
    case Direct(auth) => Consume(db, auth)
    case Adoption(id, token) => Adopt(db, id, token, ts)
  }

  ghost function VerifyStep(db: Db, r: Request): (Db, Reply)
    requires r.Verify?
  {
    if r.session == None || !NonceOpen(db, r.session.value, r.ts) then (db, Answer(NonceInvalid, None)) else
      var (db1, chk) := TapOf(db, r.tap, r.ts);
      Conclude(db, db1, chk, r)
  }

  /** The part of /api/verify after the tap check: `db` is what a rollback restores. */
  function Conclude(db: Db, db1: Db, chk: Check, r: Request): (Db, Reply)
    requires r.Verify? && r.session.Some? && r.session.value in db1.nonces
  {
    var verdict := Answered(db1, chk);
    if verdict == Valid && r.expected.Some? && chk.uid.Some? && chk.uid.value in db1.seals
       && r.expected.value != db1.seals[chk.uid.value].serial then (db, Failed) else
      match (if chk.uid.Some? then FreeId(db1.taps, r.ids) else Some(0))
      case None => (db, Failed)
      case Some(id) =>
        var row := Tap(r.ts, FromVerify, chk.uid, chk.ctr, verdict, None, None);
        var db2 := if chk.uid.Some? then db1.(taps := db1.taps[id := row]) else db1;
        if verdict != Valid || chk.uid == None || chk.ctr == None then (db2, Answer(verdict, None)) else
          var db3 := UseNonce(db2, r.session.value, r.ts);
          (db3.(events := db3.events + [Scan(chk.uid.value, chk.ctr.value, r.session.value)]),
           Answer(Valid, Some(Signature(chk.uid.value, chk.ctr.value, r.session.value))))
  }

  /** purge_nonces: expired nonces go at once when used and an hour later otherwise. */
  function OpenNonces(nonces: map<Nonce, NonceRow>, before: int): map<Nonce, NonceRow> {
    map n | n in nonces && !(nonces[n].expiresAt < before
        && (nonces[n].usedAt.Some? || nonces[n].expiresAt < before - 3600)) :: nonces[n]
  }

  ghost function Attached(db: Db, uid: Uid, serial: Serial, last: nat, dead: bool): Seal {
    var seed := Max(last, Memory(db.taps, uid));
    if uid in db.seals then Seal(serial, Max(db.seals[uid].last, seed), db.seals[uid].dead || dead)
        else Seal(serial, seed, dead)
  }

  ghost function Step(db: Db, r: Request): (Db, Reply) {
    match r
    case Landing(_, _, _, _, _) => LandingStep(db, r)
    case Verify(_, _, _, _, _) => VerifyStep(db, r)
    case Preview(auth) => (db, Answer(Answered(db, Checked(db, auth)), None))
    case Session(nonce, ts, ttl) =>
      if nonce in db.nonces then (db, Failed)
      else (db.(nonces := OpenNonces(db.nonces[nonce := NonceRow(ts, ts + ttl, None)], ts)), Done)
    case Attach(uid, serial, last, dead) =>
      (db.(seals := db.seals[uid := Attached(db, uid, serial, last, dead)]), Done)
    case MarkDead(uid) =>
      if uid in db.seals then (db.(seals := db.seals[uid := db.seals[uid].(dead := true)]), Done) else (db, Done)
    case Refresh(uid, last, dead) =>
      if uid in db.seals then
        var s := db.seals[uid];
        (db.(seals := db.seals[uid := s.(last := Max(s.last, last), dead := s.dead || dead)]), Done)
      else (db, Done)
    case ReportDead(nonce, ts, allowed) =>
      if !NonceOpen(db, nonce, ts) || !allowed then (db, Failed)
      else
        var db1 := UseNonce(db, nonce, ts);
        (db1.(events := db1.events + [DeadReport(nonce)]), Done)
  }

  // ---------- what an outside observer sees ----------

  /** The tap a request got accepted as fresh: answered VALID, UNREGISTERED or (dead seal) NO_RESPONSE. */
  function Accepted(r: Request, a: Reply): Option<(Uid, nat)> {
    if a.Answer? && a.verdict in {Valid, Unregistered, NoResponse} then
      if r.Landing? && r.auth.Genuine? then Some((r.auth.uid, r.auth.ctr))
      else if r.Verify? && r.tap.Direct? && r.tap.auth.Genuine? then Some((r.tap.auth.uid, r.tap.auth.ctr))
      else None
    else None
  }

  function Signed(a: Reply): Option<Signature> { if a.Answer? then a.signed else None }

  /** The nonce a request used up, for a signature or for a report. */
  function Spent(r: Request, a: Reply): Option<Nonce> {
    if Signed(a).Some? then Some(Signed(a).value.nonce)
    else if r.ReportDead? && a.Done? then Some(r.nonce) else None
  }

  /** Everything that happened so far. */
  datatype History = History(accepted: set<(Uid, nat)>, signed: set<(Uid, nat)>, spent: set<Nonce>, issued: set<Nonce>)

  function AsSet<T(==)>(x: Option<T>): set<T> { match x case Some(t) => {t} case None => {} }

  function SignedTap(a: Reply): Option<(Uid, nat)> {
    match Signed(a) case Some(s) => Some((s.uid, s.ctr)) case None => None
  }

  function Extended(h: History, r: Request, a: Reply): History {
    History(h.accepted + AsSet(Accepted(r, a)), h.signed + AsSet(SignedTap(a)), h.spent + AsSet(Spent(r, a)),
            h.issued + if r.Session? then {r.nonce} else {})
  }

  // ---------- the invariant ----------

  predicate Adoptable(t: Tap) { t.source == FromT && t.verdict == Valid && t.uid.Some? && t.ctr.Some? }

  function TapKey(t: Tap): (Uid, nat)
    requires t.uid.Some? && t.ctr.Some?
  {
    (t.uid.value, t.ctr.value)
  }

  /** Row `id` offers tap `key` for adoption, or did so before it was adopted. */
  predicate Offers(taps: map<nat, Tap>, id: nat, key: (Uid, nat)) {
    id in taps && Adoptable(taps[id]) && TapKey(taps[id]) == key
  }

  ghost predicate TapsSafe(db: Db, accepted: set<(Uid, nat)>, signed: set<(Uid, nat)>) {
    && (forall key :: key in accepted ==> key.1 <= Last(db, key.0))
    && (forall id, key :: Offers(db.taps, id, key) ==> key in accepted)
    && (forall id, key :: Offers(db.taps, id, key) && db.taps[id].adoptedAt == None ==> key !in signed)
    && (forall i, j, key :: Offers(db.taps, i, key) && Offers(db.taps, j, key) ==> i == j)
    && signed <= accepted
  }

  ghost predicate NoncesSafe(db: Db, spent: set<Nonce>, issued: set<Nonce>) {
    && (forall n :: n in db.nonces && db.nonces[n].usedAt == None ==> n !in spent)
    && (forall n :: n in db.nonces ==> n in issued)
    && spent <= issued
  }

  ghost predicate Safe(db: Db, h: History) { TapsSafe(db, h.accepted, h.signed) && NoncesSafe(db, h.spent, h.issued) }

  // ---------- the replay memory never shrinks ----------

  lemma MemoryGrows(taps: map<nat, Tap>, more: map<nat, Tap>, uid: Uid)
    requires forall id :: id in taps && Remembered(taps[id], uid) ==>
        id in more && more[id].ctr == taps[id].ctr && Remembered(more[id], uid)
    ensures Memory(taps, uid) <= Memory(more, uid)
  {}

  lemma MemoryHolds(taps: map<nat, Tap>, id: nat, uid: Uid)
    requires id in taps && Remembered(taps[id], uid)
    ensures taps[id].ctr.value <= Memory(taps, uid)
  {}

  /** No chip's counter bound falls. */
  ghost predicate Grows(db: Db, next: Db) {
    forall uid :: Last(db, uid) <= Last(next, uid)
  }

  /** The remembered rows of `taps` are still there in `more`. */
  predicate Keeps(taps: map<nat, Tap>, more: map<nat, Tap>) {
    forall id :: id in taps && taps[id].verdict in {Valid, Unregistered}
                 ==> id in more && more[id].(adoptedAt := None) == taps[id].(adoptedAt := None)
  }

  predicate KeepsSeals(seals: map<Uid, Seal>, more: map<Uid, Seal>) {
    forall uid :: uid in seals ==> uid in more && seals[uid].last <= more[uid].last
  }

  /** Nothing that guards against replay is lost, and no chip is registered. */
  predicate Kept(db: Db, next: Db) {
    Keeps(db.taps, next.taps) && KeepsSeals(db.seals, next.seals) && next.seals.Keys == db.seals.Keys
  }

  lemma KeptTwice(db: Db, mid: Db, next: Db)
    requires Kept(db, mid) && Kept(mid, next)
    ensures Kept(db, next)
  {}

  lemma KeptGrows(db: Db, next: Db)
    requires Kept(db, next)
    ensures Grows(db, next)
  {
    hide Memory;
    forall uid ensures Last(db, uid) <= Last(next, uid) {
      MemoryGrows(db.taps, next.taps, uid);
    }
  }

  lemma ConsumeKept(db: Db, auth: Auth)
    ensures Kept(db, Consume(db, auth).0)
  {
    hide Memory;
  }

  lemma AdoptKept(db: Db, id: nat, token: Option<Hash>, ts: int)
    ensures Kept(db, Adopt(db, id, token, ts).0)
  {}

  lemma InsertKept(db: Db, id: nat, row: Tap)
    requires id !in db.taps
    ensures Kept(db, db.(taps := db.taps[id := row]))
  {}

  lemma PurgedKept(db: Db, before: Option<int>)
    ensures Kept(db, Purged(db, before))
  {}

  lemma LandingKept(db: Db, r: Request)
    requires r.Landing?
    ensures Kept(db, LandingStep(db, r).0)
  {
    hide Keeps, KeepsSeals, Purged, Consume, FreeId;
    var (db1, chk) := Consume(db, r.auth);
    ConsumeKept(db, r.auth);
    PurgedKept(db1, r.purgeBefore);
    KeptTwice(db, db1, Purged(db1, r.purgeBefore));
    var verdict := Answered(db1, chk);
    var id := FreeId(db1.taps, r.ids);
    if id.Some? && !(verdict == Invalid && !(r.auth.Refused? && r.auth.claimed.Some? && r.auth.named)) {
      var row := Tap(r.ts, FromT, chk.uid, chk.ctr, verdict, if verdict == Valid then Some(r.adoptHash)
          else None, None);
      var db2 := db1.(taps := db1.taps[id.value := row]);
      var db3 := if verdict == Valid then db2.(events := db2.events + [Sighting(r.auth.uid, r.auth.ctr)]) else db2;
      InsertKept(db1, id.value, row);
      assert Kept(db1, db3);
      PurgedKept(db3, r.purgeBefore);
      KeptTwice(db1, db3, Purged(db3, r.purgeBefore));
      KeptTwice(db, db1, Purged(db3, r.purgeBefore));
    } else {
      assert Kept(db, db) by { InsertNothing(db); }
    }
  }

  lemma InsertNothing(db: Db)
    ensures Kept(db, db)
  {}

  lemma ConcludeKept(db: Db, db1: Db, chk: Check, r: Request)
    requires r.Verify? && r.session.Some? && r.session.value in db1.nonces && Kept(db, db1)
    ensures Kept(db, Conclude(db, db1, chk, r).0)
  {
    hide Keeps, KeepsSeals, FreeId, Answered;
    InsertNothing(db);
    var id := FreeId(db1.taps, r.ids);
    var row := Tap(r.ts, FromVerify, chk.uid, chk.ctr, Answered(db1, chk), None, None);
    if chk.uid.Some? && id.Some? {
      InsertKept(db1, id.value, row);
      KeptTwice(db, db1, db1.(taps := db1.taps[id.value := row]));
    }
    var next := Conclude(db, db1, chk, r).0;
    assert next.taps == db.taps || next.taps == db1.taps
        || (chk.uid.Some? && id.Some? && next.taps == db1.taps[id.value := row]);
  }

  lemma VerifyKept(db: Db, r: Request)
    requires r.Verify?
    ensures Kept(db, VerifyStep(db, r).0)
  {
    hide Kept, Conclude, Consume, Adopt;
    InsertNothing(db);
    if r.session.Some? && NonceOpen(db, r.session.value, r.ts) {
      match r.tap {
        case Direct(auth) => ConsumeKept(db, auth);
        case Adoption(id, token) => AdoptKept(db, id, token, r.ts);
      }
      NonceStays(db, r.tap, r.ts);
      var (db1, chk) := TapOf(db, r.tap, r.ts);
      ConcludeKept(db, db1, chk, r);
    }
  }

  lemma NonceStays(db: Db, tap: Fresh, ts: int)
    ensures TapOf(db, tap, ts).0.nonces == db.nonces
  {}

  lemma AttachGrows(db: Db, r: Request)
    requires r.Attach?
    ensures Grows(db, Step(db, r).0) && KeepsSeals(db.seals, Step(db, r).0.seals)
  {
    hide Memory;
    var next := Step(db, r).0;
    forall uid ensures Last(db, uid) <= Last(next, uid) {
      MemoryGrows(db.taps, next.taps, uid);
    }
  }

  lemma OtherKept(db: Db, r: Request)
    requires !r.Landing? && !r.Verify? && !r.Attach?
    ensures Kept(db, Step(db, r).0)
  {
    hide Memory, Answered, Checked;
  }

  /**
   * Whatever the request: no counter bound falls, so a registration never reopens a tap and a seal's counter never
   * falls.
   */
  lemma BoundsNeverFall(db: Db, r: Request)
    ensures Grows(db, Step(db, r).0) && KeepsSeals(db.seals, Step(db, r).0.seals)
  {
    hide LandingStep, VerifyStep, Keeps, KeepsSeals, Grows, Memory, Attached, Answered, Checked;
    if r.Attach? {
      AttachGrows(db, r);
    } else {
      match r {
        case Landing(_, _, _, _, _) => LandingKept(db, r);
        case Verify(_, _, _, _, _) => VerifyKept(db, r);
        case _ => OtherKept(db, r);
      }
      KeptGrows(db, Step(db, r).0);
    }
  }

  // ---------- one step is safe ----------

  /**
   * The step accepts only a new tap and remembers it, signs only an unsigned one, and offers only the accepted one
   * anew.
   */
  ghost predicate Careful(db: Db, next: Db, accepted: set<(Uid, nat)>, signed: set<(Uid, nat)>,
                          acc: Option<(Uid, nat)>, sig: Option<(Uid, nat)>) {
    && (acc.Some? ==> acc.value !in accepted && acc.value.1 <= Last(next, acc.value.0))
    && (sig.Some? ==> (sig == acc || sig.value in accepted) && sig.value !in signed
                      && forall id :: Offers(next.taps, id, sig.value) ==> next.taps[id].adoptedAt.Some?)
    && (forall id, key :: Offers(next.taps, id, key) ==>
          || (Offers(db.taps, id, key) && (db.taps[id].adoptedAt.Some? ==> next.taps[id].adoptedAt.Some?))
          || (acc == Some(key) && forall i :: Offers(next.taps, i, key) ==> i == id))
  }

  lemma TapsStep(db: Db, next: Db, accepted: set<(Uid, nat)>, signed: set<(Uid, nat)>, acc: Option<(Uid, nat)>,
      sig: Option<(Uid, nat)>)
    requires TapsSafe(db, accepted, signed) && Grows(db, next) && Careful(db, next, accepted, signed, acc, sig)
    ensures TapsSafe(next, accepted + AsSet(acc), signed + AsSet(sig))
  {
    hide Last, Offers;
  }

  /** A tap that passes the counter check was never accepted before, and afterwards its counter is the bound. */
  lemma FreshIsNew(db: Db, auth: Auth, accepted: set<(Uid, nat)>, signed: set<(Uid, nat)>)
    requires TapsSafe(db, accepted, signed) && Consume(db, auth).1.verdict in {Valid, Unregistered}
    ensures (auth.uid, auth.ctr) !in accepted
    ensures Consume(db, auth).1.verdict == Valid ==> auth.ctr <= Last(Consume(db, auth).0, auth.uid)
  {
    hide Memory;
  }

  lemma RowIsBound(db: Db, id: nat, uid: Uid, ctr: nat)
    requires id in db.taps && Remembered(db.taps[id], uid) && db.taps[id].ctr == Some(ctr)
    requires uid !in db.seals
    ensures ctr <= Last(db, uid)
  {
    MemoryHolds(db.taps, id, uid);
  }

  /** GET /t. */
  lemma LandingCareful(db: Db, r: Request, accepted: set<(Uid, nat)>, signed: set<(Uid, nat)>)
    requires r.Landing? && TapsSafe(db, accepted, signed)
    ensures var (next, a) := LandingStep(db, r);
      && Grows(db, next) && Careful(db, next, accepted, signed, Accepted(r, a), SignedTap(a))
      && Spent(r, a) == None && next.nonces == db.nonces
  {
    hide Last, TapsSafe, Kept, Consume, FreeId, Keeps;
    var (next, a) := LandingStep(db, r);
    LandingKept(db, r);
    KeptGrows(db, next);
    if Accepted(r, a).Some? { LandingAccepts(db, r, accepted, signed); }
    LandingOffers(db, r, accepted, signed);
  }

  /**
   * The rows after GET /t: those before it, some perhaps purged, and one new row that offers nothing but the accepted
   * tap.
   */
  lemma LandingRows(db: Db, r: Request) returns (added: nat)
    requires r.Landing?
    ensures var (next, a) := LandingStep(db, r);
      forall id :: id in next.taps ==>
        (id in db.taps && next.taps[id] == db.taps[id])
        || (id == added && (Adoptable(next.taps[id]) ==> Accepted(r, a) == Some(TapKey(next.taps[id]))))
  {
    hide Memory, Last;
    var id := FreeId(Consume(db, r.auth).0.taps, r.ids);
    added := if id.Some? then id.value else 0;
  }

  lemma LandingOffers(db: Db, r: Request, accepted: set<(Uid, nat)>, signed: set<(Uid, nat)>)
    requires r.Landing? && TapsSafe(db, accepted, signed)
    requires var acc := Accepted(r, LandingStep(db, r).1); acc.Some? ==> acc.value !in accepted
    ensures var (next, a) := LandingStep(db, r);
      forall id, key :: Offers(next.taps, id, key) ==>
        (Offers(db.taps, id, key) && (db.taps[id].adoptedAt.Some? ==> next.taps[id].adoptedAt.Some?))
        || (Accepted(r, a) == Some(key) && forall i :: Offers(next.taps, i, key) ==> i == id)
  {
    hide LandingStep, Accepted, Last;
    var added := LandingRows(db, r);
  }

  lemma LandingAccepts(db: Db, r: Request, accepted: set<(Uid, nat)>, signed: set<(Uid, nat)>)
    requires r.Landing? && TapsSafe(db, accepted, signed)
    requires Accepted(r, LandingStep(db, r).1).Some?
    ensures (r.auth.uid, r.auth.ctr) !in accepted && r.auth.ctr <= Last(LandingStep(db, r).0, r.auth.uid)
  {
    hide TapsSafe, Memory, WithoutInvalid;
    FreshIsNew(db, r.auth, accepted, signed);
    var (db1, chk) := Consume(db, r.auth);
    var next := LandingStep(db, r).0;
    var id := FreeId(db1.taps, r.ids).value;
    var row := Tap(r.ts, FromT, chk.uid, chk.ctr, Answered(db1, chk), if Answered(db1, chk) == Valid
        then Some(r.adoptHash) else None, None);
    var db2 := db1.(taps := db1.taps[id := row]);
    if chk.verdict == Unregistered { RowIsBound(db2, id, r.auth.uid, r.auth.ctr); }
    PurgedKept(db2, r.purgeBefore);
    KeptGrows(db2, Purged(db2, r.purgeBefore));
    InsertKept(db1, id, row);
    KeptGrows(db1, db2);
    assert next.taps == Purged(db2, r.purgeBefore).taps;
  }

  /** Adoption: the tap was accepted before, never signed, and no row offers it any more. */
  lemma AdoptSafe(db: Db, id: nat, token: Option<Hash>, ts: int, accepted: set<(Uid, nat)>, signed: set<(Uid, nat)>)
    requires TapsSafe(db, accepted, signed)
    ensures var (next, chk) := Adopt(db, id, token, ts);
      && next.nonces == db.nonces
      && (forall i, key :: Offers(next.taps, i, key) ==>
            Offers(db.taps, i, key) && (db.taps[i].adoptedAt.Some? ==> next.taps[i].adoptedAt.Some?))
      && (chk.verdict in {Valid, Unregistered} ==>
            && chk.uid.Some? && chk.ctr.Some?
            && var key := (chk.uid.value, chk.ctr.value);
               key in accepted && key !in signed && forall i :: Offers(next.taps, i, key) ==>
                   next.taps[i].adoptedAt.Some?)
  {
    hide Last;
    var (next, chk) := Adopt(db, id, token, ts);
    if chk.verdict in {Valid, Unregistered} {
      assert Offers(db.taps, id, (chk.uid.value, chk.ctr.value));
    }
  }

  /** The row /api/verify inserts offers nothing for adoption. */
  lemma ConcludeRows(db: Db, db1: Db, chk: Check, r: Request)
    requires r.Verify? && r.session.Some? && r.session.value in db1.nonces
    ensures var (next, a) := Conclude(db, db1, chk, r);
      && (a != Failed ==> forall id, key :: Offers(next.taps, id, key) ==>
          Offers(db1.taps, id, key) && next.taps[id] == db1.taps[id])
      && (a == Failed ==> next == db)
      && (Signed(a).Some? ==> a.verdict == Valid == chk.verdict && chk.uid.Some? && chk.ctr.Some?
                              && Signed(a).value == Signature(chk.uid.value, chk.ctr.value, r.session.value))
  {}

  /** POST /api/verify with the tap itself. */
  lemma DirectCareful(db: Db, r: Request, accepted: set<(Uid, nat)>, signed: set<(Uid, nat)>)
    requires r.Verify? && r.tap.Direct? && r.session.Some? && NonceOpen(db, r.session.value, r.ts)
        && TapsSafe(db, accepted, signed)
    requires VerifyStep(db, r).1 != Failed
    ensures var (next, a) := VerifyStep(db, r); Careful(db, next, accepted, signed, Accepted(r, a), SignedTap(a))
  {
    hide Memory, Last;
    var (next, a) := VerifyStep(db, r);
    var auth := r.tap.auth;
    var (db1, chk) := Consume(db, auth);
    ConcludeRows(db, db1, chk, r);
    if Accepted(r, a).Some? {
      FreshIsNew(db, auth, accepted, signed);
      DirectRemembered(db, db1, chk, r);
    }
  }

  /** The accepted tap is in the replay memory afterwards. */
  lemma DirectRemembered(db: Db, db1: Db, chk: Check, r: Request)
    requires r.Verify? && r.session.Some? && r.session.value in db1.nonces && chk.uid.Some? && chk.ctr.Some?
    requires Conclude(db, db1, chk, r).1 != Failed && chk.verdict in {Valid, Unregistered}
    requires chk.verdict == Valid ==> chk.uid.value in db1.seals && chk.ctr.value <= db1.seals[chk.uid.value].last
    requires chk.verdict == Unregistered ==> chk.uid.value !in db1.seals
    ensures chk.ctr.value <= Last(Conclude(db, db1, chk, r).0, chk.uid.value)
  {
    hide Memory;
    var next := Conclude(db, db1, chk, r).0;
    if chk.verdict == Unregistered {
      var id := FreeId(db1.taps, r.ids).value;
      RowIsBound(next, id, chk.uid.value, chk.ctr.value);
    }
  }

  /** POST /api/verify with a tap that /t accepted. */
  lemma AdoptionCareful(db: Db, r: Request, accepted: set<(Uid, nat)>, signed: set<(Uid, nat)>)
    requires r.Verify? && r.tap.Adoption? && r.session.Some? && NonceOpen(db, r.session.value, r.ts)
        && TapsSafe(db, accepted, signed)
    requires VerifyStep(db, r).1 != Failed
    ensures var (next, a) := VerifyStep(db, r); Careful(db, next, accepted, signed, Accepted(r, a), SignedTap(a))
  {
    hide Last, Adopt, Conclude, TapsSafe, Offers;
    AdoptSafe(db, r.tap.id, r.tap.token, r.ts, accepted, signed);
    var (db1, chk) := Adopt(db, r.tap.id, r.tap.token, r.ts);
    ConcludeRows(db, db1, chk, r);
  }

  lemma VerifyCareful(db: Db, r: Request, accepted: set<(Uid, nat)>, signed: set<(Uid, nat)>)
    requires r.Verify? && TapsSafe(db, accepted, signed)
    ensures var (next, a) := VerifyStep(db, r);
      Grows(db, next) && Careful(db, next, accepted, signed, Accepted(r, a), SignedTap(a))
  {
    hide Last, Kept, Conclude, Consume, Adopt, TapsSafe, Offers, Careful;
    VerifyKept(db, r);
    KeptGrows(db, VerifyStep(db, r).0);
    if r.session == None || !NonceOpen(db, r.session.value, r.ts) || VerifyStep(db, r).1 == Failed {
      VerifyIdle(db, r, accepted, signed);
    } else if r.tap.Direct? {
      DirectCareful(db, r, accepted, signed);
    } else {
      AdoptionCareful(db, r, accepted, signed);
    }
  }

  /** A request without an open nonce, or one that is rolled back, changes nothing. */
  lemma VerifyIdle(db: Db, r: Request, accepted: set<(Uid, nat)>, signed: set<(Uid, nat)>)
    requires r.Verify?
    requires r.session == None || !NonceOpen(db, r.session.value, r.ts) || VerifyStep(db, r).1 == Failed
    ensures var (next, a) := VerifyStep(db, r);
      next == db && Careful(db, next, accepted, signed, Accepted(r, a), SignedTap(a))
  {
    hide Last, Offers, Consume, Adopt;
  }

  lemma OtherCareful(db: Db, r: Request, accepted: set<(Uid, nat)>, signed: set<(Uid, nat)>)
    requires !r.Landing? && !r.Verify?
    ensures var (next, a) := Step(db, r); Careful(db, next, accepted, signed, Accepted(r, a), SignedTap(a))
  {
    hide Last, Attached, Answered;
  }

  // ---------- nonces ----------

  lemma VerifyNonces(db: Db, r: Request)
    requires r.Verify?
    ensures var (next, a) := VerifyStep(db, r);
      match Spent(r, a)
      case None => next.nonces == db.nonces
      case Some(n) => NonceOpen(db, n, r.ts) && next.nonces == UseNonce(db, n, r.ts).nonces
  {
    hide Consume, Adopt, FreeId, Answered;
    if r.session.Some? && NonceOpen(db, r.session.value, r.ts) { NonceStays(db, r.tap, r.ts); }
  }

  /** A nonce is used up only while it is open, which it then no longer is. */
  lemma NoncesStep(db: Db, r: Request, h: History)
    requires NoncesSafe(db, h.spent, h.issued) && (r.Session? ==> r.nonce !in h.issued)
    ensures var (next, a) := Step(db, r);
      && (Spent(r, a).Some? ==> Spent(r, a).value !in h.spent)
      && NoncesSafe(next, Extended(h, r, a).spent, Extended(h, r, a).issued)
  {
    hide LandingStep, VerifyStep, Checked, Answered, Attached, Accepted;
    match r {
      case Landing(_, _, _, _, _) => LandingNonces(db, r);
      case Verify(_, _, _, _, _) => VerifyNonces(db, r);
      case _ =>
    }
  }

  lemma LandingNonces(db: Db, r: Request)
    requires r.Landing?
    ensures LandingStep(db, r).0.nonces == db.nonces && Spent(r, LandingStep(db, r).1) == None
  {
    hide Consume, FreeId, Answered;
  }

  // ---------- runs ----------

  ghost function Replies(db: Db, rs: seq<Request>): (as_: seq<Reply>)
    ensures |as_| == |rs|
    decreases |rs|
  {
    if rs == [] then [] else var (next, a) := Step(db, rs[0]); [a] + Replies(next, rs[1..])
  }

  ghost function After(db: Db, rs: seq<Request>): Db
    decreases |rs|
  {
    if rs == [] then db else After(Step(db, rs[0]).0, rs[1..])
  }

  /** Each request is answered in, and leads on from, the state that the requests before it left. */
  lemma {:induction false} RunAppends(db: Db, rs: seq<Request>, r: Request)
    ensures After(db, []) == db && After(db, rs + [r]) == Step(After(db, rs), r).0
    ensures Replies(db, rs + [r]) == Replies(db, rs) + [Step(After(db, rs), r).1]
    decreases |rs|
  {
    hide Step;
    if rs == [] {
      assert (rs + [r])[1..] == [];
    } else {
      assert (rs + [r])[1..] == rs[1..] + [r];
      RunAppends(Step(db, rs[0]).0, rs[1..], r);
    }
  }

  /** Session nonces are 32 random bytes: no two sessions of the run get the same. */
  ghost predicate FreshNonces(rs: seq<Request>, issued: set<Nonce>) {
    && (forall i :: 0 <= i < |rs| && rs[i].Session? ==> rs[i].nonce !in issued)
    && (forall i, j :: 0 <= i < j < |rs| && rs[i].Session? && rs[j].Session? ==> rs[i].nonce != rs[j].nonce)
  }

  lemma SafeStep(db: Db, r: Request, h: History)
    requires Safe(db, h) && (r.Session? ==> r.nonce !in h.issued)
    ensures var (next, a) := Step(db, r);
      && Safe(next, Extended(h, r, a))
      && (Accepted(r, a).Some? ==> Accepted(r, a).value !in h.accepted)
      && (SignedTap(a).Some? ==> SignedTap(a).value !in h.signed)
      && (Spent(r, a).Some? ==> Spent(r, a).value !in h.spent)
  {
    hide LandingStep, VerifyStep, TapsSafe, NoncesSafe, Accepted, SignedTap, Spent, Grows, Last, Attached, Answered,
        Checked;
    var (next, a) := Step(db, r);
    BoundsNeverFall(db, r);
    NoncesStep(db, r, h);
    if r.Landing? { LandingCareful(db, r, h.accepted, h.signed); }
    else if r.Verify? { VerifyCareful(db, r, h.accepted, h.signed); }
    else { OtherCareful(db, r, h.accepted, h.signed); }
    TapsStep(db, next, h.accepted, h.signed, Accepted(r, a), SignedTap(a));
  }

  /**
   * Over every run of every endpoint: no tap (chip, counter) is accepted twice, no tap is signed twice, no nonce is
   * used up twice, and none of what happened before the run is repeated.
   */
  lemma {:induction false} RunIsSafe(db: Db, rs: seq<Request>, h: History)
    requires Safe(db, h) && FreshNonces(rs, h.issued)
    ensures var a := Replies(db, rs);
      && (forall i :: 0 <= i < |rs| && Accepted(rs[i], a[i]).Some? ==> Accepted(rs[i], a[i]).value !in h.accepted)
      && (forall i :: 0 <= i < |rs| && SignedTap(a[i]).Some? ==> SignedTap(a[i]).value !in h.signed)
      && (forall i :: 0 <= i < |rs| && Spent(rs[i], a[i]).Some? ==> Spent(rs[i], a[i]).value !in h.spent)
      && (forall i, j :: 0 <= i < j < |rs| && Accepted(rs[i], a[i]).Some? ==>
          Accepted(rs[i], a[i]) != Accepted(rs[j], a[j]))
      && (forall i, j :: 0 <= i < j < |rs| && SignedTap(a[i]).Some? ==> SignedTap(a[i]) != SignedTap(a[j]))
      && (forall i, j :: 0 <= i < j < |rs| && Spent(rs[i], a[i]).Some? ==> Spent(rs[i], a[i]) != Spent(rs[j], a[j]))
    decreases |rs|
  {
    hide Step, Safe, Accepted, SignedTap, Spent;
    if rs != [] {
      var (next, a) := Step(db, rs[0]);
      SafeStep(db, rs[0], h);
      var rest := rs[1..];
      assert forall i :: 0 <= i < |rest| ==> rest[i] == rs[i + 1];
      RunIsSafe(next, rest, Extended(h, rs[0], a));
      var all, more := Replies(db, rs), Replies(next, rest);
      assert forall i :: 0 < i < |rs| ==> all[i] == more[i - 1] && rs[i] == rest[i - 1];
    }
  }

  /** Over a whole run no seal disappears, no seal's counter falls, and no chip's bound does. */
  lemma {:induction false} RunNeverFalls(db: Db, rs: seq<Request>, uid: Uid)
    ensures Last(db, uid) <= Last(After(db, rs), uid)
    ensures uid in db.seals ==> uid in After(db, rs).seals && db.seals[uid].last <= After(db, rs).seals[uid].last
    decreases |rs|
  {
    hide Step, Last;
    if rs != [] {
      BoundsNeverFall(db, rs[0]);
      RunNeverFalls(Step(db, rs[0]).0, rs[1..], uid);
    }
  }

  const EMPTY := Db(map[], map[], map[], [])

  /** An empty database is a safe start. */
  lemma EmptyIsSafe()
    ensures Safe(EMPTY, History({}, {}, {}, {}))
  {}

  /**
   * GET /t accepts a tap exactly when it is genuine, exceeds the bound of its chip, and one of the drawn ids is free.
   */
  lemma LandingAcceptsIff(db: Db, r: Request)
    requires r.Landing?
    ensures Accepted(r, LandingStep(db, r).1).Some?
       <==> r.auth.Genuine? && r.auth.ctr > Last(db, r.auth.uid) && FreeId(db.taps, r.ids).Some?
  {
    hide Last;
  }

  /**
   * A tap that /t answered VALID can be signed once through its token: within the window, with an open nonce, without a
   * clash of serials, and while an id is free.
   */
  lemma LandedTapCanBeSigned(db: Db, landing: Request, verify: Request)
    requires landing.Landing? && LandingStep(db, landing).1 == Answer(Valid, None)
    requires var next := LandingStep(db, landing).0;
      && verify.Verify? && verify.session.Some? && NonceOpen(next, verify.session.value, verify.ts)
      && verify.tap == Adoption(FreeId(db.taps, landing.ids).value, Some(landing.adoptHash))
      && verify.ts - landing.ts <= ADOPT_WINDOW_S
      && (verify.expected.Some? ==> verify.expected.value == db.seals[landing.auth.uid].serial)
      && FreeId(next.taps, verify.ids).Some?
    ensures VerifyStep(LandingStep(db, landing).0, verify).1
         == Answer(Valid, Some(Signature(landing.auth.uid, landing.auth.ctr, verify.session.value)))
  {
    hide Last, FreeId;
    var next, id := LandingStep(db, landing).0, FreeId(db.taps, landing.ids).value;
    assert next.taps[id] == Tap(landing.ts, FromT, Some(landing.auth.uid), Some(landing.auth.ctr), Valid,
        Some(landing.adoptHash), None);
    SameFreeId(next.taps, Adopt(next, id, verify.tap.token, verify.ts).0.taps, verify.ids);
  }

  lemma {:induction false} SameFreeId(taps: map<nat, Tap>, more: map<nat, Tap>, ids: seq<nat>)
    requires taps.Keys == more.Keys
    ensures FreeId(taps, ids) == FreeId(more, ids)
  {
    if ids != [] { SameFreeId(taps, more, ids[1..]); }
  }

  // ---------- exactly what each endpoint answers ----------

  predicate SomeFree(taps: map<nat, Tap>, ids: seq<nat>) { exists i :: 0 <= i < |ids| && ids[i] !in taps }

  lemma {:induction false} FreeIdIff(taps: map<nat, Tap>, ids: seq<nat>)
    ensures FreeId(taps, ids).Some? <==> SomeFree(taps, ids)
  {
    if ids != [] {
      FreeIdIff(taps, ids[1..]);
      if SomeFree(taps, ids[1..]) {
        var i :| 0 <= i < |ids[1..]| && ids[1..][i] !in taps;
        assert ids[i + 1] !in taps;
      }
    }
  }

  /** The tap of a request, by what is stored: its chip and counter if a seal may be scanned with it. */
  predicate Scannable(db: Db, tap: Fresh, ts: int, uid: Uid, ctr: nat) {
    && uid in db.seals
    && match tap
       case Direct(auth) => auth == Genuine(uid, ctr) && ctr > db.seals[uid].last
       case Adoption(id, token) =>
         && id in db.taps && token.Some?
         && var t := db.taps[id];
         && t.source == FromT && t.adoptHash == token && t.verdict == Valid && t.uid == Some(uid) && t.ctr == Some(ctr)
         && t.adoptedAt == None && ts - t.ts <= 180
  }

  /**
   * POST /api/verify signs a scan of chip `uid` exactly when the nonce is known, unused and not expired, the tap is
   * genuine and above the seal's counter or adoptable with its token within 180 s, the seal is not dead, the expected
   * serial, if any, is the seal's, and a drawn id is free.
   */
  lemma SignedIff(db: Db, r: Request, uid: Uid, ctr: nat, nonce: Nonce)
    requires r.Verify?
    ensures Signed(VerifyStep(db, r).1) == Some(Signature(uid, ctr, nonce)) <==>
      && r.session == Some(nonce) && nonce in db.nonces
      && db.nonces[nonce].usedAt == None && r.ts <= db.nonces[nonce].expiresAt
      && Scannable(db, r.tap, r.ts, uid, ctr) && !db.seals[uid].dead
      && (r.expected.Some? ==> r.expected.value == db.seals[uid].serial)
      && SomeFree(db.taps, r.ids)
  {
    FreeIdIff(db.taps, r.ids);
    hide FreeId, SomeFree, Memory;
    if r.tap.Adoption? && r.session.Some? {
      SameFreeId(db.taps, Adopt(db, r.tap.id, r.tap.token, r.ts).0.taps, r.ids);
    }
  }

  /**
   * A signature uses up its nonce, is noted with its event and tap row, and raises the counter or claims the /t tap.
   */
  lemma SignedEffect(db: Db, r: Request)
    requires r.Verify? && Signed(VerifyStep(db, r).1).Some?
    ensures var (next, a) := VerifyStep(db, r);
      var sig := Signed(a).value;
      && a.verdict == Valid && sig.nonce in db.nonces && sig.uid in db.seals
      && next.nonces == db.nonces[sig.nonce := db.nonces[sig.nonce].(usedAt := Some(r.ts))]
      && next.events == db.events + [Scan(sig.uid, sig.ctr, sig.nonce)]
      && next.seals == (if r.tap.Direct? then db.seals[sig.uid := db.seals[sig.uid].(last := sig.ctr)] else db.seals)
      && exists id :: id in r.ids && id !in db.taps
           && next.taps == (if r.tap.Direct? then db.taps
                            else db.taps[r.tap.id := db.taps[r.tap.id].(adoptedAt := Some(r.ts))])[
                             id := Tap(r.ts, FromVerify, Some(sig.uid), Some(sig.ctr), Valid, None, None)]
  {
    hide FreeId, Memory;
    var (db1, chk) := TapOf(db, r.tap, r.ts);
    var id := FreeId(db1.taps, r.ids);
    assert id.Some? && id.value in r.ids && id.value !in db.taps;
  }

  /** What the check of a genuine tap says, by what is stored. */
  ghost function GenuineVerdict(db: Db, uid: Uid, ctr: nat): Verdict {
    if uid in db.seals then
      if ctr <= db.seals[uid].last then Replay else if db.seals[uid].dead then NoResponse else Valid
    else if exists id :: id in db.taps && Remembered(db.taps[id], uid) && ctr <= db.taps[id].ctr.value then Replay
    else if ctr == 0 then Replay
    else Unregistered
  }

  lemma AnsweredIs(db: Db, uid: Uid, ctr: nat)
    ensures Answered(db, Checked(db, Genuine(uid, ctr))) == GenuineVerdict(db, uid, ctr)
    ensures var (next, chk) := Consume(db, Genuine(uid, ctr)); Answered(next, chk) == GenuineVerdict(db, uid, ctr)
  {
    assert uid !in db.seals ==> IsMemory(db.taps, uid, Memory(db.taps, uid));
    hide Memory;
    if uid !in db.seals && ctr <= Memory(db.taps, uid) && ctr != 0 {
      var id :| id in db.taps && Remembered(db.taps[id], uid) && db.taps[id].ctr.value == Memory(db.taps, uid);
      assert ctr <= db.taps[id].ctr.value;
    }
  }

  /** GET /t and the preview: what they answer for every tap, and when /t fails instead. */
  lemma LandingAnswers(db: Db, r: Request)
    requires r.Landing?
    ensures var a, verdict := LandingStep(db, r).1,
        if r.auth.Genuine? then GenuineVerdict(db, r.auth.uid, r.auth.ctr) else Invalid;
      && (a == Failed <==> (r.auth.Genuine? || (r.auth.claimed.Some? && r.auth.named)) && !SomeFree(db.taps, r.ids))
      && (a == Failed ==> LandingStep(db, r).0 == db)
      && (a != Failed ==> a == Answer(verdict, None))
      && Step(db, Preview(r.auth)) == (db, Answer(verdict, None))
  {
    if r.auth.Genuine? { AnsweredIs(db, r.auth.uid, r.auth.ctr); }
    FreeIdIff(db.taps, r.ids);
    hide FreeId, SomeFree, Memory, GenuineVerdict, Remembered;
  }

  /** A purge takes the INVALID rows from before the given time and nothing else. */
  lemma LandingPurges(db: Db, r: Request, id: nat)
    requires r.Landing? && LandingStep(db, r).1 != Failed && id in db.taps
    ensures id in LandingStep(db, r).0.taps <==>
      !(r.purgeBefore.Some? && db.taps[id].verdict == Invalid && db.taps[id].ts < r.purgeBefore.value)
    ensures id in LandingStep(db, r).0.taps ==> LandingStep(db, r).0.taps[id] == db.taps[id]
  {
    hide FreeId, Memory;
  }

  /** What the claim of a /t tap says, by what is stored. */
  function AdoptionVerdict(db: Db, id: nat, token: Option<Hash>, ts: int): Verdict {
    if id !in db.taps || token == None then Invalid else
      var t := db.taps[id];
      if t.source != FromT || t.adoptHash != token || t.verdict != Valid || t.uid == None || t.ctr == None then Invalid
      else if t.adoptedAt.Some? || ts - t.ts > 180 then Replay
      else if t.uid.value !in db.seals then Unregistered
      else if db.seals[t.uid.value].dead then NoResponse else Valid
  }

  ghost function TapVerdict(db: Db, tap: Fresh, ts: int): Verdict {
    match tap
    case Direct(Genuine(uid, ctr)) => GenuineVerdict(db, uid, ctr)
    case Direct(_) => Invalid
    case Adoption(id, token) => AdoptionVerdict(db, id, token, ts)
  }

  /** The chip that a tap names, if any: a row for it is stored. */
  function Named(db: Db, tap: Fresh, ts: int): Option<Uid> {
    match tap
    case Direct(Genuine(uid, _)) => Some(uid)
    case Direct(Refused(claimed, _, _)) => claimed
    case Adoption(id, token) => if AdoptionVerdict(db, id, token, ts) == Invalid then None else db.taps[id].uid
  }

  lemma TapVerdictIs(db: Db, tap: Fresh, ts: int)
    ensures var (next, chk) := TapOf(db, tap, ts);
      Answered(next, chk) == TapVerdict(db, tap, ts) && chk.uid == Named(db, tap, ts) && next.taps.Keys == db.taps.Keys
  {
    if tap.Direct? && tap.auth.Genuine? { AnsweredIs(db, tap.auth.uid, tap.auth.ctr); }
    hide Memory, GenuineVerdict;
  }

  /** POST /api/verify: what it answers for every request, and that an error leaves everything as it was. */
  lemma VerifyAnswers(db: Db, r: Request)
    requires r.Verify?
    ensures var (next, a) := VerifyStep(db, r);
      var verdict, uid := TapVerdict(db, r.tap, r.ts), Named(db, r.tap, r.ts);
      && (a == Answer(NonceInvalid, None) <==>
            r.session == None || r.session.value !in db.nonces || db.nonces[r.session.value].usedAt.Some?
            || db.nonces[r.session.value].expiresAt < r.ts)
      && (a == Answer(NonceInvalid, None) || a == Failed ==> next == db)
      && (a != Answer(NonceInvalid, None) ==>
            && (a == Failed <==>
                  (|| (uid.Some? && !SomeFree(db.taps, r.ids))
                   || (verdict == Valid && r.expected.Some? && r.expected.value != db.seals[uid.value].serial)))
            && (a != Failed ==> a.Answer? && a.verdict == verdict && (a.signed.Some? <==> verdict == Valid)))
      && (Signed(a) == None ==> next.nonces == db.nonces && next.events == db.events)
  {
    TapVerdictIs(db, r.tap, r.ts);
    var (db1, chk) := TapOf(db, r.tap, r.ts);
    SameFreeId(db.taps, db1.taps, r.ids);
    FreeIdIff(db.taps, r.ids);
    ValidNames(db, r.tap, r.ts);
    hide FreeId, SomeFree, TapVerdict, Named;
  }

  lemma ValidNames(db: Db, tap: Fresh, ts: int)
    ensures TapVerdict(db, tap, ts) == Valid ==> Named(db, tap, ts).Some? && Named(db, tap, ts).value in db.seals
    ensures TapVerdict(db, tap, ts) != NonceInvalid
        && (TapOf(db, tap, ts).1.verdict == Valid ==> TapOf(db, tap, ts).1.ctr.Some?)
  {
    hide Memory;
  }

  // ---------- dead seals ----------

  /**
   * A dead seal stays dead, whatever is requested, and a seal that is marked or reported dead by chain or partner is.
   */
  lemma DeadStays(db: Db, r: Request, uid: Uid)
    ensures uid in db.seals && db.seals[uid].dead ==> uid in Step(db, r).0.seals && Step(db, r).0.seals[uid].dead
    ensures uid in db.seals && (r == MarkDead(uid) || (r.Refresh? && r.uid == uid && r.dead)) ==>
        Step(db, r).0.seals[uid].dead
    ensures r.Attach? && r.uid == uid && r.dead ==> Step(db, r).0.seals[uid].dead
  {
    hide FreeId, Memory;
  }

  /** No scan of a dead seal is ever signed again. */
  lemma {:induction false} DeadNeverSigned(db: Db, rs: seq<Request>, uid: Uid, i: nat)
    requires uid in db.seals && db.seals[uid].dead && i < |rs| && Signed(Replies(db, rs)[i]).Some?
    ensures Signed(Replies(db, rs)[i]).value.uid != uid
    decreases |rs|
  {
    hide Step, SomeFree, Scannable;
    var next, a := Step(db, rs[0]).0, Step(db, rs[0]).1;
    assert Replies(db, rs)[0] == a;
    if i == 0 {
      SignedByVerify(db, rs[0]);
      var sig := Signed(a).value;
      SignedIff(db, rs[0], sig.uid, sig.ctr, sig.nonce);
    } else {
      DeadStays(db, rs[0], uid);
      assert Replies(db, rs)[1..] == Replies(next, rs[1..]);
      DeadNeverSigned(next, rs[1..], uid, i - 1);
    }
  }

  lemma SignedByVerify(db: Db, r: Request)
    requires Signed(Step(db, r).1).Some?
    ensures r.Verify? && Step(db, r) == VerifyStep(db, r)
  {
    hide FreeId, Memory, VerifyStep;
  }

  // ---------- seals, sessions and reports ----------

  /** A registration seeds the seal with the highest counter known: given, stored before, or of a tap from before. */
  lemma AttachSeeds(db: Db, r: Request)
    requires r.Attach?
    ensures var s := Step(db, r).0.seals[r.uid];
      && s.serial == r.serial && s.last >= r.last && s.last >= Last(db, r.uid)
      && (forall id :: id in db.taps && Remembered(db.taps[id], r.uid) ==> s.last >= db.taps[id].ctr.value)
      && (s.last == 0 || s.last == r.last || s.last == Last(db, r.uid)
          || exists id :: id in db.taps && Remembered(db.taps[id], r.uid) && s.last == db.taps[id].ctr.value)
      && (s.dead <==> r.dead || (r.uid in db.seals && db.seals[r.uid].dead))
  {
    assert IsMemory(db.taps, r.uid, Memory(db.taps, r.uid));
    hide Memory;
  }

  /** A chain read raises a seal's counter to the chain's and never lowers it. */
  lemma RefreshRaises(db: Db, r: Request)
    requires r.Refresh? && r.uid in db.seals
    ensures var s, t := db.seals[r.uid], Step(db, r).0.seals[r.uid];
      t.serial == s.serial && t.last == (if s.last < r.last then r.last else s.last) && (t.dead <==> s.dead || r.dead)
  {}

  /**
   * A new session's nonce is open until its time is over; the purge with it changes no other nonce's standing, ever.
   */
  lemma SessionOpens(db: Db, r: Request, n: Nonce, later: int)
    requires r.Session? && r.nonce !in db.nonces && later >= r.ts
    ensures var next := Step(db, r).0;
      if n == r.nonce then NonceOpen(next, n, later) <==> later <= r.ts + r.ttl
      else NonceOpen(next, n, later) <==> NonceOpen(db, n, later)
  {}

  /**
   * A nonce that exists is not issued again. A session drops expired nonces: used ones at once, others after an hour.
   */
  lemma SessionIff(db: Db, r: Request, n: Nonce)
    requires r.Session?
    ensures var (next, a) := Step(db, r);
      && (a == Done <==> r.nonce !in db.nonces) && (a != Done ==> next == db)
      && (a == Done && n != r.nonce ==>
            && (n in next.nonces <==>
                  n in db.nonces && var row :=
                      db.nonces[n]; r.ts <= row.expiresAt + (if row.usedAt.Some? then 0 else 3600))
            && (n in next.nonces ==> next.nonces[n] == db.nonces[n]))
      && (a == Done ==> next == db.(nonces := next.nonces))
      && (a == Done && r.ttl >= 0 ==>
          r.nonce in next.nonces && next.nonces[r.nonce] == NonceRow(r.ts, r.ts + r.ttl, None))
  {}

  /** A report is taken exactly with an open nonce and a free report slot, and then uses up the nonce. */
  lemma ReportIff(db: Db, r: Request)
    requires r.ReportDead?
    ensures var (next, a) := Step(db, r);
      && (a == Done <==> r.allowed && r.nonce in db.nonces && db.nonces[r.nonce].usedAt == None
                         && r.ts <= db.nonces[r.nonce].expiresAt)
      && (a != Done ==> next == db)
      && (a == Done ==>
            && next.seals == db.seals && next.taps == db.taps && next.events == db.events + [DeadReport(r.nonce)]
            && next.nonces == db.nonces[r.nonce := db.nonces[r.nonce].(usedAt := Some(r.ts))])
  {}

  // ---------- the endpoints as they run ----------

  /** The verifier's database connection. */
  class Verifier {
    var seals: map<Uid, Seal>
    var taps: map<nat, Tap>
    var nonces: map<Nonce, NonceRow>
    var events: seq<Event>

    constructor ()
      ensures State() == EMPTY
    {
      seals, taps, nonces, events := map[], map[], map[], [];
    }

    function State(): Db
      reads this
    {
      Db(seals, taps, nonces, events)
    }

    method Rollback(saved: Db)
      modifies this
      ensures State() == saved
    {
      seals, taps, nonces, events := saved.seals, saved.taps, saved.nonces, saved.events;
    }

    method CheckTap(auth: Auth, consume: bool) returns (chk: Check)
      modifies this
      ensures consume ==> (State(), chk) == Consume(old(State()), auth)
      ensures !consume ==> State() == old(State()) && chk == Checked(old(State()), auth)
    {
      hide Memory;
      if auth.Refused? { return Check(Invalid, auth.claimed, auth.shown); }
      var last;
      if auth.uid in seals { last := seals[auth.uid].last; } else { last := LastCounterUnregistered(taps, auth.uid); }
      if auth.ctr <= last { return Check(Replay, Some(auth.uid), Some(auth.ctr)); }
      if auth.uid in seals && consume { AdvanceSealCounter(auth.uid, auth.ctr); }
      chk := Check(if auth.uid in seals then Valid else Unregistered, Some(auth.uid), Some(auth.ctr));
    }

    method AdvanceSealCounter(uid: Uid, ctr: nat)
      modifies this
      ensures State() == Advance(old(State()), uid, ctr)
    {
      if uid in seals && seals[uid].last < ctr { seals := seals[uid := seals[uid].(last := ctr)]; }
    }

    method AdoptTap(id: nat, token: Option<Hash>, ts: int) returns (chk: Check)
      modifies this
      ensures (State(), chk) == Adopt(old(State()), id, token, ts)
    {
      if id !in taps || taps[id].source != FromT || token == None || taps[id].adoptHash != token {
        return Check(Invalid, None, None);
      }
      var t := taps[id];
      if t.verdict != Valid || t.uid == None || t.ctr == None { return Check(Invalid, None, None); }
      if t.adoptedAt.Some? || ts - t.ts > ADOPT_WINDOW_S { return Check(Replay, t.uid, t.ctr); }
      taps := taps[id := t.(adoptedAt := Some(ts))];
      chk := Check(if t.uid.value in seals then Valid else Unregistered, t.uid, t.ctr);
    }

    /** insert_tap_random_id with the ids that the random source draws; false where the original raises. */
    method InsertTap(row: Tap, ids: seq<nat>) returns (ok: bool)
      modifies this
      ensures match FreeId(old(taps), ids)
              case None => !ok && State() == old(State())
              case Some(id) => ok && State() == old(State()).(taps := old(taps)[id := row])
    {
      for i := 0 to |ids|
        invariant State() == old(State()) && FreeId(old(taps), ids) == FreeId(old(taps), ids[i..])
      {
        if ids[i] !in taps {
          taps := taps[ids[i] := row];
          return true;
        }
      }
      ok := false;
    }

    method TagLanding(auth: Auth, ts: int, ids: seq<nat>, adoptHash: Hash, purgeBefore: Option<int>) returns (a: Reply)
      modifies this
      ensures (State(), a) == LandingStep(old(State()), Landing(auth, ts, ids, adoptHash, purgeBefore))
    {
      hide Consume, FreeId, WithoutInvalid;
      var saved := State();
      var chk := CheckTap(auth, true);
      var verdict := chk.verdict;
      if verdict == Valid && auth.uid in seals && seals[auth.uid].dead { verdict := NoResponse; }
      if !(verdict == Invalid && !(auth.Refused? && auth.claimed.Some? && auth.named)) {
        var row := Tap(ts, FromT, chk.uid, chk.ctr, verdict, if verdict == Valid then Some(adoptHash) else None, None);
        var ok := InsertTap(row, ids);
        if !ok { Rollback(saved); return Failed; }
        if verdict == Valid { events := events + [Sighting(auth.uid, auth.ctr)]; }
      }
      if purgeBefore.Some? { taps := WithoutInvalid(taps, purgeBefore.value); }
      a := Answer(verdict, None);
    }

    method VerifyTap(session: Option<Nonce>, tap: Fresh, expected: Option<Serial>, ts: int, ids: seq<nat>)
        returns (a: Reply)
      modifies this
      ensures (State(), a) == VerifyStep(old(State()), Verify(session, tap, expected, ts, ids))
    {
      hide Consume, Adopt, FreeId;
      if session == None || !NonceOpen(State(), session.value, ts) { return Answer(NonceInvalid, None); }
      var saved := State();
      NonceStays(saved, tap, ts);
      var chk;
      match tap {
        case Direct(auth) => chk := CheckTap(auth, true);
        case Adoption(id, token) => chk := AdoptTap(id, token, ts);
      }
      var verdict := chk.verdict;
      if verdict == Valid && chk.uid.Some? && chk.uid.value in seals
          && seals[chk.uid.value].dead { verdict := NoResponse; }
      if verdict == Valid && expected.Some? && chk.uid.Some? && chk.uid.value in seals
         && expected.value != seals[chk.uid.value].serial {
        Rollback(saved);
        return Failed;
      }
      if chk.uid.Some? {
        var ok := InsertTap(Tap(ts, FromVerify, chk.uid, chk.ctr, verdict, None, None), ids);
        if !ok { Rollback(saved); return Failed; }
      }
      if verdict != Valid || chk.uid == None || chk.ctr == None { return Answer(verdict, None); }
      nonces := nonces[session.value := nonces[session.value].(usedAt := Some(ts))];
      events := events + [Scan(chk.uid.value, chk.ctr.value, session.value)];
      a := Answer(Valid, Some(Signature(chk.uid.value, chk.ctr.value, session.value)));
    }

    method NewSession(nonce: Nonce, ts: int, ttl: int) returns (a: Reply)
      modifies this
      ensures (State(), a) == Step(old(State()), Session(nonce, ts, ttl))
    {
      if nonce in nonces { return Failed; }
      nonces := nonces[nonce := NonceRow(ts, ts + ttl, None)];
      nonces := OpenNonces(nonces, ts);
      a := Done;
    }

    method UpsertSeal(uid: Uid, serial: Serial, last: nat, dead: bool) returns (a: Reply)
      modifies this
      ensures (State(), a) == Step(old(State()), Attach(uid, serial, last, dead))
    {
      hide Memory;
      var seen := LastCounterUnregistered(taps, uid);
      var seed := Max(last, seen);
      if uid in seals {
        seals := seals[uid := Seal(serial, Max(seals[uid].last, seed), seals[uid].dead || dead)];
      } else {
        seals := seals[uid := Seal(serial, seed, dead)];
      }
      a := Done;
    }

    method MarkSealDead(uid: Uid) returns (a: Reply)
      modifies this
      ensures (State(), a) == Step(old(State()), MarkDead(uid))
    {
      if uid in seals { seals := seals[uid := seals[uid].(dead := true)]; }
      a := Done;
    }

    /** The seal part of the reconcile job: counter and death follow the chain account upwards only. */
    method RefreshSeal(uid: Uid, last: nat, dead: bool) returns (a: Reply)
      modifies this
      ensures (State(), a) == Step(old(State()), Refresh(uid, last, dead))
    {
      if uid in seals {
        var counter, isDead := Max(seals[uid].last, last), seals[uid].dead || dead;
        if counter != seals[uid].last || isDead != seals[uid].dead {
          seals := seals[uid := seals[uid].(last := counter, dead := isDead)];
        } else {
          assert seals == seals[uid := seals[uid]];
        }
      }
      a := Done;
    }

    method ReportSealDead(nonce: Nonce, ts: int, allowed: bool) returns (a: Reply)
      modifies this
      ensures (State(), a) == Step(old(State()), ReportDead(nonce, ts, allowed))
    {
      if !NonceOpen(State(), nonce, ts) || !allowed { return Failed; }
      nonces := nonces[nonce := nonces[nonce].(usedAt := Some(ts))];
      events := events + [DeadReport(nonce)];
      a := Done;
    }
  }
}
