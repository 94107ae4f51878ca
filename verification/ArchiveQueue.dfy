/**
 * The archiving queue (arweave.py with arweave_queue and set_arweave_attempt of db.py): which rows a cycle tries, how a
 * failure puts a row back, and how long a row can be kept waiting by the others.
 */
module ArchiveQueue {
  import opened Bits
  import opened Sums
  import opened Wrappers

  const BACKOFF_BASE := 60
  const BACKOFF_MAX := 3600
  const ROW_BACKOFF_BASE := 300
  const ROW_BACKOFF_MAX := 6 * 3600

  type Id = nat

  /** A confirmed scan that needs an upload, with its arweave_queue entry (0 attempts: never tried). */
  datatype Row = Row(attempts: nat, nextAt: int, done: bool)

  type Rows = map<Id, Row>

  datatype Code = SidecarUnavailable | KeyInvalid | Timeout | InsufficientBalance | UploadFailed

  predicate Global(c: Code) { c in {SidecarUnavailable, KeyInvalid, Timeout} }

  datatype Upload = Uploaded | Refused(code: Code)

  /** What archive_scan did for a row: its uploads, whether the bundle is on Arweave, and the media result. */
  datatype Result = Result(uploads: seq<Upload>, bundle: bool, media: Option<bool>)

  predicate Failed(r: Result) { !r.bundle || r.media == Some(false) }

  /** The code of the row's last refused upload. */
  function CodeOf(us: seq<Upload>): Option<Code> {
    if us == [] then None else if us[|us| - 1].Refused? then Some(us[|us| - 1].code) else CodeOf(us[..|us| - 1])
  }

  predicate Stops(r: Result) { CodeOf(r.uploads).Some? && Global(CodeOf(r.uploads).value) }

  // ---------- waiting times ----------

  function Min(a: nat, b: nat): nat { if a < b then a else b }

  function RowBackoff(attempts: nat): nat {
    Min(ROW_BACKOFF_MAX, ROW_BACKOFF_BASE * Pow2(if attempts == 0 then 0 else attempts - 1))
  }

  /** Waits never shrink with more attempts and stay between 5 minutes and 6 hours. */
  lemma RowBackoffGrows(a: nat, b: nat)
    requires a <= b
    ensures ROW_BACKOFF_BASE <= RowBackoff(a) <= RowBackoff(b) <= ROW_BACKOFF_MAX
  {
    Pow2Monotone(if a == 0 then 0 else a - 1, if b == 0 then 0 else b - 1);
  }

  // ---------- the queue ----------

  predicate Due(rows: Rows, id: Id, now: int) { id in rows && !rows[id].done && rows[id].nextAt <= now }

  function DueIds(rows: Rows, now: int): set<Id> { set id | id in rows && Due(rows, id, now) }

  /** Fewest failed attempts first, then newest. */
  predicate Before(rows: Rows, a: Id, b: Id)
    requires a in rows && b in rows
  {
    rows[a].attempts < rows[b].attempts || (rows[a].attempts == rows[b].attempts && a > b)
  }

  predicate Within(s: set<Id>, rows: Rows) { forall id :: id in s ==> id in rows }

  ghost function First(rows: Rows, s: set<Id>): (x: Id)
    requires s != {} && Within(s, rows)
    ensures x in s && forall y :: y in s ==> y == x || Before(rows, x, y)
  {
    var x :| x in s;
    var rest := s - {x};
    assert s == rest + {x};
    if rest == {} then x else
      var f := First(rows, rest);
      if Before(rows, x, f) then x else f
  }

  /** The first `limit` of the ids in `s`. */
  ghost function Taken(rows: Rows, s: set<Id>, limit: nat): (q: seq<Id>)
    requires Within(s, rows)
    ensures |q| <= limit && forall i :: 0 <= i < |q| ==> q[i] in s
    ensures forall i, j :: 0 <= i < j < |q| ==> q[i] != q[j] && Before(rows, q[i], q[j])
    ensures forall x :: x in s && x !in q ==> |q| == limit && forall i :: 0 <= i < |q| ==> Before(rows, q[i], x)
    decreases limit
  {
    if limit == 0 || s == {} then [] else
      var x := First(rows, s);
      [x] + Taken(rows, s - {x}, limit - 1)
  }

  ghost function Queue(rows: Rows, now: int, limit: nat): seq<Id> { Taken(rows, DueIds(rows, now), limit) }

  // ---------- a cycle ----------

  /** set_arweave_attempt after trying row `id`. */
  function Tried(rows: Rows, id: Id, r: Result, now: int): Rows
    requires id in rows
  {
    var n := rows[id].attempts;
    rows[id := if Failed(r) then Row(n + 1, now + RowBackoff(n + 1), false) else Row(n, 0, true)]
  }

  type Results = Id -> Result

  /** The loop of backfill over the queue `q`; it stops after a failure that would hit every upload. */
  function Processed(rows: Rows, q: seq<Id>, results: Results, now: int): Rows
    requires forall i :: 0 <= i < |q| ==> q[i] in rows
  {
    if q == [] then rows else
      var next := Tried(rows, q[0], results(q[0]), now);
      if Stops(results(q[0])) then next else Processed(next, q[1..], results, now)
  }

  // ---------- fairness ----------

  /** How many failures of the other unfinished rows can still come before `r`, which has `a` failed attempts. */
  function Loads(rows: Rows, r: Id, a: nat): map<Id, nat> {
    map j | j in rows && j != r :: if rows[j].done || rows[j].attempts > a then 0 else a + 1 - rows[j].attempts
  }

  ghost function Load(rows: Rows, r: Id, a: nat): nat { Sum(Loads(rows, r, a)) }

  /**
   * A try of an unfinished row, which fails once more or finishes, lowers the load unless the row was behind `r`
   * anyway.
   */
  lemma TryingLowersLoad(rows: Rows, r: Id, a: nat, id: Id, result: Result, now: int)
    requires id in rows && id != r && !rows[id].done
    ensures Load(Tried(rows, id, result, now), r, a) + (if rows[id].attempts <= a then 1 else 0) <= Load(rows, r, a)
  {
    hide RowBackoff, Sum;
    var before, next := Loads(rows, r, a), Tried(rows, id, result, now);
    var v := if next[id].done || next[id].attempts > a then 0 else a + 1 - next[id].attempts;
    assert Loads(next, r, a) == before[id := v];
    SumPut(before, id, v);
  }

  /** The queue holds distinct unfinished rows other than `r`. */
  predicate Others(rows: Rows, q: seq<Id>, r: Id) {
    && (forall i :: 0 <= i < |q| ==> q[i] in rows && q[i] != r && !rows[q[i]].done)
    && (forall i, j :: 0 <= i < j < |q| ==> q[i] != q[j])
  }

  ghost predicate NoGlobalFailure(results: Results) { forall id: Id :: !Stops(results(id)) }

  /** A cycle that does not try `r`: every row it tries that is ahead of `r` lowers the load. */
  lemma {:induction false} CycleLowersLoad(rows: Rows, q: seq<Id>, results: Results, now: int, r: Id, a: nat)
    requires Others(rows, q, r) && NoGlobalFailure(results)
    ensures var next := Processed(rows, q, results, now);
      && Load(next, r, a) <= Load(rows, r, a) && next.Keys == rows.Keys && (r in rows ==> next[r] == rows[r])
      && ((forall i :: 0 <= i < |q| ==> rows[q[i]].attempts <= a) ==> Load(next, r, a) + |q| <= Load(rows, r, a))
    decreases |q|
  {
    hide RowBackoff, Sum, Loads, Stops;
    if q != [] {
      var next := Tried(rows, q[0], results(q[0]), now);
      TryingLowersLoad(rows, r, a, q[0], results(q[0]), now);
      CycleLowersLoad(next, q[1..], results, now, r, a);
    }
  }

  datatype Cycle = Cycle(now: int, results: Results)

  ghost function AfterCycle(rows: Rows, c: Cycle, limit: nat): Rows {
    Processed(rows, Queue(rows, c.now, limit), c.results, c.now)
  }

  /** `r` is in the queue of none of the cycles. */
  ghost predicate NeverTried(rows: Rows, cs: seq<Cycle>, limit: nat, r: Id)
    decreases |cs|
  {
    cs == [] || (r !in Queue(rows, cs[0].now, limit) && NeverTried(AfterCycle(rows, cs[0], limit), cs[1..], limit, r))
  }

  /** In how many of the cycles `r` is due. */
  ghost function DueCycles(rows: Rows, cs: seq<Cycle>, limit: nat, r: Id): nat
    decreases |cs|
  {
    if cs == [] then 0 else
      (if Due(rows, r, cs[0].now) then 1 else 0) + DueCycles(AfterCycle(rows, cs[0], limit), cs[1..], limit, r)
  }

  /** Every due cycle that passes `r` over takes `limit` off the load. */
  lemma PassedOver(rows: Rows, c: Cycle, limit: nat, r: Id)
    requires r in rows && r !in Queue(rows, c.now, limit) && NoGlobalFailure(c.results)
    ensures var next := AfterCycle(rows, c, limit);
      && next.Keys == rows.Keys && next[r] == rows[r]
      && Load(next, r, rows[r].attempts) + (if Due(rows, r, c.now) then limit else 0) <= Load(rows, r, rows[r].attempts)
  {
    hide Load, Processed, NoGlobalFailure;
    var q := Queue(rows, c.now, limit);
    assert Others(rows, q, r);
    CycleLowersLoad(rows, q, c.results, c.now, r, rows[r].attempts);
    if Due(rows, r, c.now) { assert r in DueIds(rows, c.now); }
  }

  lemma {:induction false} WaitingCostsLoad(rows: Rows, cs: seq<Cycle>, limit: nat, r: Id)
    requires r in rows && NeverTried(rows, cs, limit, r) && forall i :: 0 <= i < |cs| ==> NoGlobalFailure(cs[i].results)
    ensures limit * DueCycles(rows, cs, limit, r) <= Load(rows, r, rows[r].attempts)
    decreases |cs|
  {
    hide Load, AfterCycle, Queue, Due, NoGlobalFailure;
    if cs != [] {
      var next, rest := AfterCycle(rows, cs[0], limit), cs[1..];
      PassedOver(rows, cs[0], limit, r);
      WaitingCostsLoad(next, rest, limit, r);
      OneMore(limit, DueCycles(next, rest, limit, r));
    }
  }

  lemma OneMore(limit: nat, k: nat)
    ensures limit * (1 + k) == limit + limit * k && limit * (0 + k) == limit * k
  {}

  /**
   * With n rows and no global failure, a row with `a` failed attempts is tried within floor((n - 1)(a + 1) / limit) + 1
   * cycles in which it is due, however often the others fail and whenever they are due.
   */
  lemma TriedInTime(rows: Rows, cs: seq<Cycle>, limit: nat, r: Id)
    requires r in rows && limit > 0 && forall i :: 0 <= i < |cs| ==> NoGlobalFailure(cs[i].results)
    requires DueCycles(rows, cs, limit, r) >= (|rows| - 1) * (rows[r].attempts + 1) / limit + 1
    ensures !NeverTried(rows, cs, limit, r)
  {
    hide NeverTried, DueCycles, NoGlobalFailure, Load;
    if NeverTried(rows, cs, limit, r) {
      WaitingCostsLoad(rows, cs, limit, r);
      LoadBound(rows, r, rows[r].attempts);
      Quotient((|rows| - 1) * (rows[r].attempts + 1), limit, DueCycles(rows, cs, limit, r));
      assert false;
    }
  }

  lemma LoadBound(rows: Rows, r: Id, a: nat)
    requires r in rows
    ensures Load(rows, r, a) <= (|rows| - 1) * (a + 1) && |rows| >= 1
  {
    hide Sum;
    assert Loads(rows, r, a).Keys == rows.Keys - {r};
    SumBound(Loads(rows, r, a), |rows| - 1, a + 1);
  }

  lemma Quotient(most: nat, limit: nat, k: nat)
    requires limit > 0 && k >= most / limit + 1
    ensures limit * k > most
  {
    assert limit * (most / limit + 1) > most;
    Product(most / limit + 1, k, limit);
  }

  // ---------- the loop ----------

  /** Failures that hit every upload make whole cycles wait. */
  datatype Health = Health(consecutive: nat, lastErrorAt: Option<int>, lastCode: Option<Code>)

  function Noted(h: Health, us: seq<Upload>, now: int): Health {
    if us == [] then h else
      var before := Noted(h, us[..|us| - 1], now);
      match us[|us| - 1]
      case Uploaded => before.(consecutive := 0)
      case Refused(code) => Health(before.consecutive + 1, Some(now), Some(code))
  }

  function NotedAll(h: Health, q: seq<Id>, results: Results, now: int): Health
    decreases |q|
  {
    if q == [] then h else
      var next := Noted(h, results(q[0]).uploads, now);
      if Stops(results(q[0])) then next else NotedAll(next, q[1..], results, now)
  }

  function CycleWait(failures: nat): nat
    requires failures > 0
  {
    Min(BACKOFF_MAX, BACKOFF_BASE * Pow2(failures - 1))
  }

  predicate InBackoff(h: Health, now: int) {
    h.consecutive > 0 && h.lastErrorAt.Some? && now - h.lastErrorAt.value < CycleWait(h.consecutive)
  }

  /** The cycle is skipped while the last failure was a global one and its wait is not over. */
  predicate Skips(h: Health, now: int) { h.lastCode.Some? && Global(h.lastCode.value) && InBackoff(h, now) }

  // ---------- what a cycle does, in numbers ----------

  /** 5 minutes after the first failure, then twice as long each time, up to 6 hours. */
  lemma RowBackoffDoubles(a: nat)
    ensures RowBackoff(0) == RowBackoff(1) == 300
    ensures a >= 1 ==> RowBackoff(a + 1) == if 2 * RowBackoff(a) < 21600 then 2 * RowBackoff(a) else 21600
  {
    assert Pow2(0) == 1;
  }

  /** A minute after the first failure in a row, then twice as long each time, up to an hour. */
  lemma CycleWaitDoubles(n: nat)
    ensures CycleWait(1) == 60
    ensures n >= 1 ==> CycleWait(n + 1) == if 2 * CycleWait(n) < 3600 then 2 * CycleWait(n) else 3600
  {
    assert Pow2(0) == 1;
  }

  /** A row is not finished and its time has come. */
  predicate Waiting(rows: Rows, id: Id, now: int) { id in rows && !rows[id].done && rows[id].nextAt <= now }

  /** The queue: waiting rows, fewest attempts first, then newest; none is passed over for a later one. */
  lemma QueueIs(rows: Rows, now: int, limit: nat)
    ensures var q := Queue(rows, now, limit);
      && |q| <= limit
      && (forall i :: 0 <= i < |q| ==> Waiting(rows, q[i], now))
      && (forall i, j :: 0 <= i < j < |q| ==>
            && q[i] != q[j]
            && (rows[q[i]].attempts < rows[q[j]].attempts
                || (rows[q[i]].attempts == rows[q[j]].attempts && q[i] > q[j])))
      && (forall id :: Waiting(rows, id, now) && id !in q ==>
            && |q| == limit
            && forall i :: 0 <= i < |q| ==>
              rows[q[i]].attempts < rows[id].attempts || (rows[q[i]].attempts == rows[id].attempts && q[i] > id))
  {
    hide Taken;
    forall id ensures Waiting(rows, id, now) <==> id in DueIds(rows, now) {}
  }

  /** The last upload that was refused, if any, was refused for a reason that would hit every upload. */
  predicate HitsAll(us: seq<Upload>) {
    exists i :: 0 <= i < |us| && us[i].Refused? && us[i].code in {SidecarUnavailable, KeyInvalid, Timeout}
                && forall j :: i < j < |us| ==> us[j].Uploaded?
  }

  lemma {:induction false} StopsIff(us: seq<Upload>)
    ensures CodeOf(us).Some? && Global(CodeOf(us).value) <==> HitsAll(us)
    decreases |us|
  {
    if us != [] {
      var before, last := us[..|us| - 1], us[|us| - 1];
      StopsIff(before);
      if last.Refused? {
        if HitsAll(us) { assert us[|us| - 1] == last; }
      } else {
        if HitsAll(before) {
          var i :| 0 <= i < |before| && before[i].Refused?
              && before[i].code in {SidecarUnavailable, KeyInvalid, Timeout}
                   && forall j :: i < j < |before| ==> before[j].Uploaded?;
          assert us[i] == before[i] && forall j :: i < j < |us| ==> us[j].Uploaded?;
        }
        if HitsAll(us) {
          var i :| 0 <= i < |us| && us[i].Refused? && us[i].code in {SidecarUnavailable, KeyInvalid, Timeout}
                   && forall j :: i < j < |us| ==> us[j].Uploaded?;
          assert before[i] == us[i];
        }
      }
    }
  }

  /** Row `id` is in the queue and no try before it stopped the cycle. */
  predicate Reached(q: seq<Id>, results: Results, id: Id) {
    exists i :: 0 <= i < |q| && q[i] == id && forall j :: 0 <= j < i ==> !HitsAll(results(q[j]).uploads)
  }

  lemma ReachedStep(q: seq<Id>, results: Results, id: Id)
    requires q != []
    ensures Reached(q, results, id) <==> q[0] == id || (!HitsAll(results(q[0]).uploads) && Reached(q[1..], results, id))
  {
    hide HitsAll;
    var rest := q[1..];
    if Reached(q, results, id) {
      var i :| 0 <= i < |q| && q[i] == id && forall j :: 0 <= j < i ==> !HitsAll(results(q[j]).uploads);
      if i > 0 {
        assert rest[i - 1] == id;
        forall j | 0 <= j < i - 1 ensures !HitsAll(results(rest[j]).uploads) { assert rest[j] == q[j + 1]; }
      }
    }
    if q[0] == id { assert q[0] == id; }
    if !HitsAll(results(q[0]).uploads) && Reached(rest, results, id) {
      var i :| 0 <= i < |rest| && rest[i] == id && forall j :: 0 <= j < i ==> !HitsAll(results(rest[j]).uploads);
      assert q[i + 1] == id;
      forall j | 0 <= j < i + 1 ensures !HitsAll(results(q[j]).uploads) { if j > 0 { assert rest[j - 1] == q[j]; } }
    }
  }

  lemma ReachedIn(q: seq<Id>, results: Results, id: Id)
    requires Reached(q, results, id)
    ensures id in q
  {}

  /** After a cycle over `q`: which rows were tried, and what each try left behind. */
  lemma {:induction false} CycleRows(rows: Rows, q: seq<Id>, results: Results, now: int, id: Id)
    requires forall i :: 0 <= i < |q| ==> q[i] in rows
    requires forall i, j :: 0 <= i < j < |q| ==> q[i] != q[j]
    requires id in rows
    ensures var next := Processed(rows, q, results, now);
      && next.Keys == rows.Keys
      && (Reached(q, results, id) ==>
            var r, a := results(id), rows[id].attempts;
            next[id] == (if r.bundle && r.media != Some(false) then Row(a, 0, true)
                         else Row(a + 1, now + RowBackoff(a + 1), false)))
      && (!Reached(q, results, id) ==> next[id] == rows[id])
    decreases |q|
  {
    hide RowBackoff, HitsAll, Global, CodeOf, Reached, Tried;
    if q == [] {
      NoneReached(results, id);
    } else {
      var next := Tried(rows, q[0], results(q[0]), now);
      StopsIff(results(q[0]).uploads);
      TriedIs(rows, q[0], results(q[0]), now, id);
      ReachedStep(q, results, id);
      if !Stops(results(q[0])) {
        CycleRows(next, q[1..], results, now, id);
        if Reached(q[1..], results, id) { ReachedIn(q[1..], results, id); }
      }
    }
  }

  lemma NoneReached(results: Results, id: Id)
    ensures !Reached([], results, id)
  {}

  lemma TriedIs(rows: Rows, id: Id, r: Result, now: int, other: Id)
    requires id in rows && other in rows
    ensures var next, a := Tried(rows, id, r, now), rows[id].attempts;
      && next.Keys == rows.Keys
      && next[other] == (if other != id then rows[other]
                         else if r.bundle && r.media != Some(false) then Row(a, 0, true)
                         else Row(a + 1, now + RowBackoff(a + 1), false))
  {
    hide RowBackoff;
  }

  /** A global failure as the last upload makes cycles wait a minute at least, and an hour at most; any other none. */
  lemma GlobalFailureWaits(h: Health, us: seq<Upload>, now: int, later: int)
    requires us != [] && now <= later
    ensures var next, last := Noted(h, us, now), us[|us| - 1];
      && (last.Uploaded? ==> !Skips(next, later))
      && (last.Refused? && last.code !in {SidecarUnavailable, KeyInvalid, Timeout} ==> !Skips(next, later))
      && (last.Refused? && last.code in {SidecarUnavailable, KeyInvalid, Timeout} ==>
            && (later < now + 60 ==> Skips(next, later)) && (later >= now + 3600 ==> !Skips(next, later))
            && (Skips(next, later) <==> later < now + CycleWait(next.consecutive)))
  {
    var next := Noted(h, us, now);
    if next.consecutive > 0 {
      Pow2Monotone(0, next.consecutive - 1);
      assert Pow2(0) == 1;
    }
  }

  /** Failures are counted in a row: a success starts over. */
  lemma {:induction false} FailuresInARow(h: Health, us: seq<Upload>, now: int, n: nat)
    requires n <= |us| && forall i :: |us| - n <= i < |us| ==> us[i].Refused?
    ensures Noted(h, us, now).consecutive
         == if n == |us| then h.consecutive + n else if us[|us| - n - 1].Uploaded? then n
             else Noted(h, us, now).consecutive
    decreases n
  {
    if n > 0 {
      var before := us[..|us| - 1];
      FailuresInARow(h, before, now, n - 1);
      if n < |us| { assert before[|before| - (n - 1) - 1] == us[|us| - n - 1]; }
    }
  }

  /** The uploads of the rows of `q`, in order, up to and including the first with a failure that hits every upload. */
  function Attempted(q: seq<Id>, results: Results): seq<Upload> {
    if q == [] then [] else
      results(q[0]).uploads + (if HitsAll(results(q[0]).uploads) then [] else Attempted(q[1..], results))
  }

  /** A cycle's health is that of all its uploads in order. */
  lemma {:induction false} HealthAfter(h: Health, q: seq<Id>, results: Results, now: int)
    ensures NotedAll(h, q, results, now) == Noted(h, Attempted(q, results), now)
    decreases |q|
  {
    hide HitsAll, Noted, CodeOf, Global;
    if q == [] {
      NotedNone(h, now);
    } else {
      var us := results(q[0]).uploads;
      StopsIff(us);
      if HitsAll(us) {
        assert us + [] == us;
      } else {
        HealthAfter(Noted(h, us, now), q[1..], results, now);
        NotedBoth(h, us, Attempted(q[1..], results), now);
      }
    }
  }

  lemma NotedNone(h: Health, now: int)
    ensures Noted(h, [], now) == h
  {}

  lemma {:induction false} NotedBoth(h: Health, us: seq<Upload>, more: seq<Upload>, now: int)
    ensures Noted(h, us + more, now) == Noted(Noted(h, us, now), more, now)
    decreases |more|
  {
    if more == [] {
      assert us + more == us;
    } else {
      assert (us + more)[..|us + more| - 1] == us + more[..|more| - 1];
      NotedBoth(h, us, more[..|more| - 1], now);
    }
  }

  class Archive {
    var rows: Rows
    var health: Health

    /** arweave_queue: the first of the rows that are left, `limit` times. */
    method ArweaveQueue(now: int, limit: nat) returns (q: seq<Id>)
      ensures q == Queue(rows, now, limit)
    {
      q := [];
      var left := set id | id in rows && !rows[id].done && rows[id].nextAt <= now;
      assert left == DueIds(rows, now);
      ghost var goal := Queue(rows, now, limit);
      hide Taken, Queue, DueIds, First;
      for i := 0 to limit
        invariant Within(left, rows) && goal == q + Taken(rows, left, limit - i)
      {
        TakeOne(rows, left, limit - i);
        if left == {} { return; }
        var x := Pick(left);
        Shift(q, x, Taken(rows, left - {x}, limit - i - 1));
        q := q + [x];
        left := left - {x};
      }
      TakeOne(rows, left, 0);
    }

    method Pick(s: set<Id>) returns (x: Id)
      requires s != {} && Within(s, rows)
      ensures x == First(rows, s)
    {
      x :| x in s;
      var left := s - {x};
      while left != {}
        invariant x in s && left <= s && x !in left
        invariant forall y :: y in s && y !in left ==> y == x || Before(rows, x, y)
      {
        var y :| y in left;
        left := left - {y};
        if Before(rows, y, x) { x := y; }
      }
    }

    /** backfill; returns how many rows were tried, or None for a skipped cycle. */
    method Backfill(now: int, limit: nat, results: Results) returns (attempted: Option<nat>)
      modifies this
      ensures Skips(old(health), now) ==> attempted == None && rows == old(rows) && health == old(health)
      ensures !Skips(old(health), now) ==>
                && attempted.Some?
                && rows == Processed(old(rows), Queue(old(rows), now, limit), results, now)
                && health == NotedAll(old(health), Queue(old(rows), now, limit), results, now)
    {
      hide Stops, Noted, RowBackoff, InBackoff, Queue;
      if Skips(health, now) { return None; }
      var q := ArweaveQueue(now, limit);
      QueueWithin(rows, now, limit);
      var n := 0;
      while n < |q|
        invariant 0 <= n <= |q| && rows.Keys == old(rows).Keys
        invariant Processed(old(rows), q, results, now) == Processed(rows, q[n..], results, now)
        invariant NotedAll(old(health), q, results, now) == NotedAll(health, q[n..], results, now)
      {
        var id := q[n];
        var r := results(id);
        health := Noted(health, r.uploads, now);
        var attempts := rows[id].attempts;
        if Failed(r) {
          rows := rows[id := Row(attempts + 1, now + RowBackoff(attempts + 1), false)];
        } else {
          rows := rows[id := Row(attempts, 0, true)];
        }
        n := n + 1;
        if Stops(r) { return Some(n); }
      }
      attempted := Some(n);
    }
  }

  lemma TakeOne(rows: Rows, s: set<Id>, limit: nat)
    requires Within(s, rows)
    ensures limit == 0 || s == {} ==> Taken(rows, s, limit) == []
    ensures limit > 0 && s != {} ==>
        Taken(rows, s, limit) == [First(rows, s)] + Taken(rows, s - {First(rows, s)}, limit - 1)
  {
    hide First;
  }

  lemma Shift(q: seq<Id>, x: Id, rest: seq<Id>)
    ensures q + ([x] + rest) == q + [x] + rest
  {}

  lemma QueueWithin(rows: Rows, now: int, limit: nat)
    ensures forall i :: 0 <= i < |Queue(rows, now, limit)| ==> Queue(rows, now, limit)[i] in rows
  {}
}
