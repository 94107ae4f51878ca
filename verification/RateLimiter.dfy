/** The token buckets of ratelimit.py, over real numbers. */
module RateLimiter {
  import opened Sums

  type Key = string

  datatype Bucket = Bucket(tokens: real, at: real)

  type Buckets = map<Key, Bucket>

  datatype Config = Config(capacity: real, rate: real, maxKeys: nat)

  predicate Valid(c: Config) { c.capacity >= 0.0 && c.rate >= 0.0 }

  // ---------- refill ----------

  /** What flows into a bucket in `dt` seconds. */
  function Gain(c: Config, dt: real): real { dt * c.rate }

  lemma GainAdds(c: Config, a: real, b: real)
    ensures Gain(c, a + b) == Gain(c, a) + Gain(c, b)
  {}

  lemma GainGrows(c: Config, a: real, b: real)
    requires Valid(c) && a <= b
    ensures Gain(c, a) <= Gain(c, b)
  {
    assert (b - a) * c.rate >= 0.0;
  }

  function Capped(c: Config, x: real): real { if x < c.capacity then x else c.capacity }

  /** Tokens that `k` has at time `t`: a key without a bucket has a full one. */
  function Level(c: Config, m: Buckets, k: Key, t: real): real {
    if k in m then Capped(c, m[k].tokens + Gain(c, t - m[k].at)) else c.capacity
  }

  predicate IsFull(c: Config, b: Bucket, now: real) { b.tokens + Gain(c, now - b.at) >= c.capacity }

  function WithoutFull(c: Config, m: Buckets, now: real): Buckets { map k | k in m && !IsFull(c, m[k], now) :: m[k] }

  /** _evict without the drop of the oldest half, where dropping full buckets makes room. */
  predicate Roomy(c: Config, m: Buckets, k: Key, now: real) {
    k in m || |m| < c.maxKeys || |WithoutFull(c, m, now)| < c.maxKeys
  }

  function Refilled(c: Config, m: Buckets, k: Key, now: real): (r: Buckets)
    ensures k in r
  {
    if k in m then m[k := Bucket(Capped(c, m[k].tokens + Gain(c, now - m[k].at)), now)]
    else (if |m| >= c.maxKeys then WithoutFull(c, m, now) else m)[k := Bucket(c.capacity, now)]
  }

  // ---------- calls ----------

  datatype Kind = Hit | Allows | Spend

  datatype Call = Call(kind: Kind, key: Key, cost: real, now: real)

  predicate Takes(o: Call, tokens: real) { o.kind == Spend || (o.kind == Hit && tokens >= o.cost) }

  /** hit, allows and spend after the refill: the new tokens and the answer (spend has none; true stands for it). */
  function Charged(o: Call, b: Bucket): (Bucket, bool) {
    (if Takes(o, b.tokens) then b.(tokens := b.tokens - o.cost) else b, o.kind == Spend || b.tokens >= o.cost)
  }

  function Step(c: Config, m: Buckets, o: Call): (Buckets, bool) {
    var r := Refilled(c, m, o.key, o.now);
    var (b, ok) := Charged(o, r[o.key]);
    (r[o.key := b], ok)
  }

  /** The same calls on a limiter that never forgets a bucket. */
  function SimpleStep(c: Config, m: Buckets, o: Call): (Buckets, bool) {
    var (b, ok) := Charged(o, Bucket(Level(c, m, o.key, o.now), o.now));
    (m[o.key := b], ok)
  }

  /** Time does not go back, costs are not negative. */
  predicate Timely(os: seq<Call>, from: real) {
    && (forall i :: 0 <= i < |os| ==> os[i].now >= from && os[i].cost >= 0.0)
    && (forall i, j :: 0 <= i < j < |os| ==> os[i].now <= os[j].now)
  }

  // ---------- evicting full buckets is unobservable ----------

  /** The two limiters hold the same tokens for every key from time `t` on. */
  ghost predicate Alike(c: Config, m: Buckets, n: Buckets, t: real) {
    forall k, u :: u >= t ==> Level(c, m, k, u) == Level(c, n, k, u)
  }

  lemma FullStaysFull(c: Config, m: Buckets, k: Key, now: real, u: real)
    requires Valid(c) && k in m && IsFull(c, m[k], now) && u >= now
    ensures Level(c, m, k, u) == c.capacity
  {
    hide Gain;
    GainGrows(c, now - m[k].at, u - m[k].at);
  }

  lemma EvictionUnobservable(c: Config, m: Buckets, now: real)
    requires Valid(c)
    ensures Alike(c, m, WithoutFull(c, m, now), now)
  {
    forall k, u | u >= now ensures Level(c, m, k, u) == Level(c, WithoutFull(c, m, now), k, u) {
      if k in m && IsFull(c, m[k], now) { FullStaysFull(c, m, k, now, u); }
    }
  }

  lemma StepAlike(c: Config, m: Buckets, n: Buckets, o: Call)
    requires Valid(c) && Alike(c, m, n, o.now)
    ensures Step(c, m, o).1 == SimpleStep(c, n, o).1 && Alike(c, Step(c, m, o).0, SimpleStep(c, n, o).0, o.now)
  {
    hide Gain, WithoutFull;
    EvictionUnobservable(c, m, o.now);
    var m', n' := Step(c, m, o).0, SimpleStep(c, n, o).0;
    assert Level(c, m, o.key, o.now) == Level(c, n, o.key, o.now);
    GainAdds(c, 0.0, 0.0);
    LevelNow(c, m, o.key, o.now);
    forall k, u | u >= o.now ensures Level(c, m', k, u) == Level(c, n', k, u) {
      if k != o.key {
        assert Level(c, m', k, u) == Level(c, m, k, u);
      }
    }
  }

  /** The refilled bucket holds the level. */
  lemma LevelNow(c: Config, m: Buckets, k: Key, now: real)
    ensures Refilled(c, m, k, now)[k] == Bucket(Level(c, m, k, now), now)
  {
    hide Gain, WithoutFull;
  }

  function Answers(c: Config, m: Buckets, os: seq<Call>): (r: seq<bool>)
    ensures |r| == |os|
    decreases |os|
  {
    if os == [] then [] else var (next, ok) := Step(c, m, os[0]); [ok] + Answers(c, next, os[1..])
  }

  function SimpleAnswers(c: Config, m: Buckets, os: seq<Call>): (r: seq<bool>)
    ensures |r| == |os|
    decreases |os|
  {
    if os == [] then [] else var (next, ok) := SimpleStep(c, m, os[0]); [ok] + SimpleAnswers(c, next, os[1..])
  }

  lemma {:induction false} AnswersAlike(c: Config, m: Buckets, n: Buckets, os: seq<Call>, t: real)
    requires Valid(c) && Timely(os, t) && Alike(c, m, n, t)
    ensures Answers(c, m, os) == SimpleAnswers(c, n, os)
    decreases |os|
  {
    hide Step, SimpleStep, Level;
    if os != [] {
      var o := os[0];
      StepAlike(c, m, n, o);
      AnswersAlike(c, Step(c, m, o).0, SimpleStep(c, n, o).0, os[1..], o.now);
    }
  }

  // ---------- runs of the limiter, eviction of the oldest half included ----------

  /** The oldest half of `rest` is dropped. */
  predicate HalfDropped(rest: Buckets, kept: Buckets) {
    && kept.Keys <= rest.Keys && (forall k :: k in kept ==> kept[k] == rest[k])
    && |kept| == |rest| - |rest| / 2
    && forall d, k :: d in rest && d !in kept && k in kept ==> rest[d].at <= rest[k].at
  }

  /** _evict: the full buckets go, and if that is not enough, the oldest half of the others. */
  predicate EvictsTo(c: Config, m: Buckets, now: real, kept: Buckets) {
    var rest := WithoutFull(c, m, now);
    if |rest| < c.maxKeys then kept == rest else HalfDropped(rest, kept)
  }

  /** _refilled. */
  predicate RefillsTo(c: Config, m: Buckets, k: Key, now: real, next: Buckets) {
    if k in m || |m| < c.maxKeys then next == Refilled(c, m, k, now)
    else k in next && next[k] == Bucket(c.capacity, now) && EvictsTo(c, m, now, next - {k})
  }

  lemma RoomyRefill(c: Config, m: Buckets, k: Key, now: real, next: Buckets)
    requires RefillsTo(c, m, k, now, next) && Roomy(c, m, k, now)
    ensures next == Refilled(c, m, k, now)
  {
    if k !in m && |m| >= c.maxKeys {
      assert next == (next - {k})[k := next[k]];
    }
  }

  /** One call as it runs; which of equally old buckets are dropped is left open. */
  ghost predicate Steps(c: Config, m: Buckets, o: Call, next: Buckets, ok: bool) {
    exists r :: RefillsTo(c, m, o.key, o.now, r) && o.key in r && Served(o, r, next, ok)
  }

  predicate Served(o: Call, r: Buckets, next: Buckets, ok: bool)
    requires o.key in r
  {
    next == r[o.key := Charged(o, r[o.key]).0] && ok == Charged(o, r[o.key]).1
  }

  /** The calls lead from state to state with these answers. */
  ghost predicate RunsTo(c: Config, states: seq<Buckets>, os: seq<Call>, answers: seq<bool>) {
    && |states| == |os| + 1 && |answers| == |os|
    && forall i :: 0 <= i < |os| ==> Steps(c, states[i], os[i], states[i + 1], answers[i])
  }

  /** No call of the run has to drop the oldest half. */
  predicate RoomyRun(c: Config, states: seq<Buckets>, os: seq<Call>)
    requires |states| == |os| + 1
  {
    forall i :: 0 <= i < |os| ==> Roomy(c, states[i], os[i].key, os[i].now)
  }

  lemma RoomyStep(c: Config, m: Buckets, o: Call, next: Buckets, ok: bool)
    requires Steps(c, m, o, next, ok) && Roomy(c, m, o.key, o.now)
    ensures (next, ok) == Step(c, m, o)
  {
    hide RefillsTo, Refilled, Roomy;
    var r :| RefillsTo(c, m, o.key, o.now, r) && o.key in r && Served(o, r, next, ok);
    RoomyRefill(c, m, o.key, o.now, r);
  }

  /** A roomy run answers as the step function says. */
  lemma {:induction false} RoomyAnswers(c: Config, states: seq<Buckets>, os: seq<Call>, answers: seq<bool>)
    requires RunsTo(c, states, os, answers) && RoomyRun(c, states, os)
    ensures answers == Answers(c, states[0], os)
    decreases |os|
  {
    hide Steps, Step, Roomy;
    if os != [] {
      RoomyStep(c, states[0], os[0], states[1], answers[0]);
      RoomyAnswers(c, states[1..], os[1..], answers[1..]);
    }
  }

  /** On every roomy run the limiter answers like one that forgets nothing: dropping full buckets is unobservable. */
  lemma ForgettingUnobservable(c: Config, states: seq<Buckets>, n: Buckets, os: seq<Call>, answers: seq<bool>, t: real)
    requires Valid(c) && Timely(os, t) && RunsTo(c, states, os, answers) && RoomyRun(c, states, os)
    requires Alike(c, states[0], n, t)
    ensures answers == SimpleAnswers(c, n, os)
  {
    hide Alike, Timely, Steps, Roomy;
    RoomyAnswers(c, states, os, answers);
    AnswersAlike(c, states[0], n, os, t);
  }

  // ---------- the window bound ----------

  /** What `hit` accepted for key `k`. */
  function Accepted(os: seq<Call>, answers: seq<bool>, k: Key): real
    requires |answers| == |os|
    decreases |os|
  {
    if os == [] then 0.0 else Taken(os[0], answers[0], k) + Accepted(os[1..], answers[1..], k)
  }

  function Taken(o: Call, ok: bool, k: Key): real { if o.kind == Hit && o.key == k && ok then o.cost else 0.0 }

  /** The call drops the bucket of `k` although it is not full. */
  predicate Drops(c: Config, m: Buckets, o: Call, next: Buckets, k: Key) {
    k in m && k !in next && !IsFull(c, m[k], o.now)
  }

  /** A full bucket for each time the one of `k` is dropped. */
  function Forgiven(c: Config, states: seq<Buckets>, os: seq<Call>, k: Key): real
    requires |states| == |os| + 1
    decreases |os|
  {
    if os == [] then 0.0 else
      (if Drops(c, states[0], os[0], states[1], k) then c.capacity else 0.0) + Forgiven(c, states[1..], os[1..], k)
  }

  function Positive(x: real): real { if x < 0.0 then 0.0 else x }

  lemma LevelFlows(c: Config, m: Buckets, k: Key, t: real, u: real)
    requires Valid(c) && t <= u
    ensures Level(c, m, k, u) <= Positive(Level(c, m, k, t)) + Gain(c, u - t)
    ensures Level(c, m, k, u) <= c.capacity && Gain(c, u - t) >= 0.0
  {
    hide Gain;
    GainGrows(c, 0.0, u - t);
    GainAdds(c, 0.0, 0.0);
    if k in m {
      GainAdds(c, t - m[k].at, u - t);
      assert (t - m[k].at) + (u - t) == u - m[k].at;
    }
  }

  /** A refill keeps the level of every key, except that a dropped bucket is full again. */
  lemma RefillLevels(c: Config, m: Buckets, key: Key, now: real, r: Buckets, k: Key)
    requires Valid(c) && RefillsTo(c, m, key, now, r)
    ensures key in r && r[key] == Bucket(Level(c, m, key, now), now)
    ensures k != key && k in r ==> k in m && r[k] == m[k]
    ensures k != key && k in m && k !in r && IsFull(c, m[k], now) ==> Level(c, m, k, now) == c.capacity
  {
    hide Gain, HalfDropped;
    if key !in m && |m| >= c.maxKeys {
      EvictedWithin(c, m, now, r - {key});
      if k != key && k in r { assert k in r - {key}; }
    }
  }

  /** What one call leaves of the tokens of `k`. */
  lemma CallLowers(c: Config, m: Buckets, o: Call, next: Buckets, ok: bool, k: Key)
    requires Valid(c) && o.cost >= 0.0 && Steps(c, m, o, next, ok)
    ensures Positive(Level(c, next, k, o.now)) + Taken(o, ok, k)
         <= Positive(Level(c, m, k, o.now)) + if Drops(c, m, o, next, k) then c.capacity else 0.0
  {
    hide Gain, RefillsTo;
    var r :| RefillsTo(c, m, o.key, o.now, r) && o.key in r && Served(o, r, next, ok);
    RefillLevels(c, m, o.key, o.now, r, k);
    GainAdds(c, 0.0, 0.0);
  }

  /**
   * What a key may spend: `capacity` when unseen, else what its bucket held, plus `rate` a second, up to `capacity`.
   */
  lemma LevelIs(c: Config, m: Buckets, k: Key, now: real)
    ensures k !in m ==> Level(c, m, k, now) == c.capacity
    ensures k in m ==>
      var flown := m[k].tokens + (now - m[k].at) * c.rate;
      Level(c, m, k, now) == if flown < c.capacity then flown else c.capacity
  {}

  /**
   * Every call: hit and allows succeed exactly when the level covers the cost; an accepted hit and every spend take it.
   */
  lemma CallIs(c: Config, m: Buckets, o: Call, next: Buckets, ok: bool)
    requires Valid(c) && Steps(c, m, o, next, ok)
    ensures o.kind != Spend ==> (ok <==> Level(c, m, o.key, o.now) >= o.cost)
    ensures o.key in next && next[o.key] == Bucket(
      Level(c, m, o.key, o.now) - (if o.kind == Spend || (o.kind == Hit && ok) then o.cost else 0.0), o.now)
    ensures forall k :: k != o.key && k in next ==> k in m && next[k] == m[k]
  {
    hide RefillsTo, Level;
    var r :| RefillsTo(c, m, o.key, o.now, r) && o.key in r && Served(o, r, next, ok);
    RefillLevels(c, m, o.key, o.now, r, o.key);
    forall k | k != o.key && k in next ensures k in m && next[k] == m[k] { RefillLevels(c, m, o.key, o.now, r, k); }
  }

  /**
   * A call leaves a key with tokens it did not have, counting what it took, exactly when it drops the key's bucket
   * before it is full.
   */
  lemma DropsIff(c: Config, m: Buckets, o: Call, next: Buckets, ok: bool, k: Key)
    requires Valid(c) && o.cost >= 0.0 && Steps(c, m, o, next, ok)
    ensures Level(c, next, k, o.now) + Taken(o, ok, k) > Level(c, m, k, o.now) <==> Drops(c, m, o, next, k)
  {
    hide Gain, RefillsTo;
    var r :| RefillsTo(c, m, o.key, o.now, r) && o.key in r && Served(o, r, next, ok);
    RefillLevels(c, m, o.key, o.now, r, k);
    GainAdds(c, 0.0, 0.0);
  }

  /**
   * In any window of length T, whatever was called before it and whatever else is called within it, `hit` accepts for
   * one key at most capacity + rate * T, and capacity more for each time its bucket is dropped before it is full.
   */
  lemma {:induction false} WindowBound(c: Config, states: seq<Buckets>, os: seq<Call>, answers: seq<bool>, k: Key,
                                       from: real, to: real)
    requires Valid(c) && RunsTo(c, states, os, answers) && Timely(os, from) && from <= to
    requires forall i :: 0 <= i < |os| ==> os[i].now <= to
    ensures Accepted(os, answers, k) <= c.capacity + (to - from) * c.rate + Forgiven(c, states, os, k)
  {
    hide Level, Gain, Steps, Accepted, Forgiven;
    WindowFlow(c, states, os, answers, k, from, to);
    LevelFlows(c, states[0], k, from, from);
    assert Positive(Level(c, states[0], k, from)) <= c.capacity;
    GainIs(c, to - from);
  }

  lemma {:induction false} WindowFlow(c: Config, states: seq<Buckets>, os: seq<Call>, answers: seq<bool>, k: Key,
                                      from: real, to: real)
    requires Valid(c) && RunsTo(c, states, os, answers) && Timely(os, from) && from <= to
    requires forall i :: 0 <= i < |os| ==> os[i].now <= to
    ensures Accepted(os, answers, k) <= Positive(Level(c, states[0], k, from)) + Gain(c, to - from)
        + Forgiven(c, states, os, k)
    decreases |os|
  {
    hide Level, Gain, Steps, Drops, Taken;
    LevelFlows(c, states[0], k, from, to);
    if os != [] {
      var o := os[0];
      WindowFlow(c, states[1..], os[1..], answers[1..], k, o.now, to);
      CallLowers(c, states[0], o, states[1], answers[0], k);
      LevelFlows(c, states[0], k, from, o.now);
      GainAdds(c, o.now - from, to - o.now);
      assert (o.now - from) + (to - o.now) == to - from;
    }
  }

  lemma GainIs(c: Config, dt: real)
    ensures Gain(c, dt) == dt * c.rate
  {}

  /** On a roomy run the bound is capacity + rate * T. */
  lemma RoomyWindowBound(c: Config, states: seq<Buckets>, os: seq<Call>, answers: seq<bool>, k: Key, from: real,
      to: real)
    requires Valid(c) && RunsTo(c, states, os, answers) && RoomyRun(c, states, os) && Timely(os, from) && from <= to
    requires forall i :: 0 <= i < |os| ==> os[i].now <= to
    ensures Accepted(os, answers, k) <= c.capacity + (to - from) * c.rate
  {
    hide Steps, Roomy, Accepted, Forgiven;
    WindowBound(c, states, os, answers, k, from, to);
    NothingForgiven(c, states, os, answers, k);
  }

  lemma {:induction false} NothingForgiven(c: Config, states: seq<Buckets>, os: seq<Call>, answers: seq<bool>, k: Key)
    requires RunsTo(c, states, os, answers) && RoomyRun(c, states, os)
    ensures Forgiven(c, states, os, k) == 0.0
    decreases |os|
  {
    hide Steps, Step, Roomy, IsFull;
    if os != [] {
      RoomyStep(c, states[0], os[0], states[1], answers[0]);
      FullOnly(c, states[0], os[0], k);
      NothingForgiven(c, states[1..], os[1..], answers[1..], k);
    }
  }

  lemma FullOnly(c: Config, m: Buckets, o: Call, k: Key)
    ensures !Drops(c, m, o, Step(c, m, o).0, k)
  {
    hide IsFull;
  }

  const SMALL := Config(1.0, 0.0, 2)

  const FOUR_HITS := [Call(Hit, "a", 1.0, 0.0), Call(Hit, "b", 1.0, 1.0), Call(Hit, "c", 1.0, 2.0),
      Call(Hit, "a", 1.0, 3.0)]

  const ONE: Buckets := map["a" := Bucket(0.0, 0.0)]
  const TWO: Buckets := map["a" := Bucket(0.0, 0.0), "b" := Bucket(0.0, 1.0)]
  const THREE: Buckets := map["b" := Bucket(0.0, 1.0), "c" := Bucket(0.0, 2.0)]
  const FOUR: Buckets := map["c" := Bucket(0.0, 2.0), "a" := Bucket(0.0, 3.0)]

  /** With room for two keys and no refill at all, "a" is accepted twice: its empty bucket is dropped in between. */
  lemma DroppedBucketBreaksBound()
    ensures var states, answers := [map[], ONE, TWO, THREE, FOUR], [true, true, true, true];
      && Valid(SMALL) && Timely(FOUR_HITS, 0.0) && RunsTo(SMALL, states, FOUR_HITS, answers)
      && !RoomyRun(SMALL, states, FOUR_HITS)
      && Accepted(FOUR_HITS, answers, "a") == 2.0 > SMALL.capacity + (3.0 - 0.0) * SMALL.rate
  {
    hide Steps, Roomy, Accepted, Timely, RunsTo;
    var states, answers := [map[], ONE, TWO, THREE, FOUR], [true, true, true, true];
    TimelyHits();
    FourAccepted(answers);
    FirstHits();
    LastHits();
    FourSteps(SMALL, states, FOUR_HITS, answers);
    FullHouse(states[2]);
  }

  lemma TimelyHits()
    ensures Timely(FOUR_HITS, 0.0)
  {}

  lemma FourSteps(c: Config, states: seq<Buckets>, os: seq<Call>, answers: seq<bool>)
    requires |states| == 5 && |os| == |answers| == 4
    requires Steps(c, states[0], os[0], states[1], answers[0]) && Steps(c, states[1], os[1], states[2], answers[1])
    requires Steps(c, states[2], os[2], states[3], answers[2]) && Steps(c, states[3], os[3], states[4], answers[3])
    ensures RunsTo(c, states, os, answers)
  {
    hide Steps;
  }

  lemma FirstHits()
    ensures Steps(SMALL, map[], FOUR_HITS[0], ONE, true) && Steps(SMALL, ONE, FOUR_HITS[1], TWO, true)
  {
    hide Steps;
    HitsNew(map[], FOUR_HITS[0], "");
    HitsNew(ONE, FOUR_HITS[1], "");
  }

  lemma LastHits()
    ensures Steps(SMALL, TWO, FOUR_HITS[2], THREE, true) && Steps(SMALL, THREE, FOUR_HITS[3], FOUR, true)
    ensures |TWO| == 2
  {
    hide Steps;
    assert |TWO.Keys| == |{"a", "b"}| == 2 && |THREE.Keys| == |{"b", "c"}| == 2;
    HitsNew(TWO, FOUR_HITS[2], "a");
    assert (TWO - {"a"})["c" := Bucket(0.0, 2.0)] == THREE;
    HitsNew(THREE, FOUR_HITS[3], "b");
    assert (THREE - {"b"})["a" := Bucket(0.0, 3.0)] == FOUR;
  }

  lemma FullHouse(m: Buckets)
    requires |m| == 2 && "c" !in m && forall k :: k in m ==> m[k].tokens == 0.0
    ensures !Roomy(SMALL, m, "c", 2.0)
  {
    NoneFull(m, 2.0);
  }

  lemma NoneFull(m: Buckets, now: real)
    requires forall k :: k in m ==> m[k].tokens == 0.0
    ensures WithoutFull(SMALL, m, now) == m
  {}

  /** A hit on a new key while all others are empty drops `oldest` when there is no room. */
  lemma HitsNew(m: Buckets, o: Call, oldest: Key)
    requires o.kind == Hit && o.cost == 1.0 && o.key !in m && |m| <= 2 && forall k :: k in m ==> m[k].tokens == 0.0
    requires |m| == 2 ==> oldest in m && forall k :: k in m ==> m[oldest].at <= m[k].at
    ensures Steps(SMALL, m, o, (if |m| == 2 then m - {oldest} else m)[o.key := Bucket(0.0, o.now)], true)
  {
    NoneFull(m, o.now);
    hide IsFull, WithoutFull;
    var kept := if |m| == 2 then m - {oldest} else m;
    var r := kept[o.key := Bucket(1.0, o.now)];
    assert r - {o.key} == kept;
    if |m| == 2 {
      assert kept.Keys == m.Keys - {oldest};
      assert HalfDropped(m, kept);
    }
    assert RefillsTo(SMALL, m, o.key, o.now, r);
    assert Served(o, r, kept[o.key := Bucket(0.0, o.now)], true);
  }

  lemma FourAccepted(answers: seq<bool>)
    requires answers == [true, true, true, true]
    ensures Accepted(FOUR_HITS, answers, "a") == 2.0
  {
    assert FOUR_HITS[1..][1..] == FOUR_HITS[2..] && FOUR_HITS[2..][1..] == FOUR_HITS[3..] && FOUR_HITS[3..][1..] == [];
    assert Accepted(FOUR_HITS[3..], answers[3..], "a") == 1.0;
    assert Accepted(FOUR_HITS[2..], answers[2..], "a") == 1.0;
    assert Accepted(FOUR_HITS[1..], answers[1..], "a") == 1.0;
  }

  // ---------- retry_after ----------

  /** Python's int(): towards zero. */
  function Truncated(x: real): int { if x >= 0.0 then x.Floor else -((-x).Floor) }

  function RetryAfter(c: Config, m: Buckets, k: Key, cost: real): int {
    var missing := cost - if k in m then m[k].tokens else 0.0;
    if c.rate > 0.0 then
      var s := Truncated(missing / c.rate) + 1;
      if s > 1 then s else 1
    else 60
  }

  /** After a refused hit of a cost that fits the bucket, waiting retry_after seconds or longer makes it succeed. */
  lemma RetrySucceeds(c: Config, m: Buckets, o: Call, later: real)
    requires Valid(c) && c.rate > 0.0 && o.kind == Hit && !Step(c, m, o).1 && o.cost <= c.capacity
    requires var next := Step(c, m, o).0; later >= o.now + RetryAfter(c, next, o.key, o.cost) as real
    ensures Step(c, Step(c, m, o).0, o.(now := later)).1
  {
    hide Gain, WithoutFull, RetryAfter;
    var next := Step(c, m, o).0;
    assert next[o.key].at == o.now && next[o.key].tokens < o.cost;
    var wait := RetryAfter(c, next, o.key, o.cost) as real;
    WaitSuffices(c, next, o.key, o.cost);
    GainGrows(c, wait, later - o.now);
  }

  lemma WaitSuffices(c: Config, m: Buckets, k: Key, cost: real)
    requires Valid(c) && c.rate > 0.0 && k in m && m[k].tokens < cost
    ensures var wait := RetryAfter(c, m, k, cost) as real;
      m[k].tokens + Gain(c, wait) >= cost && (wait > 1.0 ==> m[k].tokens + Gain(c, wait - 1.0) <= cost)
  {
    var missing, wait := cost - m[k].tokens, RetryAfter(c, m, k, cost) as real;
    Division(missing, c.rate);
    assert missing / c.rate < wait <= missing / c.rate + 1.0 || wait == 1.0;
    Scale(missing / c.rate, wait, c.rate);
    Scale(wait - 1.0, missing / c.rate, c.rate);
  }

  lemma Division(x: real, r: real)
    requires x > 0.0 && r > 0.0
    ensures x / r > 0.0 && x / r * r == x
  {}

  lemma Scale(x: real, y: real, r: real)
    requires r > 0.0
    ensures x <= y ==> x * r <= y * r
  {}

  /** retry_after is at most a second too long: a second before it the bucket holds no more than the cost. */
  lemma RetryIsTight(c: Config, m: Buckets, o: Call)
    requires Valid(c) && c.rate > 0.0 && o.kind == Hit && !Step(c, m, o).1
    requires RetryAfter(c, Step(c, m, o).0, o.key, o.cost) > 1
    ensures var next := Step(c, m, o).0;
      Level(c, next, o.key, o.now + RetryAfter(c, next, o.key, o.cost) as real - 1.0) <= o.cost
  {
    hide Gain, WithoutFull, RetryAfter;
    var next := Step(c, m, o).0;
    WaitSuffices(c, next, o.key, o.cost);
  }

  /** Without a refill it says a minute, whatever is missing; and never less than a second. */
  lemma RetryBounds(c: Config, m: Buckets, k: Key, cost: real)
    ensures RetryAfter(c, m, k, cost) >= 1
    ensures c.rate <= 0.0 ==> RetryAfter(c, m, k, cost) == 60
  {}

  // ---------- the number of buckets ----------

  lemma RefillSize(c: Config, m: Buckets, k: Key, now: real, next: Buckets)
    requires c.maxKeys >= 2 && |m| <= c.maxKeys && RefillsTo(c, m, k, now, next)
    ensures |next| <= c.maxKeys
  {
    hide EvictsTo;
    if k in m {
      assert next.Keys == m.Keys;
    } else if |m| < c.maxKeys {
      assert next.Keys == m.Keys + {k};
    } else {
      EvictSize(c, m, now, next - {k});
      assert next.Keys == (next - {k}).Keys + {k};
    }
  }

  lemma EvictSize(c: Config, m: Buckets, now: real, kept: Buckets)
    requires c.maxKeys >= 2 && |m| <= c.maxKeys && EvictsTo(c, m, now, kept)
    ensures |kept| < c.maxKeys
  {
    hide IsFull;
    SubsetSize(WithoutFull(c, m, now).Keys, m.Keys);
  }

  /** The map stays within max_keys exactly when max_keys is at least 2: half of one bucket is none. */
  lemma SizeBoundIff(c: Config)
    ensures (forall m, k, now, next :: |m| <= c.maxKeys && RefillsTo(c, m, k, now, next) ==> |next| <= c.maxKeys)
        <==> c.maxKeys >= 2
  {
    hide RefillsTo;
    if c.maxKeys >= 2 {
      forall m, k, now, next | |m| <= c.maxKeys && RefillsTo(c, m, k, now, next) ensures |next| <= c.maxKeys {
        RefillSize(c, m, k, now, next);
      }
    } else {
      var m, next := SmallLimitOverflows(c);
    }
  }

  lemma SmallLimitOverflows(c: Config) returns (m: Buckets, next: Buckets)
    requires c.maxKeys < 2
    ensures |m| <= c.maxKeys && RefillsTo(c, m, "b", 0.0, next) && |next| > c.maxKeys
  {
    var used := Bucket(c.capacity - 1.0, 0.0);
    m := if c.maxKeys == 0 then map[] else map["a" := used];
    next := m["b" := Bucket(c.capacity, 0.0)];
    GainAdds(c, 0.0, 0.0);
    hide Gain, HalfDropped;
    assert |m| == c.maxKeys && forall k :: k in m ==> m[k] == used && !IsFull(c, m[k], 0.0);
    hide IsFull;
    assert WithoutFull(c, m, 0.0) == m;
    HalfOfOne(m);
    assert next - {"b"} == m;
    assert next.Keys == m.Keys + {"b"};
  }

  lemma HalfOfOne(m: Buckets)
    requires |m| <= 1
    ensures HalfDropped(m, m)
  {}

  // ---------- the limiter as it runs ----------

  class Limiter {
    const c: Config
    var buckets: Buckets

    constructor (c: Config)
      ensures this.c == c && buckets == map[]
    {
      this.c, buckets := c, map[];
    }

    method Evict(now: real)
      modifies this
      ensures EvictsTo(c, old(buckets), now, buckets)
    {
      buckets := map k | k in buckets && buckets[k].tokens + Gain(c, now - buckets[k].at) < c.capacity :: buckets[k];
      assert buckets == WithoutFull(c, old(buckets), now);
      if |buckets| >= c.maxKeys {
        var rest := buckets;
        for i := 0 to |rest| / 2
          invariant buckets.Keys <= rest.Keys && |buckets| == |rest| - i
          invariant forall k :: k in buckets ==> buckets[k] == rest[k]
          invariant forall d, k :: d in rest && d !in buckets && k in buckets ==> rest[d].at <= rest[k].at
        {
          var oldest := Oldest();
          buckets := buckets - {oldest};
        }
      }
    }

    method Oldest() returns (x: Key)
      requires buckets != map[]
      ensures x in buckets && forall k :: k in buckets ==> buckets[x].at <= buckets[k].at
    {
      x :| x in buckets;
      var left := buckets.Keys - {x};
      while left != {}
        invariant x in buckets && left <= buckets.Keys
        invariant forall k :: k in buckets && k !in left ==> buckets[x].at <= buckets[k].at
      {
        var k :| k in left;
        left := left - {k};
        if buckets[k].at < buckets[x].at { x := k; }
      }
    }

    method Refill(key: Key, now: real) returns (b: Bucket)
      modifies this
      ensures RefillsTo(c, old(buckets), key, now, buckets) && key in buckets && b == buckets[key]
    {
      hide HalfDropped;
      if key in buckets {
        b := Bucket(Capped(c, buckets[key].tokens + Gain(c, now - buckets[key].at)), now);
        buckets := buckets[key := b];
      } else {
        b := Bucket(c.capacity, now);
        if |buckets| >= c.maxKeys {
          Evict(now);
          EvictedWithin(c, old(buckets), now, buckets);
        }
        ghost var kept := buckets;
        buckets := buckets[key := b];
        assert buckets - {key} == kept;
      }
    }

    method HitBucket(key: Key, cost: real, now: real) returns (ok: bool)
      modifies this
      ensures Steps(c, old(buckets), Call(Hit, key, cost, now), buckets, ok)
      ensures Roomy(c, old(buckets), key, now) ==> (buckets, ok) == Step(c, old(buckets), Call(Hit, key, cost, now))
      ensures c.maxKeys >= 2 && |old(buckets)| <= c.maxKeys ==> |buckets| <= c.maxKeys
    {
      hide RefillsTo, Refilled, Roomy;
      var b := Refill(key, now);
      ghost var next := buckets;
      if Roomy(c, old(buckets), key, now) { RoomyRefill(c, old(buckets), key, now, next); }
      if c.maxKeys >= 2 && |old(buckets)| <= c.maxKeys { RefillSize(c, old(buckets), key, now, next); }
      ok := b.tokens >= cost;
      if ok { buckets := buckets[key := b.(tokens := b.tokens - cost)]; } else { assert next == next[key := b]; }
      assert Served(Call(Hit, key, cost, now), next, buckets, ok);
      assert buckets.Keys == next.Keys;
    }

    method AllowsCost(key: Key, cost: real, now: real) returns (ok: bool)
      modifies this
      ensures Steps(c, old(buckets), Call(Allows, key, cost, now), buckets, ok)
      ensures Roomy(c, old(buckets), key, now) ==> (buckets, ok) == Step(c, old(buckets), Call(Allows, key, cost, now))
      ensures c.maxKeys >= 2 && |old(buckets)| <= c.maxKeys ==> |buckets| <= c.maxKeys
    {
      hide RefillsTo, Refilled, Roomy;
      var b := Refill(key, now);
      if Roomy(c, old(buckets), key, now) { RoomyRefill(c, old(buckets), key, now, buckets); }
      if c.maxKeys >= 2 && |old(buckets)| <= c.maxKeys { RefillSize(c, old(buckets), key, now, buckets); }
      assert buckets == buckets[key := b];
      ok := b.tokens >= cost;
      assert Served(Call(Allows, key, cost, now), buckets, buckets, ok);
    }

    method SpendCost(key: Key, cost: real, now: real)
      modifies this
      ensures Steps(c, old(buckets), Call(Spend, key, cost, now), buckets, true)
      ensures Roomy(c, old(buckets), key, now) ==> (buckets, true) == Step(c, old(buckets), Call(Spend, key, cost, now))
      ensures c.maxKeys >= 2 && |old(buckets)| <= c.maxKeys ==> |buckets| <= c.maxKeys
    {
      hide RefillsTo, Refilled, Roomy;
      var b := Refill(key, now);
      ghost var next := buckets;
      if Roomy(c, old(buckets), key, now) { RoomyRefill(c, old(buckets), key, now, next); }
      if c.maxKeys >= 2 && |old(buckets)| <= c.maxKeys { RefillSize(c, old(buckets), key, now, next); }
      buckets := buckets[key := b.(tokens := b.tokens - cost)];
      assert Served(Call(Spend, key, cost, now), next, buckets, true);
      assert buckets.Keys == next.Keys;
    }
  }

  lemma EvictedWithin(c: Config, m: Buckets, now: real, kept: Buckets)
    requires EvictsTo(c, m, now, kept)
    ensures kept.Keys <= m.Keys && forall k :: k in kept ==> kept[k] == m[k]
  {}
}
