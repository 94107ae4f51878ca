/**
 * The single-flight registry cache of routes_chain.py. Any number of threads run registry_info; each step below is one
 * critical section (or one lock operation, or the RPC call), and threads interleave arbitrarily.
 */
module RegistryCache {
  import opened Wrappers

  const TTL := 60.0
  const STALE := 900.0
  const RETRY := 10.0

  type Tid = nat

  /** A registry read from chain, with the time its read began. */
  datatype Registry = Registry(content: int, begun: real)

  /** The fields of the cache; `at` is the entry time of the call whose read filled `value`. */
  datatype Fields = Fields(value: Option<Registry>, at: real, failedAt: Option<real>)

  /** What a chain read ends in: a registry, a failure that is caught, or an exception that is not. */
  datatype Read = Success(registry: Registry) | Failure | Raised

  datatype Answer = Cached(registry: Registry, now: real, at: real) | Fresh(registry: Registry) | Fallback | Error

  /** Where a thread is in registry_info; `now` is the time it read on entry. */
  datatype Thread =
    | Entered(now: real)
    | WantsRefresh(now: real)
    | Holds(now: real)
    | HoldsStale(now: real)
    | Reading(now: real, begun: real)
    | HasRead(now: real, read: Read)
    | Leaves(now: real, result: Option<Answer>)
    | WantsCached(now: real)
    | Returned(answer: Answer)

  /** A chain read: the entry time of its caller, and how it ended once it has. */
  datatype Attempt = Attempt(entry: real, end: Option<Read>)

  datatype World = World(clock: real, fields: Fields, refresh: Option<Tid>, threads: map<Tid, Thread>,
      attempts: seq<Attempt>)

  // ---------- the critical sections ----------

  predicate IsFresh(f: Fields, now: real) { f.value.Some? && now - f.at < TTL }

  predicate IsUsable(f: Fields, now: real) { f.value.Some? && now - f.at < STALE }

  predicate BacksOff(f: Fields, now: real) { f.failedAt.Some? && now - f.failedAt.value < RETRY }

  function Hit(f: Fields, now: real): Answer
    requires f.value.Some?
  {
    Cached(f.value.value, now, f.at)
  }

  function Stored(f: Fields, now: real, read: Read): Fields {
    match read
    case Success(r) => Fields(Some(r), now, None)
    case Failure => f.(failedAt := Some(now))
    case Raised => f
  }

  /** _cached: the last read while it is not too old, else the stored registry or the fallback. */
  function CachedAnswer(f: Fields, now: real): Answer { if IsUsable(f, now) then Hit(f, now) else Fallback }

  // ---------- steps ----------

  datatype Step = Enter(t: Tid) | Run(t: Tid, read: Read) | Tick(d: real)

  function WithThread(w: World, t: Tid, th: Thread): World { w.(threads := w.threads[t := th]) }

  /** The next section of thread `t`; `read` is what its RPC call returns if that is the section. */
  function RunStep(w: World, t: Tid, read: Read): World
    requires t in w.threads
  {
    match w.threads[t]
    case Entered(now) => WithThread(w, t, if IsFresh(w.fields, now) then Returned(Hit(w.fields, now))
        else WantsRefresh(now))
    case WantsRefresh(now) =>
      if w.refresh.Some? then WithThread(w, t, WantsCached(now)) else WithThread(w.(refresh := Some(t)), t, Holds(now))
    case Holds(now) =>
      if IsFresh(w.fields, now) then WithThread(w, t, Leaves(now, Some(Hit(w.fields, now))))
      else if BacksOff(w.fields, now) then WithThread(w, t, HoldsStale(now))
      else WithThread(w.(attempts := w.attempts + [Attempt(now, None)]), t, Reading(now, w.clock))
    case HoldsStale(now) => WithThread(w, t, Leaves(now, Some(CachedAnswer(w.fields, now))))
    case Reading(now, begun) =>
      WithThread(w, t, HasRead(now, if read.Success? then Success(read.registry.(begun := begun)) else read))
    case HasRead(now, got) =>
      if w.attempts == [] then w else
        WithThread(w.(fields := Stored(w.fields, now, got),
            attempts := w.attempts[|w.attempts| - 1 := Attempt(now, Some(got))]), t,
                   Leaves(now, match got case Success(r) => Some(Fresh(r)) case Failure => None case Raised =>
                       Some(Error)))
    case Leaves(now, answer) =>
      WithThread(w.(refresh := None), t, match answer case Some(a) => Returned(a) case None => WantsCached(now))
    case WantsCached(now) => WithThread(w, t, Returned(CachedAnswer(w.fields, now)))
    case Returned(_) => w
  }

  function Next(w: World, s: Step): World {
    match s
    case Enter(t) => if t in w.threads && !w.threads[t].Returned? then w else WithThread(w, t, Entered(w.clock))
    case Run(t, read) => if t in w.threads then RunStep(w, t, read) else w
    case Tick(d) => if d < 0.0 then w else w.(clock := w.clock + d)
  }

  // ---------- the invariant ----------

  /** The thread is between acquiring and releasing the refresh lock. */
  predicate Inside(th: Thread) { th.Holds? || th.HoldsStale? || th.Reading? || th.HasRead? || th.Leaves? }

  /** A chain read is in flight, or its result is not stored yet. */
  predicate InFlight(th: Thread) { th.Reading? || th.HasRead? }

  /** How long after a read with this end the chain is left alone. */
  function Gap(r: Read): real { match r case Success(_) => TTL case Failure => RETRY case Raised => 0.0 }

  /** What the fields remember of an ended read. */
  predicate Remembered(f: Fields, a: Attempt) {
    a.end.Some? ==>
      match a.end.value
      case Success(_) => f.value.Some? && a.entry <= f.at
      case Failure => (f.failedAt.Some? && a.entry <= f.failedAt.value) || (f.value.Some? && a.entry <= f.at)
      case Raised => true
  }

  predicate MayRead(f: Fields, now: real) { !IsFresh(f, now) && !BacksOff(f, now) }

  predicate LocksOk(w: World) {
    && (forall t :: t in w.threads && Inside(w.threads[t]) ==> w.refresh == Some(t))
    && (w.refresh.Some? ==> w.refresh.value in w.threads && Inside(w.threads[w.refresh.value]))
  }

  predicate TimesOk(w: World) {
    && (forall t :: t in w.threads && !w.threads[t].Returned? ==> w.threads[t].now <= w.clock)
    && (w.fields.value.Some? ==> w.fields.at <= w.fields.value.value.begun)
    && (forall t :: t in w.threads && w.threads[t].Reading? ==> w.threads[t].now <= w.threads[t].begun)
    && (forall t :: t in w.threads && w.threads[t].HasRead? && w.threads[t].read.Success? ==>
        w.threads[t].now <= w.threads[t].read.registry.begun)
  }

  predicate FlightOk(w: World) {
    && (forall t :: t in w.threads && InFlight(w.threads[t]) ==>
          w.attempts != [] && w.attempts[|w.attempts| - 1] == Attempt(w.threads[t].now, None)
              && MayRead(w.fields, w.threads[t].now))
    && (forall i :: 0 <= i < |w.attempts| && w.attempts[i].end == None ==>
          i == |w.attempts| - 1 && exists t :: t in w.threads && InFlight(w.threads[t]))
  }

  predicate ReadsOk(w: World) {
    && (forall i :: 0 <= i < |w.attempts| ==> Remembered(w.fields, w.attempts[i]))
    && (forall i, j :: 0 <= i < j < |w.attempts| && w.attempts[i].end.Some? ==>
        w.attempts[i].entry + Gap(w.attempts[i].end.value) <= w.attempts[j].entry || w.attempts[i].end.value.Raised?)
  }

  /** A cached answer is younger than STALE, by the entry time of its read and so by the time that read began. */
  predicate Young(a: Answer) { a.Cached? ==> a.now - a.at < STALE && a.at <= a.registry.begun }

  predicate AnswersOk(w: World) {
    forall t :: t in w.threads ==>
      (w.threads[t].Returned? ==> Young(w.threads[t].answer))
          && (w.threads[t].Leaves? && w.threads[t].result.Some? ==> Young(w.threads[t].result.value))
  }

  predicate Sound(w: World) { LocksOk(w) && TimesOk(w) && FlightOk(w) && ReadsOk(w) && AnswersOk(w) }

  lemma LocksKept(w: World, s: Step)
    requires LocksOk(w)
    ensures LocksOk(Next(w, s))
  {
    hide Stored, IsFresh, BacksOff, CachedAnswer, Hit;
  }

  lemma TimesKept(w: World, s: Step)
    requires TimesOk(w)
    ensures TimesOk(Next(w, s))
  {
    hide IsFresh, BacksOff, CachedAnswer, Hit;
  }

  lemma FlightKept(w: World, s: Step)
    requires LocksOk(w) && FlightOk(w)
    ensures FlightOk(Next(w, s))
  {
    hide CachedAnswer, Hit;
    var next := Next(w, s);
    if s.Run? && s.t in w.threads && w.threads[s.t].Holds? && next.attempts != w.attempts {
      assert s.t in next.threads && InFlight(next.threads[s.t]);
    }
    forall i | 0 <= i < |next.attempts| && next.attempts[i].end == None
      ensures i == |next.attempts| - 1 && exists t :: t in next.threads && InFlight(next.threads[t])
    {
      if i < |w.attempts| && w.attempts[i].end == None {
        var t :| t in w.threads && InFlight(w.threads[t]);
        assert w.refresh == Some(t);
        assert t in next.threads && InFlight(next.threads[t]);
      }
    }
  }

  lemma ReadsKept(w: World, s: Step)
    requires LocksOk(w) && FlightOk(w) && ReadsOk(w)
    ensures ReadsOk(Next(w, s))
  {
    hide CachedAnswer, Hit;
  }

  lemma AnswersKept(w: World, s: Step)
    requires AnswersOk(w) && TimesOk(w)
    ensures AnswersOk(Next(w, s))
  {}

  const START := World(0.0, Fields(None, 0.0, None), None, map[], [])

  function Run(w: World, steps: seq<Step>): World
    decreases |steps|
  {
    if steps == [] then w else Run(Next(w, steps[0]), steps[1..])
  }

  /** In every interleaving of any number of threads. */
  lemma {:induction false} EveryInterleaving(w: World, steps: seq<Step>)
    requires Sound(w)
    ensures Sound(Run(w, steps))
    decreases |steps|
  {
    hide LocksOk, TimesOk, FlightOk, ReadsOk, AnswersOk, Next;
    if steps != [] {
      var s := steps[0];
      LocksKept(w, s);
      TimesKept(w, s);
      FlightKept(w, s);
      ReadsKept(w, s);
      AnswersKept(w, s);
      EveryInterleaving(Next(w, s), steps[1..]);
    }
  }

  lemma StartIsSound()
    ensures Sound(START)
  {}

  /** At most one chain read is in flight. */
  lemma OneReadInFlight(steps: seq<Step>, t: Tid, u: Tid)
    requires var w := Run(START, steps);
      t in w.threads && u in w.threads && InFlight(w.threads[t]) && InFlight(w.threads[u])
    ensures t == u
  {
    hide Run;
    StartIsSound();
    EveryInterleaving(START, steps);
  }

  /** Any two reads: 60 s lie between their entry times after a success, 10 s after a failure. */
  lemma ReadsAreSpaced(steps: seq<Step>, i: nat, j: nat)
    requires var w := Run(START, steps);
      i < j < |w.attempts| && !(w.attempts[i].end.Some? && w.attempts[i].end.value.Raised?)
    ensures var w := Run(START, steps);
      && w.attempts[i].end.Some? && !w.attempts[i].end.value.Raised?
      && w.attempts[i].entry + (if w.attempts[i].end.value.Success? then 60.0 else 10.0) <= w.attempts[j].entry
  {
    hide Run;
    StartIsSound();
    EveryInterleaving(START, steps);
  }

  /** A cached registry was read less than 900 s before the call that gets it. */
  lemma CachedIsYoung(steps: seq<Step>, t: Tid)
    requires var w := Run(START, steps); t in w.threads && w.threads[t].Returned? && w.threads[t].answer.Cached?
    ensures var a := Run(START, steps).threads[t].answer; a.now - a.registry.begun <= a.now - a.at < 900.0
  {
    hide Run;
    StartIsSound();
    EveryInterleaving(START, steps);
  }

  /** An exception that _read_registry does not catch leaves no trace: the next call reads the chain at once. */
  lemma RaisedReadIsRepeated(w: World, t: Tid, u: Tid, now: real)
    requires t in w.threads && w.threads[t] == HasRead(now, Raised) && u in w.threads && u != t
        && w.threads[u] == WantsRefresh(now)
    requires w.attempts != [] && MayRead(w.fields, now)
    ensures var next := Run(w,
        [Step.Run(t, Failure), Step.Run(t, Failure), Step.Run(u, Failure), Step.Run(u, Failure)]);
      && u in next.threads && next.threads[u] == Reading(now, w.clock)
      && next.attempts == w.attempts[|w.attempts| - 1 := Attempt(now, Some(Raised))] + [Attempt(now, None)]
  {
    var first, second := Step.Run(t, Failure), Step.Run(u, Failure);
    var w2 := Next(Next(w, first), first);
    var w4 := Next(Next(w2, second), second);
    assert w2.threads[u] == WantsRefresh(now) && w2.refresh == None && w2.fields == w.fields && w2.clock == w.clock;
    assert w4.threads[u] == Reading(now, w.clock);
    hide Next;
    RunTwice(w, first, [second, second]);
    RunTwice(w2, second, []);
    assert [first, first] + [second, second] == [first, first, second, second]
        && [second, second] + [] == [second, second];
  }

  lemma RunTwice(w: World, s: Step, rest: seq<Step>)
    ensures Run(w, [s, s] + rest) == Run(Next(Next(w, s), s), rest)
  {
    hide Next;
    assert [s, s] + rest == [s] + ([s] + rest);
    RunCons(w, s, [s] + rest);
    RunCons(Next(w, s), s, rest);
  }

  lemma RunCons(w: World, s: Step, rest: seq<Step>)
    ensures Run(w, [s] + rest) == Run(Next(w, s), rest)
  {
    hide Next;
    assert ([s] + rest)[1..] == rest;
  }

  lemma {:induction false} RunAppend(w: World, a: seq<Step>, b: seq<Step>)
    ensures Run(w, a + b) == Run(Run(w, a), b)
    decreases |a|
  {
    hide Next;
    if a == [] {
      assert a + b == b;
    } else {
      assert (a + b)[1..] == a[1..] + b;
      RunAppend(Next(w, a[0]), a[1..], b);
    }
  }

  const BOTH_ENTER := [Enter(0), Enter(1), Step.Run(0, Failure), Step.Run(1, Failure), Step.Run(0, Failure),
      Step.Run(0, Failure), Step.Run(0, Raised)]

  const RETRY_AT_ONCE := [Step.Run(0, Failure), Step.Run(0, Failure), Step.Run(1, Failure), Step.Run(1, Failure)]

  /**
   * From the start: two threads enter at the same time, and both read the chain, the second after the first one's
   * exception.
   */
  lemma RaisedReadsAreNotSpaced()
    ensures Run(START, BOTH_ENTER + RETRY_AT_ONCE).attempts == [Attempt(0.0, Some(Raised)), Attempt(0.0, None)]
  {
    RunAppend(START, BOTH_ENTER, RETRY_AT_ONCE);
    FirstRaises();
    hide Run, Next;
    RaisedReadIsRepeated(Run(START, BOTH_ENTER), 0, 1, 0.0);
  }

  lemma FirstRaises()
    ensures var w := Run(START, BOTH_ENTER);
      && w.attempts == [Attempt(0.0, None)] && w.fields == START.fields
      && 0 in w.threads && w.threads[0] == HasRead(0.0, Raised) && 1 in w.threads && w.threads[1] == WantsRefresh(0.0)
  {
    var w1 := Next(START, BOTH_ENTER[0]);
    var w2 := Next(w1, BOTH_ENTER[1]);
    var w3 := Next(w2, BOTH_ENTER[2]);
    var w4 := Next(w3, BOTH_ENTER[3]);
    var w5 := Next(w4, BOTH_ENTER[4]);
    var w6 := Next(w5, BOTH_ENTER[5]);
    var w7 := Next(w6, BOTH_ENTER[6]);
    assert w4.threads[0] == WantsRefresh(0.0) && w4.threads[1] == WantsRefresh(0.0) && w4.refresh == None
        && w4.attempts == [];
    assert w6.threads[0] == Reading(0.0, 0.0) && w6.threads[1] == WantsRefresh(0.0)
        && w6.attempts == [Attempt(0.0, None)];
    hide Next;
    RunSeven(START, w1, w2, w3, w4, w5, w6, w7, BOTH_ENTER);
  }

  lemma RunSeven(w: World, w1: World, w2: World, w3: World, w4: World, w5: World, w6: World, w7: World,
      steps: seq<Step>)
    requires |steps| == 7 && w1 == Next(w, steps[0]) && w2 == Next(w1, steps[1]) && w3 == Next(w2, steps[2])
    requires w4 == Next(w3, steps[3]) && w5 == Next(w4, steps[4]) && w6 == Next(w5, steps[5])
        && w7 == Next(w6, steps[6])
    ensures Run(w, steps) == w7
  {
    hide Next;
    assert steps[6..] == [steps[6]] + [] && steps[5..] == [steps[5]] + steps[6..]
        && steps[4..] == [steps[4]] + steps[5..];
    assert steps[3..] == [steps[3]] + steps[4..] && steps[2..] == [steps[2]] + steps[3..];
    assert steps[1..] == [steps[1]] + steps[2..] && steps == [steps[0]] + steps[1..];
    RunCons(w, steps[0], steps[1..]);
    RunCons(w1, steps[1], steps[2..]);
    RunCons(w2, steps[2], steps[3..]);
    RunCons(w3, steps[3], steps[4..]);
    RunCons(w4, steps[4], steps[5..]);
    RunCons(w5, steps[5], steps[6..]);
    RunCons(w6, steps[6], []);
  }

  // ---------- a call on its own ----------

  /** What a call does that nothing interleaves; `busy` says another thread holds the refresh lock. */
  function Alone(f: Fields, now: real, busy: bool, read: Read): (Fields, Answer) {
    if IsFresh(f, now) then (f, Hit(f, now))
    else if busy || BacksOff(f, now) then (f, CachedAnswer(f, now))
    else (Stored(f, now, read),
          match read case Success(r) => Fresh(r) case Failure => CachedAnswer(f, now) case Raised => Error)
  }

  /** What a call without a fresh read answers: the last registry while younger than 900 s, else the fallback. */
  function Second(f: Fields, now: real): Answer {
    match f.value case Some(r) => if now < f.at + 900.0 then Cached(r, now, f.at) else Fallback case None => Fallback
  }

  /**
   * A call on its own, in numbers: within 60 s of the last good read it gets that; while another reads, or within 10 s
   * of a failure, the second best; otherwise it reads, and remembers a registry or the failure with its own entry time.
   */
  lemma AloneIs(f: Fields, now: real, busy: bool, read: Read)
    ensures f.value.Some? && now < f.at + 60.0 ==> Alone(f, now, busy, read) == (f, Cached(f.value.value, now, f.at))
    ensures !(f.value.Some? && now < f.at + 60.0) && (busy || (f.failedAt.Some? && now < f.failedAt.value + 10.0)) ==>
      Alone(f, now, busy, read) == (f, Second(f, now))
    ensures !(f.value.Some? && now < f.at + 60.0) && !busy && !(f.failedAt.Some? && now < f.failedAt.value + 10.0) ==>
      Alone(f, now, busy, read) ==
        match read
        case Success(r) => (Fields(Some(r), now, None), Fresh(r))
        case Failure => (f.(failedAt := Some(now)), Second(f, now))
        case Raised => (f, Error)
  {}

  /** Seven sections of one thread in a row complete its call, with that result and the lock as it was. */
  lemma SoloCall(w: World, t: Tid, now: real, read: Read)
    requires t in w.threads && w.threads[t] == Entered(now) && w.refresh != Some(t)
    requires read.Success? ==> read.registry.begun == w.clock
    ensures var next, (f, a) := Run(w, seq(7, _ => Step.Run(t, read))), Alone(w.fields, now, w.refresh.Some?, read);
      t in next.threads && next.threads[t] == Returned(a) && next.fields == f && next.refresh == w.refresh
  {
    var steps := seq(7, _ => Step.Run(t, read));
    var w3 := Next(Next(Next(w, steps[0]), steps[1]), steps[2]);
    SoloBegins(w, t, now, read);
    SoloEnds(w3, t, now, read);
    hide Next;
    RunSeven(w, Next(w, steps[0]), Next(Next(w, steps[0]), steps[1]), w3, Next(w3, steps[3]),
        Next(Next(w3, steps[3]), steps[4]),
             Next(Next(Next(w3, steps[3]), steps[4]), steps[5]),
             Next(Next(Next(Next(w3, steps[3]), steps[4]), steps[5]), steps[6]), steps);
  }

  /** After three sections the thread has its answer, leaves or backs off under the lock, or reads the chain. */
  predicate Begun(w: World, t: Tid, now: real, busy: bool) {
    && t in w.threads
    && if IsFresh(w.fields, now) then w.threads[t] == Returned(Hit(w.fields, now))
       else if busy then w.threads[t] == Returned(CachedAnswer(w.fields, now))
       else if BacksOff(w.fields, now) then w.threads[t] == HoldsStale(now)
       else w.threads[t] == Reading(now, w.clock) && w.attempts != []
  }

  lemma SoloBegins(w: World, t: Tid, now: real, read: Read)
    requires t in w.threads && w.threads[t] == Entered(now) && w.refresh != Some(t)
    ensures var s, busy := Step.Run(t, read), w.refresh.Some?;
      var w3 := Next(Next(Next(w, s), s), s);
      && Begun(w3, t, now, busy) && w3.fields == w.fields && w3.clock == w.clock
      && w3.refresh == (if busy || IsFresh(w.fields, now) then w.refresh else Some(t))
  {}

  lemma SoloEnds(w3: World, t: Tid, now: real, read: Read)
    requires Begun(w3, t, now, w3.refresh.Some? && w3.refresh != Some(t))
    requires read.Success? ==> read.registry.begun == w3.clock
    ensures var s, busy := Step.Run(t, read), w3.refresh.Some? && w3.refresh != Some(t);
      var w7, (f, a) := Next(Next(Next(Next(w3, s), s), s), s), Alone(w3.fields, now, busy, read);
      && t in w7.threads && w7.threads[t] == Returned(a) && w7.fields == f
      && w7.refresh == (if w3.threads[t].Returned? then w3.refresh else None)
  {}

  // ---------- the cache object ----------

  class Cache {
    var value: Option<Registry>
    var at: real
    var failedAt: Option<real>

    constructor ()
      ensures State() == START.fields
    {
      value, at, failedAt := None, 0.0, None;
    }

    function State(): Fields
      reads this
    {
      Fields(value, at, failedAt)
    }

    /** _cached under the fields' lock. */
    method Usable(now: real) returns (a: Answer)
      ensures a == CachedAnswer(State(), now)
    {
      if value.Some? && now - at < STALE { return Cached(value.value, now, at); }
      a := Fallback;
    }

    /** Under the fields' lock after a read. */
    method Store(now: real, read: Read)
      modifies this
      ensures State() == Stored(old(State()), now, read)
    {
      match read {
        case Success(r) => value, at, failedAt := Some(r), now, None;
        case Failure => failedAt := Some(now);
        case Raised =>
      }
    }

    /** registry_info of a call that nothing interleaves; `busy` says another thread holds the refresh lock. */
    method RegistryInfo(now: real, busy: bool, read: Read) returns (a: Answer)
      modifies this
      ensures (State(), a) == Alone(old(State()), now, busy, read)
    {
      if value.Some? && now - at < TTL { return Cached(value.value, now, at); }
      if busy {
        a := Usable(now);
        return;
      }
      var backingOff := failedAt.Some? && now - failedAt.value < RETRY;
      if backingOff {
        a := Usable(now);
        return;
      }
      Store(now, read);
      if read.Success? { return Fresh(read.registry); }
      if read.Raised? { return Error; }
      a := Usable(now);
    }
  }
}
