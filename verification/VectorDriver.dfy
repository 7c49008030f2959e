/**
  What the driver of the `vector_add` programs leaves in the vectors, in numbers, for every locking
  discipline and every schedule, whenever that does not depend on the schedule.
 */
module VectorDriver {
  import opened Sums
  import opened VectorAdd
  import opened VectorProgress

  // ----- what is in the log

  lemma {:induction false} LogThreads(cfg: Config, s: State, sched: seq<nat>)
    requires Shape(cfg, s) && Runs(cfg, s, sched)
    requires forall i | 0 <= i < |s.log| :: s.log[i].t < |s.threads|
    ensures var s' := After(cfg, s, sched); forall i | 0 <= i < |s'.log| :: s'.log[i].t < |s.threads|
    decreases |sched|
  {
    if sched != [] {
      var s1 := Step(cfg, s, sched[0]);
      StepLogs(cfg, s, sched[0]);
      LogThreads(cfg, s1, sched[1..]);
      assert After(cfg, s, sched) == After(cfg, s1, sched[1..]);
    }
  }

  lemma StepLogs(cfg: Config, s: State, t: nat)
    requires Shape(cfg, s) && Enabled(cfg, s, t)
    requires forall i | 0 <= i < |s.log| :: s.log[i].t < |s.threads|
    ensures var s' := Step(cfg, s, t);
            && Shape(cfg, s') && |s'.threads| == |s.threads|
            && forall i | 0 <= i < |s'.log| :: s'.log[i].t < |s.threads|
  {
    StepShape(cfg, s, t);
  }

  /** Every entry is one of the calls of its thread. */
  lemma {:induction false} EntryOf(log: seq<Entry>, i: nat)
    requires i < |log|
    ensures log[i].call in Of(log, log[i].t)
    decreases |log|
  {
    var before := log[..|log| - 1];
    if i < |before| {
      EntryOf(before, i);
    }
  }

  function Lengths(log: seq<Entry>, n: nat): seq<nat> {
    seq(n, t requires 0 <= t => |Of(log, t)|)
  }

  function Size(k: nat): int { k }

  /** The log is as long as the calls of all threads together. */
  lemma {:induction false} LogLength(log: seq<Entry>, n: nat)
    requires forall i | 0 <= i < |log| :: log[i].t < n
    ensures Sum(Lengths(log, n), Size) == |log|
    decreases |log|
  {
    if log == [] {
      SumConstant(Lengths(log, n), Size, 0);
    } else {
      var before := log[..|log| - 1];
      var t := log[|log| - 1].t;
      LogLength(before, n);
      assert Lengths(log, n) == Lengths(before, n)[t := Lengths(before, n)[t] + 1];
      SumUpdate(Lengths(before, n), t, Lengths(before, n)[t] + 1, Size);
    }
  }

  /** How often vector `x` is a destination. */
  function Times(log: seq<Entry>, x: nat): nat
    decreases |log|
  {
    if log == [] then 0
    else Times(log[..|log| - 1], x) + if log[|log| - 1].call.dst == x then 1 else 0
  }

  lemma {:induction false} TimesAll(log: seq<Entry>, x: nat)
    requires forall i | 0 <= i < |log| :: log[i].call.dst == x
    ensures Times(log, x) == |log|
    decreases |log|
  {
    if log != [] {
      TimesAll(log[..|log| - 1], x);
    }
  }

  lemma {:induction false} TimesOfOne(log: seq<Entry>, x: nat, t: nat)
    requires forall i | 0 <= i < |log| :: log[i].call.dst == x <==> log[i].t == t
    ensures Times(log, x) == |Of(log, t)|
    decreases |log|
  {
    if log != [] {
      TimesOfOne(log[..|log| - 1], x, t);
    }
  }

  // ----- what a log makes of the vectors

  /** A vector that is written by one call only, whose source nobody writes. */
  lemma {:induction false} SerialSum(cfg: Config, init: seq<seq<int>>, log: seq<Entry>, c: Call)
    requires Vectors(cfg, init) && ValidLog(cfg, log) && c.dst < cfg.m && c.src < cfg.m && c.dst != c.src
    requires forall i | 0 <= i < |log| :: log[i].call.dst != c.src
    requires forall i | 0 <= i < |log| && log[i].call.dst == c.dst :: log[i].call == c
    ensures Serial(cfg, init, log)[c.src] == init[c.src]
    ensures forall j | 0 <= j < cfg.len ::
              Serial(cfg, init, log)[c.dst][j] == init[c.dst][j] + Times(log, c.dst) * init[c.src][j]
    decreases |log|
  {
    if log != [] {
      SerialSum(cfg, init, log[..|log| - 1], c);
    }
  }

  lemma {:induction false} SerialUntouched(cfg: Config, init: seq<seq<int>>, log: seq<Entry>, x: nat)
    requires Vectors(cfg, init) && ValidLog(cfg, log) && x < cfg.m
    requires forall i | 0 <= i < |log| :: log[i].call.dst != x
    ensures Serial(cfg, init, log)[x] == init[x]
    decreases |log|
  {
    if log != [] {
      SerialUntouched(cfg, init, log[..|log| - 1], x);
    }
  }

  // ----- the driver

  /** All calls are executed, with the serial result, when nobody can move any more. */
  lemma AllExecuted(cfg: Config, reqs: seq<seq<Call>>, init: seq<seq<int>>, sched: seq<nat>)
    requires ValidInput(cfg, reqs, init) && !CanDeadlock(cfg, reqs, init)
    requires Runs(cfg, Start(cfg, reqs, init), sched)
    requires forall t :: !Enabled(cfg, After(cfg, Start(cfg, reqs, init), sched), t)
    ensures var s := After(cfg, Start(cfg, reqs, init), sched);
            && ValidLog(cfg, s.log) && s.values == Serial(cfg, init, s.log)
            && (forall t | 0 <= t < |reqs| :: Of(s.log, t) == reqs[t])
            && (forall i | 0 <= i < |s.log| :: s.log[i].t < |reqs|)
  {
    assert !ReachesStuck(cfg, reqs, init, sched);
    Serializable(cfg, reqs, init, sched);
    LogThreads(cfg, Start(cfg, reqs, init), sched);
  }

  /** Without -d, or with -p, or with fewer than two threads, no discipline deadlocks. */
  lemma DriverNeverStuck(v: Variant, n: nat, loops: nat, causeDeadlock: bool, parallel: bool, maxThreads: nat, len: nat)
    requires n < maxThreads && (parallel || !causeDeadlock || n < 2)
    ensures var cfg := Config(v, 2 * maxThreads, len);
            var reqs, init := DriverRequests(n, loops, causeDeadlock, parallel), DriverVectors(maxThreads, len);
            ValidInput(cfg, reqs, init) && !CanDeadlock(cfg, reqs, init)
  {
    var cfg := Config(v, 2 * maxThreads, len);
    var reqs, init := DriverRequests(n, loops, causeDeadlock, parallel), DriverVectors(maxThreads, len);
    match v
    case GlobalOrder => GlobalOrderDeadlockFree(cfg, reqs, init);
    case ArgumentOrder => DriverDeadlockExact(n, loops, causeDeadlock, parallel, maxThreads, len);
    case AcquisitionLock => AcquisitionLockExact(cfg, reqs, init);
  }

  /** The log of the driver: thread `t` has its call in it `loops` times, and nobody else has one. */
  ghost predicate DriverLog(log: seq<Entry>, n: nat, loops: nat, causeDeadlock: bool, parallel: bool) {
    && (forall t | 0 <= t < n :: |Of(log, t)| == loops)
    && forall i | 0 <= i < |log| :: log[i].t < n && log[i].call == DriverCall(log[i].t, causeDeadlock, parallel)
  }

  lemma LogOfDriver(log: seq<Entry>, n: nat, loops: nat, causeDeadlock: bool, parallel: bool)
    requires forall t | 0 <= t < n :: Of(log, t) == DriverRequests(n, loops, causeDeadlock, parallel)[t]
    requires forall i | 0 <= i < |log| :: log[i].t < n
    ensures DriverLog(log, n, loops, causeDeadlock, parallel)
  {
    forall i | 0 <= i < |log|
      ensures log[i].call == DriverCall(log[i].t, causeDeadlock, parallel)
    {
      EntryOf(log, i);
      RequestsOf(n, loops, causeDeadlock, parallel, log[i].t, log[i].call);
    }
  }

  lemma RequestsOf(n: nat, loops: nat, causeDeadlock: bool, parallel: bool, t: nat, c: Call)
    requires t < n && c in DriverRequests(n, loops, causeDeadlock, parallel)[t]
    ensures c == DriverCall(t, causeDeadlock, parallel)
  {
  }

  /** Every element of a vector. */
  predicate AllAre(v: seq<int>, x: int) {
    forall j | 0 <= j < |v| :: v[j] == x
  }

  lemma PairsApart(i: nat, k: nat, causeDeadlock: bool)
    ensures var c, d := DriverCall(i, causeDeadlock, true), DriverCall(k, causeDeadlock, true);
            && c == (if causeDeadlock && i % 2 == 1 then Call(2 * i + 1, 2 * i) else Call(2 * i, 2 * i + 1))
            && d.dst != c.src && (d.dst == c.dst <==> k == i) && (d.dst == c.dst ==> d == c)
  {
  }

  /** With -p every thread has two vectors of its own. */
  lemma OwnPair(cfg: Config, log: seq<Entry>, n: nat, loops: nat, causeDeadlock: bool, maxThreads: nat, i: nat)
    requires cfg.m == 2 * maxThreads && i < n < maxThreads
    requires ValidLog(cfg, log) && DriverLog(log, n, loops, causeDeadlock, true)
    ensures var values := Serial(cfg, DriverVectors(maxThreads, cfg.len), log);
            FinalPair(values[2 * i], values[2 * i + 1], i, loops, causeDeadlock)
  {
    var c := if causeDeadlock && i % 2 == 1 then Call(2 * i + 1, 2 * i) else Call(2 * i, 2 * i + 1);
    forall k | 0 <= k < |log|
      ensures log[k].call.dst != c.src && (log[k].call.dst == c.dst <==> log[k].t == i)
      ensures log[k].call.dst == c.dst ==> log[k].call == c
    {
      PairsApart(i, log[k].t, causeDeadlock);
    }
    SerialSum(cfg, DriverVectors(maxThreads, cfg.len), log, c);
    TimesOfOne(log, c.dst, i);
  }

  lemma Untouched(cfg: Config, log: seq<Entry>, n: nat, loops: nat, causeDeadlock: bool, parallel: bool,
                  maxThreads: nat, x: nat)
    requires cfg.m == 2 * maxThreads && n < maxThreads && x < cfg.m
    requires if parallel then x >= 2 * n else !causeDeadlock && x > 0
    requires ValidLog(cfg, log) && DriverLog(log, n, loops, causeDeadlock, parallel)
    ensures AllAre(Serial(cfg, DriverVectors(maxThreads, cfg.len), log)[x], x)
  {
    SerialUntouched(cfg, DriverVectors(maxThreads, cfg.len), log, x);
  }

  /** Without -p and -d all threads add v[1] to v[0]. */
  lemma SharedPair(cfg: Config, log: seq<Entry>, n: nat, loops: nat, maxThreads: nat)
    requires cfg.m == 2 * maxThreads && n < maxThreads
    requires ValidLog(cfg, log) && DriverLog(log, n, loops, false, false)
    ensures AllAre(Serial(cfg, DriverVectors(maxThreads, cfg.len), log)[0], n * loops)
  {
    SerialSum(cfg, DriverVectors(maxThreads, cfg.len), log, Call(0, 1));
    TimesAll(log, 0);
    LogLength(log, n);
    SumConstant(Lengths(log, n), Size, loops);
  }

  /**
    The final values, in numbers. With -p, each thread has added the odd one of its two vectors to the
    even one `loops` times, or under -d and for odd threads the even one to the odd one; without -p
    and -d, v[1] has been added to v[0] once per thread and iteration. All other vectors are as they
    were initialised, v[x] with the value x.
   */
  ghost predicate Final(values: seq<seq<int>>, n: nat, loops: nat, causeDeadlock: bool, parallel: bool)
    requires |values| >= 2 * n && |values| > 0
  {
    if parallel then
      && (forall i | 0 <= i < n :: FinalPair(values[2 * i], values[2 * i + 1], i, loops, causeDeadlock))
      && (forall x | 2 * n <= x < |values| :: AllAre(values[x], x))
    else
      && AllAre(values[0], n * loops)
      && forall x | 0 < x < |values| :: AllAre(values[x], x)
  }

  predicate FinalPair(even: seq<int>, odd: seq<int>, i: nat, loops: nat, causeDeadlock: bool) {
    if causeDeadlock && i % 2 == 1
    then AllAre(even, 2 * i) && AllAre(odd, 2 * i + 1 + loops * (2 * i))
    else AllAre(even, 2 * i + loops * (2 * i + 1)) && AllAre(odd, 2 * i + 1)
  }

  /** Whatever the discipline and the schedule: this is what the driver leaves when nobody can move any more. */
  lemma DriverResult(v: Variant, n: nat, loops: nat, causeDeadlock: bool, parallel: bool, maxThreads: nat, len: nat,
                     sched: seq<nat>)
    requires n < maxThreads && (parallel || !causeDeadlock)
    requires var cfg := Config(v, 2 * maxThreads, len);
             var s0 := Start(cfg, DriverRequests(n, loops, causeDeadlock, parallel), DriverVectors(maxThreads, len));
             Runs(cfg, s0, sched) && forall t :: !Enabled(cfg, After(cfg, s0, sched), t)
    ensures var cfg := Config(v, 2 * maxThreads, len);
            var s0 := Start(cfg, DriverRequests(n, loops, causeDeadlock, parallel), DriverVectors(maxThreads, len));
            var values := After(cfg, s0, sched).values;
            && |values| == 2 * maxThreads && (forall x | 0 <= x < |values| :: |values[x]| == len)
            && Final(values, n, loops, causeDeadlock, parallel)
  {
    var cfg := Config(v, 2 * maxThreads, len);
    var reqs, init := DriverRequests(n, loops, causeDeadlock, parallel), DriverVectors(maxThreads, len);
    DriverNeverStuck(v, n, loops, causeDeadlock, parallel, maxThreads, len);
    AllExecuted(cfg, reqs, init, sched);
    FromLog(cfg, After(cfg, Start(cfg, reqs, init), sched).log, n, loops, causeDeadlock, parallel, maxThreads);
  }

  lemma FromLog(cfg: Config, log: seq<Entry>, n: nat, loops: nat, causeDeadlock: bool, parallel: bool, maxThreads: nat)
    requires cfg.m == 2 * maxThreads && n < maxThreads && (parallel || !causeDeadlock) && ValidLog(cfg, log)
    requires forall t | 0 <= t < n :: Of(log, t) == DriverRequests(n, loops, causeDeadlock, parallel)[t]
    requires forall i | 0 <= i < |log| :: log[i].t < n
    ensures Final(Serial(cfg, DriverVectors(maxThreads, cfg.len), log), n, loops, causeDeadlock, parallel)
  {
    var values := Serial(cfg, DriverVectors(maxThreads, cfg.len), log);
    LogOfDriver(log, n, loops, causeDeadlock, parallel);
    if parallel {
      forall i | 0 <= i < n
        ensures FinalPair(values[2 * i], values[2 * i + 1], i, loops, causeDeadlock)
      {
        OwnPair(cfg, log, n, loops, causeDeadlock, maxThreads, i);
      }
    } else {
      SharedPair(cfg, log, n, loops, maxThreads);
    }
    forall x | (if parallel then 2 * n else 1) <= x < cfg.m
      ensures AllAre(values[x], x)
    {
      Untouched(cfg, log, n, loops, causeDeadlock, parallel, maxThreads, x);
    }
  }
}
