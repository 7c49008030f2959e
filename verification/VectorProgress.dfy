/**
  Which disciplines of `vector_add` can deadlock, and exactly when: the ordered and the
  acquisition-lock versions for arbitrary calls, the argument-ordered one under the driver's
  command-line switches.
 */
module VectorProgress {
  import opened Sums
  import opened VectorAdd

  /** Some thread is unfinished and no thread can move. */
  ghost predicate Stuck(cfg: Config, s: State) {
    !AllDone(s) && forall t :: !Enabled(cfg, s, t)
  }

  ghost predicate ReachesStuck(cfg: Config, reqs: seq<seq<Call>>, init: seq<seq<int>>, sched: seq<nat>)
    requires ValidInput(cfg, reqs, init)
  {
    && Runs(cfg, Start(cfg, reqs, init), sched)
    && Stuck(cfg, After(cfg, Start(cfg, reqs, init), sched))
  }

  ghost predicate CanDeadlock(cfg: Config, reqs: seq<seq<Call>>, init: seq<seq<int>>)
    requires ValidInput(cfg, reqs, init)
  {
    exists sched :: ReachesStuck(cfg, reqs, init, sched)
  }

  // ----- waiting

  /** A thread that cannot move waits for a lock that somebody holds. */
  lemma Blocked(cfg: Config, reqs: seq<seq<Call>>, init: seq<seq<int>>, s: State, t: nat) returns (x: nat, u: nat)
    requires Inv(cfg, reqs, init, s) && t < |s.threads|
    requires !s.threads[t].pc.Done? && !Enabled(cfg, s, t)
    ensures x < |s.owner| && Wants(cfg, s.threads[t], x)
    ensures u < |s.threads| && s.owner[x] == HeldBy(u) && Holds(cfg, s.threads[u], x)
  {
    x :| 0 <= x < |s.owner| && Wants(cfg, s.threads[t], x) && !s.owner[x].Free?;
    u := s.owner[x].t;
  }

  /** The call a waiting thread is executing is one of those it was given. */
  lemma CurrentCall(cfg: Config, reqs: seq<seq<Call>>, init: seq<seq<int>>, s: State, t: nat)
    requires Inv(cfg, reqs, init, s) && t < |s.threads|
    requires !s.threads[t].pc.Done? && !PastLockPoint(s.threads[t].pc)
    ensures s.threads[t].todo[0] in reqs[t]
  {
    var done := Of(s.log, t);
    assert reqs[t] == done + s.threads[t].todo;
    assert reqs[t][|done|] == s.threads[t].todo[0];
  }

  // ----- lock ranking

  /** Every call takes its two locks in increasing rank. */
  ghost predicate Ranked(cfg: Config, reqs: seq<seq<Call>>, rank: seq<nat>) {
    && |rank| == cfg.m
    && !cfg.variant.AcquisitionLock?
    && forall t, c | 0 <= t < |reqs| && c in reqs[t] && NeedsSecond(cfg.variant, c) ::
         && c.dst < cfg.m && c.src < cfg.m
         && rank[FirstLock(cfg.variant, c)] < rank[SecondLock(cfg.variant, c)]
  }

  /** Following the holder of a lock leads to higher and higher ranks, hence to someone who can move. */
  lemma {:induction false} Chase(cfg: Config, reqs: seq<seq<Call>>, init: seq<seq<int>>, s: State, rank: seq<nat>,
      top: nat, u: nat, x: nat)
    returns (t: nat)
    requires Inv(cfg, reqs, init, s) && Ranked(cfg, reqs, rank)
    requires forall y | 0 <= y < cfg.m :: rank[y] <= top
    requires u < |s.threads| && x < cfg.m && Holds(cfg, s.threads[u], x)
    ensures Enabled(cfg, s, t)
    decreases top - rank[x]
  {
    if Enabled(cfg, s, u) {
      t := u;
    } else {
      var y, v := Blocked(cfg, reqs, init, s, u);
      CurrentCall(cfg, reqs, init, s, u);
      t := Chase(cfg, reqs, init, s, rank, top, v, y);
    }
  }

  lemma {:induction false} Top(rank: seq<nat>) returns (top: nat)
    ensures forall y | 0 <= y < |rank| :: rank[y] <= top
  {
    if rank == [] {
      top := 0;
    } else {
      top := Top(rank[1..]);
      top := if rank[0] > top then rank[0] else top;
      assert forall y | 0 < y < |rank| :: rank[y] == rank[1..][y - 1];
    }
  }

  lemma RankedNeverStuck(cfg: Config, reqs: seq<seq<Call>>, init: seq<seq<int>>, s: State, rank: seq<nat>)
    requires Inv(cfg, reqs, init, s) && Ranked(cfg, reqs, rank)
    ensures !Stuck(cfg, s)
  {
    if !AllDone(s) {
      var t :| 0 <= t < |s.threads| && !s.threads[t].pc.Done?;
      if !Enabled(cfg, s, t) {
        var x, u := Blocked(cfg, reqs, init, s, t);
        var top := Top(rank);
        t := Chase(cfg, reqs, init, s, rank, top, u, x);
      }
      assert Enabled(cfg, s, t);
    }
  }

  lemma RankedDeadlockFree(cfg: Config, reqs: seq<seq<Call>>, init: seq<seq<int>>, rank: seq<nat>)
    requires ValidInput(cfg, reqs, init) && Ranked(cfg, reqs, rank)
    ensures !CanDeadlock(cfg, reqs, init)
  {
    forall sched | Runs(cfg, Start(cfg, reqs, init), sched)
      ensures !Stuck(cfg, After(cfg, Start(cfg, reqs, init), sched))
    {
      StartInv(cfg, reqs, init);
      RunKeepsInv(cfg, reqs, init, Start(cfg, reqs, init), sched);
      RankedNeverStuck(cfg, reqs, init, After(cfg, Start(cfg, reqs, init), sched), rank);
    }
  }

  /** Address-ordered locking never deadlocks, whatever the calls, also with dst == src. */
  lemma GlobalOrderDeadlockFree(cfg: Config, reqs: seq<seq<Call>>, init: seq<seq<int>>)
    requires ValidInput(cfg, reqs, init) && cfg.variant.GlobalOrder?
    ensures !CanDeadlock(cfg, reqs, init)
  {
    RankedDeadlockFree(cfg, reqs, init, seq(cfg.m, x => x));
  }

  // ----- every run ends

  function StepsLeft(cfg: Config, pc: Pc): int {
    var n := 3 * cfg.len;
    match pc
    case Gate => n + 6
    case First => n + 5
    case Second => n + 4
    case Ungate => n + 3
    case Load(i) => if i <= cfg.len then n - 3 * i + 2 else 2
    case LoadSrc(i, _) => if i < cfg.len then n - 3 * i + 1 else 1
    case Store(i, _) => if i < cfg.len then n - 3 * i else 0
    case Release1 => 2
    case Release2 => 1
    case Done => 0
  }

  function CallCost(cfg: Config): nat {
    3 * cfg.len + 6
  }

  function Work(cfg: Config): Thread -> int {
    (t: Thread) => if t.todo == [] then 0 else StepsLeft(cfg, t.pc) + (|t.todo| - 1) * CallCost(cfg)
  }

  lemma WorkFalls(cfg: Config, s: State, t: nat)
    requires Shape(cfg, s) && Enabled(cfg, s, t)
    ensures Sum(Step(cfg, s, t).threads, Work(cfg)) < Sum(s.threads, Work(cfg))
  {
    StepMovesOne(cfg, s, t);
    MoverWorks(cfg, s, t);
    var y := Step(cfg, s, t).threads[t];
    assert Step(cfg, s, t).threads == s.threads[t := y];
    SumUpdate(s.threads, t, y, Work(cfg));
  }

  lemma MoverWorks(cfg: Config, s: State, t: nat)
    requires Shape(cfg, s) && Enabled(cfg, s, t)
    ensures |Step(cfg, s, t).threads| == |s.threads|
    ensures Work(cfg)(Step(cfg, s, t).threads[t]) < Work(cfg)(s.threads[t])
  {
    assert ThreadOk(cfg, s.threads[t]);
  }

  lemma ThreadWorkNonNegative(cfg: Config, t: Thread)
    ensures Work(cfg)(t) >= 0
  {
    if t.todo != [] {
      var calls: nat := |t.todo| - 1;
      assert calls * CallCost(cfg) >= 0;
    }
  }

  lemma WorkNonNegative(cfg: Config, s: State)
    ensures Sum(s.threads, Work(cfg)) >= 0
  {
    var work := Work(cfg);
    forall t: Thread
      ensures work(t) >= 0
    {
      ThreadWorkNonNegative(cfg, t);
    }
    SumAtLeast(s.threads, work);
  }

  /** No run takes more steps than the work there was to do. */
  lemma {:induction false} RunBounded(cfg: Config, s: State, sched: seq<nat>)
    requires Shape(cfg, s) && Runs(cfg, s, sched)
    ensures |sched| + Sum(After(cfg, s, sched).threads, Work(cfg)) <= Sum(s.threads, Work(cfg))
    ensures |sched| <= Sum(s.threads, Work(cfg))
    decreases |sched|
  {
    WorkNonNegative(cfg, After(cfg, s, sched));
    if sched != [] {
      StepShape(cfg, s, sched[0]);
      WorkFalls(cfg, s, sched[0]);
      RunBounded(cfg, Step(cfg, s, sched[0]), sched[1..]);
    }
  }

  /** Letting threads move for as long as one can reaches a state in which none can. */
  lemma {:induction false} Exhaust(cfg: Config, s: State) returns (sched: seq<nat>)
    requires Shape(cfg, s)
    ensures Runs(cfg, s, sched)
    ensures forall t :: !Enabled(cfg, After(cfg, s, sched), t)
    decreases Sum(s.threads, Work(cfg))
  {
    sched := [];
    if t :| Enabled(cfg, s, t) {
      WorkNonNegative(cfg, s);
      WorkFalls(cfg, s, t);
      StepShape(cfg, s, t);
      var rest := Exhaust(cfg, Step(cfg, s, t));
      sched := [t] + rest;
      assert sched[1..] == rest;
    }
  }

  /**
    Address-ordered `vector_add` is totally correct: every run is bounded, and a run that cannot be
    continued has executed all calls, with the result of a serial execution in program order.
   */
  lemma GlobalOrderTotal(cfg: Config, reqs: seq<seq<Call>>, init: seq<seq<int>>, sched: seq<nat>)
    requires ValidInput(cfg, reqs, init) && cfg.variant.GlobalOrder?
    requires Runs(cfg, Start(cfg, reqs, init), sched)
    ensures |sched| <= Sum(Start(cfg, reqs, init).threads, Work(cfg))
    ensures var s := After(cfg, Start(cfg, reqs, init), sched);
            (forall t :: !Enabled(cfg, s, t)) ==>
              && ValidLog(cfg, s.log)
              && s.values == Serial(cfg, init, s.log)
              && forall t | 0 <= t < |reqs| :: Of(s.log, t) == reqs[t]
  {
    RunBounded(cfg, Start(cfg, reqs, init), sched);
    GlobalOrderDeadlockFree(cfg, reqs, init);
    assert !ReachesStuck(cfg, reqs, init, sched);
    Serializable(cfg, reqs, init, sched);
  }

  // ----- the acquisition lock

  predicate NoSelfCall(reqs: seq<seq<Call>>) {
    forall t, i | 0 <= t < |reqs| && 0 <= i < |reqs[t]| :: reqs[t][i].dst != reqs[t][i].src
  }

  /** Only the holder of the global lock can wait while holding a vector. */
  lemma AcquirerMoves(cfg: Config, reqs: seq<seq<Call>>, init: seq<seq<int>>, s: State, t: nat) returns (r: nat)
    requires Inv(cfg, reqs, init, s) && cfg.variant.AcquisitionLock? && NoSelfCall(reqs)
    requires t < |s.threads| && Holds(cfg, s.threads[t], cfg.m)
    ensures Enabled(cfg, s, r)
  {
    r := t;
    if !Enabled(cfg, s, t) {
      var x, u := Blocked(cfg, reqs, init, s, t);
      CurrentCall(cfg, reqs, init, s, t);
      assert s.owner[cfg.m] == HeldBy(t);
      assert u != t;
      assert !Holds(cfg, s.threads[u], cfg.m);
      r := u;
    }
  }

  lemma AcquisitionNeverStuck(cfg: Config, reqs: seq<seq<Call>>, init: seq<seq<int>>, s: State)
    requires Inv(cfg, reqs, init, s) && cfg.variant.AcquisitionLock? && NoSelfCall(reqs)
    ensures !Stuck(cfg, s)
  {
    if !AllDone(s) {
      var t :| 0 <= t < |s.threads| && !s.threads[t].pc.Done?;
      if !Enabled(cfg, s, t) {
        var x, u := Blocked(cfg, reqs, init, s, t);
        if s.threads[t].pc.Gate? {
          t := AcquirerMoves(cfg, reqs, init, s, u);
        } else {
          t := AcquirerMoves(cfg, reqs, init, s, t);
        }
      }
      assert Enabled(cfg, s, t);
    }
  }

  /** Without address ordering, no call on one and the same vector ever gets both its locks. */
  ghost predicate LogDistinct(s: State) {
    forall i | 0 <= i < |s.log| :: s.log[i].call.dst != s.log[i].call.src
  }

  lemma {:induction false} SelfCallsNeverLogged(cfg: Config, reqs: seq<seq<Call>>, init: seq<seq<int>>, s: State,
      sched: seq<nat>)
    requires Inv(cfg, reqs, init, s) && !cfg.variant.GlobalOrder?
    requires Runs(cfg, s, sched) && LogDistinct(s)
    ensures LogDistinct(After(cfg, s, sched))
    decreases |sched|
  {
    if sched != [] {
      var t := sched[0];
      if s.threads[t].pc.Second? {
        var x := SecondLock(cfg.variant, s.threads[t].todo[0]);
        assert Wants(cfg, s.threads[t], x);
        assert !Holds(cfg, s.threads[t], x);
      }
      StepKeepsInv(cfg, reqs, init, s, t);
      SelfCallsNeverLogged(cfg, reqs, init, Step(cfg, s, t), sched[1..]);
    }
  }

  lemma {:induction false} OfDistinct(log: seq<Entry>, t: nat)
    requires forall i | 0 <= i < |log| :: log[i].call.dst != log[i].call.src
    ensures forall i | 0 <= i < |Of(log, t)| :: Of(log, t)[i].dst != Of(log, t)[i].src
    decreases |log|
  {
    if log != [] {
      OfDistinct(log[..|log| - 1], t);
    }
  }

  /** A call on one and the same vector makes the unordered versions deadlock. */
  lemma SelfCallDeadlocks(cfg: Config, reqs: seq<seq<Call>>, init: seq<seq<int>>)
    requires ValidInput(cfg, reqs, init) && !cfg.variant.GlobalOrder? && !NoSelfCall(reqs)
    ensures CanDeadlock(cfg, reqs, init)
  {
    var s0 := Start(cfg, reqs, init);
    StartInv(cfg, reqs, init);
    var sched := Exhaust(cfg, s0);
    var s := After(cfg, s0, sched);
    SelfCallsNeverLogged(cfg, reqs, init, s0, sched);
    Serializable(cfg, reqs, init, sched);
    if AllDone(s) {
      var t, i :| 0 <= t < |reqs| && 0 <= i < |reqs[t]| && reqs[t][i].dst == reqs[t][i].src;
      OfDistinct(s.log, t);
      assert false;
    }
    assert ReachesStuck(cfg, reqs, init, sched);
  }

  /** The acquisition-lock version deadlocks if and only if some call has dst == src. */
  lemma AcquisitionLockExact(cfg: Config, reqs: seq<seq<Call>>, init: seq<seq<int>>)
    requires ValidInput(cfg, reqs, init) && cfg.variant.AcquisitionLock?
    ensures CanDeadlock(cfg, reqs, init) <==> !NoSelfCall(reqs)
  {
    if NoSelfCall(reqs) {
      forall sched | Runs(cfg, Start(cfg, reqs, init), sched)
        ensures !Stuck(cfg, After(cfg, Start(cfg, reqs, init), sched))
      {
        StartInv(cfg, reqs, init);
        RunKeepsInv(cfg, reqs, init, Start(cfg, reqs, init), sched);
        AcquisitionNeverStuck(cfg, reqs, init, After(cfg, Start(cfg, reqs, init), sched));
      }
    } else {
      SelfCallDeadlocks(cfg, reqs, init);
    }
  }

  // ----- the driver

  /** `thread_arg_t` and `worker`: the call thread `i` repeats. */
  function DriverCall(i: nat, causeDeadlock: bool, parallel: bool): Call {
    var v0, v1 := if parallel then 2 * i else 0, if parallel then 2 * i + 1 else 1;
    if causeDeadlock && i % 2 == 1 then Call(v1, v0) else Call(v0, v1)
  }

  function DriverRequests(n: nat, loops: nat, causeDeadlock: bool, parallel: bool): seq<seq<Call>> {
    seq(n, i requires 0 <= i => seq(loops, k => DriverCall(i, causeDeadlock, parallel)))
  }

  /** `vector_init(&v[i], i)` on 2 * MAX_THREADS vectors. */
  function DriverVectors(maxThreads: nat, len: nat): seq<seq<int>> {
    seq(2 * maxThreads, x => seq(len, j => x))
  }

  lemma DriverInputValid(n: nat, loops: nat, causeDeadlock: bool, parallel: bool, maxThreads: nat, len: nat)
    requires n < maxThreads
    ensures ValidInput(Config(ArgumentOrder, 2 * maxThreads, len),
                       DriverRequests(n, loops, causeDeadlock, parallel), DriverVectors(maxThreads, len))
  {
  }

  /** The ranking that the thread configuration admits when the switches are harmless. */
  function DriverRank(maxThreads: nat, causeDeadlock: bool, parallel: bool): seq<nat> {
    seq(2 * maxThreads, x requires 0 <= x =>
      if causeDeadlock && parallel && x / 2 % 2 == 1 then 1 - x % 2 else x % 2)
  }

  lemma DriverRanked(n: nat, loops: nat, causeDeadlock: bool, parallel: bool, maxThreads: nat, len: nat)
    requires n < maxThreads
    requires !(causeDeadlock && !parallel && n >= 2 && loops >= 1)
    ensures Ranked(Config(ArgumentOrder, 2 * maxThreads, len),
                   DriverRequests(n, loops, causeDeadlock, parallel),
                   DriverRank(maxThreads, causeDeadlock, parallel))
  {
    var reqs := DriverRequests(n, loops, causeDeadlock, parallel);
    var rank := DriverRank(maxThreads, causeDeadlock, parallel);
    forall t, c: Call | 0 <= t < |reqs| && c in reqs[t]
      ensures c.dst < 2 * maxThreads && c.src < 2 * maxThreads && rank[c.dst] < rank[c.src]
    {
      assert c == DriverCall(t, causeDeadlock, parallel);
      assert parallel ==> (2 * t) / 2 == t && (2 * t + 1) / 2 == t;
    }
  }

  /** Every thread still has to lock 0 or 1, threads 0 and 1 hold one each, and everybody waits. */
  ghost predicate Crossed(cfg: Config, s: State) {
    && |s.owner| > 1 && |s.threads| > 1
    && s.owner[0] == HeldBy(0) && s.owner[1] == HeldBy(1)
    && forall t | 0 <= t < |s.threads| :: Wants(cfg, s.threads[t], 0) || Wants(cfg, s.threads[t], 1)
  }

  lemma CrossedIsStuck(cfg: Config, s: State)
    requires Crossed(cfg, s)
    ensures forall t: nat :: !Enabled(cfg, s, t)
    ensures !s.threads[0].pc.Done?
  {
  }

  /** Two threads that start with the same two vectors the other way round take one lock each. */
  lemma CrossingSteps(cfg: Config, reqs: seq<seq<Call>>, init: seq<seq<int>>)
    requires cfg.variant.ArgumentOrder? && cfg.m > 1 && ValidInput(cfg, reqs, init) && |reqs| > 1
    requires forall t | 0 <= t < |reqs| :: reqs[t] != [] && reqs[t][0] == if t % 2 == 0 then Call(0, 1) else Call(1, 0)
    ensures Shape(cfg, Start(cfg, reqs, init)) && Runs(cfg, Start(cfg, reqs, init), [0, 1])
    ensures Crossed(cfg, After(cfg, Start(cfg, reqs, init), [0, 1]))
  {
    var s0 := Start(cfg, reqs, init);
    assert Enabled(cfg, s0, 0);
    StepShape(cfg, s0, 0);
    var s1 := Step(cfg, s0, 0);
    assert Enabled(cfg, s1, 1);
    StepShape(cfg, s1, 1);
    var s2 := Step(cfg, s1, 1);
    assert [0, 1][1..] == [1] && [1][1..] == [];
    assert Runs(cfg, s1, [1]) && After(cfg, s1, [1]) == s2;
  }

  /** Thread 0 locks v[0], thread 1 locks v[1]: nobody can go on. */
  lemma DriverDeadlocks(n: nat, loops: nat, maxThreads: nat, len: nat)
    requires 2 <= n < maxThreads && loops >= 1
    ensures ValidInput(Config(ArgumentOrder, 2 * maxThreads, len),
                       DriverRequests(n, loops, true, false), DriverVectors(maxThreads, len))
    ensures ReachesStuck(Config(ArgumentOrder, 2 * maxThreads, len),
                         DriverRequests(n, loops, true, false), DriverVectors(maxThreads, len), [0, 1])
  {
    DriverInputValid(n, loops, true, false, maxThreads, len);
    var cfg := Config(ArgumentOrder, 2 * maxThreads, len);
    var reqs := DriverRequests(n, loops, true, false);
    var init := DriverVectors(maxThreads, len);
    assert forall i | 0 <= i < n :: reqs[i][0] == DriverCall(i, true, false);
    CrossingSteps(cfg, reqs, init);
    CrossedIsStuck(cfg, After(cfg, Start(cfg, reqs, init), [0, 1]));
  }

  /**
    The argument-ordered version under the driver: a deadlock is possible exactly when -d is given,
    -p is not, there are at least two threads, and at least one iteration.
   */
  lemma DriverDeadlockExact(n: nat, loops: nat, causeDeadlock: bool, parallel: bool, maxThreads: nat, len: nat)
    requires n < maxThreads
    ensures ValidInput(Config(ArgumentOrder, 2 * maxThreads, len),
                       DriverRequests(n, loops, causeDeadlock, parallel), DriverVectors(maxThreads, len))
    ensures CanDeadlock(Config(ArgumentOrder, 2 * maxThreads, len),
                        DriverRequests(n, loops, causeDeadlock, parallel), DriverVectors(maxThreads, len))
            <==> causeDeadlock && !parallel && n >= 2 && loops >= 1
  {
    DriverInputValid(n, loops, causeDeadlock, parallel, maxThreads, len);
    if causeDeadlock && !parallel && n >= 2 && loops >= 1 {
      DriverDeadlocks(n, loops, maxThreads, len);
    } else {
      DriverRanked(n, loops, causeDeadlock, parallel, maxThreads, len);
      RankedDeadlockFree(Config(ArgumentOrder, 2 * maxThreads, len),
                         DriverRequests(n, loops, causeDeadlock, parallel),
                         DriverVectors(maxThreads, len), DriverRank(maxThreads, causeDeadlock, parallel));
    }
  }
}
