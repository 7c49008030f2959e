/**
  Who is served by the hand-off mutex. A call that joins the list gets the mutex within a bounded
  number of steps under every schedule; a call that arrives after the list has drained with `tail`
  left behind never does. There is no third case.
 */
module FifoMutexService {
  import opened Sums
  import opened FifoMutex

  /** Thread `t` waits on node `n`, which is in the list or on its way to being woken. */
  ghost predicate InLine(s: State, t: nat, n: nat) {
    && Waits(s, t, n) && n < |s.nodes| && s.nodes[n].waiter == t && n in s.arrivals
    && (n in s.queue || s.nodes[n].sem > 0 || SomeoneHandsOff(s, n))
  }

  /** Call `m` was decided after call `n`. */
  ghost predicate Later(arrivals: seq<nat>, n: nat, m: nat) {
    exists i, j :: 0 <= i < j < |arrivals| && arrivals[i] == n && arrivals[j] == m
  }

  /** Steps a thread can still take while call `n` waits. */
  ghost function Weight(arrivals: seq<nat>, n: nat): Thread -> int {
    (t: Thread) =>
      match t
      case Idle => 4
      case WantGuard(_) => 3
      case Deciding(_) => 2
      case Queued(m) => if Later(arrivals, n, m) then 1 else 11
      case Asleep(m) => if Later(arrivals, n, m) then 0 else 10
      case Taken(_) => 10
      case Owner => 9
      case WantRelease => 8
      case Releasing => 7
      case HandingOff(_) => 6
      case Released => 5
  }

  // ----- while a call waits, every step brings it closer

  /** The mutex is not free, and it goes to nobody decided after the waiter. */
  lemma TokenElsewhere(clearsTail: bool, s: State, t: nat, n: nat, m: nat)
    requires Inv(clearsTail, s) && InLine(s, t, n) && m < |s.nodes| && Later(s.arrivals, n, m)
    ensures s.nodes[m].sem == 0
  {
    if n in s.queue {
      assert s.head.To?;
      LaterInQueue(s.grants, s.queue, n, m);
    } else {
      OneToken(clearsTail, s, n, m);
    }
  }

  /** Whatever arrived after a queued call is queued as well. */
  lemma LaterInQueue(grants: seq<nat>, queue: seq<nat>, n: nat, m: nat)
    requires Distinct(grants + queue) && n in queue && Later(grants + queue, n, m)
    ensures m in queue
  {
    var arrivals := grants + queue;
    var i, j :| 0 <= i < j < |arrivals| && arrivals[i] == n && arrivals[j] == m;
    var k :| 0 <= k < |queue| && queue[k] == n;
    assert arrivals[|grants| + k] == n;
    assert queue[j - |grants|] == m;
  }

  /** There is only one token, and a call being woken has it. */
  lemma OneToken(clearsTail: bool, s: State, n: nat, m: nat)
    requires Inv(clearsTail, s) && n < |s.nodes| && m < |s.nodes| && m != n
    requires s.nodes[n].sem > 0 || SomeoneHandsOff(s, n)
    ensures s.nodes[m].sem == 0
  {
    SumAtLeast(s.threads, Has);
    SemsNonNegative(s.nodes);
    SemsTwo(s.nodes, n, m);
  }

  lemma SemsTwo(ns: seq<Node>, n: nat, m: nat)
    requires n < |ns| && m < |ns| && n != m && forall k | 0 <= k < |ns| :: 0 <= ns[k].sem
    ensures ns[n].sem + ns[m].sem <= Sum(ns, Sem)
  {
    var zero := ns[n := ns[n].(sem := 0)];
    SumUpdate(ns, n, ns[n].(sem := 0), Sem);
    SemsNonNegative(zero);
    assert zero[m] == ns[m];
  }

  lemma HeldWhileWaiting(clearsTail: bool, s: State, t: nat, n: nat)
    requires Inv(clearsTail, s) && InLine(s, t, n)
    ensures s.locked == 1
  {
    if n !in s.queue {
      SumAtLeast(s.threads, Has);
      SemsNonNegative(s.nodes);
    }
  }

  /** A waiter that does not move itself stays in line: in the list, being woken, or awake. */
  lemma WokenStaysInLine(clearsTail: bool, s: State, t: nat, n: nat, u: nat)
    requires Inv(clearsTail, s) && InLine(s, t, n) && Enabled(s, u) && u != t && n !in s.queue
    ensures var s' := Step(clearsTail, s, u);
            n < |s'.nodes| && (s'.nodes[n].sem > 0 || SomeoneHandsOff(s', n))
  {
    var s' := Step(clearsTail, s, u);
    assert ThreadInv(s, u);
    if s.nodes[n].sem == 0 && s.threads[u] != HandingOff(n) {
      var v :| 0 <= v < |s.threads| && s.threads[v] == HandingOff(n);
      assert s'.threads[v] == HandingOff(n);
    }
  }

  lemma QueuedStaysInLine(clearsTail: bool, s: State, t: nat, n: nat, u: nat)
    requires Inv(clearsTail, s) && InLine(s, t, n) && Enabled(s, u) && n in s.queue
    ensures var s' := Step(clearsTail, s, u); n in s'.queue || SomeoneHandsOff(s', n)
  {
    var s' := Step(clearsTail, s, u);
    QueueMoves(clearsTail, s, u);
    var k :| 0 <= k < |s.queue| && s.queue[k] == n;
    if !s.threads[u].Releasing? {
      assert s'.queue[k] == n;
    } else if k == 0 {
      assert s'.threads[u] == HandingOff(n);
    } else {
      assert s'.queue[k - 1] == n;
    }
  }

  lemma WaiterKept(clearsTail: bool, s: State, t: nat, n: nat, u: nat)
    requires Shape(s) && Enabled(s, u) && Waits(s, t, n) && n < |s.nodes|
    ensures var s' := Step(clearsTail, s, u);
            && t < |s'.threads| && n < |s'.nodes| && s'.nodes[n].waiter == s.nodes[n].waiter
            && s.arrivals <= s'.arrivals
            && (s'.threads[t].Owner? || Waits(s', t, n))
            && (u == t && !s'.threads[t].Owner? ==> s'.nodes == s.nodes && s'.queue == s.queue && s.threads[t].Queued?)
  {
  }

  lemma StaysInLine(clearsTail: bool, s: State, t: nat, n: nat, u: nat)
    requires Inv(clearsTail, s) && InLine(s, t, n) && Enabled(s, u)
    ensures var s' := Step(clearsTail, s, u); s'.threads[t].Owner? || InLine(s', t, n)
  {
    WaiterKept(clearsTail, s, t, n, u);
    if n in s.queue {
      QueuedStaysInLine(clearsTail, s, t, n, u);
    } else if u != t {
      WokenStaysInLine(clearsTail, s, t, n, u);
    } else {
      WokenIsAsleep(clearsTail, s, t, n);
    }
  }

  lemma WokenIsAsleep(clearsTail: bool, s: State, t: nat, n: nat)
    requires Inv(clearsTail, s) && InLine(s, t, n) && n !in s.queue
    ensures s.threads[t].Asleep?
  {
    assert NodeInv(s, n);
    if SomeoneHandsOff(s, n) {
      var v :| 0 <= v < |s.threads| && s.threads[v] == HandingOff(n);
      assert ThreadInv(s, v);
    }
  }

  /** Nobody gains weight: what is later stays later, and new arrivals are other calls. */
  lemma OthersKeepWeight(clearsTail: bool, s: State, n: nat, u: nat, k: nat)
    requires Inv(clearsTail, s) && Enabled(s, u) && k < |s.threads| && k != u
    ensures var s' := Step(clearsTail, s, u);
            s'.threads[k] == s.threads[k]
                && Weight(s'.arrivals, n)(s'.threads[k]) <= Weight(s.arrivals, n)(s.threads[k])
  {
    var s' := Step(clearsTail, s, u);
    assert s.arrivals <= s'.arrivals;
    forall m | Later(s.arrivals, n, m)
      ensures Later(s'.arrivals, n, m)
    {
      var i, j :| 0 <= i < j < |s.arrivals| && s.arrivals[i] == n && s.arrivals[j] == m;
      assert s'.arrivals[i] == n && s'.arrivals[j] == m;
    }
  }

  lemma MoverLosesWeight(clearsTail: bool, s: State, t: nat, n: nat, u: nat)
    requires Inv(clearsTail, s) && InLine(s, t, n) && Enabled(s, u)
    ensures var s' := Step(clearsTail, s, u);
            Weight(s'.arrivals, n)(s'.threads[u]) < Weight(s.arrivals, n)(s.threads[u])
  {
    HeldWhileWaiting(clearsTail, s, t, n);
    if s.threads[u].Deciding? {
      NewcomerIsLater(clearsTail, s, t, n, u);
    } else if s.threads[u].Asleep? && Later(s.arrivals, n, s.threads[u].n) {
      TokenElsewhere(clearsTail, s, t, n, s.threads[u].n);
    }
    MoverWeighs(clearsTail, s, n, u);
  }

  /** With the mutex taken, a new arrival later than `n`, and nobody later than `n` woken, every step costs. */
  lemma MoverWeighs(clearsTail: bool, s: State, n: nat, u: nat)
    requires Shape(s) && Enabled(s, u) && s.locked == 1
    requires s.threads[u].Deciding? ==> Later(Step(clearsTail, s, u).arrivals, n, s.threads[u].n)
    requires s.threads[u].Asleep? ==> !Later(s.arrivals, n, s.threads[u].n)
    ensures var s' := Step(clearsTail, s, u);
            Weight(s'.arrivals, n)(s'.threads[u]) < Weight(s.arrivals, n)(s.threads[u])
  {
  }

  lemma NewcomerIsLater(clearsTail: bool, s: State, t: nat, n: nat, u: nat)
    requires Shape(s) && InLine(s, t, n) && Enabled(s, u) && s.threads[u].Deciding? && s.locked == 1
    ensures var s' := Step(clearsTail, s, u); s'.threads[u].Queued? && Later(s'.arrivals, n, s'.threads[u].n)
  {
    var s' := Step(clearsTail, s, u);
    var i :| 0 <= i < |s.arrivals| && s.arrivals[i] == n;
    assert s'.arrivals[i] == n && s'.arrivals[|s.arrivals|] == s.threads[u].n;
  }

  ghost function Ahead(s: State, n: nat): int {
    Sum(s.threads, Weight(s.arrivals, n))
  }

  lemma WaitingCosts(clearsTail: bool, s: State, t: nat, n: nat, u: nat)
    requires Inv(clearsTail, s) && InLine(s, t, n) && Enabled(s, u)
    ensures var s' := Step(clearsTail, s, u);
            && (s'.threads[t].Owner? || InLine(s', t, n))
            && Ahead(s', n) < Ahead(s, n)
  {
    var s' := Step(clearsTail, s, u);
    StepShape(clearsTail, s, u);
    StaysInLine(clearsTail, s, t, n, u);
    MoverLosesWeight(clearsTail, s, t, n, u);
    forall k | 0 <= k < |s.threads| && k != u
      ensures Weight(s'.arrivals, n)(s'.threads[k]) <= Weight(s.arrivals, n)(s.threads[k])
    {
      OthersKeepWeight(clearsTail, s, n, u, k);
    }
    SumFalls(s.threads, Weight(s.arrivals, n), s'.threads, Weight(s'.arrivals, n), u);
  }

  // ----- every schedule serves a call in line

  /** Somewhere along the run thread `t` has come to own the mutex. */
  ghost predicate GetsMutex(clearsTail: bool, s: State, sched: seq<nat>, t: nat)
    requires Shape(s) && Runs(clearsTail, s, sched) && t < |s.threads|
    decreases |sched|
  {
    || s.threads[t].Owner?
    || (sched != [] &&
        (StepShape(clearsTail, s, sched[0]); GetsMutex(clearsTail, Step(clearsTail, s, sched[0]), sched[1..], t)))
  }

  lemma {:induction false} ServedAlong(clearsTail: bool, s: State, sched: seq<nat>, t: nat, n: nat)
    requires Inv(clearsTail, s) && InLine(s, t, n) && Runs(clearsTail, s, sched)
    ensures |sched| <= Ahead(s, n) || GetsMutex(clearsTail, s, sched, t)
    ensures GetsMutex(clearsTail, s, sched, t) || exists u :: Enabled(After(clearsTail, s, sched), u)
    decreases |sched|
  {
    if sched == [] {
      SumAtLeast(s.threads, Weight(s.arrivals, n));
      HeldWhileWaiting(clearsTail, s, t, n);
      var u := Mover(clearsTail, s);
      assert Enabled(After(clearsTail, s, sched), u);
    } else {
      var s1 := OneStep(clearsTail, s, sched, t, n);
      if !s1.threads[t].Owner? {
        ServedAlong(clearsTail, s1, sched[1..], t, n);
      }
    }
  }

  /** The first step of a run, seen from outside. */
  lemma OneStep(clearsTail: bool, s: State, sched: seq<nat>, t: nat, n: nat) returns (s1: State)
    requires Inv(clearsTail, s) && InLine(s, t, n) && Runs(clearsTail, s, sched) && sched != []
    ensures Inv(clearsTail, s1) && |s1.threads| == |s.threads| && Runs(clearsTail, s1, sched[1..])
    ensures After(clearsTail, s, sched) == After(clearsTail, s1, sched[1..])
    ensures GetsMutex(clearsTail, s, sched, t) <== GetsMutex(clearsTail, s1, sched[1..], t)
    ensures (s1.threads[t].Owner? || InLine(s1, t, n)) && Ahead(s1, n) < Ahead(s, n)
  {
    s1 := Step(clearsTail, s, sched[0]);
    StepShape(clearsTail, s, sched[0]);
    WaitingCosts(clearsTail, s, t, n, sched[0]);
    StepKeepsInv(clearsTail, s, sched[0]);
  }

  lemma Mover(clearsTail: bool, s: State) returns (t: nat)
    requires Inv(clearsTail, s) && s.locked == 1
    ensures Enabled(s, t) && !s.threads[t].Idle?
  {
    if Sum(s.nodes, Sem) > 0 {
      var n := SumWitness(s.nodes, Sem);
      assert NodeInv(s, n);
      t := s.nodes[n].waiter;
    } else {
      t := SumWitness(s.threads, Has);
      if !Enabled(s, t) {
        t := SumWitness(s.threads, InGuard);
      }
    }
  }

  /**
    Thread `t` is served under every schedule: it gets the mutex within 11 steps per thread, and until
    it does somebody can move.
   */
  ghost predicate ServedWithin(clearsTail: bool, s: State, t: nat)
    requires Shape(s) && t < |s.threads|
  {
    forall sched | Runs(clearsTail, s, sched) ::
      || GetsMutex(clearsTail, s, sched, t)
      || (|sched| <= 11 * |s.threads| && exists u :: Enabled(After(clearsTail, s, sched), u))
  }

  /** Bounded waiting: whoever is in line is served within 11 steps per thread, whatever the schedule. */
  lemma InLineIsServed(clearsTail: bool, s: State, t: nat, n: nat)
    requires Inv(clearsTail, s) && InLine(s, t, n)
    ensures ServedWithin(clearsTail, s, t)
  {
    SumBound(s.threads, Weight(s.arrivals, n), 11);
    forall sched | Runs(clearsTail, s, sched)
      ensures || GetsMutex(clearsTail, s, sched, t)
              || (|sched| <= 11 * |s.threads| && exists u :: Enabled(After(clearsTail, s, sched), u))
    {
      ServedAlong(clearsTail, s, sched, t, n);
    }
  }

  /** In particular every waiter in the list of any reachable state. */
  lemma QueuedIsServed(clearsTail: bool, s: State, k: nat)
    requires Inv(clearsTail, s) && k < |s.queue|
    ensures s.queue[k] < |s.nodes| && s.nodes[s.queue[k]].waiter < |s.threads|
    ensures ServedWithin(clearsTail, s, s.nodes[s.queue[k]].waiter)
  {
    var n := s.queue[k];
    assert Waits(s, s.nodes[n].waiter, n);
    assert s.arrivals[|s.grants| + k] == n;
    InLineIsServed(clearsTail, s, s.nodes[n].waiter, n);
  }

  // ----- exactly which calls are lost

  ghost predicate WaitsForEver(clearsTail: bool, s: State, t: nat, n: nat)
    requires Shape(s)
  {
    forall sched | Runs(clearsTail, s, sched) :: Waits(After(clearsTail, s, sched), t, n)
  }

  lemma JoinDrained(clearsTail: bool, s: State, t: nat)
    requires Inv(clearsTail, s) && Drained(s) && Enabled(s, t) && s.threads[t].Deciding? && s.locked != 0
    ensures Stranded(Step(clearsTail, s, t), t, s.threads[t].n)
  {
    var n := s.threads[t].n;
    assert ThreadInv(s, t);
    forall u | 0 <= u < |s.threads|
      ensures s.threads[u] != HandingOff(n)
    {
      assert ThreadInv(s, u);
    }
  }

  lemma JoinQueue(clearsTail: bool, s: State, t: nat)
    requires Inv(clearsTail, s) && !Drained(s) && Enabled(s, t) && s.threads[t].Deciding? && s.locked != 0
    ensures var s' := Step(clearsTail, s, t); s'.queue != [] && s'.queue[|s'.queue| - 1] == s.threads[t].n
  {
  }

  lemma RunsCons(clearsTail: bool, s: State, t: nat, rest: seq<nat>)
    requires Shape(s) && Enabled(s, t)
    requires Shape(Step(clearsTail, s, t)) && Runs(clearsTail, Step(clearsTail, s, t), rest)
    ensures Runs(clearsTail, s, [t] + rest)
    ensures After(clearsTail, s, [t] + rest) == After(clearsTail, Step(clearsTail, s, t), rest)
  {
    assert ([t] + rest)[1..] == rest;
  }

  lemma {:induction false} NeverServed(clearsTail: bool, s: State, sched: seq<nat>, t: nat, n: nat)
    requires Shape(s) && Runs(clearsTail, s, sched) && Stranded(s, t, n)
    ensures !GetsMutex(clearsTail, s, sched, t)
    decreases |sched|
  {
    if sched != [] {
      StepShape(clearsTail, s, sched[0]);
      StepKeepsStranded(clearsTail, s, sched[0], t, n);
      NeverServed(clearsTail, Step(clearsTail, s, sched[0]), sched[1..], t, n);
    }
  }

  /** While `t` is not served but would be within a bound, the run can be made one step longer. */
  lemma {:induction false} Prolong(clearsTail: bool, s: State, t: nat, k: nat) returns (sched: seq<nat>)
    requires Shape(s) && t < |s.threads| && ServedWithin(clearsTail, s, t)
    ensures Runs(clearsTail, s, sched) && (GetsMutex(clearsTail, s, sched, t) || |sched| == k)
    decreases k
  {
    sched := [];
    if k > 0 {
      sched := Prolong(clearsTail, s, t, k - 1);
      if !GetsMutex(clearsTail, s, sched, t) {
        var u :| Enabled(After(clearsTail, s, sched), u);
        OneMore(clearsTail, s, sched, u);
        sched := sched + [u];
      }
    }
  }

  lemma OneMore(clearsTail: bool, s: State, sched: seq<nat>, u: nat)
    requires Shape(s) && Runs(clearsTail, s, sched) && Enabled(After(clearsTail, s, sched), u)
    ensures Runs(clearsTail, s, sched + [u])
  {
    var r := After(clearsTail, s, sched);
    StepShape(clearsTail, r, u);
    RunsCons(clearsTail, r, u, []);
    assert [u] + [] == [u];
    RunsConcat(clearsTail, s, sched, [u]);
  }

  /** Served within the bound and lost exclude each other. */
  lemma ServedIsNotLost(clearsTail: bool, s: State, t: nat, n: nat)
    requires Shape(s) && t < |s.threads| && ServedWithin(clearsTail, s, t)
    ensures !Stranded(s, t, n)
  {
    if Stranded(s, t, n) {
      var sched := Prolong(clearsTail, s, t, 11 * |s.threads| + 1);
      NeverServed(clearsTail, s, sched, t, n);
    }
  }

  lemma {:induction false} ServedStopsWaiting(clearsTail: bool, s: State, sched: seq<nat>, t: nat, n: nat)
    requires Shape(s) && Runs(clearsTail, s, sched) && t < |s.threads| && GetsMutex(clearsTail, s, sched, t)
    ensures exists k :: && 0 <= k <= |sched| && Runs(clearsTail, s, sched[..k])
                        && !Waits(After(clearsTail, s, sched[..k]), t, n)
    decreases |sched|
  {
    if s.threads[t].Owner? {
      assert sched[..0] == [];
      assert Runs(clearsTail, s, sched[..0]);
    } else {
      StepShape(clearsTail, s, sched[0]);
      var s1 := Step(clearsTail, s, sched[0]);
      ServedStopsWaiting(clearsTail, s1, sched[1..], t, n);
      var k :| 0 <= k <= |sched| - 1 && Runs(clearsTail, s1, sched[1..][..k])
          && !Waits(After(clearsTail, s1, sched[1..][..k]), t, n);
      RunsCons(clearsTail, s, sched[0], sched[1..][..k]);
      assert [sched[0]] + sched[1..][..k] == sched[..k + 1];
    }
  }

  /**
    A call that finds the mutex locked in a reachable state is served within 11 steps per thread under
    every schedule, if and only if the queue has not drained before with `tail` left behind; if it
    has, the call waits for ever whatever happens. With a release that clears `tail` everybody is
    served.
   */
  lemma ServedExactlyUnlessDrained(clearsTail: bool, numThreads: nat, sched: seq<nat>, t: nat)
    requires Runs(clearsTail, Start(numThreads), sched)
    requires var s := After(clearsTail, Start(numThreads), sched);
             t < numThreads && s.threads[t].Deciding? && s.locked != 0
    ensures var s := After(clearsTail, Start(numThreads), sched);
            && Shape(Step(clearsTail, s, t)) && |Step(clearsTail, s, t).threads| == numThreads
            && (ServedWithin(clearsTail, Step(clearsTail, s, t), t) <==> !Drained(s))
            && (WaitsForEver(clearsTail, Step(clearsTail, s, t), t, s.threads[t].n) <==> Drained(s))
            && (clearsTail ==> !Drained(s))
  {
    var s := After(clearsTail, Start(numThreads), sched);
    StartInv(clearsTail, numThreads);
    RunKeepsInv(clearsTail, Start(numThreads), sched);
    StepShape(clearsTail, s, t);
    if Drained(s) {
      LostInState(clearsTail, s, t);
    } else {
      ServedInState(clearsTail, s, t);
    }
  }

  lemma LostInState(clearsTail: bool, s: State, t: nat)
    requires Inv(clearsTail, s) && t < |s.threads| && s.threads[t].Deciding? && s.locked != 0 && Drained(s)
    ensures Shape(Step(clearsTail, s, t)) && |Step(clearsTail, s, t).threads| == |s.threads|
    ensures WaitsForEver(clearsTail, Step(clearsTail, s, t), t, s.threads[t].n)
    ensures !ServedWithin(clearsTail, Step(clearsTail, s, t), t)
  {
    var n := s.threads[t].n;
    StepShape(clearsTail, s, t);
    var s1 := Step(clearsTail, s, t);
    JoinDrained(clearsTail, s, t);
    forall more | Runs(clearsTail, s1, more)
      ensures Waits(After(clearsTail, s1, more), t, n)
    {
      StrandedForEver(clearsTail, s1, more, t, n);
    }
    if ServedWithin(clearsTail, s1, t) {
      ServedIsNotLost(clearsTail, s1, t, n);
    }
  }

  lemma ServedInState(clearsTail: bool, s: State, t: nat)
    requires Inv(clearsTail, s) && t < |s.threads| && s.threads[t].Deciding? && s.locked != 0 && !Drained(s)
    ensures Shape(Step(clearsTail, s, t)) && |Step(clearsTail, s, t).threads| == |s.threads|
    ensures ServedWithin(clearsTail, Step(clearsTail, s, t), t)
    ensures !WaitsForEver(clearsTail, Step(clearsTail, s, t), t, s.threads[t].n)
  {
    var s1 := JoinsLine(clearsTail, s, t);
    InLineIsServed(clearsTail, s1, t, s.threads[t].n);
    ServedDoesNotWait(clearsTail, s1, t, s.threads[t].n);
  }

  lemma JoinsLine(clearsTail: bool, s: State, t: nat) returns (s1: State)
    requires Inv(clearsTail, s) && t < |s.threads| && s.threads[t].Deciding? && s.locked != 0 && !Drained(s)
    ensures s1 == Step(clearsTail, s, t) && |s1.threads| == |s.threads|
    ensures Inv(clearsTail, s1) && InLine(s1, t, s.threads[t].n)
  {
    s1 := Step(clearsTail, s, t);
    StepShape(clearsTail, s, t);
    StepKeepsInv(clearsTail, s, t);
    JoinQueue(clearsTail, s, t);
    assert ThreadInv(s1, t);
    assert s1.arrivals[|s.arrivals|] == s.threads[t].n;
  }

  lemma ServedDoesNotWait(clearsTail: bool, s: State, t: nat, n: nat)
    requires Shape(s) && t < |s.threads| && ServedWithin(clearsTail, s, t)
    ensures !WaitsForEver(clearsTail, s, t, n)
  {
    var more := Prolong(clearsTail, s, t, 11 * |s.threads| + 1);
    ServedStopsWaiting(clearsTail, s, more, t, n);
    var k :| 0 <= k <= |more| && Runs(clearsTail, s, more[..k]) && !Waits(After(clearsTail, s, more[..k]), t, n);
  }

  /** After the first drain of the shown code, every later call that finds the mutex locked is lost. */
  lemma AllLaterCallsLost(clearsTail: bool, numThreads: nat, prefix: seq<nat>, more: seq<nat>, t: nat)
    requires Runs(clearsTail, Start(numThreads), prefix)
    requires Drained(After(clearsTail, Start(numThreads), prefix))
    requires Runs(clearsTail, After(clearsTail, Start(numThreads), prefix), more)
    requires var s := After(clearsTail, After(clearsTail, Start(numThreads), prefix), more);
             t < numThreads && s.threads[t].Deciding? && s.locked != 0
    ensures var s := After(clearsTail, After(clearsTail, Start(numThreads), prefix), more);
            && s.head.Null?
            && Shape(Step(clearsTail, s, t))
            && WaitsForEver(clearsTail, Step(clearsTail, s, t), t, s.threads[t].n)
  {
    var s := After(clearsTail, Start(numThreads), prefix);
    StartInv(clearsTail, numThreads);
    RunKeepsInv(clearsTail, Start(numThreads), prefix);
    RunKeepsInv(clearsTail, s, more);
    DrainedForEver(clearsTail, s, more);
    LostInState(clearsTail, After(clearsTail, s, more), t);
  }

  lemma {:induction false} RunsConcat(clearsTail: bool, s: State, p: seq<nat>, q: seq<nat>)
    requires Shape(s) && Runs(clearsTail, s, p) && Runs(clearsTail, After(clearsTail, s, p), q)
    ensures Runs(clearsTail, s, p + q)
    ensures After(clearsTail, s, p + q) == After(clearsTail, After(clearsTail, s, p), q)
    decreases |p|
  {
    if p == [] {
      assert p + q == q;
    } else {
      StepShape(clearsTail, s, p[0]);
      RunsConcat(clearsTail, Step(clearsTail, s, p[0]), p[1..], q);
      RunsCons(clearsTail, s, p[0], p[1..] + q);
      assert p + q == [p[0]] + (p[1..] + q);
    }
  }

  // The states of a run of three threads that loses the third one.

  const START_3 := State(0, Null, Null, 1, [], [Idle, Idle, Idle], [], [], [])

  const TAKEN_BY_0 := State(1, Null, Null, 1, [Node(0, Null, 0)], [Owner, Idle, Idle], [0], [0], [])

  const QUEUED_1 := State(1, To(1), To(1), 1, [Node(0, Null, 0), Node(0, Null, 1)], [Owner, Asleep(1), Idle], [0, 1],
      [0], [1])

  const DRAINED := State(1, Null, To(1), 1, [Node(0, Null, 0), Node(1, Null, 1)], [Idle, Asleep(1), Idle], [0, 1],
      [0, 1], [])

  const ARRIVED_2 :=
    State(1, Null, To(1), 0, [Node(0, Null, 0), Node(0, Null, 1), Node(0, Null, 2)], [Idle, Owner, Deciding(2)],
        [0, 1], [0, 1], [])

  ghost predicate Leads(s: State, sched: seq<nat>, r: State) {
    Shape(s) && Runs(false, s, sched) && After(false, s, sched) == r
  }

  lemma LeadsConcat(s: State, p: seq<nat>, m: State, q: seq<nat>, r: State)
    requires Leads(s, p, m) && Leads(m, q, r)
    ensures Leads(s, p + q, r)
  {
    RunsConcat(false, s, p, q);
  }

  lemma StartOfThree()
    ensures Start(3) == START_3
  {
    assert Start(3).threads == [Idle, Idle, Idle];
  }

  lemma FirstTakes()
    ensures Leads(START_3, [0, 0, 0, 0], TAKEN_BY_0)
  {
  }

  lemma SecondQueues()
    ensures Leads(TAKEN_BY_0, [1, 1, 1, 1], QUEUED_1)
  {
  }

  lemma FirstHandsOver()
    ensures Leads(QUEUED_1, [0, 0, 0, 0, 0], DRAINED)
  {
  }

  lemma ThirdArrives()
    ensures Leads(DRAINED, [1, 2, 2], ARRIVED_2)
  {
  }

  /** The shown release does lose a waiter: with three threads, the third waits for ever. */
  lemma ShownReleaseLosesWaiter() returns (sched: seq<nat>)
    ensures Leads(Start(3), sched, ARRIVED_2) && Drained(ARRIVED_2) && Enabled(ARRIVED_2, 2)
    ensures Shape(Step(false, ARRIVED_2, 2)) && WaitsForEver(false, Step(false, ARRIVED_2, 2), 2, 2)
  {
    StartOfThree();
    FirstTakes();
    SecondQueues();
    FirstHandsOver();
    ThirdArrives();
    LeadsConcat(QUEUED_1, [0, 0, 0, 0, 0], DRAINED, [1, 2, 2], ARRIVED_2);
    LeadsConcat(TAKEN_BY_0, [1, 1, 1, 1], QUEUED_1, [0, 0, 0, 0, 0] + [1, 2, 2], ARRIVED_2);
    sched := [0, 0, 0, 0] + ([1, 1, 1, 1] + ([0, 0, 0, 0, 0] + [1, 2, 2]));
    LeadsConcat(Start(3), [0, 0, 0, 0], TAKEN_BY_0, [1, 1, 1, 1] + ([0, 0, 0, 0, 0] + [1, 2, 2]), ARRIVED_2);
    ServedExactlyUnlessDrained(false, 3, sched, 2);
  }
}
