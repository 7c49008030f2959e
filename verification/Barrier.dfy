/**
  The one-shot barrier: `n` threads count themselves in under `mutex`; the thread that brings the
  count to `n` posts the semaphore `barrier` once for every thread, itself included.

  One step is one semaphore operation or one access to the shared counter.
 */
module Barrier {
  import opened Sums

  /** Program counter of a thread; `last` is its local variable of that name. */
  datatype Thread =
    | Arrive                 // about to wait on mutex
    | Count                  // about to increment arrived
    | Compare                // about to compare arrived with total
    | Leave(last: bool)      // about to post mutex
    | Open(i: nat)           // in the posting loop, i posts done
    | Pass(last: bool)       // about to wait on barrier
    | Returned(last: bool)

  datatype State = State(arrived: int, mutex: int, barrier: int, threads: seq<Thread>)

  /** `barrier_init` followed by the creation of `n` threads. */
  function Start(n: nat): State {
    State(0, 1, 0, seq(n, i => Arrive))
  }

  predicate Enabled(s: State, t: nat) {
    && t < |s.threads|
    && match s.threads[t]
       case Arrive => s.mutex > 0
       case Pass(_) => s.barrier > 0
       case Returned(_) => false
       case _ => true
  }

  function Step(n: nat, s: State, t: nat): State
    requires Enabled(s, t)
  {
    match s.threads[t]
    case Arrive => s.(mutex := s.mutex - 1, threads := s.threads[t := Count])
    case Count => s.(arrived := s.arrived + 1, threads := s.threads[t := Compare])
    case Compare => s.(threads := s.threads[t := Leave(s.arrived == n)])
    case Leave(last) =>
      s.(mutex := s.mutex + 1,
         threads := s.threads[t := if last && n > 0 then Open(0) else Pass(last)])
    case Open(i) =>
      s.(barrier := s.barrier + 1,
         threads := s.threads[t := if i + 1 < n then Open(i + 1) else Pass(true)])
    case Pass(last) => s.(barrier := s.barrier - 1, threads := s.threads[t := Returned(last)])
  }

  predicate Runs(n: nat, s: State, sched: seq<nat>)
    decreases |sched|
  {
    sched == [] || (Enabled(s, sched[0]) && Runs(n, Step(n, s, sched[0]), sched[1..]))
  }

  function After(n: nat, s: State, sched: seq<nat>): (r: State)
    requires Runs(n, s, sched)
    ensures |r.threads| == |s.threads|
    decreases |sched|
  {
    if sched == [] then s else After(n, Step(n, s, sched[0]), sched[1..])
  }

  // ----- weights

  function Inside(t: Thread): int {
    if t.Count? || t.Compare? || t.Leave? then 1 else 0
  }

  function Counted(t: Thread): int {
    if t.Arrive? || t.Count? then 0 else 1
  }

  function Comparing(t: Thread): int {
    if t.Compare? then 1 else 0
  }

  /** The threads whose local `last` was set. */
  function SawLast(t: Thread): int {
    match t
    case Leave(last) => if last then 1 else 0
    case Pass(last) => if last then 1 else 0
    case Returned(last) => if last then 1 else 0
    case Open(_) => 1
    case _ => 0
  }

  function Out(t: Thread): int {
    if t.Returned? then 1 else 0
  }

  function ToPost(n: nat): Thread -> int {
    (t: Thread) => match t
      case Leave(last) => if last then n else 0
      case Open(i) => if i < n then n - i else 0
      case _ => 0
  }

  /** Steps a thread still has to take, not counting posts. */
  function ToGo(t: Thread): int {
    match t
    case Arrive => 5
    case Count => 4
    case Compare => 3
    case Leave(_) => 2
    case Open(_) => 1
    case Pass(_) => 1
    case Returned(_) => 0
  }

  ghost predicate Inv(n: nat, s: State) {
    && |s.threads| == n
    && s.mutex >= 0 && s.barrier >= 0
    && s.mutex + Sum(s.threads, Inside) == 1
    && s.arrived == Sum(s.threads, Counted)
    && Sum(s.threads, SawLast) == (if n > 0 && s.arrived == n && Sum(s.threads, Comparing) == 0 then 1 else 0)
    && s.barrier + Sum(s.threads, Out) + Sum(s.threads, ToPost(n)) == n * Sum(s.threads, SawLast)
    && (forall t | 0 <= t < n && s.threads[t].Open? :: s.threads[t].i < n)
  }

  lemma StartInv(n: nat)
    ensures Inv(n, Start(n))
  {
    var ts := Start(n).threads;
    SumConstant(ts, Inside, 0);
    SumConstant(ts, Counted, 0);
    SumConstant(ts, Comparing, 0);
    SumConstant(ts, SawLast, 0);
    SumConstant(ts, Out, 0);
    SumConstant(ts, ToPost(n), 0);
  }

  lemma SectionFacts(n: nat, s: State, t: nat)
    requires Inv(n, s) && t < n
    ensures Sum(s.threads, Counted) <= n
    ensures Counted(s.threads[t]) == 0 ==> Sum(s.threads, Counted) < n
    ensures Inside(s.threads[t]) == 1 ==> Sum(s.threads, Comparing) == Comparing(s.threads[t])
    ensures Sum(s.threads, Comparing) >= 0 && Sum(s.threads, SawLast) >= SawLast(s.threads[t])
  {
    SumBound(s.threads, Counted, 1);
    SumAtLeast(s.threads, Comparing);
    SumAtLeast(s.threads, SawLast);
    SumUpdate(s.threads, t, Compare, Counted);
    SumBound(s.threads[t := Compare], Counted, 1);
    if Inside(s.threads[t]) == 1 && Sum(s.threads, Comparing) != Comparing(s.threads[t]) {
      SumUpdate(s.threads, t, Arrive, Comparing);
      var u := SumWitness(s.threads[t := Arrive], Comparing);
      SumTwo(s.threads, t, u, Inside);
    }
  }

  lemma StepKeepsInv(n: nat, s: State, t: nat)
    requires Inv(n, s) && Enabled(s, t)
    ensures Inv(n, Step(n, s, t))
  {
    var x := Step(n, s, t).threads[t];
    SectionFacts(n, s, t);
    SumUpdate(s.threads, t, x, Inside);
    SumUpdate(s.threads, t, x, Counted);
    SumUpdate(s.threads, t, x, Comparing);
    SumUpdate(s.threads, t, x, SawLast);
    SumUpdate(s.threads, t, x, Out);
    SumUpdate(s.threads, t, x, ToPost(n));
    assert Step(n, s, t).threads == s.threads[t := x];
  }

  /** The number of steps still to come: it falls by exactly one per step. */
  ghost function Potential(n: nat, s: State): int {
    Sum(s.threads, ToGo) + Sum(s.threads, ToPost(n)) + n * (1 - Sum(s.threads, SawLast))
  }

  lemma StepCosts(n: nat, s: State, t: nat)
    requires Inv(n, s) && Enabled(s, t)
    ensures Potential(n, Step(n, s, t)) == Potential(n, s) - 1
  {
    var x := Step(n, s, t).threads[t];
    SumUpdate(s.threads, t, x, SawLast);
    SumUpdate(s.threads, t, x, ToPost(n));
    SumUpdate(s.threads, t, x, ToGo);
    if s.threads[t].Compare? && s.arrived == n {
      assert n * (1 - (Sum(s.threads, SawLast) + 1)) == n * (1 - Sum(s.threads, SawLast)) - n;
    }
  }

  lemma {:induction false} RunFrom(n: nat, s: State, sched: seq<nat>)
    requires Inv(n, s) && Runs(n, s, sched)
    ensures Inv(n, After(n, s, sched))
    ensures Potential(n, After(n, s, sched)) == Potential(n, s) - |sched|
    decreases |sched|
  {
    if sched != [] {
      StepKeepsInv(n, s, sched[0]);
      StepCosts(n, s, sched[0]);
      RunFrom(n, Step(n, s, sched[0]), sched[1..]);
    }
  }

  ghost predicate AllArrived(s: State) {
    forall t | 0 <= t < |s.threads| :: Counted(s.threads[t]) == 1
  }

  ghost predicate AllReturned(s: State) {
    forall t | 0 <= t < |s.threads| :: s.threads[t].Returned?
  }

  /** In every run nobody returns from the barrier before everybody has arrived at it. */
  lemma NobodyPassesEarly(n: nat, sched: seq<nat>, t: nat)
    requires Runs(n, Start(n), sched) && t < n
    requires After(n, Start(n), sched).threads[t].Returned?
    ensures AllArrived(After(n, Start(n), sched))
  {
    var s := After(n, Start(n), sched);
    StartInv(n);
    RunFrom(n, Start(n), sched);
    SumAtLeast(s.threads, Out);
    SumAtLeast(s.threads, ToPost(n));
    assert Sum(s.threads, SawLast) == 1;
    forall u | 0 <= u < n
      ensures Counted(s.threads[u]) == 1
    {
      SectionFacts(n, s, u);
    }
  }

  /**
    From the moment the last arrival has been noticed there is exactly one thread that noticed it,
    and the posts it has yet to make, the semaphore's value and the threads already out add up to n.
   */
  lemma PostsAccountedFor(n: nat, sched: seq<nat>)
    requires n > 0 && Runs(n, Start(n), sched)
    ensures var s := After(n, Start(n), sched);
            var noticed := s.arrived == n && Sum(s.threads, Comparing) == 0;
            && Sum(s.threads, SawLast) == (if noticed then 1 else 0)
            && s.barrier + Sum(s.threads, Out) + Sum(s.threads, ToPost(n)) == (if noticed then n else 0)
            && s.barrier >= 0
  {
    StartInv(n);
    RunFrom(n, Start(n), sched);
  }

  lemma Unstuck(n: nat, s: State) returns (t: nat)
    requires Inv(n, s) && !AllReturned(s)
    ensures Enabled(s, t)
  {
    if s.mutex == 0 {
      t := SumWitness(s.threads, Inside);
    } else if u :| 0 <= u < n && s.threads[u].Arrive? {
      t := u;
    } else {
      SumAtLeast(s.threads, Inside);
      assert forall u | 0 <= u < n :: Inside(s.threads[u]) == 0;
      SumConstant(s.threads, Counted, 1);
      SumConstant(s.threads, Comparing, 0);
      assert Sum(s.threads, SawLast) == 1;
      if Sum(s.threads, ToPost(n)) > 0 {
        t := SumWitness(s.threads, ToPost(n));
      } else {
        var u :| 0 <= u < n && !s.threads[u].Returned?;
        SumUpdate(s.threads, u, Returned(false), Out);
        SumBound(s.threads[u := Returned(false)], Out, 1);
        SumAtLeast(s.threads, ToPost(n));
        assert s.threads[u].Open? ==> ToPost(n)(s.threads[u]) > 0;
        t := u;
      }
    }
  }

  lemma StartPotential(n: nat)
    ensures Potential(n, Start(n)) == 6 * n
  {
    SumConstant(Start(n).threads, ToGo, 5);
    SumConstant(Start(n).threads, ToPost(n), 0);
    SumConstant(Start(n).threads, SawLast, 0);
  }

  lemma PotentialWhileRunning(n: nat, s: State)
    requires Inv(n, s) && !AllReturned(s)
    ensures Potential(n, s) > 0
  {
    SumAtLeast(s.threads, ToGo);
    SumAtLeast(s.threads, ToPost(n));
    var u :| 0 <= u < n && !s.threads[u].Returned?;
    assert ToGo(s.threads[u]) >= 1;
    assert 0 <= n * (1 - Sum(s.threads, SawLast));
  }

  lemma WhenAllReturned(n: nat, s: State)
    requires Inv(n, s) && AllReturned(s)
    ensures Potential(n, s) == 0
    ensures n > 0 ==> s.barrier == 0 && s.arrived == n
    ensures s.mutex == 1
  {
    SumConstant(s.threads, ToGo, 0);
    SumConstant(s.threads, ToPost(n), 0);
    SumConstant(s.threads, Inside, 0);
    SumConstant(s.threads, Counted, 1);
    SumConstant(s.threads, Comparing, 0);
    SumConstant(s.threads, Out, 1);
  }

  /**
    Every run can be extended until all threads are out, and it is at its end exactly after
    6n steps; the semaphore `barrier` is then back at 0 and `mutex` at 1.
   */
  lemma BarrierCompletes(n: nat, sched: seq<nat>)
    requires Runs(n, Start(n), sched)
    ensures |sched| <= 6 * n
    ensures var s := After(n, Start(n), sched);
            && (AllReturned(s) <==> |sched| == 6 * n)
            && (AllReturned(s) <==> forall t :: !Enabled(s, t))
            && (AllReturned(s) ==> s.mutex == 1)
            && (AllReturned(s) && n > 0 ==> s.barrier == 0 && s.arrived == n)
  {
    var s := After(n, Start(n), sched);
    StartInv(n);
    RunFrom(n, Start(n), sched);
    StartPotential(n);
    if AllReturned(s) {
      WhenAllReturned(n, s);
    } else {
      PotentialWhileRunning(n, s);
      var t := Unstuck(n, s);
    }
  }
}
