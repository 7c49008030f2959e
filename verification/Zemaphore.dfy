/** The counting semaphore the other protocols are written against: waiting and posting are atomic. */
module AtomicSemaphore {

  datatype Op = Wait | Post

  /** Where a thread is with its current call, if it has one. */
  datatype Call = Quiet | Waiting | Posting | Waited | Posted

  datatype State = State(value: int, calls: seq<Call>)

  datatype Action =
    | Invoke(t: nat, op: Op)
    | Take(t: nat)     // the wait takes effect
    | Give(t: nat)     // the post takes effect
    | Return(t: nat)

  predicate Enabled(s: State, a: Action) {
    && a.t < |s.calls|
    && match a
       case Invoke(t, _) => s.calls[t].Quiet?
       case Take(t) => s.calls[t].Waiting? && s.value > 0
       case Give(t) => s.calls[t].Posting?
       case Return(t) => s.calls[t].Waited? || s.calls[t].Posted?
  }

  function Step(s: State, a: Action): State
    requires Enabled(s, a)
  {
    match a
    case Invoke(t, op) => s.(calls := s.calls[t := if op.Wait? then Waiting else Posting])
    case Take(t) => State(s.value - 1, s.calls[t := Waited])
    case Give(t) => State(s.value + 1, s.calls[t := Posted])
    case Return(t) => s.(calls := s.calls[t := Quiet])
  }

  predicate Runs(s: State, acts: seq<Action>)
    decreases |acts|
  {
    acts == [] || (Enabled(s, acts[0]) && Runs(Step(s, acts[0]), acts[1..]))
  }

  function After(s: State, acts: seq<Action>): State
    requires Runs(s, acts)
    decreases |acts|
  {
    if acts == [] then s else After(Step(s, acts[0]), acts[1..])
  }

  function Takes(acts: seq<Action>): nat {
    if acts == [] then 0 else (if acts[0].Take? then 1 else 0) + Takes(acts[1..])
  }

  function Gives(acts: seq<Action>): nat {
    if acts == [] then 0 else (if acts[0].Give? then 1 else 0) + Gives(acts[1..])
  }

  /** Units are conserved, and waiting never drives the value below zero. */
  lemma {:induction false} Conservation(s: State, acts: seq<Action>)
    requires Runs(s, acts)
    ensures After(s, acts).value == s.value + Gives(acts) - Takes(acts)
    ensures After(s, acts).value >= if s.value < 0 then s.value else 0
    decreases |acts|
  {
    if acts != [] {
      Conservation(Step(s, acts[0]), acts[1..]);
    }
  }

  /** Nothing but a new call can happen: no waiter can be served, no post or return is pending. */
  ghost predicate Quiescent(s: State) {
    forall a: Action | Enabled(s, a) :: a.Invoke?
  }
}

/**
  The semaphore built from a mutex and a condition variable. A thread asleep on the condition
  variable is released by one signal, and at any other moment it may also wake up spuriously, as
  the description of pthread_cond_wait in POSIX.1-2017 allows. A woken thread competes for the
  mutex with every other thread.
 */
module Zemaphore {
  import opened Sums
  import Atomic = AtomicSemaphore

  /** One constructor per line of Zem_wait and Zem_post that can be interrupted. */
  datatype Thread =
    | Idle
    | WLock | WTest | WAsleep | WWoken | WTake | WUnlock
    | PLock | PGive | PSignal | PUnlock

  datatype Holder = Free | HeldBy(t: nat)

  datatype State = State(value: int, lock: Holder, threads: seq<Thread>)

  datatype Action =
    | Invoke(t: nat, op: Atomic.Op)
    | Go(t: nat)                    // the next instruction of t
    | Signal(t: nat, sleeper: nat)  // t's Cond_signal releases this sleeper
    | Spurious(t: nat)              // t wakes up without a signal

  /** Zem_init: any initial value, also a negative one, is stored as given. */
  function Start(n: nat, init: int): State {
    State(init, Free, seq(n, i => Idle))
  }

  ghost predicate SomeoneAsleep(s: State) {
    exists t :: 0 <= t < |s.threads| && s.threads[t].WAsleep?
  }

  ghost predicate Enabled(s: State, a: Action) {
    && a.t < |s.threads|
    && match a
       case Invoke(t, _) => s.threads[t].Idle?
       case Spurious(t) => s.threads[t].WAsleep?
       case Signal(t, w) => s.threads[t].PSignal? && w < |s.threads| && s.threads[w].WAsleep?
       case Go(t) =>
         match s.threads[t]
         case WLock => s.lock.Free?
         case WWoken => s.lock.Free?
         case PLock => s.lock.Free?
         case PSignal => !SomeoneAsleep(s)
         case Idle => false
         case WAsleep => false
         case _ => true
  }

  ghost function Step(s: State, a: Action): State
    requires Enabled(s, a)
  {
    match a
    case Invoke(t, op) => s.(threads := s.threads[t := if op.Wait? then WLock else PLock])
    case Spurious(t) => s.(threads := s.threads[t := WWoken])
    case Signal(t, w) => s.(threads := s.threads[t := PUnlock][w := WWoken])
    case Go(t) =>
      match s.threads[t]
      case WLock => s.(lock := HeldBy(t), threads := s.threads[t := WTest])
      case WWoken => s.(lock := HeldBy(t), threads := s.threads[t := WTest])
      case WTest =>
        if s.value <= 0
        then s.(lock := Free, threads := s.threads[t := WAsleep])
        else s.(threads := s.threads[t := WTake])
      case WTake => s.(value := s.value - 1, threads := s.threads[t := WUnlock])
      case WUnlock => s.(lock := Free, threads := s.threads[t := Idle])
      case PLock => s.(lock := HeldBy(t), threads := s.threads[t := PGive])
      case PGive => s.(value := s.value + 1, threads := s.threads[t := PSignal])
      case PSignal => s.(threads := s.threads[t := PUnlock])
      case PUnlock => s.(lock := Free, threads := s.threads[t := Idle])
  }

  ghost predicate Runs(s: State, acts: seq<Action>)
    decreases |acts|
  {
    acts == [] || (Enabled(s, acts[0]) && Runs(Step(s, acts[0]), acts[1..]))
  }

  ghost function After(s: State, acts: seq<Action>): State
    requires Runs(s, acts)
    decreases |acts|
  {
    if acts == [] then s else After(Step(s, acts[0]), acts[1..])
  }

  // ----- the invariant

  predicate Holds(t: Thread) {
    t in {WTest, WTake, WUnlock, PGive, PSignal, PUnlock}
  }

  function Woken(t: Thread): int {
    if t.WWoken? then 1 else 0
  }

  /** A unit of `value` the lock holder is about to deal with. */
  function Credit(s: State): int {
    if s.lock.HeldBy? && s.lock.t < |s.threads| && s.threads[s.lock.t] in {WTest, WTake, PSignal} then 1 else 0
  }

  ghost predicate Inv(s: State) {
    && (s.lock.HeldBy? ==> s.lock.t < |s.threads|)
    && (forall t | 0 <= t < |s.threads| :: Holds(s.threads[t]) <==> s.lock == HeldBy(t))
    && (forall t | 0 <= t < |s.threads| :: s.threads[t].WTake? ==> s.value > 0)
    && (SomeoneAsleep(s) ==> s.value <= Sum(s.threads, Woken) + Credit(s))
  }

  lemma SleepersAfter(s: State, t: nat, x: Thread)
    requires t < |s.threads| && !x.WAsleep?
    ensures SomeoneAsleep(s.(threads := s.threads[t := x])) ==> SomeoneAsleep(s)
  {
    var s' := s.(threads := s.threads[t := x]);
    if u :| 0 <= u < |s'.threads| && s'.threads[u].WAsleep? {
      assert s.threads[u].WAsleep?;
    }
  }

  lemma GoKeepsInv(s: State, t: nat)
    requires Inv(s) && Enabled(s, Go(t))
    ensures Inv(Step(s, Go(t)))
  {
    var s' := Step(s, Go(t));
    SumUpdate(s.threads, t, s'.threads[t], Woken);
    SumAtLeast(s.threads, Woken);
    SumAtLeast(s'.threads, Woken);
    if !s'.threads[t].WAsleep? {
      SleepersAfter(s, t, s'.threads[t]);
    }
  }

  lemma WakeKeepsInv(s: State, a: Action)
    requires Inv(s) && Enabled(s, a) && !a.Go?
    ensures Inv(Step(s, a))
  {
    if a.Signal? {
      SignalKeepsInv(s, a.t, a.sleeper);
    } else {
      var s' := Step(s, a);
      SumUpdate(s.threads, a.t, s'.threads[a.t], Woken);
      SleepersAfter(s, a.t, s'.threads[a.t]);
    }
  }

  lemma SignalKeepsInv(s: State, t: nat, w: nat)
    requires Inv(s) && Enabled(s, Signal(t, w))
    ensures Inv(Step(s, Signal(t, w)))
  {
    SumUpdate(s.threads, t, PUnlock, Woken);
    SumUpdate(s.threads[t := PUnlock], w, WWoken, Woken);
    assert SomeoneAsleep(s);
  }

  lemma StepKeepsInv(s: State, a: Action)
    requires Inv(s) && Enabled(s, a)
    ensures Inv(Step(s, a))
  {
    if a.Go? {
      GoKeepsInv(s, a.t);
    } else {
      WakeKeepsInv(s, a);
    }
  }

  lemma {:induction false} RunKeepsInv(s: State, acts: seq<Action>)
    requires Inv(s) && Runs(s, acts)
    ensures Inv(After(s, acts))
    decreases |acts|
  {
    if acts != [] {
      StepKeepsInv(s, acts[0]);
      RunKeepsInv(Step(s, acts[0]), acts[1..]);
    }
  }

  // ----- refinement

  function AbsCall(t: Thread): Atomic.Call {
    match t
    case Idle => Atomic.Quiet
    case WUnlock => Atomic.Waited
    case PSignal => Atomic.Posted
    case PUnlock => Atomic.Posted
    case PLock => Atomic.Posting
    case PGive => Atomic.Posting
    case _ => Atomic.Waiting
  }

  function Abs(s: State): Atomic.State {
    Atomic.State(s.value, seq(|s.threads|, i requires 0 <= i < |s.threads| => AbsCall(s.threads[i])))
  }

  /** What one step is to a client: the decrement, the increment, a call boundary, or nothing. */
  function AbsActions(s: State, a: Action): seq<Atomic.Action> {
    match a
    case Invoke(t, op) => [Atomic.Invoke(t, op)]
    case Go(t) =>
      if t >= |s.threads| then []
      else if s.threads[t].WTake? then [Atomic.Take(t)]
      else if s.threads[t].PGive? then [Atomic.Give(t)]
      else if s.threads[t].WUnlock? || s.threads[t].PUnlock? then [Atomic.Return(t)]
      else []
    case _ => []
  }

  ghost function AbsRun(s: State, acts: seq<Action>): seq<Atomic.Action>
    requires Runs(s, acts)
    decreases |acts|
  {
    if acts == [] then [] else AbsActions(s, acts[0]) + AbsRun(Step(s, acts[0]), acts[1..])
  }

  lemma StepRefines(s: State, a: Action)
    requires Inv(s) && Enabled(s, a)
    ensures var abs := AbsActions(s, a);
            && |abs| <= 1
            && (abs == [] ==> Abs(Step(s, a)) == Abs(s))
            && (abs != [] ==> Atomic.Enabled(Abs(s), abs[0]) && Abs(Step(s, a)) == Atomic.Step(Abs(s), abs[0]))
  {
    var s' := Step(s, a);
    var abs := AbsActions(s, a);
    if abs == [] {
      assert Abs(s').calls == Abs(s).calls;
    } else {
      assert Abs(s').calls == Atomic.Step(Abs(s), abs[0]).calls;
    }
  }

  /**
    Every run of the implementation, whatever the scheduling, the barging and the spurious wakeups,
    is a run of the atomic semaphore whose waits and posts take effect at the decrement and at the
    increment of `value`.
   */
  lemma {:induction false} RefinesAtomic(s: State, acts: seq<Action>)
    requires Inv(s) && Runs(s, acts)
    ensures Atomic.Runs(Abs(s), AbsRun(s, acts))
    ensures Atomic.After(Abs(s), AbsRun(s, acts)) == Abs(After(s, acts))
    decreases |acts|
  {
    if acts != [] {
      var s1 := Step(s, acts[0]);
      StepRefines(s, acts[0]);
      StepKeepsInv(s, acts[0]);
      RefinesAtomic(s1, acts[1..]);
      var abs := AbsActions(s, acts[0]);
      var rest := AbsRun(s1, acts[1..]);
      if abs == [] {
        assert abs + rest == rest;
      } else {
        assert (abs + rest)[0] == abs[0] && (abs + rest)[1..] == rest;
      }
    }
  }

  lemma StartInv(n: nat, init: int)
    ensures Inv(Start(n, init))
  {}

  /** The stored value is the initial one plus completed increments minus completed decrements. */
  lemma ValueAccounted(n: nat, init: int, acts: seq<Action>)
    requires Runs(Start(n, init), acts)
    ensures var abs := AbsRun(Start(n, init), acts);
            && After(Start(n, init), acts).value == init + Atomic.Gives(abs) - Atomic.Takes(abs)
            && After(Start(n, init), acts).value >= (if init < 0 then init else 0)
  {
    var s := Start(n, init);
    StartInv(n, init);
    RefinesAtomic(s, acts);
    Atomic.Conservation(Abs(s), AbsRun(s, acts));
  }

  /** No wakeup is lost: beside a sleeper, every available unit has a woken waiter coming for it. */
  lemma NoLostWakeup(n: nat, init: int, acts: seq<Action>)
    requires Runs(Start(n, init), acts)
    ensures var s := After(Start(n, init), acts);
            s.lock.Free? && SomeoneAsleep(s) ==> s.value <= Sum(s.threads, Woken)
  {
    StartInv(n, init);
    RunKeepsInv(Start(n, init), acts);
  }

  // ----- progress

  /** Steps other than new calls and spurious wakeups. */
  predicate Internal(a: Action) {
    a.Go? || a.Signal?
  }

  /**
    The implementation gets stuck only where the atomic semaphore is stuck too: when nothing
    internal can happen, every pending call is a wait and there is no unit to serve it with.
   */
  lemma StuckOnlyWhenAtomicIs(n: nat, init: int, acts: seq<Action>)
    requires Runs(Start(n, init), acts)
    requires forall a: Action | Enabled(After(Start(n, init), acts), a) :: !Internal(a)
    ensures Atomic.Quiescent(Abs(After(Start(n, init), acts)))
  {
    var s := After(Start(n, init), acts);
    StartInv(n, init);
    RunKeepsInv(Start(n, init), acts);
    forall t | 0 <= t < |s.threads|
      ensures s.threads[t].Idle? || s.threads[t].WAsleep?
    {
      if s.threads[t].PSignal? && SomeoneAsleep(s) {
        var w :| 0 <= w < |s.threads| && s.threads[w].WAsleep?;
        assert Enabled(s, Signal(t, w));
      } else if s.lock.HeldBy? {
        var h := s.lock.t;
        assert Holds(s.threads[h]);
        if s.threads[h].PSignal? && SomeoneAsleep(s) {
          var w :| 0 <= w < |s.threads| && s.threads[w].WAsleep?;
          assert Enabled(s, Signal(h, w));
        } else {
          assert Enabled(s, Go(h));
        }
      } else {
        assert !Enabled(s, Go(t));
      }
    }
    SumConstant(s.threads, Woken, 0);
    forall a: Atomic.Action | Atomic.Enabled(Abs(s), a)
      ensures a.Invoke?
    {
      assert Abs(s).calls[a.t] == AbsCall(s.threads[a.t]);
    }
  }

  /** Internal steps a thread can still cause; a post pays for the waiter it wakes. */
  function Rank(t: Thread): int {
    match t
    case WLock => 4
    case WWoken => 4
    case WTest => 3
    case WTake => 2
    case WUnlock => 1
    case PLock => 8
    case PGive => 7
    case PSignal => 6
    case PUnlock => 1
    case _ => 0
  }

  lemma RankFalls(s: State, a: Action)
    requires Enabled(s, a) && Internal(a)
    ensures Sum(Step(s, a).threads, Rank) < Sum(s.threads, Rank)
  {
    var s' := Step(s, a);
    if a.Signal? {
      SumUpdate(s.threads, a.t, PUnlock, Rank);
      SumUpdate(s.threads[a.t := PUnlock], a.sleeper, WWoken, Rank);
    } else {
      SumUpdate(s.threads, a.t, s'.threads[a.t], Rank);
    }
  }

  /**
    Between new calls and spurious wakeups at most eight steps per thread happen, so every such
    stretch ends, and it ends where the atomic semaphore has nothing left to do.
   */
  lemma {:induction false} InternalStepsBounded(s: State, acts: seq<Action>)
    requires Runs(s, acts)
    requires forall i | 0 <= i < |acts| :: Internal(acts[i])
    ensures |acts| <= 8 * |s.threads|
    ensures |acts| + Sum(After(s, acts).threads, Rank) <= Sum(s.threads, Rank)
    decreases |acts|
  {
    if acts != [] {
      RankFalls(s, acts[0]);
      InternalStepsBounded(Step(s, acts[0]), acts[1..]);
    }
    SumBound(s.threads, Rank, 8);
    SumAtLeast(After(s, acts).threads, Rank);
  }
}
