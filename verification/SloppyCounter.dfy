/**
  The sloppy counter: increments are collected in slots and moved to the global count when a slot
  reaches the threshold. Any number of updating threads, mapped to slots in any way (one each, or
  several to a slot as in the per-CPU version), run beside any number of concurrent `get` calls.
  One step is one lock operation or one access to a shared count.
 */
module SloppyCounter {
  import opened Sums

  datatype UPc =
    | Lock        // lock the slot
    | Incr        // local_counts[slot]++
    | Test        // if (local_counts[slot] >= THRESHOLD)
    | LockGlobal
    | Transfer    // global_count += local_counts[slot]
    | UnlockGlobal
    | Reset       // local_counts[slot] = 0
    | Unlock
    | Finished

  datatype GPc =
    | GLock       // lock global
    | GRead       // total = global_count
    | GUnlock
    | LLock       // lock slot i
    | LRead       // total += local_counts[i]
    | LUnlock
    | Returned

  /**
    `floor` and `joined` are histories of a `get`: how many updates had completed, and whether all
    updating threads had finished, when it read the global count.
   */
  datatype Thread =
    | Updater(slot: nat, quota: nat, left: nat, upc: UPc)
    | Getter(gpc: GPc, total: int, i: nat, floor: int, joined: bool)

  datatype Holder = Free | HeldBy(t: nat)

  /**
    The last four fields are histories: increments performed, updates completed, and per slot the
    increments (`owed`) and the completed updates (`late`) that have not reached the global count.
   */
  datatype State = State(
    global: int, globalLock: Holder, locals: seq<int>, localLocks: seq<Holder>, threads: seq<Thread>,
    performed: int, completed: int, owed: seq<int>, late: seq<int>)

  function NewUpdater(slot: nat, quota: nat): Thread {
    Updater(slot, quota, quota, if quota == 0 then Finished else Lock)
  }

  const NEW_GETTER := Getter(GLock, 0, 0, 0, false)

  function Start(m: nat, threads: seq<Thread>): (r: State)
    ensures ValidThreads(m, threads) ==> Shape(r)
  {
    State(0, Free, seq(m, j => 0), seq(m, j => Free), threads, 0, 0, seq(m, j => 0), seq(m, j => 0))
  }

  predicate ValidThreads(m: nat, threads: seq<Thread>) {
    forall t | 0 <= t < |threads| ::
      threads[t] == NEW_GETTER ||
      (threads[t].Updater? && threads[t].slot < m && threads[t] == NewUpdater(threads[t].slot, threads[t].quota))
  }

  predicate Shape(s: State) {
    && |s.localLocks| == |s.locals| && |s.owed| == |s.locals| && |s.late| == |s.locals|
    && forall t | 0 <= t < |s.threads| ::
         match s.threads[t]
         case Updater(slot, quota, left, pc) => slot < |s.locals| && (pc.Finished? <==> left == 0)
         case Getter(pc, _, i, _, _) =>
           && (pc.LLock? || pc.LRead? || pc.LUnlock? ==> i < |s.locals|)
           && (pc.GLock? || pc.GRead? || pc.GUnlock? ==> i == 0)
           && (pc.Returned? ==> i == |s.locals|)
  }

  predicate Enabled(s: State, t: nat) {
    && t < |s.threads|
    && match s.threads[t]
       case Updater(slot, _, _, pc) =>
         (match pc
          case Lock => slot < |s.localLocks| && s.localLocks[slot].Free?
          case LockGlobal => s.globalLock.Free?
          case Finished => false
          case _ => true)
       case Getter(pc, _, i, _, _) =>
         (match pc
          case GLock => s.globalLock.Free?
          case LLock => i < |s.localLocks| && s.localLocks[i].Free?
          case Returned => false
          case _ => true)
  }

  predicate AllFinished(s: State) {
    forall t | 0 <= t < |s.threads| && s.threads[t].Updater? :: s.threads[t].upc.Finished?
  }

  function UpdaterStep(threshold: nat, s: State, t: nat): State
    requires Shape(s) && Enabled(s, t) && s.threads[t].Updater?
  {
    var th := s.threads[t];
    var j := th.slot;
    match th.upc
    case Lock => s.(localLocks := s.localLocks[j := HeldBy(t)], threads := s.threads[t := th.(upc := Incr)])
    case Incr =>
      s.(locals := s.locals[j := s.locals[j] + 1], threads := s.threads[t := th.(upc := Test)],
         performed := s.performed + 1, owed := s.owed[j := s.owed[j] + 1])
    case Test => s.(threads := s.threads[t := th.(upc := if s.locals[j] >= threshold then LockGlobal else Unlock)])
    case LockGlobal => s.(globalLock := HeldBy(t), threads := s.threads[t := th.(upc := Transfer)])
    case Transfer =>
      s.(global := s.global + s.locals[j], threads := s.threads[t := th.(upc := UnlockGlobal)],
         owed := s.owed[j := s.owed[j] - s.locals[j]], late := s.late[j := s.late[j] - s.locals[j]])
    case UnlockGlobal => s.(globalLock := Free, threads := s.threads[t := th.(upc := Reset)])
    case Reset => s.(locals := s.locals[j := 0], threads := s.threads[t := th.(upc := Unlock)])
    case Unlock =>
      s.(localLocks := s.localLocks[j := Free],
         threads := s.threads[t := Updater(j, th.quota, th.left - 1, if th.left == 1 then Finished else Lock)],
         completed := s.completed + 1, late := s.late[j := s.late[j] + 1])
  }

  /** The loop of `get` goes to slot `i`, or returns after the last one. */
  function Next(s: State, th: Thread, i: nat): Thread
    requires th.Getter?
  {
    th.(i := i, gpc := if i < |s.locals| then LLock else Returned)
  }

  function GetterStep(s: State, t: nat): State
    requires Shape(s) && Enabled(s, t) && s.threads[t].Getter?
  {
    var th := s.threads[t];
    match th.gpc
    case GLock => s.(globalLock := HeldBy(t), threads := s.threads[t := th.(gpc := GRead)])
    case GRead =>
      s.(threads := s.threads[t := th.(gpc := GUnlock, total := s.global, floor := s.completed,
          joined := AllFinished(s))])
    case GUnlock => s.(globalLock := Free, threads := s.threads[t := Next(s, th, 0)])
    case LLock => s.(localLocks := s.localLocks[th.i := HeldBy(t)], threads := s.threads[t := th.(gpc := LRead)])
    case LRead => s.(threads := s.threads[t := th.(gpc := LUnlock, total := th.total + s.locals[th.i])])
    case LUnlock => s.(localLocks := s.localLocks[th.i := Free], threads := s.threads[t := Next(s, th, th.i + 1)])
  }

  function Step(threshold: nat, s: State, t: nat): State
    requires Shape(s) && Enabled(s, t)
  {
    if s.threads[t].Updater? then UpdaterStep(threshold, s, t) else GetterStep(s, t)
  }

  lemma StepShape(threshold: nat, s: State, t: nat)
    requires Shape(s) && Enabled(s, t)
    ensures Shape(Step(threshold, s, t))
    ensures |Step(threshold, s, t).threads| == |s.threads| && |Step(threshold, s, t).locals| == |s.locals|
  {
  }

  ghost predicate Runs(threshold: nat, s: State, sched: seq<nat>)
    requires Shape(s)
    decreases |sched|
  {
    sched == [] ||
    (Enabled(s, sched[0]) &&
     (StepShape(threshold, s, sched[0]); Runs(threshold, Step(threshold, s, sched[0]), sched[1..])))
  }

  ghost function After(threshold: nat, s: State, sched: seq<nat>): (r: State)
    requires Shape(s) && Runs(threshold, s, sched)
    ensures Shape(r) && |r.threads| == |s.threads| && |r.locals| == |s.locals|
    decreases |sched|
  {
    if sched == [] then s
    else
      StepShape(threshold, s, sched[0]);
      After(threshold, Step(threshold, s, sched[0]), sched[1..])
  }

  // ----- locks

  predicate HoldsSlot(th: Thread, j: nat) {
    match th
    case Updater(slot, _, _, pc) => j == slot && !pc.Lock? && !pc.Finished?
    case Getter(pc, _, i, _, _) => j == i && (pc.LRead? || pc.LUnlock?)
  }

  predicate HoldsGlobal(th: Thread) {
    match th
    case Updater(_, _, _, pc) => pc.Transfer? || pc.UnlockGlobal?
    case Getter(pc, _, _, _, _) => pc.GRead? || pc.GUnlock?
  }

  ghost predicate LocksOk(s: State) {
    && (forall t | 0 <= t < |s.threads| :: HoldsGlobal(s.threads[t]) <==> s.globalLock == HeldBy(t))
    && (s.globalLock.HeldBy? ==> s.globalLock.t < |s.threads|)
    && (forall t, j | 0 <= t < |s.threads| && 0 <= j < |s.localLocks| ::
          HoldsSlot(s.threads[t], j) <==> s.localLocks[j] == HeldBy(t))
    && (forall j | 0 <= j < |s.localLocks| && s.localLocks[j].HeldBy? :: s.localLocks[j].t < |s.threads|)
  }

  lemma StepKeepsGlobalLock(threshold: nat, s: State, t: nat)
    requires Shape(s) && LocksOk(s) && Enabled(s, t)
    ensures var s' := Step(threshold, s, t);
            && (forall u | 0 <= u < |s'.threads| :: HoldsGlobal(s'.threads[u]) <==> s'.globalLock == HeldBy(u))
            && (s'.globalLock.HeldBy? ==> s'.globalLock.t < |s'.threads|)
  {
  }

  lemma StepKeepsSlotLocks(threshold: nat, s: State, t: nat)
    requires Shape(s) && LocksOk(s) && Enabled(s, t)
    ensures var s' := Step(threshold, s, t);
            && (forall u, j | 0 <= u < |s'.threads| && 0 <= j < |s'.localLocks| ::
                  HoldsSlot(s'.threads[u], j) <==> s'.localLocks[j] == HeldBy(u))
            && (forall j | 0 <= j < |s'.localLocks| && s'.localLocks[j].HeldBy? :: s'.localLocks[j].t < |s'.threads|)
  {
    var s' := Step(threshold, s, t);
    forall u, j | 0 <= u < |s'.threads| && 0 <= j < |s'.localLocks|
      ensures HoldsSlot(s'.threads[u], j) <==> s'.localLocks[j] == HeldBy(u)
    {
      assert HoldsSlot(s.threads[u], j) <==> s.localLocks[j] == HeldBy(u);
      assert HoldsSlot(s.threads[t], j) <==> s.localLocks[j] == HeldBy(t);
    }
  }

  lemma StepKeepsLocks(threshold: nat, s: State, t: nat)
    requires Shape(s) && LocksOk(s) && Enabled(s, t)
    ensures LocksOk(Step(threshold, s, t))
  {
    StepKeepsGlobalLock(threshold, s, t);
    StepKeepsSlotLocks(threshold, s, t);
  }

  // ----- slots

  /** What slot `j` holds, depending on how far the thread that has it locked has come. */
  predicate SlotOk(threshold: nat, s: State, j: nat)
    requires Shape(s) && j < |s.locals|
  {
    var c, owed, late := s.locals[j], s.owed[j], s.late[j];
    if s.localLocks[j].HeldBy? && s.localLocks[j].t < |s.threads| && s.threads[s.localLocks[j].t].Updater? then
      match s.threads[s.localLocks[j].t].upc
      case Incr => 0 <= c < threshold && owed == late == c
      case Test => 1 <= c <= threshold && owed == c && late == c - 1
      case LockGlobal => c == threshold && owed == c && late == c - 1
      case Transfer => c == threshold && owed == c && late == c - 1
      case UnlockGlobal => c == threshold && owed == 0 && late == -1
      case Reset => c == threshold && owed == 0 && late == -1
      case Unlock => 0 <= c < threshold && owed == c && late == c - 1
      case _ => false
    else 0 <= c < threshold && owed == late == c
  }

  ghost predicate SlotsOk(threshold: nat, s: State)
    requires Shape(s)
  {
    forall j | 0 <= j < |s.locals| :: SlotOk(threshold, s, j)
  }

  lemma OwnSlotKept(threshold: nat, s: State, t: nat)
    requires threshold > 0 && Shape(s) && LocksOk(s) && Enabled(s, t) && s.threads[t].Updater?
    requires SlotOk(threshold, s, s.threads[t].slot)
    ensures Shape(Step(threshold, s, t)) && SlotOk(threshold, Step(threshold, s, t), s.threads[t].slot)
  {
    StepShape(threshold, s, t);
    var j := s.threads[t].slot;
    assert HoldsSlot(s.threads[t], j) <==> s.localLocks[j] == HeldBy(t);
  }

  lemma OtherSlotKept(threshold: nat, s: State, t: nat, j: nat)
    requires Shape(s) && LocksOk(s) && Enabled(s, t) && j < |s.locals|
    requires s.threads[t].Updater? ==> s.threads[t].slot != j
    requires SlotOk(threshold, s, j)
    ensures Shape(Step(threshold, s, t)) && SlotOk(threshold, Step(threshold, s, t), j)
  {
    StepShape(threshold, s, t);
    ElsewhereSame(threshold, s, t, j);
    assert HoldsSlot(s.threads[t], j) <==> s.localLocks[j] == HeldBy(t);
  }

  /** A step leaves the contents of other slots alone, and all other threads. */
  lemma ElsewhereSame(threshold: nat, s: State, t: nat, j: nat)
    requires Shape(s) && Enabled(s, t) && j < |s.locals|
    requires s.threads[t].Updater? ==> s.threads[t].slot != j
    ensures var s' := Step(threshold, s, t);
            && |s'.locals| == |s.locals| == |s'.owed| == |s'.late| == |s'.localLocks| && |s'.threads| == |s.threads|
            && s'.locals[j] == s.locals[j] && s'.owed[j] == s.owed[j] && s'.late[j] == s.late[j]
            && (s'.localLocks[j] == s.localLocks[j]
                || (s.threads[t].Getter? && (s'.localLocks[j].Free? || s'.localLocks[j] == HeldBy(t))))
            && s'.threads[t].Updater? == s.threads[t].Updater?
            && forall u | 0 <= u < |s.threads| && u != t :: s'.threads[u] == s.threads[u]
  {
  }

  lemma StepKeepsSlots(threshold: nat, s: State, t: nat)
    requires threshold > 0 && Shape(s) && LocksOk(s) && SlotsOk(threshold, s) && Enabled(s, t)
    ensures Shape(Step(threshold, s, t)) && SlotsOk(threshold, Step(threshold, s, t))
  {
    StepShape(threshold, s, t);
    forall j | 0 <= j < |Step(threshold, s, t).locals|
      ensures SlotOk(threshold, Step(threshold, s, t), j)
    {
      assert SlotOk(threshold, s, j);
      if s.threads[t].Updater? && s.threads[t].slot == j {
        OwnSlotKept(threshold, s, t);
      } else {
        OtherSlotKept(threshold, s, t, j);
      }
    }
  }

  // ----- totals

  function Id(x: int): int { x }

  /** The increments a thread has performed. */
  function Performed(th: Thread): int {
    match th
    case Updater(_, quota, left, pc) => quota - left + (if pc.Lock? || pc.Incr? || pc.Finished? then 0 else 1)
    case Getter(_, _, _, _, _) => 0
  }

  function Completed(th: Thread): int {
    if th.Updater? then th.quota - th.left else 0
  }

  ghost predicate TotalsOk(s: State) {
    && s.performed == s.global + Sum(s.owed, Id)
    && s.completed == s.global + Sum(s.late, Id)
    && s.performed == Sum(s.threads, Performed)
    && s.completed == Sum(s.threads, Completed)
  }

  lemma StepKeepsTotals(threshold: nat, s: State, t: nat)
    requires Shape(s) && LocksOk(s) && SlotsOk(threshold, s) && TotalsOk(s) && Enabled(s, t)
    ensures TotalsOk(Step(threshold, s, t))
  {
    var s' := Step(threshold, s, t);
    assert s'.threads == s.threads[t := s'.threads[t]];
    SumUpdate(s.threads, t, s'.threads[t], Performed);
    SumUpdate(s.threads, t, s'.threads[t], Completed);
    if s.threads[t].Updater? {
      var j := s.threads[t].slot;
      assert s'.owed == s.owed[j := s'.owed[j]] && s'.late == s.late[j := s'.late[j]];
      SumUpdate(s.owed, j, s'.owed[j], Id);
      SumUpdate(s.late, j, s'.late[j], Id);
    }
  }

  // ----- what a running `get` may rely on

  /** The first slot a `get` has not read yet. */
  function Unread(th: Thread): nat
    requires th.Getter?
  {
    if th.gpc.LUnlock? then th.i + 1 else th.i
  }

  function From(xs: seq<int>, i: nat): int {
    if i <= |xs| then Sum(xs[i..], Id) else 0
  }

  ghost predicate GetterOk(threshold: nat, s: State, th: Thread)
    requires Shape(s) && th.Getter?
  {
    !th.gpc.GLock? && !th.gpc.GRead? ==>
      && th.total + From(s.owed, Unread(th)) <= s.performed
      && th.floor - |s.locals| * (threshold - 1) <= th.total
      && (th.joined ==> AllFinished(s) && th.total + From(s.owed, Unread(th)) == s.performed)
  }

  ghost predicate GettersOk(threshold: nat, s: State)
    requires Shape(s)
  {
    forall t | 0 <= t < |s.threads| && s.threads[t].Getter? :: GetterOk(threshold, s, s.threads[t])
  }

  lemma FromUpdate(xs: seq<int>, j: nat, x: int, i: nat)
    requires j < |xs|
    ensures From(xs[j := x], i) == From(xs, i) + (if j >= i then x - xs[j] else 0)
  {
    if i <= |xs| {
      if j >= i {
        assert xs[j := x][i..] == xs[i..][j - i := x];
        SumUpdate(xs[i..], j - i, x, Id);
      } else {
        assert xs[j := x][i..] == xs[i..];
      }
    }
  }

  lemma FromNext(xs: seq<int>, i: nat)
    requires i < |xs|
    ensures From(xs, i) == xs[i] + From(xs, i + 1)
  {
    assert xs[i..][0] == xs[i] && xs[i..][1..] == xs[i + 1..];
  }

  /** An updater's step never takes more away from the unread slots than `get` allows for. */
  lemma UpdaterKeepsGetter(threshold: nat, s: State, t: nat, th: Thread)
    requires Shape(s) && LocksOk(s) && SlotsOk(threshold, s) && Enabled(s, t) && s.threads[t].Updater?
    requires th.Getter? && GetterOk(threshold, s, th)
    ensures Shape(Step(threshold, s, t)) && GetterOk(threshold, Step(threshold, s, t), th)
  {
    StepShape(threshold, s, t);
    var s' := Step(threshold, s, t);
    var j := s.threads[t].slot;
    assert SlotOk(threshold, s, j);
    assert HoldsSlot(s.threads[t], j) <==> s.localLocks[j] == HeldBy(t);
    assert s'.owed == s.owed[j := s'.owed[j]];
    FromUpdate(s.owed, j, s'.owed[j], Unread(th));
    assert !AllFinished(s);
  }

  lemma LateBound(threshold: nat, s: State)
    requires Shape(s) && SlotsOk(threshold, s)
    ensures Sum(s.late, Id) <= |s.locals| * (threshold - 1)
  {
    forall j | 0 <= j < |s.late|
      ensures Id(s.late[j]) <= threshold - 1
    {
      assert SlotOk(threshold, s, j);
    }
    SumBound(s.late, Id, threshold - 1);
  }

  lemma GetterStepOk(threshold: nat, s: State, t: nat)
    requires Shape(s) && LocksOk(s) && SlotsOk(threshold, s) && TotalsOk(s) && Enabled(s, t) && s.threads[t].Getter?
    requires GetterOk(threshold, s, s.threads[t])
    ensures Shape(Step(threshold, s, t)) && GetterOk(threshold, Step(threshold, s, t), Step(threshold, s, t).threads[t])
  {
    StepShape(threshold, s, t);
    var th := s.threads[t];
    if th.gpc.GRead? {
      LateBound(threshold, s);
      assert s.owed[0..] == s.owed;
    } else if th.gpc.LRead? {
      SlotRead(threshold, s, t);
    }
    GetterKeepsOthers(threshold, s, t);
  }

  /** A `get` changes nothing but itself and locks. */
  lemma GetterKeepsOthers(threshold: nat, s: State, t: nat)
    requires Shape(s) && Enabled(s, t) && s.threads[t].Getter?
    ensures var s' := Step(threshold, s, t);
            && s'.owed == s.owed && s'.locals == s.locals && s'.performed == s.performed
            && (AllFinished(s) ==> AllFinished(s'))
  {
  }

  /** What a `get` finds in a slot is what the slot owes. */
  lemma SlotRead(threshold: nat, s: State, t: nat)
    requires Shape(s) && LocksOk(s) && SlotsOk(threshold, s) && t < |s.threads|
    requires s.threads[t].Getter? && s.threads[t].gpc.LRead?
    ensures var i := s.threads[t].i;
            s.locals[i] == s.owed[i] && 0 <= s.locals[i] && From(s.owed, i) == s.owed[i] + From(s.owed, i + 1)
  {
    var th := s.threads[t];
    assert SlotOk(threshold, s, th.i);
    assert HoldsSlot(th, th.i);
    FromNext(s.owed, th.i);
  }

  lemma StepKeepsGetters(threshold: nat, s: State, t: nat)
    requires Shape(s) && LocksOk(s) && SlotsOk(threshold, s) && TotalsOk(s) && GettersOk(threshold, s) && Enabled(s, t)
    ensures Shape(Step(threshold, s, t)) && GettersOk(threshold, Step(threshold, s, t))
  {
    StepShape(threshold, s, t);
    var s' := Step(threshold, s, t);
    forall u | 0 <= u < |s'.threads| && s'.threads[u].Getter?
      ensures GetterOk(threshold, s', s'.threads[u])
    {
      if u == t {
        GetterStepOk(threshold, s, t);
      } else if s.threads[t].Updater? {
        UpdaterKeepsGetter(threshold, s, t, s.threads[u]);
      } else {
        assert AllFinished(s) ==> AllFinished(s');
      }
    }
  }

  // ----- whole runs

  ghost predicate Inv(threshold: nat, s: State) {
    threshold > 0 && Shape(s) && LocksOk(s) && SlotsOk(threshold, s) && TotalsOk(s) && GettersOk(threshold, s)
  }

  lemma StepKeepsInv(threshold: nat, s: State, t: nat)
    requires Inv(threshold, s) && Enabled(s, t)
    ensures Inv(threshold, Step(threshold, s, t))
  {
    StepShape(threshold, s, t);
    StepKeepsLocks(threshold, s, t);
    StepKeepsSlots(threshold, s, t);
    StepKeepsTotals(threshold, s, t);
    StepKeepsGetters(threshold, s, t);
  }

  lemma {:induction false} RunKeepsInv(threshold: nat, s: State, sched: seq<nat>)
    requires Inv(threshold, s) && Runs(threshold, s, sched)
    ensures Inv(threshold, After(threshold, s, sched))
    decreases |sched|
  {
    if sched != [] {
      StepKeepsInv(threshold, s, sched[0]);
      RunKeepsInv(threshold, Step(threshold, s, sched[0]), sched[1..]);
    }
  }

  lemma StartInv(threshold: nat, m: nat, threads: seq<Thread>)
    requires threshold > 0 && ValidThreads(m, threads)
    ensures Inv(threshold, Start(m, threads))
  {
    var s := Start(m, threads);
    SumConstant(s.owed, Id, 0);
    SumConstant(s.late, Id, 0);
    SumConstant(s.threads, Performed, 0);
    SumConstant(s.threads, Completed, 0);
  }

  /** A slot whose content has been added to the global count but not yet zeroed. */
  predicate InTransfer(s: State, j: nat)
    requires j < |s.localLocks|
  {
    && s.localLocks[j].HeldBy? && s.localLocks[j].t < |s.threads|
    && s.threads[s.localLocks[j].t].Updater?
    && (s.threads[s.localLocks[j].t].upc.UnlockGlobal? || s.threads[s.localLocks[j].t].upc.Reset?)
  }

  /**
    Conservation: the global count and the slots, leaving out slots in transfer, add up to the
    increments performed; and a slot nobody has locked is below the threshold.
   */
  lemma Conservation(threshold: nat, m: nat, threads: seq<Thread>, sched: seq<nat>)
    requires threshold > 0 && ValidThreads(m, threads)
    requires Runs(threshold, Start(m, threads), sched)
    ensures var s := After(threshold, Start(m, threads), sched);
            && s.performed == Sum(s.threads, Performed) && s.completed == Sum(s.threads, Completed)
            && s.global + Sum(seq(m, j requires 0 <= j < m => if InTransfer(s, j) then 0 else s.locals[j]), Id) ==
                s.performed
            && (forall j | 0 <= j < m && s.localLocks[j].Free? :: 0 <= s.locals[j] < threshold)
  {
    StartInv(threshold, m, threads);
    RunKeepsInv(threshold, Start(m, threads), sched);
    var s := After(threshold, Start(m, threads), sched);
    forall j | 0 <= j < m
      ensures s.owed[j] == if InTransfer(s, j) then 0 else s.locals[j]
      ensures s.localLocks[j].Free? ==> 0 <= s.locals[j] < threshold
    {
      assert SlotOk(threshold, s, j);
      if s.localLocks[j].HeldBy? {
        assert HoldsSlot(s.threads[s.localLocks[j].t], j);
      }
    }
    assert s.owed == seq(m, j requires 0 <= j < m => if InTransfer(s, j) then 0 else s.locals[j]);
  }

  lemma OneBatch(threshold: nat, s: State, t: nat)
    requires threshold > 0 && Shape(s) && LocksOk(s) && SlotsOk(threshold, s) && Enabled(s, t)
    ensures var s' := Step(threshold, s, t); s'.global == s.global || s'.global == s.global + threshold
  {
    if s.threads[t].Updater? && s.threads[t].upc.Transfer? {
      assert SlotOk(threshold, s, s.threads[t].slot);
      assert HoldsSlot(s.threads[t], s.threads[t].slot);
    }
  }

  lemma {:induction false} BatchesFrom(threshold: nat, s: State, sched: seq<nat>, k: nat)
    requires Inv(threshold, s) && Runs(threshold, s, sched) && s.global == k * threshold
    ensures exists n: nat :: After(threshold, s, sched).global == n * threshold
    decreases |sched|
  {
    if sched == [] {
      assert After(threshold, s, sched).global == k * threshold;
    } else {
      var s1 := Step(threshold, s, sched[0]);
      StepKeepsInv(threshold, s, sched[0]);
      OneBatch(threshold, s, sched[0]);
      if s1.global == s.global {
        BatchesFrom(threshold, s1, sched[1..], k);
      } else {
        assert s1.global == (k + 1) * threshold;
        BatchesFrom(threshold, s1, sched[1..], k + 1);
      }
    }
  }

  /** Slots reach the global count in batches of exactly the threshold, never sooner and never later. */
  lemma GlobalInBatches(threshold: nat, m: nat, threads: seq<Thread>, sched: seq<nat>)
    requires threshold > 0 && ValidThreads(m, threads)
    requires Runs(threshold, Start(m, threads), sched)
    ensures exists n: nat :: After(threshold, Start(m, threads), sched).global == n * threshold
  {
    StartInv(threshold, m, threads);
    assert 0 == 0 * threshold;
    BatchesFrom(threshold, Start(m, threads), sched, 0);
  }

  lemma {:induction false} ReadKept(threshold: nat, s: State, sched: seq<nat>, g: nat)
    requires Shape(s) && Runs(threshold, s, sched) && g < |s.threads|
    requires s.threads[g].Getter? && !s.threads[g].gpc.GLock? && !s.threads[g].gpc.GRead?
    ensures var th := After(threshold, s, sched).threads[g];
            && th.Getter? && !th.gpc.GLock? && !th.gpc.GRead?
            && th.floor == s.threads[g].floor && th.joined == s.threads[g].joined
    decreases |sched|
  {
    if sched != [] {
      StepShape(threshold, s, sched[0]);
      ReadKept(threshold, Step(threshold, s, sched[0]), sched[1..], g);
    }
  }

  /**
    The bracket on a concurrent `get`. Let `before` lead to the moment at which `g` reads the global
    count, and `sched` from there to a state in which its call has returned. It returns at most the
    increments performed by the time it returns, and at least the updates completed at that first
    moment less (THRESHOLD - 1) per slot. If all updating threads had finished by then, it returns
    exactly the number of increments.
   */
  lemma GetBracket(threshold: nat, m: nat, threads: seq<Thread>, before: seq<nat>, sched: seq<nat>, g: nat)
    requires threshold > 0 && ValidThreads(m, threads)
    requires Runs(threshold, Start(m, threads), before)
    requires var s := After(threshold, Start(m, threads), before);
             && g < |threads| && s.threads[g].Getter? && s.threads[g].gpc.GRead?
             && Runs(threshold, s, [g] + sched)
             && var th := After(threshold, s, [g] + sched).threads[g]; th.Getter? && th.gpc.Returned?
    ensures var s := After(threshold, Start(m, threads), before);
            var s' := After(threshold, s, [g] + sched); var result := s'.threads[g].total;
            && s.completed - m * (threshold - 1) <= result <= s'.performed
            && (AllFinished(s) ==> result == s'.performed)
  {
    StartInv(threshold, m, threads);
    RunKeepsInv(threshold, Start(m, threads), before);
    ReturnedValue(threshold, After(threshold, Start(m, threads), before), sched, g);
  }

  lemma ReturnedValue(threshold: nat, s: State, sched: seq<nat>, g: nat)
    requires Inv(threshold, s) && g < |s.threads| && s.threads[g].Getter? && s.threads[g].gpc.GRead?
    requires Runs(threshold, s, [g] + sched)
    requires var th := After(threshold, s, [g] + sched).threads[g]; th.Getter? && th.gpc.Returned?
    ensures var s' := After(threshold, s, [g] + sched); var result := s'.threads[g].total;
            && s.completed - |s.locals| * (threshold - 1) <= result <= s'.performed
            && (AllFinished(s) ==> AllFinished(s') && result == s'.performed)
  {
    RunKeepsInv(threshold, s, [g] + sched);
    var s' := After(threshold, s, [g] + sched);
    var s1 := Step(threshold, s, g);
    StepShape(threshold, s, g);
    assert ([g] + sched)[1..] == sched;
    ReadKept(threshold, s1, sched, g);
    assert GetterOk(threshold, s', s'.threads[g]);
    assert s'.owed[|s'.locals|..] == [];
  }

  /** `main`: n threads, thread i using slot slots[i], each incrementing the same number of times. */
  function MainThreads(slots: seq<nat>, increments: nat): (r: seq<Thread>)
    ensures forall m: nat | SlotsBelow(slots, m) :: ValidThreads(m, r)
  {
    seq(|slots|, i requires 0 <= i < |slots| => NewUpdater(slots[i], increments)) + [NEW_GETTER]
  }

  predicate SlotsBelow(slots: seq<nat>, m: nat) {
    forall i | 0 <= i < |slots| :: slots[i] < m
  }

  /** sloppy_counter.c gives every thread its own slot; the per-CPU version shares them by i % num_cpus. */
  function OwnSlots(n: nat): seq<nat> {
    seq(n, i requires 0 <= i => i)
  }

  function SharedSlots(n: nat, cpus: nat): seq<nat>
    requires cpus > 0
  {
    seq(n, i requires 0 <= i => i % cpus)
  }

  lemma {:induction false} ThreadsKept(threshold: nat, s: State, sched: seq<nat>)
    requires Shape(s) && Runs(threshold, s, sched)
    ensures var s' := After(threshold, s, sched);
            forall t | 0 <= t < |s.threads| ::
              && s'.threads[t].Updater? == s.threads[t].Updater?
              && (s.threads[t].Updater? ==> s'.threads[t].quota == s.threads[t].quota)
    decreases |sched|
  {
    if sched != [] {
      StepShape(threshold, s, sched[0]);
      ThreadsKept(threshold, Step(threshold, s, sched[0]), sched[1..]);
    }
  }

  lemma FinishedTotal(s: State, n: nat, increments: nat)
    requires Shape(s) && |s.threads| == n + 1 && s.threads[n].Getter? && AllFinished(s)
    requires forall t | 0 <= t < n :: s.threads[t].Updater? && s.threads[t].quota == increments
    ensures Sum(s.threads, Performed) == n * increments
  {
    assert s.threads == s.threads[..n] + [s.threads[n]];
    SumConcat(s.threads[..n], [s.threads[n]], Performed);
    SumConstant(s.threads[..n], Performed, increments);
  }

  /** The value printed after the join, however threads are mapped to slots. */
  lemma FinalCount(threshold: nat, m: nat, slots: seq<nat>, increments: nat, before: seq<nat>, sched: seq<nat>)
    requires threshold > 0 && SlotsBelow(slots, m)
    requires JoinThenGet(threshold, m, slots, increments, before, sched)
    ensures Printed(threshold, m, slots, increments, before, sched) == |slots| * increments
  {
    var threads := MainThreads(slots, increments);
    var s := After(threshold, Start(m, threads), before);
    StartInv(threshold, m, threads);
    RunKeepsInv(threshold, Start(m, threads), before);
    RunKeepsInv(threshold, s, [|slots|] + sched);
    ThreadsKept(threshold, Start(m, threads), before);
    ThreadsKept(threshold, s, [|slots|] + sched);
    ReturnedValue(threshold, s, sched, |slots|);
    FinishedTotal(After(threshold, s, [|slots|] + sched), |slots|, increments);
  }

  /** All updating threads have finished when the `get` of `main` reads the global count, and it returns. */
  ghost predicate JoinThenGet(
    threshold: nat, m: nat, slots: seq<nat>, increments: nat, before: seq<nat>, sched: seq<nat>)
    requires SlotsBelow(slots, m)
  {
    var s0 := Start(m, MainThreads(slots, increments));
    && Runs(threshold, s0, before)
    && var s := After(threshold, s0, before);
    && AllFinished(s) && s.threads[|slots|].Getter? && s.threads[|slots|].gpc.GRead?
    && Runs(threshold, s, [|slots|] + sched)
    && var th := After(threshold, s, [|slots|] + sched).threads[|slots|]; th.Getter? && th.gpc.Returned?
  }

  ghost function Printed(
    threshold: nat, m: nat, slots: seq<nat>, increments: nat, before: seq<nat>, sched: seq<nat>): int
    requires SlotsBelow(slots, m) && JoinThenGet(threshold, m, slots, increments, before, sched)
  {
    After(threshold, After(threshold, Start(m, MainThreads(slots, increments)), before),
        [|slots|] + sched).threads[|slots|].total
  }

  /** sloppy_counter.c: a slot per thread, THRESHOLD 1000000. */
  lemma FinalCountPerThread(n: nat, increments: nat, before: seq<nat>, sched: seq<nat>)
    requires JoinThenGet(1000000, n, OwnSlots(n), increments, before, sched)
    ensures Printed(1000000, n, OwnSlots(n), increments, before, sched) == n * increments
  {
    FinalCount(1000000, n, OwnSlots(n), increments, before, sched);
  }

  /** The per-CPU version: slot i % num_cpus for thread i, THRESHOLD 1000. */
  lemma FinalCountPerCpu(n: nat, cpus: nat, increments: nat, before: seq<nat>, sched: seq<nat>)
    requires cpus > 0 && JoinThenGet(1000, cpus, SharedSlots(n, cpus), increments, before, sched)
    ensures Printed(1000, cpus, SharedSlots(n, cpus), increments, before, sched) == n * increments
  {
    FinalCount(1000, cpus, SharedSlots(n, cpus), increments, before, sched);
  }

  predicate Ended(th: Thread) {
    if th.Updater? then th.upc.Finished? else th.gpc.Returned?
  }

  /** Locks are taken slot first, then global, and `get` holds one at a time: nobody gets stuck. */
  lemma NeverStuck(threshold: nat, s: State) returns (t: nat)
    requires Inv(threshold, s)
    requires exists u :: 0 <= u < |s.threads| && !Ended(s.threads[u])
    ensures Enabled(s, t)
  {
    t :| 0 <= t < |s.threads| && !Ended(s.threads[t]);
    if !Enabled(s, t) && (if s.threads[t].Updater? then s.threads[t].upc.Lock? else s.threads[t].gpc.LLock?) {
      var j := if s.threads[t].Updater? then s.threads[t].slot else s.threads[t].i;
      t := s.localLocks[j].t;
      assert HoldsSlot(s.threads[t], j);
    }
    if !Enabled(s, t) {
      t := s.globalLock.t;
      assert HoldsGlobal(s.threads[t]);
    }
  }

  // ----- the program ends

  /** Steps a thread still has to take, with `m` slots for a `get` to visit. */
  function Work(m: nat): Thread -> int {
    (th: Thread) =>
      match th
      case Updater(_, _, left, pc) =>
        (match pc
         case Lock => 8 * left
         case Incr => 8 * left - 1
         case Test => 8 * left - 2
         case LockGlobal => 8 * left - 3
         case Transfer => 8 * left - 4
         case UnlockGlobal => 8 * left - 5
         case Reset => 8 * left - 6
         case Unlock => 8 * left - 7
         case Finished => 0)
      case Getter(pc, _, i, _, _) =>
        (match pc
         case GLock => 3 * m + 3
         case GRead => 3 * m + 2
         case GUnlock => 3 * m + 1
         case LLock => 3 * (m - i)
         case LRead => 3 * (m - i) - 1
         case LUnlock => 3 * (m - i) - 2
         case Returned => 0)
  }

  lemma WorkFalls(threshold: nat, s: State, t: nat)
    requires Shape(s) && Enabled(s, t)
    ensures Sum(Step(threshold, s, t).threads, Work(|s.locals|)) < Sum(s.threads, Work(|s.locals|))
  {
    SumUpdate(s.threads, t, Step(threshold, s, t).threads[t], Work(|s.locals|));
  }

  lemma WorkNonNegative(s: State)
    requires Shape(s)
    ensures Sum(s.threads, Work(|s.locals|)) >= 0
  {
    var zero := (th: Thread) => 0;
    SumConstant(s.threads, zero, 0);
    SumNotAbove(s.threads, Work(|s.locals|), s.threads, zero);
  }

  lemma {:induction false} RunBounded(threshold: nat, s: State, sched: seq<nat>)
    requires Shape(s) && Runs(threshold, s, sched)
    ensures |sched| <= Sum(s.threads, Work(|s.locals|))
    decreases |sched|
  {
    if sched == [] {
      WorkNonNegative(s);
    } else {
      WorkFalls(threshold, s, sched[0]);
      StepShape(threshold, s, sched[0]);
      RunBounded(threshold, Step(threshold, s, sched[0]), sched[1..]);
    }
  }

  ghost predicate AtEnd(s: State) {
    forall t :: !Enabled(s, t)
  }

  /** A run that cannot go on has finished every thread. */
  lemma EndFinishes(threshold: nat, s: State)
    requires Inv(threshold, s) && AtEnd(s)
    ensures forall t | 0 <= t < |s.threads| :: Ended(s.threads[t])
  {
    if exists u :: 0 <= u < |s.threads| && !Ended(s.threads[u]) {
      var t := NeverStuck(threshold, s);
    }
  }

  lemma MainWork(m: nat, slots: seq<nat>, increments: nat)
    ensures Sum(MainThreads(slots, increments), Work(m)) == |slots| * (8 * increments) + 3 * m + 3
  {
    var updaters := seq(|slots|, i requires 0 <= i < |slots| => NewUpdater(slots[i], increments));
    SumConcat(updaters, [NEW_GETTER], Work(m));
    SumConstant(updaters, Work(m), 8 * increments);
  }

  /** A thread that is not scheduled stays where it is. */
  lemma {:induction false} Untouched(threshold: nat, s: State, sched: seq<nat>, g: nat)
    requires Shape(s) && Runs(threshold, s, sched) && g < |s.threads| && g !in sched
    ensures After(threshold, s, sched).threads[g] == s.threads[g]
    decreases |sched|
  {
    if sched != [] {
      StepShape(threshold, s, sched[0]);
      Untouched(threshold, Step(threshold, s, sched[0]), sched[1..], g);
    }
  }

  lemma HeadAndRest(p: seq<nat>, q: seq<nat>)
    requires p != []
    ensures p + q == [p[0]] + (p[1..] + q)
  {
  }

  lemma RunsCons(threshold: nat, s: State, t: nat, s1: State, rest: seq<nat>)
    requires Shape(s) && Enabled(s, t) && s1 == Step(threshold, s, t) && Shape(s1) && Runs(threshold, s1, rest)
    ensures Runs(threshold, s, [t] + rest) && After(threshold, s, [t] + rest) == After(threshold, s1, rest)
  {
    assert ([t] + rest)[1..] == rest;
  }

  /** The first step of a run, seen from outside. */
  lemma RunsFirst(threshold: nat, s: State, sched: seq<nat>) returns (s1: State)
    requires Shape(s) && Runs(threshold, s, sched) && sched != []
    ensures Enabled(s, sched[0]) && s1 == Step(threshold, s, sched[0]) && Shape(s1) && Runs(threshold, s1, sched[1..])
    ensures After(threshold, s, sched) == After(threshold, s1, sched[1..])
  {
    s1 := Step(threshold, s, sched[0]);
    StepShape(threshold, s, sched[0]);
  }

  lemma {:induction false} RunsConcat(threshold: nat, s: State, p: seq<nat>, q: seq<nat>)
    requires Shape(s) && Runs(threshold, s, p) && Runs(threshold, After(threshold, s, p), q)
    ensures Runs(threshold, s, p + q)
    ensures After(threshold, s, p + q) == After(threshold, After(threshold, s, p), q)
    decreases |p|
  {
    if p == [] {
      assert p + q == q;
    } else {
      HeadAndRest(p, q);
      var s1 := RunsFirst(threshold, s, p);
      RunsConcat(threshold, s1, p[1..], q);
      RunsCons(threshold, s, p[0], s1, p[1..] + q);
    }
  }

  /** Once all updating threads have finished, only the `get` can move, and its first step takes the global lock. */
  lemma FirstOfGet(threshold: nat, s: State, g: nat, get: seq<nat>)
    requires Shape(s) && AllFinished(s) && |s.threads| == g + 1 && s.threads[g] == NEW_GETTER
    requires forall t | 0 <= t < g :: s.threads[t].Updater?
    requires Runs(threshold, s, get) && get != []
    ensures get[0] == g && Runs(threshold, s, [g])
    ensures var s1 := After(threshold, s, [g]);
            && AllFinished(s1) && s1.threads[g].Getter? && s1.threads[g].gpc.GRead?
            && Runs(threshold, s1, get[1..]) && After(threshold, s1, get[1..]) == After(threshold, s, get)
            && forall t | 0 <= t < g :: s1.threads[t] == s.threads[t]
  {
    StepShape(threshold, s, g);
    assert Runs(threshold, Step(threshold, s, g), [g][1..]);
    assert After(threshold, s, [g]) == Step(threshold, s, g);
  }

  /**
    The whole program: the updating threads run until none of them can move, then `main` calls `get`.
    Every such run has at most 8 steps per increment and 3 per slot and for the global count, the
    updating threads have then finished, and the number printed is threads times increments.
   */
  lemma ProgramPrints(threshold: nat, m: nat, slots: seq<nat>, increments: nat, before: seq<nat>, get: seq<nat>)
    requires threshold > 0 && SlotsBelow(slots, m)
    requires var s0 := Start(m, MainThreads(slots, increments));
             && Runs(threshold, s0, before) && |slots| !in before
             && var s := After(threshold, s0, before);
             && (forall t | 0 <= t < |slots| :: !Enabled(s, t))
             && Runs(threshold, s, get) && AtEnd(After(threshold, s, get))
    ensures |before| + |get| <= |slots| * (8 * increments) + 3 * m + 3
    ensures var s := After(threshold, Start(m, MainThreads(slots, increments)), before);
            var th := After(threshold, s, get).threads[|slots|];
            AllFinished(s) && th.Getter? && th.gpc.Returned? && th.total == |slots| * increments
  {
    var s0 := Start(m, MainThreads(slots, increments));
    var s := After(threshold, s0, before);
    RunsConcat(threshold, s0, before, get);
    RunBounded(threshold, s0, before + get);
    MainWork(m, slots, increments);
    AfterJoin(threshold, m, slots, increments, before);
    GetReturns(threshold, s, |slots|, get);
    Counted(threshold, m, slots, increments, before, get);
  }

  lemma AfterJoin(threshold: nat, m: nat, slots: seq<nat>, increments: nat, before: seq<nat>)
    requires threshold > 0 && SlotsBelow(slots, m)
    requires var s0 := Start(m, MainThreads(slots, increments));
             && Runs(threshold, s0, before) && |slots| !in before
             && forall t | 0 <= t < |slots| :: !Enabled(After(threshold, s0, before), t)
    ensures var s := After(threshold, Start(m, MainThreads(slots, increments)), before);
            && Inv(threshold, s) && AllFinished(s) && |s.threads| == |slots| + 1 && s.threads[|slots|] == NEW_GETTER
            && forall t | 0 <= t < |slots| :: s.threads[t].Updater?
  {
    var s0 := Start(m, MainThreads(slots, increments));
    StartInv(threshold, m, MainThreads(slots, increments));
    RunKeepsInv(threshold, s0, before);
    ThreadsKept(threshold, s0, before);
    Untouched(threshold, s0, before, |slots|);
    if !AllFinished(After(threshold, s0, before)) {
      var t := UpdaterMoves(threshold, After(threshold, s0, before), |slots|);
    }
  }

  lemma GetReturns(threshold: nat, s: State, g: nat, get: seq<nat>)
    requires Inv(threshold, s) && |s.threads| == g + 1 && s.threads[g] == NEW_GETTER
    requires Runs(threshold, s, get) && AtEnd(After(threshold, s, get))
    ensures get != []
    ensures var th := After(threshold, s, get).threads[g]; th.Getter? && th.gpc.Returned?
  {
    RunKeepsInv(threshold, s, get);
    ThreadsKept(threshold, s, get);
    EndFinishes(threshold, After(threshold, s, get));
  }

  /** With the `get` not yet begun, updating threads can only be stopped by being finished. */
  lemma UpdaterMoves(threshold: nat, s: State, g: nat) returns (t: nat)
    requires Inv(threshold, s) && |s.threads| == g + 1 && s.threads[g] == NEW_GETTER && !AllFinished(s)
    ensures t < g && Enabled(s, t)
  {
    t :| 0 <= t < |s.threads| && s.threads[t].Updater? && !s.threads[t].upc.Finished?;
    if !Enabled(s, t) && s.threads[t].upc.Lock? {
      var j := s.threads[t].slot;
      t := s.localLocks[j].t;
      assert HoldsSlot(s.threads[t], j);
    }
    if !Enabled(s, t) {
      t := s.globalLock.t;
      assert HoldsGlobal(s.threads[t]);
    }
  }

  lemma Counted(threshold: nat, m: nat, slots: seq<nat>, increments: nat, before: seq<nat>, get: seq<nat>)
    requires threshold > 0 && SlotsBelow(slots, m)
    requires var s0 := Start(m, MainThreads(slots, increments));
             && Runs(threshold, s0, before)
             && var s := After(threshold, s0, before);
             && AllFinished(s) && s.threads[|slots|] == NEW_GETTER
             && (forall t | 0 <= t < |slots| :: s.threads[t].Updater?)
             && Runs(threshold, s, get) && get != []
             && var th := After(threshold, s, get).threads[|slots|]; th.Getter? && th.gpc.Returned?
    ensures After(threshold, After(threshold, Start(m, MainThreads(slots, increments)), before),
            get).threads[|slots|].total
            == |slots| * increments
  {
    var g := |slots|;
    var s0 := Start(m, MainThreads(slots, increments));
    var s := After(threshold, s0, before);
    FirstOfGet(threshold, s, g, get);
    var s1 := After(threshold, s, [g]);
    RunsConcat(threshold, s0, before, [g]);
    assert get[1..] != [];
    assert get[1] == g by {
      assert Enabled(s1, get[1..][0]);
    }
    assert get[1..] == [g] + get[2..];
    assert JoinThenGet(threshold, m, slots, increments, before + [g], get[2..]);
    FinalCount(threshold, m, slots, increments, before + [g], get[2..]);
  }
}
