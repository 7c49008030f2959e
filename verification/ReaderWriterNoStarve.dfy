/**
  The reader-writer lock with a turnstile, `blockNewReader` (here `gate`): readers pass through it,
  a writer keeps it closed from before it waits for writelock until it leaves.

  The lock refines the plain one, never gets stuck, counts correctly, and lets a waiting writer in
  after a number of steps linear in the number of threads.
 */
module ReaderWriterNoStarve {
  import opened Sums
  import Plain = ReaderWriter

  datatype Pc =
    // rwlock_acquire_readlock
    | RGate           // Sem_wait(blockNewReader)
    | RPass           // Sem_post(blockNewReader)
    | REnter          // Sem_wait(readerLock)
    | RCount          // readers++
    | RFirst          // if (readers == 1)
    | RTakeWrite      // Sem_wait(writelock)
    | REntered        // Sem_post(readerLock)
    | Reading         // the read of value
    // rwlock_release_readlock
    | RExit           // Sem_wait(readerLock)
    | RUncount        // readers--
    | RLast           // if (readers == 0)
    | RGiveWrite      // Sem_post(writelock)
    | RLeft           // Sem_post(readerLock)
    // writer
    | WGate           // Sem_wait(blockNewReader)
    | WEnter          // Sem_wait(writelock)
    | WLoad
    | WStore(tmp: int)
    | WUngate         // Sem_post(blockNewReader)
    | WExit           // Sem_post(writelock)
    | Finished

  datatype Thread = Thread(writer: bool, pc: Pc, left: nat)

  datatype State = State(gate: int, writelock: int, readerLock: int, readers: int, value: int, threads: seq<Thread>)

  function Begin(writer: bool, left: nat): Thread {
    Thread(writer, if left == 0 then Finished else if writer then WGate else RGate, left)
  }

  /** `rwlock_init` followed by the creation of the threads. */
  function Start(numReaders: nat, numWriters: nat, loops: nat): State {
    State(1, 1, 1, 0, 0, seq(numReaders, i => Begin(false, loops)) + seq(numWriters, i => Begin(true, loops)))
  }

  predicate Enabled(s: State, t: nat) {
    && t < |s.threads|
    && match s.threads[t].pc
       case RGate => s.gate > 0
       case REnter => s.readerLock > 0
       case RTakeWrite => s.writelock > 0
       case RExit => s.readerLock > 0
       case WGate => s.gate > 0
       case WEnter => s.writelock > 0
       case Finished => false
       case _ => true
  }

  function At(s: State, t: nat, pc: Pc): seq<Thread>
    requires t < |s.threads|
  {
    s.threads[t := s.threads[t].(pc := pc)]
  }

  function Again(s: State, t: nat): seq<Thread>
    requires t < |s.threads|
  {
    var th := s.threads[t];
    s.threads[t := Begin(th.writer, if th.left > 0 then th.left - 1 else 0)]
  }

  function Step(s: State, t: nat): State
    requires Enabled(s, t)
  {
    match s.threads[t].pc
    case RGate => s.(gate := s.gate - 1, threads := At(s, t, RPass))
    case RPass => s.(gate := s.gate + 1, threads := At(s, t, REnter))
    case REnter => s.(readerLock := s.readerLock - 1, threads := At(s, t, RCount))
    case RCount => s.(readers := s.readers + 1, threads := At(s, t, RFirst))
    case RFirst => s.(threads := At(s, t, if s.readers == 1 then RTakeWrite else REntered))
    case RTakeWrite => s.(writelock := s.writelock - 1, threads := At(s, t, REntered))
    case REntered => s.(readerLock := s.readerLock + 1, threads := At(s, t, Reading))
    case Reading => s.(threads := At(s, t, RExit))
    case RExit => s.(readerLock := s.readerLock - 1, threads := At(s, t, RUncount))
    case RUncount => s.(readers := s.readers - 1, threads := At(s, t, RLast))
    case RLast => s.(threads := At(s, t, if s.readers == 0 then RGiveWrite else RLeft))
    case RGiveWrite => s.(writelock := s.writelock + 1, threads := At(s, t, RLeft))
    case RLeft => s.(readerLock := s.readerLock + 1, threads := Again(s, t))
    case WGate => s.(gate := s.gate - 1, threads := At(s, t, WEnter))
    case WEnter => s.(writelock := s.writelock - 1, threads := At(s, t, WLoad))
    case WLoad => s.(threads := At(s, t, WStore(s.value)))
    case WStore(tmp) => s.(value := tmp + 1, threads := At(s, t, WUngate))
    case WUngate => s.(gate := s.gate + 1, threads := At(s, t, WExit))
    case WExit => s.(writelock := s.writelock + 1, threads := Again(s, t))
  }

  predicate Runs(s: State, sched: seq<nat>)
    decreases |sched|
  {
    sched == [] || (Enabled(s, sched[0]) && Runs(Step(s, sched[0]), sched[1..]))
  }

  function After(s: State, sched: seq<nat>): (r: State)
    requires Runs(s, sched)
    ensures |r.threads| == |s.threads|
    decreases |sched|
  {
    if sched == [] then s else After(Step(s, sched[0]), sched[1..])
  }

  // ----- refinement of the plain lock

  function AbsPc(pc: Pc): Plain.Pc {
    match pc
    case RGate => Plain.REnter
    case RPass => Plain.REnter
    case REnter => Plain.REnter
    case RCount => Plain.RCount
    case RFirst => Plain.RFirst
    case RTakeWrite => Plain.RTakeWrite
    case REntered => Plain.REntered
    case Reading => Plain.Reading
    case RExit => Plain.RExit
    case RUncount => Plain.RUncount
    case RLast => Plain.RLast
    case RGiveWrite => Plain.RGiveWrite
    case RLeft => Plain.RLeft
    case WGate => Plain.WEnter
    case WEnter => Plain.WEnter
    case WLoad => Plain.WLoad
    case WStore(tmp) => Plain.WStore(tmp)
    case WUngate => Plain.WExit
    case WExit => Plain.WExit
    case Finished => Plain.Finished
  }

  function AbsThread(t: Thread): Plain.Thread {
    Plain.Thread(t.writer, AbsPc(t.pc), t.left)
  }

  /** Forget the turnstile. */
  function Abs(s: State): Plain.State {
    Plain.State(s.writelock, s.readerLock, s.readers, s.value, AbsThreads(s.threads))
  }

  function AbsThreads(ts: seq<Thread>): seq<Plain.Thread> {
    seq(|ts|, i requires 0 <= i < |ts| => AbsThread(ts[i]))
  }

  /** The steps the plain lock does not have. */
  predicate AtGate(pc: Pc) {
    pc in {RGate, RPass, WGate, WUngate}
  }

  function AbsSchedule(s: State, sched: seq<nat>): seq<nat>
    requires Runs(s, sched)
    decreases |sched|
  {
    if sched == [] then []
    else
      var rest := AbsSchedule(Step(s, sched[0]), sched[1..]);
      if AtGate(s.threads[sched[0]].pc) then rest else [sched[0]] + rest
  }

  lemma StepRefines(s: State, t: nat)
    requires Enabled(s, t)
    ensures AtGate(s.threads[t].pc) ==> Abs(Step(s, t)) == Abs(s)
    ensures !AtGate(s.threads[t].pc) ==>
              Plain.Enabled(Abs(s), t) && Plain.Step(Abs(s), t) == Abs(Step(s, t))
  {
    AbsUpdate(s.threads, t, Step(s, t).threads[t]);
  }

  /** Erasing commutes with a change to one thread. */
  lemma AbsUpdate(ts: seq<Thread>, t: nat, x: Thread)
    requires t < |ts|
    ensures AbsThreads(ts)[t] == AbsThread(ts[t])
    ensures AbsThreads(ts[t := x]) == AbsThreads(ts)[t := AbsThread(x)]
  {
  }

  /** Erasing the turnstile turns every run into a run of the plain lock. */
  lemma {:induction false} RefinesPlain(s: State, sched: seq<nat>)
    requires Runs(s, sched)
    ensures Plain.Runs(Abs(s), AbsSchedule(s, sched))
    ensures Plain.After(Abs(s), AbsSchedule(s, sched)) == Abs(After(s, sched))
    decreases |sched|
  {
    if sched != [] {
      var s1 := Step(s, sched[0]);
      StepRefines(s, sched[0]);
      RefinesPlain(s1, sched[1..]);
      var rest := AbsSchedule(s1, sched[1..]);
      if !AtGate(s.threads[sched[0]].pc) {
        assert ([sched[0]] + rest)[1..] == rest;
      }
    }
  }

  // ----- invariant: the plain lock's, and the turnstile's

  function HoldsGate(t: Thread): int {
    if t.pc.RPass? || t.pc.WEnter? || t.pc.WLoad? || t.pc.WStore? || t.pc.WUngate? then 1 else 0
  }

  ghost predicate Inv(loops: nat, s: State) {
    && Plain.Inv(loops, Abs(s))
    && s.gate >= 0
    && s.gate + Sum(s.threads, HoldsGate) == 1
  }

  lemma StepKeepsInv(loops: nat, s: State, t: nat)
    requires Inv(loops, s) && Enabled(s, t)
    ensures Inv(loops, Step(s, t))
  {
    StepRefines(s, t);
    if !AtGate(s.threads[t].pc) {
      Plain.StepKeepsInv(loops, Abs(s), t);
    }
    SumUpdate(s.threads, t, Step(s, t).threads[t], HoldsGate);
  }

  lemma {:induction false} RunKeepsInv(loops: nat, s: State, sched: seq<nat>)
    requires Inv(loops, s) && Runs(s, sched)
    ensures Inv(loops, After(s, sched))
    decreases |sched|
  {
    if sched != [] {
      StepKeepsInv(loops, s, sched[0]);
      RunKeepsInv(loops, Step(s, sched[0]), sched[1..]);
    }
  }

  lemma StartInv(numReaders: nat, numWriters: nat, loops: nat)
    ensures Inv(loops, Start(numReaders, numWriters, loops))
    ensures Abs(Start(numReaders, numWriters, loops)) == Plain.Start(numReaders, numWriters, loops)
  {
    var s := Start(numReaders, numWriters, loops);
    assert Abs(s).threads == Plain.Start(numReaders, numWriters, loops).threads;
    Plain.StartInv(numReaders, numWriters, loops);
    SumConstant(s.threads, HoldsGate, 0);
  }

  // ----- safety

  predicate Writing(pc: Pc) {
    pc.WLoad? || pc.WStore? || pc.WUngate? || pc.WExit?
  }

  /**
    In every run: a writer inside excludes every reader and every other writer, and `readers` is
    the number of readers between their increment and their decrement.
   */
  lemma MutualExclusion(numReaders: nat, numWriters: nat, loops: nat, sched: seq<nat>)
    requires Runs(Start(numReaders, numWriters, loops), sched)
    ensures var s := After(Start(numReaders, numWriters, loops), sched);
            && (forall t, u | 0 <= t < |s.threads| && 0 <= u < |s.threads| && t != u && Writing(s.threads[t].pc) ::
                  !Writing(s.threads[u].pc) && !s.threads[u].pc.Reading?)
            && s.readers == Sum(Abs(s).threads, Plain.Counted)
  {
    StartInv(numReaders, numWriters, loops);
    RunKeepsInv(loops, Start(numReaders, numWriters, loops), sched);
    Exclusive(loops, After(Start(numReaders, numWriters, loops), sched));
  }

  lemma Exclusive(loops: nat, s: State)
    requires Inv(loops, s)
    ensures forall t, u | 0 <= t < |s.threads| && 0 <= u < |s.threads| && t != u && Writing(s.threads[t].pc) ::
              !Writing(s.threads[u].pc) && !s.threads[u].pc.Reading?
    ensures s.readers == Sum(Abs(s).threads, Plain.Counted)
  {
    Plain.InvExclusive(loops, Abs(s));
    forall t, u | 0 <= t < |s.threads| && 0 <= u < |s.threads| && t != u && Writing(s.threads[t].pc)
      ensures !Writing(s.threads[u].pc) && !s.threads[u].pc.Reading?
    {
      assert Abs(s).threads[t] == AbsThread(s.threads[t]) && Abs(s).threads[u] == AbsThread(s.threads[u]);
    }
  }

  ghost predicate AllFinished(s: State) {
    forall t | 0 <= t < |s.threads| :: s.threads[t].pc.Finished?
  }

  /** When all threads have finished, no increment has been lost and the lock is free again. */
  lemma FinalValue(numReaders: nat, numWriters: nat, loops: nat, sched: seq<nat>)
    requires Runs(Start(numReaders, numWriters, loops), sched)
    requires AllFinished(After(Start(numReaders, numWriters, loops), sched))
    ensures var s := After(Start(numReaders, numWriters, loops), sched);
            && s.value == numWriters * loops
            && s.gate == 1 && s.writelock == 1 && s.readerLock == 1 && s.readers == 0
  {
    var s0 := Start(numReaders, numWriters, loops);
    StartInv(numReaders, numWriters, loops);
    RunKeepsInv(loops, s0, sched);
    RolesKept(s0, sched);
    FinishedState(numReaders, numWriters, loops, After(s0, sched));
  }

  lemma FinishedThreads(numReaders: nat, loops: nat, s: State)
    requires Inv(loops, s) && AllFinished(s)
    requires forall i | 0 <= i < |s.threads| :: s.threads[i].writer == (i >= numReaders)
    ensures forall i | 0 <= i < |s.threads| ::
              Abs(s).threads[i] == Plain.Thread(i >= numReaders, Plain.Finished, 0)
  {
    forall i | 0 <= i < |s.threads|
      ensures Abs(s).threads[i] == Plain.Thread(i >= numReaders, Plain.Finished, 0)
    {
      assert Plain.ThreadInv(Abs(s), Abs(s).threads[i]);
    }
  }

  lemma FinishedState(numReaders: nat, numWriters: nat, loops: nat, s: State)
    requires Inv(loops, s) && AllFinished(s) && |s.threads| == numReaders + numWriters
    requires forall i | 0 <= i < |s.threads| :: s.threads[i].writer == (i >= numReaders)
    ensures s.value == numWriters * loops
    ensures s.gate == 1 && s.writelock == 1 && s.readerLock == 1 && s.readers == 0
  {
    FinishedThreads(numReaders, loops, s);
    SumConstant(s.threads, HoldsGate, 0);
    FinishedSums(loops, Abs(s).threads, numReaders, numWriters);
  }

  // ----- the program ends

  /** Steps left in the current round of a thread, the present one not counted. */
  function ToGo(pc: Pc): int {
    match pc
    case RGate => 12
    case RPass => 11
    case REnter => 10
    case RCount => 9
    case RFirst => 8
    case RTakeWrite => 7
    case REntered => 6
    case Reading => 5
    case RExit => 4
    case RUncount => 3
    case RLast => 2
    case RGiveWrite => 1
    case WGate => 5
    case WEnter => 4
    case WLoad => 3
    case WStore(_) => 2
    case WUngate => 1
    case _ => 0
  }

  function Work(t: Thread): int {
    if t.pc.Finished? then 0 else 13 * t.left + ToGo(t.pc) - 12
  }

  lemma WorkFalls(loops: nat, s: State, t: nat)
    requires Inv(loops, s) && Enabled(s, t)
    ensures Sum(Step(s, t).threads, Work) < Sum(s.threads, Work)
  {
    assert Plain.ThreadInv(Abs(s), Abs(s).threads[t]);
    MoverWorks(s, t);
    SumUpdate(s.threads, t, Step(s, t).threads[t], Work);
  }

  lemma MoverWorks(s: State, t: nat)
    requires Enabled(s, t) && s.threads[t].left > 0
    ensures Step(s, t).threads == s.threads[t := Step(s, t).threads[t]]
    ensures Work(Step(s, t).threads[t]) < Work(s.threads[t])
  {
  }

  lemma {:induction false} WorkNonNegative(loops: nat, s: State, k: nat)
    requires Inv(loops, s) && k <= |s.threads|
    ensures Sum(s.threads[k..], Work) >= 0
    decreases |s.threads| - k
  {
    if k < |s.threads| {
      assert Plain.ThreadInv(Abs(s), Abs(s).threads[k]);
      WorkNonNegative(loops, s, k + 1);
      assert s.threads[k..][1..] == s.threads[k + 1..];
    }
  }

  lemma {:induction false} RunBounded(loops: nat, s: State, sched: seq<nat>)
    requires Inv(loops, s) && Runs(s, sched)
    ensures |sched| <= Sum(s.threads, Work)
    decreases |sched|
  {
    if sched == [] {
      WorkNonNegative(loops, s, 0);
      assert s.threads[0..] == s.threads;
    } else {
      WorkFalls(loops, s, sched[0]);
      StepKeepsInv(loops, s, sched[0]);
      RunBounded(loops, Step(s, sched[0]), sched[1..]);
    }
  }

  /**
    The program ends under every schedule, after at most 13 steps per thread and round, and a run
    that cannot go on has finished all threads and counted every write.
   */
  lemma ProgramEnds(numReaders: nat, numWriters: nat, loops: nat, sched: seq<nat>)
    requires Runs(Start(numReaders, numWriters, loops), sched)
    ensures |sched| <= (numReaders + numWriters) * (13 * loops)
    ensures var s := After(Start(numReaders, numWriters, loops), sched);
            (forall t :: !Enabled(s, t)) ==> AllFinished(s) && s.value == numWriters * loops
  {
    var s0 := Start(numReaders, numWriters, loops);
    StartInv(numReaders, numWriters, loops);
    RunBounded(loops, s0, sched);
    SumBound(s0.threads, Work, 13 * loops);
    DeadlockFree(numReaders, numWriters, loops, sched);
    if AllFinished(After(s0, sched)) {
      FinalValue(numReaders, numWriters, loops, sched);
    }
  }

  lemma {:induction false} RolesKept(s: State, sched: seq<nat>)
    requires Runs(s, sched)
    ensures forall t | 0 <= t < |s.threads| :: After(s, sched).threads[t].writer == s.threads[t].writer
    decreases |sched|
  {
    if sched != [] {
      RolesKept(Step(s, sched[0]), sched[1..]);
    }
  }

  lemma FinishedSums(loops: nat, ts: seq<Plain.Thread>, numReaders: nat, numWriters: nat)
    requires |ts| == numReaders + numWriters
    requires forall i | 0 <= i < |ts| :: ts[i] == Plain.Thread(i >= numReaders, Plain.Finished, 0)
    ensures Sum(ts, Plain.Stored(loops)) == numWriters * loops
    ensures Sum(ts, Plain.InSection) == Sum(ts, Plain.Counted) == Sum(ts, Plain.Writing) == 0
    ensures Sum(ts, Plain.AtFirst) == Sum(ts, Plain.AtTake) == Sum(ts, Plain.AtGive) == 0
  {
    assert ts == ts[..numReaders] + ts[numReaders..];
    SumConcat(ts[..numReaders], ts[numReaders..], Plain.Stored(loops));
    SumConstant(ts[..numReaders], Plain.Stored(loops), 0);
    SumConstant(ts[numReaders..], Plain.Stored(loops), loops);
    SumConstant(ts, Plain.InSection, 0);
    SumConstant(ts, Plain.Counted, 0);
    SumConstant(ts, Plain.Writing, 0);
    SumConstant(ts, Plain.AtFirst, 0);
    SumConstant(ts, Plain.AtTake, 0);
    SumConstant(ts, Plain.AtGive, 0);
  }

  // ----- deadlock freedom

  /** A thread the plain lock would let move past its entry can move here as well. */
  lemma InnerMoves(s: State, t: nat)
    requires Plain.Enabled(Abs(s), t) && Plain.Inner(Abs(s).threads[t].pc)
    ensures Enabled(s, t)
  {
    assert Abs(s).threads[t] == AbsThread(s.threads[t]);
  }

  lemma InvNeverStuck(loops: nat, s: State) returns (t: nat)
    requires Inv(loops, s) && !AllFinished(s)
    ensures Enabled(s, t)
  {
    t :| 0 <= t < |s.threads| && !s.threads[t].pc.Finished?;
    if !Enabled(s, t) && AtGate(s.threads[t].pc) {
      t := SumWitness(s.threads, HoldsGate);
    }
    if !Enabled(s, t) {
      if s.threads[t].pc in {RTakeWrite, WEnter} {
        t := Plain.WritelockBusyProgress(loops, Abs(s));
      } else {
        t := Plain.ReaderLockBusyProgress(loops, Abs(s));
      }
      InnerMoves(s, t);
    }
  }

  /** Every run that has not finished can be continued. */
  lemma DeadlockFree(numReaders: nat, numWriters: nat, loops: nat, sched: seq<nat>)
    requires Runs(Start(numReaders, numWriters, loops), sched)
    ensures var s := After(Start(numReaders, numWriters, loops), sched);
            AllFinished(s) || exists t :: Enabled(s, t)
  {
    var s := After(Start(numReaders, numWriters, loops), sched);
    StartInv(numReaders, numWriters, loops);
    RunKeepsInv(loops, Start(numReaders, numWriters, loops), sched);
    if !AllFinished(s) {
      var t := InvNeverStuck(loops, s);
    }
  }

  // ----- bounded bypass of a waiting writer

  /** Steps a thread can still take while the turnstile stays closed. */
  function Rank(t: Thread): int {
    match t.pc
    case REnter => 11
    case RCount => 10
    case RFirst => 9
    case RTakeWrite => 8
    case REntered => 7
    case Reading => 6
    case RExit => 5
    case RUncount => 4
    case RLast => 3
    case RGiveWrite => 2
    case RLeft => 1
    case WExit => 1
    case _ => 0
  }

  /** Writer `w` has closed the turnstile and waits for writelock. */
  predicate Waits(s: State, w: nat) {
    w < |s.threads| && s.threads[w].pc.WEnter?
  }

  lemma GateClosed(loops: nat, s: State, w: nat, t: nat)
    requires Inv(loops, s) && Waits(s, w) && t < |s.threads|
    ensures s.gate == 0
    ensures t != w ==> HoldsGate(s.threads[t]) == 0
  {
    SumAtLeast(s.threads, HoldsGate);
    if t != w && HoldsGate(s.threads[t]) == 1 {
      SumTwo(s.threads, w, t, HoldsGate);
    }
  }

  lemma BypassCosts(loops: nat, s: State, w: nat, t: nat)
    requires Inv(loops, s) && Waits(s, w) && Enabled(s, t) && t != w
    ensures Waits(Step(s, t), w)
    ensures Sum(Step(s, t).threads, Rank) <= Sum(s.threads, Rank) - 1
  {
    GateClosed(loops, s, w, t);
    SumUpdate(s.threads, t, Step(s, t).threads[t], Rank);
  }

  lemma {:induction false} BypassRun(loops: nat, s: State, w: nat, sched: seq<nat>)
    requires Inv(loops, s) && Waits(s, w) && Runs(s, sched) && w !in sched
    ensures Waits(After(s, sched), w)
    ensures Sum(After(s, sched).threads, Rank) + |sched| <= Sum(s.threads, Rank)
    decreases |sched|
  {
    if sched != [] {
      BypassCosts(loops, s, w, sched[0]);
      StepKeepsInv(loops, s, sched[0]);
      BypassRun(loops, Step(s, sched[0]), w, sched[1..]);
    }
  }

  /** No reader that is still in front of the closed turnstile gets past it. */
  lemma {:induction false} TurnstileHolds(loops: nat, s: State, w: nat, sched: seq<nat>, r: nat)
    requires Inv(loops, s) && Waits(s, w) && Runs(s, sched) && w !in sched
    requires r < |s.threads| && s.threads[r].pc.RGate?
    ensures r !in sched && After(s, sched).threads[r] == s.threads[r]
    decreases |sched|
  {
    if sched != [] {
      GateClosed(loops, s, w, sched[0]);
      BypassCosts(loops, s, w, sched[0]);
      StepKeepsInv(loops, s, sched[0]);
      TurnstileHolds(loops, Step(s, sched[0]), w, sched[1..], r);
    }
  }

  lemma RankLinear(ts: seq<Thread>, w: nat)
    requires w < |ts| && Rank(ts[w]) == 0
    ensures Sum(ts, Rank) <= 11 * (|ts| - 1)
  {
    var heavy := Thread(false, REnter, 0);
    SumUpdate(ts, w, heavy, Rank);
    SumBound(ts[w := heavy], Rank, 11);
  }

  /**
    Bounded bypass. From any reachable state in which writer `w` waits with the turnstile closed,
    under every schedule: the other threads together take at most 11(n-1) steps before `w` moves;
    as long as `w` has not moved some thread can; and when `w` moves it is inside.
   */
  lemma WriterBypassBounded(numReaders: nat, numWriters: nat, loops: nat, prefix: seq<nat>, w: nat, sched: seq<nat>)
    requires Runs(Start(numReaders, numWriters, loops), prefix)
    requires var s := After(Start(numReaders, numWriters, loops), prefix); Waits(s, w) && Runs(s, sched)
    ensures |sched| > 11 * (numReaders + numWriters - 1) ==> w in sched
    ensures w !in sched ==>
              var s' := After(After(Start(numReaders, numWriters, loops), prefix), sched);
              && (exists t :: Enabled(s', t))
              && (Enabled(s', w) ==> Writing(Step(s', w).threads[w].pc))
  {
    var s := After(Start(numReaders, numWriters, loops), prefix);
    StartInv(numReaders, numWriters, loops);
    RunKeepsInv(loops, Start(numReaders, numWriters, loops), prefix);
    if w !in sched {
      BypassRun(loops, s, w, sched);
      RunKeepsInv(loops, s, sched);
      RankLinear(s.threads, w);
      SumAtLeast(After(s, sched).threads, Rank);
      var t := InvNeverStuck(loops, After(s, sched));
    }
  }
}
