/**
  The plain reader-writer lock and its driver: any number of readers and writers, each entering
  and leaving the lock `loops` times. One step is one semaphore operation or one access to a
  shared variable; the writer's `value++` is a load and a store.
 */
module ReaderWriter {
  import opened Sums

  datatype Pc =
    // rwlock_acquire_readlock
    | REnter          // Sem_wait(readerLock)
    | RCount          // readers++
    | RFirst          // if (readers == 1)
    | RTakeWrite      // Sem_wait(writelock)
    | REntered        // Sem_post(readerLock)
    | Reading         // the read of value
    // rwlock_release_readlock
    | RExit           // Sem_wait(readerLock)
    | RUncount        // readers--
    | RLast           // if (readers == 0)
    | RGiveWrite      // Sem_post(writelock)
    | RLeft           // Sem_post(readerLock)
    // writer
    | WEnter          // Sem_wait(writelock)
    | WLoad
    | WStore(tmp: int)
    | WExit           // Sem_post(writelock)
    | Finished

  /** `left` counts the iterations not yet completed, the current one included. */
  datatype Thread = Thread(writer: bool, pc: Pc, left: nat)

  datatype State = State(writelock: int, readerLock: int, readers: int, value: int, threads: seq<Thread>)

  function Begin(writer: bool, left: nat): Thread {
    Thread(writer, if left == 0 then Finished else if writer then WEnter else REnter, left)
  }

  function Start(numReaders: nat, numWriters: nat, loops: nat): State {
    State(1, 1, 0, 0, seq(numReaders, i => Begin(false, loops)) + seq(numWriters, i => Begin(true, loops)))
  }

  predicate Enabled(s: State, t: nat) {
    && t < |s.threads|
    && match s.threads[t].pc
       case REnter => s.readerLock > 0
       case RTakeWrite => s.writelock > 0
       case RExit => s.readerLock > 0
       case WEnter => s.writelock > 0
       case Finished => false
       case _ => true
  }

  function At(s: State, t: nat, pc: Pc): seq<Thread>
    requires t < |s.threads|
  {
    s.threads[t := s.threads[t].(pc := pc)]
  }

  function Again(s: State, t: nat): seq<Thread>
    requires t < |s.threads|
  {
    var th := s.threads[t];
    s.threads[t := Begin(th.writer, if th.left > 0 then th.left - 1 else 0)]
  }

  function Step(s: State, t: nat): State
    requires Enabled(s, t)
  {
    match s.threads[t].pc
    case REnter => s.(readerLock := s.readerLock - 1, threads := At(s, t, RCount))
    case RCount => s.(readers := s.readers + 1, threads := At(s, t, RFirst))
    case RFirst => s.(threads := At(s, t, if s.readers == 1 then RTakeWrite else REntered))
    case RTakeWrite => s.(writelock := s.writelock - 1, threads := At(s, t, REntered))
    case REntered => s.(readerLock := s.readerLock + 1, threads := At(s, t, Reading))
    case Reading => s.(threads := At(s, t, RExit))
    case RExit => s.(readerLock := s.readerLock - 1, threads := At(s, t, RUncount))
    case RUncount => s.(readers := s.readers - 1, threads := At(s, t, RLast))
    case RLast => s.(threads := At(s, t, if s.readers == 0 then RGiveWrite else RLeft))
    case RGiveWrite => s.(writelock := s.writelock + 1, threads := At(s, t, RLeft))
    case RLeft => s.(readerLock := s.readerLock + 1, threads := Again(s, t))
    case WEnter => s.(writelock := s.writelock - 1, threads := At(s, t, WLoad))
    case WLoad => s.(threads := At(s, t, WStore(s.value)))
    case WStore(tmp) => s.(value := tmp + 1, threads := At(s, t, WExit))
    case WExit => s.(writelock := s.writelock + 1, threads := Again(s, t))
  }

  predicate Runs(s: State, sched: seq<nat>)
    decreases |sched|
  {
    sched == [] || (Enabled(s, sched[0]) && Runs(Step(s, sched[0]), sched[1..]))
  }

  function After(s: State, sched: seq<nat>): (r: State)
    requires Runs(s, sched)
    ensures |r.threads| == |s.threads|
    decreases |sched|
  {
    if sched == [] then s else After(Step(s, sched[0]), sched[1..])
  }

  // ----- weights

  function InSection(t: Thread): int {
    if t.pc in {RCount, RFirst, RTakeWrite, REntered, RUncount, RLast, RGiveWrite, RLeft} then 1 else 0
  }

  /** Readers included in the counter `readers`. */
  function Counted(t: Thread): int {
    if t.pc in {RFirst, RTakeWrite, REntered, Reading, RExit, RUncount} then 1 else 0
  }

  function Writing(t: Thread): int {
    if t.pc.WLoad? || t.pc.WStore? || t.pc.WExit? then 1 else 0
  }

  function AtFirst(t: Thread): int { if t.pc.RFirst? then 1 else 0 }

  function AtTake(t: Thread): int { if t.pc.RTakeWrite? then 1 else 0 }

  function AtGive(t: Thread): int { if t.pc.RLast? || t.pc.RGiveWrite? then 1 else 0 }

  /** Increments of `value` a thread has stored. */
  function Stored(loops: nat): Thread -> int {
    (t: Thread) => if t.writer then loops - t.left + (if t.pc.WExit? then 1 else 0) else 0
  }

  /** 1 when the readers, as a group, own writelock. */
  function GroupOwns(s: State): int {
    if Sum(s.threads, AtTake) > 0 then 0
    else if Sum(s.threads, AtFirst) > 0 then (if s.readers >= 2 then 1 else 0)
    else if Sum(s.threads, AtGive) > 0 then 1
    else if s.readers >= 1 then 1 else 0
  }

  predicate WellFormed(t: Thread) {
    match t.pc
    case Finished => t.left == 0
    case WEnter => t.writer && t.left > 0
    case WLoad => t.writer && t.left > 0
    case WStore(_) => t.writer && t.left > 0
    case WExit => t.writer && t.left > 0
    case _ => !t.writer && t.left > 0
  }

  ghost predicate ThreadInv(s: State, t: Thread) {
    && WellFormed(t)
    && (t.pc.RTakeWrite? ==> s.readers == 1)
    && (t.pc.RGiveWrite? ==> s.readers == 0)
    && (t.pc.WStore? ==> t.pc.tmp == s.value)
  }

  ghost predicate Inv(loops: nat, s: State) {
    && s.readerLock >= 0 && s.writelock >= 0
    && s.readerLock + Sum(s.threads, InSection) == 1
    && s.readers == Sum(s.threads, Counted)
    && s.writelock + Sum(s.threads, Writing) + GroupOwns(s) == 1
    && s.value == Sum(s.threads, Stored(loops))
    && (forall t | 0 <= t < |s.threads| :: ThreadInv(s, s.threads[t]))
  }

  /** What the invariant says about the thread `t` and the sums it takes part in. */
  lemma Facts(loops: nat, s: State, t: nat)
    requires Inv(loops, s) && t < |s.threads|
    ensures Sum(s.threads, AtFirst) >= AtFirst(s.threads[t])
    ensures Sum(s.threads, AtTake) >= AtTake(s.threads[t])
    ensures Sum(s.threads, AtGive) >= AtGive(s.threads[t])
    ensures Sum(s.threads, Counted) >= Counted(s.threads[t])
    ensures Sum(s.threads, Writing) >= Writing(s.threads[t])
    ensures InSection(s.threads[t]) == 1 ==>
              && s.readerLock == 0
              && Sum(s.threads, AtFirst) == AtFirst(s.threads[t])
              && Sum(s.threads, AtTake) == AtTake(s.threads[t])
              && Sum(s.threads, AtGive) == AtGive(s.threads[t])
    ensures s.readerLock > 0 ==>
              Sum(s.threads, AtFirst) == 0 && Sum(s.threads, AtTake) == 0 && Sum(s.threads, AtGive) == 0
  {
    SumAtLeast(s.threads, InSection);
    SumAtLeast(s.threads, Counted);
    SumAtLeast(s.threads, Writing);
    SumBelow(s.threads, AtFirst, InSection);
    SumBelow(s.threads, AtTake, InSection);
    SumBelow(s.threads, AtGive, InSection);
    SumAtLeast(s.threads, AtFirst);
    SumAtLeast(s.threads, AtTake);
    SumAtLeast(s.threads, AtGive);
    if InSection(s.threads[t]) == 1 {
      SumSingle(s.threads, t, AtFirst, InSection);
      SumSingle(s.threads, t, AtTake, InSection);
      SumSingle(s.threads, t, AtGive, InSection);
    }
  }

  lemma SumsAfter(loops: nat, s: State, t: nat)
    requires Enabled(s, t)
    ensures var s' := Step(s, t); var x, y := s.threads[t], s'.threads[t];
            && |s'.threads| == |s.threads|
            && Sum(s'.threads, InSection) == Sum(s.threads, InSection) - InSection(x) + InSection(y)
            && Sum(s'.threads, Counted) == Sum(s.threads, Counted) - Counted(x) + Counted(y)
            && Sum(s'.threads, Writing) == Sum(s.threads, Writing) - Writing(x) + Writing(y)
            && Sum(s'.threads, AtFirst) == Sum(s.threads, AtFirst) - AtFirst(x) + AtFirst(y)
            && Sum(s'.threads, AtTake) == Sum(s.threads, AtTake) - AtTake(x) + AtTake(y)
            && Sum(s'.threads, AtGive) == Sum(s.threads, AtGive) - AtGive(x) + AtGive(y)
            && Sum(s'.threads, Stored(loops)) == Sum(s.threads, Stored(loops)) - Stored(loops)(x) + Stored(loops)(y)
  {
    var y := Step(s, t).threads[t];
    assert Step(s, t).threads == s.threads[t := y];
    SumUpdate(s.threads, t, y, InSection);
    SumUpdate(s.threads, t, y, Counted);
    SumUpdate(s.threads, t, y, Writing);
    SumUpdate(s.threads, t, y, AtFirst);
    SumUpdate(s.threads, t, y, AtTake);
    SumUpdate(s.threads, t, y, AtGive);
    SumUpdate(s.threads, t, y, Stored(loops));
  }

  lemma StepKeepsCounts(loops: nat, s: State, t: nat)
    requires Inv(loops, s) && Enabled(s, t)
    ensures var s' := Step(s, t);
            && s'.readerLock >= 0 && s'.writelock >= 0
            && s'.readerLock + Sum(s'.threads, InSection) == 1
            && s'.readers == Sum(s'.threads, Counted)
            && s'.writelock + Sum(s'.threads, Writing) + GroupOwns(s') == 1
  {
    SumsAfter(loops, s, t);
    Facts(loops, s, t);
  }

  lemma StepKeepsThreads(loops: nat, s: State, t: nat)
    requires Inv(loops, s) && Enabled(s, t)
    ensures var s' := Step(s, t);
            && s'.value == Sum(s'.threads, Stored(loops))
            && forall u | 0 <= u < |s'.threads| :: ThreadInv(s', s'.threads[u])
  {
    SumsAfter(loops, s, t);
    Facts(loops, s, t);
    var s' := Step(s, t);
    forall u | 0 <= u < |s'.threads|
      ensures ThreadInv(s', s'.threads[u])
    {
      if u != t {
        if InSection(s.threads[t]) == 1 && InSection(s.threads[u]) == 1 {
          SumTwo(s.threads, t, u, InSection);
        } else if Writing(s.threads[t]) == 1 && Writing(s.threads[u]) == 1 {
          Facts(loops, s, u);
          SumTwo(s.threads, t, u, Writing);
        }
      }
    }
  }

  lemma StepKeepsInv(loops: nat, s: State, t: nat)
    requires Inv(loops, s) && Enabled(s, t)
    ensures Inv(loops, Step(s, t))
  {
    StepKeepsCounts(loops, s, t);
    StepKeepsThreads(loops, s, t);
  }

  lemma StartInv(numReaders: nat, numWriters: nat, loops: nat)
    ensures Inv(loops, Start(numReaders, numWriters, loops))
  {
    var ts := Start(numReaders, numWriters, loops).threads;
    SumConstant(ts, InSection, 0);
    SumConstant(ts, Counted, 0);
    SumConstant(ts, Writing, 0);
    SumConstant(ts, AtFirst, 0);
    SumConstant(ts, AtTake, 0);
    SumConstant(ts, AtGive, 0);
    SumConstant(ts, Stored(loops), 0);
  }

  lemma {:induction false} RunKeepsInv(loops: nat, s: State, sched: seq<nat>)
    requires Inv(loops, s) && Runs(s, sched)
    ensures Inv(loops, After(s, sched))
    decreases |sched|
  {
    if sched != [] {
      StepKeepsInv(loops, s, sched[0]);
      RunKeepsInv(loops, Step(s, sched[0]), sched[1..]);
    }
  }

  /** A writer inside excludes every reader and every other writer. */
  ghost predicate Exclusive(s: State) {
    forall t, u | 0 <= t < |s.threads| && 0 <= u < |s.threads| && t != u && Writing(s.threads[t]) == 1 ::
      Writing(s.threads[u]) == 0 && !s.threads[u].pc.Reading?
  }

  lemma InvExclusive(loops: nat, s: State)
    requires Inv(loops, s)
    ensures Exclusive(s)
  {
    forall t, u | 0 <= t < |s.threads| && 0 <= u < |s.threads| && t != u && Writing(s.threads[t]) == 1
      ensures Writing(s.threads[u]) == 0 && !s.threads[u].pc.Reading?
    {
      Facts(loops, s, t);
      if Writing(s.threads[u]) == 1 {
        SumTwo(s.threads, t, u, Writing);
      } else if s.threads[u].pc.Reading? {
        Facts(loops, s, u);
        assert GroupOwns(s) == 0;
        if Sum(s.threads, AtTake) > 0 {
          var v := SumWitness(s.threads, AtTake);
          SumTwo(s.threads, u, v, Counted);
        } else {
          var v := SumWitness(s.threads, AtFirst);
          SumTwo(s.threads, u, v, Counted);
        }
      }
    }
  }

  // ----- progress

  /** Program points a thread reaches only after its first semaphore wait. */
  predicate Inner(pc: Pc) {
    !(pc in {REnter, WEnter, Finished})
  }

  /** When writelock is taken, somebody past the entry can move. */
  lemma WritelockBusyProgress(loops: nat, s: State) returns (t: nat)
    requires Inv(loops, s) && s.writelock == 0
    ensures Enabled(s, t) && Inner(s.threads[t].pc)
  {
    if Sum(s.threads, Writing) > 0 {
      t := SumWitness(s.threads, Writing);
    } else if s.readerLock == 0 {
      t := SumWitness(s.threads, InSection);
      Facts(loops, s, t);
    } else {
      if |s.threads| > 0 {
        Facts(loops, s, 0);
      }
      t := SumWitness(s.threads, Counted);
      Facts(loops, s, t);
    }
  }

  lemma ReaderLockBusyProgress(loops: nat, s: State) returns (t: nat)
    requires Inv(loops, s) && s.readerLock == 0
    ensures Enabled(s, t) && Inner(s.threads[t].pc)
  {
    t := SumWitness(s.threads, InSection);
    if !Enabled(s, t) {
      t := WritelockBusyProgress(loops, s);
    }
  }

  ghost predicate AllFinished(s: State) {
    forall t | 0 <= t < |s.threads| :: s.threads[t].pc.Finished?
  }

  /** A reachable state with an unfinished thread always has a thread that can move. */
  lemma NeverStuck(loops: nat, s: State) returns (t: nat)
    requires Inv(loops, s) && !AllFinished(s)
    ensures Enabled(s, t)
  {
    t :| 0 <= t < |s.threads| && !s.threads[t].pc.Finished?;
    if !Enabled(s, t) {
      if s.threads[t].pc in {RTakeWrite, WEnter} {
        t := WritelockBusyProgress(loops, s);
      } else {
        t := ReaderLockBusyProgress(loops, s);
      }
    }
  }

  // ----- what the plain lock does not give: a waiting writer can be passed without bound

  /** Along this run from `s`, thread `w` never moves and never could. */
  predicate ShutOut(s: State, sched: seq<nat>, w: nat)
    decreases |sched|
  {
    && !Enabled(s, w)
    && (sched == [] || (Enabled(s, sched[0]) && ShutOut(Step(s, sched[0]), sched[1..], w)))
  }

  lemma ShutOutPrepend(s: State, t: nat, sched: seq<nat>, w: nat)
    requires Enabled(s, t) && !Enabled(s, w) && ShutOut(Step(s, t), sched, w)
    ensures ShutOut(s, [t] + sched, w)
  {
    assert ([t] + sched)[1..] == sched;
  }

  /** Reader `r` is inside, the other reader is about to enter, the writer (thread 2) waits. */
  function Overlap(r: nat, inside: nat, outside: nat, writes: nat): State {
    var a, b := Thread(false, Reading, inside), Thread(false, REnter, outside);
    State(0, 1, 1, 0, (if r == 0 then [a, b] else [b, a]) + [Thread(true, WEnter, writes)])
  }

  /** Both readers are inside. */
  function Both(r: nat, inside: nat, outside: nat, writes: nat): State {
    var a, b := Thread(false, Reading, inside), Thread(false, Reading, outside);
    State(0, 1, 2, 0, (if r == 0 then [a, b] else [b, a]) + [Thread(true, WEnter, writes)])
  }

  /** The other reader enters. */
  lemma JoinIn(r: nat, inside: nat, outside: nat, writes: nat, rest: seq<nat>) returns (sched: seq<nat>)
    requires r < 2 && outside >= 1
    requires ShutOut(Both(r, inside, outside, writes), rest, 2)
    ensures |sched| == 4 + |rest| && ShutOut(Overlap(r, inside, outside, writes), sched, 2)
  {
    var o := 1 - r;
    var s0 := Overlap(r, inside, outside, writes);
    var s1 := Step(s0, o);
    var s2 := Step(s1, o);
    var s3 := Step(s2, o);
    assert Step(s3, o) == Both(r, inside, outside, writes);
    ShutOutPrepend(s3, o, rest, 2);
    ShutOutPrepend(s2, o, [o] + rest, 2);
    ShutOutPrepend(s1, o, [o] + ([o] + rest), 2);
    ShutOutPrepend(s0, o, [o] + ([o] + ([o] + rest)), 2);
    sched := [o] + ([o] + ([o] + ([o] + rest)));
  }

  /** Reader `r` leaves and comes back to its entry. */
  lemma GoRound(r: nat, inside: nat, outside: nat, writes: nat, rest: seq<nat>) returns (sched: seq<nat>)
    requires r < 2 && inside >= 2
    requires ShutOut(Overlap(1 - r, outside, inside - 1, writes), rest, 2)
    ensures |sched| == 5 + |rest| && ShutOut(Both(r, inside, outside, writes), sched, 2)
  {
    var s0 := Both(r, inside, outside, writes);
    var s1 := Step(s0, r);
    var s2 := Step(s1, r);
    var s3 := Step(s2, r);
    var s4 := Step(s3, r);
    assert Step(s4, r) == Overlap(1 - r, outside, inside - 1, writes);
    ShutOutPrepend(s4, r, rest, 2);
    ShutOutPrepend(s3, r, [r] + rest, 2);
    ShutOutPrepend(s2, r, [r] + ([r] + rest), 2);
    ShutOutPrepend(s1, r, [r] + ([r] + ([r] + rest)), 2);
    ShutOutPrepend(s0, r, [r] + ([r] + ([r] + ([r] + rest))), 2);
    sched := [r] + ([r] + ([r] + ([r] + ([r] + rest))));
  }

  /** The other reader enters, then `r` leaves and comes back to its entry. */
  lemma HandOver(r: nat, inside: nat, outside: nat, writes: nat, rest: seq<nat>) returns (sched: seq<nat>)
    requires r < 2 && inside >= 2 && outside >= 1
    requires ShutOut(Overlap(1 - r, outside, inside - 1, writes), rest, 2)
    ensures |sched| == 9 + |rest| && ShutOut(Overlap(r, inside, outside, writes), sched, 2)
  {
    sched := GoRound(r, inside, outside, writes, rest);
    sched := JoinIn(r, inside, outside, writes, sched);
  }

  lemma {:induction false} PassForever(r: nat, inside: nat, outside: nat, writes: nat, k: nat) returns (sched: seq<nat>)
    requires r < 2 && inside > k && outside > k
    ensures |sched| == 9 * k && ShutOut(Overlap(r, inside, outside, writes), sched, 2)
    decreases k
  {
    if k == 0 {
      sched := [];
    } else {
      var rest := PassForever(1 - r, outside, inside - 1, writes, k - 1);
      sched := HandOver(r, inside, outside, writes, rest);
    }
  }

  /** After `prefix` the writer waits, and then `sched` passes it. */
  predicate Starves(loops: nat, prefix: seq<nat>, sched: seq<nat>) {
    && Runs(Start(2, 1, loops), prefix)
    && After(Start(2, 1, loops), prefix).threads[2].pc.WEnter?
    && ShutOut(After(Start(2, 1, loops), prefix), sched, 2)
  }

  /**
    With two readers and one writer the plain lock admits, for every `k`, a run in which readers
    take 9k steps past a writer that is waiting and never once could have entered.
   */
  lemma PlainLockStarvesWriter(k: nat)
    ensures exists loops, prefix, sched :: Starves(loops, prefix, sched) && |sched| == 9 * k
  {
    var loops := k + 1;
    var s0 := Start(2, 1, loops);
    var s1 := Step(s0, 0);
    var s2 := Step(s1, 0);
    var s3 := Step(s2, 0);
    var s4 := Step(s3, 0);
    assert Step(s4, 0) == Overlap(0, loops, loops, loops);
    var prefix := [0, 0, 0, 0, 0];
    assert prefix[1..] == [0, 0, 0, 0] && [0, 0, 0, 0][1..] == [0, 0, 0];
    assert [0, 0, 0][1..] == [0, 0] && [0, 0][1..] == [0] && [0][1..] == [];
    assert Runs(s4, [0]) && Runs(s3, [0, 0]) && Runs(s2, [0, 0, 0]);
    assert After(s4, [0]) == Step(s4, 0);
    assert After(s3, [0, 0]) == Step(s4, 0);
    assert After(s2, [0, 0, 0]) == Step(s4, 0);
    assert Runs(s1, [0, 0, 0, 0]) && After(s1, [0, 0, 0, 0]) == Step(s4, 0);
    var sched := PassForever(0, loops, loops, loops, k);
    assert Starves(loops, prefix, sched);
  }
}
