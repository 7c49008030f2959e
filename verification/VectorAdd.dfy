/**
  `vector_add` in its three locking disciplines, run by any number of threads on any vectors.

  One step is one lock operation, one element load, or one element store; of the two loads of an
  iteration that of the destination comes first. The locks are plain mutexes: a thread that locks a
  mutex it already holds waits for ever.
 */
module VectorAdd {

  datatype Variant =
    | GlobalOrder      // vector-global-order.c: the lower address first
    | ArgumentOrder    // vector-deadlock.c: the destination first
    | AcquisitionLock  // vector-avoid-hold-and-wait.c: the destination first, under a global lock

  datatype Call = Call(dst: nat, src: nat)

  /** `m` vectors of `len` elements; lock `m` is the global acquisition lock. */
  datatype Config = Config(variant: Variant, m: nat, len: nat)

  datatype Pc =
    | Gate
    | First
    | Second
    | Ungate
    | Load(i: nat)                // the load of v_dst->values[i]
    | LoadSrc(i: nat, left: int)  // the load of v_src->values[i]
    | Store(i: nat, tmp: int)
    | Release1
    | Release2
    | Done

  /** `todo` starts with the call being executed. */
  datatype Thread = Thread(pc: Pc, todo: seq<Call>)

  datatype Holder = Free | HeldBy(t: nat)

  datatype Entry = Entry(t: nat, call: Call)

  /** `log` is a history: the calls in the order in which they obtained their last lock. */
  datatype State = State(owner: seq<Holder>, values: seq<seq<int>>, threads: seq<Thread>, log: seq<Entry>)

  // ----- one call

  function FirstLock(v: Variant, c: Call): nat {
    if v.GlobalOrder? && c.src < c.dst then c.src else c.dst
  }

  function SecondLock(v: Variant, c: Call): nat {
    if v.GlobalOrder? && c.src < c.dst then c.dst else c.src
  }

  predicate NeedsSecond(v: Variant, c: Call) {
    v.GlobalOrder? ==> c.dst != c.src
  }

  function FirstReleased(v: Variant, c: Call): nat {
    if v.GlobalOrder? then c.src else c.dst
  }

  function SecondReleased(v: Variant, c: Call): nat {
    if v.GlobalOrder? then c.dst else c.src
  }

  function Body(cfg: Config): Pc {
    if cfg.len > 0 then Load(0) else Release1
  }

  function Begin(cfg: Config, todo: seq<Call>): Thread {
    Thread(if todo == [] then Done else if cfg.variant.AcquisitionLock? then Gate else First, todo)
  }

  function Start(cfg: Config, reqs: seq<seq<Call>>, init: seq<seq<int>>): State {
    State(seq(cfg.m + 1, x => Free), init,
          seq(|reqs|, t requires 0 <= t < |reqs| => Begin(cfg, reqs[t])), [])
  }

  predicate ValidCalls(cfg: Config, calls: seq<Call>) {
    forall i | 0 <= i < |calls| :: calls[i].dst < cfg.m && calls[i].src < cfg.m
  }

  predicate ThreadOk(cfg: Config, t: Thread) {
    && ValidCalls(cfg, t.todo)
    && (t.pc.Done? <==> t.todo == [])
    && (t.pc.Load? ==> t.pc.i < cfg.len)
    && (t.pc.LoadSrc? ==> t.pc.i < cfg.len)
    && (t.pc.Store? ==> t.pc.i < cfg.len)
    && (t.pc.Gate? || t.pc.Ungate? ==> cfg.variant.AcquisitionLock?)
    && (t.pc.Second? ==> NeedsSecond(cfg.variant, t.todo[0]))
    && (t.pc.Release2? ==> NeedsSecond(cfg.variant, t.todo[0]))
  }

  predicate Shape(cfg: Config, s: State) {
    && |s.owner| == cfg.m + 1
    && |s.values| == cfg.m
    && (forall x | 0 <= x < cfg.m :: |s.values[x]| == cfg.len)
    && (forall t | 0 <= t < |s.threads| :: ThreadOk(cfg, s.threads[t]))
  }

  /** The lock a thread's next step acquires, if that step is an acquisition. */
  predicate Wants(cfg: Config, th: Thread, x: nat) {
    match th.pc
    case Gate => x == cfg.m
    case First => th.todo != [] && x == FirstLock(cfg.variant, th.todo[0])
    case Second => th.todo != [] && x == SecondLock(cfg.variant, th.todo[0])
    case _ => false
  }

  predicate Enabled(cfg: Config, s: State, t: nat) {
    && t < |s.threads|
    && !s.threads[t].pc.Done?
    && forall x | 0 <= x < |s.owner| && Wants(cfg, s.threads[t], x) :: s.owner[x].Free?
  }

  function Step(cfg: Config, s: State, t: nat): State
    requires Shape(cfg, s) && Enabled(cfg, s, t)
  {
    var th := s.threads[t];
    var c := th.todo[0];
    var v := cfg.variant;
    match th.pc
    case Gate =>
      s.(owner := s.owner[cfg.m := HeldBy(t)], threads := s.threads[t := th.(pc := First)])
    case First =>
      var s1 := s.(owner := s.owner[FirstLock(v, c) := HeldBy(t)]);
      if NeedsSecond(v, c)
      then s1.(threads := s.threads[t := th.(pc := Second)])
      else s1.(threads := s.threads[t := th.(pc := Body(cfg))], log := s.log + [Entry(t, c)])
    case Second =>
      s.(owner := s.owner[SecondLock(v, c) := HeldBy(t)],
         threads := s.threads[t := th.(pc := if v.AcquisitionLock? then Ungate else Body(cfg))],
         log := s.log + [Entry(t, c)])
    case Ungate =>
      s.(owner := s.owner[cfg.m := Free], threads := s.threads[t := th.(pc := Body(cfg))])
    case Load(i) =>
      s.(threads := s.threads[t := th.(pc := LoadSrc(i, s.values[c.dst][i]))])
    case LoadSrc(i, left) =>
      s.(threads := s.threads[t := th.(pc := Store(i, left + s.values[c.src][i]))])
    case Store(i, tmp) =>
      s.(values := s.values[c.dst := s.values[c.dst][i := tmp]],
         threads := s.threads[t := th.(pc := if i + 1 < cfg.len then Load(i + 1) else Release1)])
    case Release1 =>
      s.(owner := s.owner[FirstReleased(v, c) := Free],
         threads := s.threads[t := if NeedsSecond(v, c) then th.(pc := Release2) else Begin(cfg, th.todo[1..])])
    case Release2 =>
      s.(owner := s.owner[SecondReleased(v, c) := Free],
         threads := s.threads[t := Begin(cfg, th.todo[1..])])
  }

  lemma StepShape(cfg: Config, s: State, t: nat)
    requires Shape(cfg, s) && Enabled(cfg, s, t)
    ensures Shape(cfg, Step(cfg, s, t)) && |Step(cfg, s, t).threads| == |s.threads|
  {
  }

  ghost predicate Runs(cfg: Config, s: State, sched: seq<nat>)
    requires Shape(cfg, s)
    decreases |sched|
  {
    sched == [] ||
    (Enabled(cfg, s, sched[0]) && (StepShape(cfg, s, sched[0]); Runs(cfg, Step(cfg, s, sched[0]), sched[1..])))
  }

  ghost function After(cfg: Config, s: State, sched: seq<nat>): (r: State)
    requires Shape(cfg, s) && Runs(cfg, s, sched)
    ensures Shape(cfg, r) && |r.threads| == |s.threads|
    decreases |sched|
  {
    if sched == [] then s
    else
      StepShape(cfg, s, sched[0]);
      After(cfg, Step(cfg, s, sched[0]), sched[1..])
  }

  /** What the driver hands over: vectors of the right size, calls on existing vectors. */
  predicate ValidInput(cfg: Config, reqs: seq<seq<Call>>, init: seq<seq<int>>) {
    && |init| == cfg.m
    && (forall x | 0 <= x < cfg.m :: |init[x]| == cfg.len)
    && (forall t | 0 <= t < |reqs| :: ValidCalls(cfg, reqs[t]))
  }

  // ----- who holds what

  predicate Holds(cfg: Config, th: Thread, x: nat) {
    && th.todo != []
    && var c := th.todo[0];
    match th.pc
    case Gate => false
    case First => cfg.variant.AcquisitionLock? && x == cfg.m
    case Second => x == FirstLock(cfg.variant, c) || (cfg.variant.AcquisitionLock? && x == cfg.m)
    case Ungate => x == c.dst || x == c.src || x == cfg.m
    case Load(_) => x == c.dst || x == c.src
    case LoadSrc(_, _) => x == c.dst || x == c.src
    case Store(_, _) => x == c.dst || x == c.src
    case Release1 => x == c.dst || x == c.src
    case Release2 => x == SecondReleased(cfg.variant, c)
    case Done => false
  }

  /** Between the last acquisition and the first release of a call. */
  predicate Working(pc: Pc) {
    pc.Ungate? || pc.Load? || pc.LoadSrc? || pc.Store?
  }

  predicate PastLockPoint(pc: Pc) {
    Working(pc) || pc.Release1? || pc.Release2?
  }

  ghost predicate LocksOk(cfg: Config, s: State) {
    && (forall x | 0 <= x < |s.owner| && s.owner[x].HeldBy? :: s.owner[x].t < |s.threads|)
    && (forall t, x | 0 <= t < |s.threads| && 0 <= x < |s.owner| ::
          Holds(cfg, s.threads[t], x) <==> s.owner[x] == HeldBy(t))
    && (forall t | 0 <= t < |s.threads| && PastLockPoint(s.threads[t].pc) && s.threads[t].todo != [] ::
          cfg.variant.GlobalOrder? || s.threads[t].todo[0].dst != s.threads[t].todo[0].src)
  }

  lemma StepKeepsLocks(cfg: Config, s: State, t: nat)
    requires Shape(cfg, s) && LocksOk(cfg, s) && Enabled(cfg, s, t)
    ensures LocksOk(cfg, Step(cfg, s, t))
  {
    var s' := Step(cfg, s, t);
    if s.threads[t].pc.Second? {
      var x := SecondLock(cfg.variant, s.threads[t].todo[0]);
      assert Wants(cfg, s.threads[t], x) && !Holds(cfg, s.threads[t], x);
    }
    forall u, x | 0 <= u < |s'.threads| && 0 <= x < |s'.owner|
      ensures Holds(cfg, s'.threads[u], x) <==> s'.owner[x] == HeldBy(u)
    {
      OneLockKept(cfg, s, t, u, x);
    }
  }

  lemma OneLockKept(cfg: Config, s: State, t: nat, u: nat, x: nat)
    requires Shape(cfg, s) && Enabled(cfg, s, t) && u < |s.threads| && x < |s.owner|
    requires Holds(cfg, s.threads[u], x) <==> s.owner[x] == HeldBy(u)
    requires Holds(cfg, s.threads[t], x) <==> s.owner[x] == HeldBy(t)
    requires var th := s.threads[t];
             th.pc.Second? || PastLockPoint(th.pc) ==> cfg.variant.GlobalOrder? || th.todo[0].dst != th.todo[0].src
    ensures var s' := Step(cfg, s, t);
            && |s'.threads| == |s.threads| && |s'.owner| == |s.owner|
            && (Holds(cfg, s'.threads[u], x) <==> s'.owner[x] == HeldBy(u))
  {
    assert ThreadOk(cfg, s.threads[t]);
    assert Wants(cfg, s.threads[t], x) ==> s.owner[x].Free?;
  }

  // ----- the serial execution

  function AddTo(d: seq<int>, s: seq<int>): seq<int>
    requires |d| == |s|
  {
    seq(|d|, j requires 0 <= j < |d| => d[j] + s[j])
  }

  predicate Vectors(cfg: Config, vs: seq<seq<int>>) {
    |vs| == cfg.m && forall x | 0 <= x < cfg.m :: |vs[x]| == cfg.len
  }

  predicate ValidLog(cfg: Config, log: seq<Entry>) {
    forall i | 0 <= i < |log| :: log[i].call.dst < cfg.m && log[i].call.src < cfg.m
  }

  /** Whole calls, one after the other, in the order of the log. */
  function Serial(cfg: Config, vs: seq<seq<int>>, log: seq<Entry>): (r: seq<seq<int>>)
    requires Vectors(cfg, vs) && ValidLog(cfg, log)
    ensures Vectors(cfg, r)
    decreases |log|
  {
    if log == [] then vs
    else
      var before := Serial(cfg, vs, log[..|log| - 1]);
      var c := log[|log| - 1].call;
      before[c.dst := AddTo(before[c.dst], before[c.src])]
  }

  // ----- serializability

  /** Elements of the current call already written. */
  function Progress(pc: Pc): nat {
    match pc
    case Load(i) => i
    case LoadSrc(i, _) => i
    case Store(i, _) => i
    case _ => 0
  }

  /** What element `j` of vector `x` will be once the call working on `x`, if any, is complete. */
  function Target(cfg: Config, s: State, x: nat, j: nat): int
    requires Shape(cfg, s) && x < cfg.m && j < cfg.len
  {
    if s.owner[x].HeldBy? && s.owner[x].t < |s.threads| then
      var th := s.threads[s.owner[x].t];
      if Working(th.pc) && th.todo[0].dst == x && j >= Progress(th.pc)
      then s.values[x][j] + s.values[th.todo[0].src][j]
      else s.values[x][j]
    else s.values[x][j]
  }

  ghost predicate ValuesOk(cfg: Config, init: seq<seq<int>>, s: State)
    requires Shape(cfg, s) && Vectors(cfg, init)
  {
    && ValidLog(cfg, s.log)
    && (forall x, j | 0 <= x < cfg.m && 0 <= j < cfg.len :: Serial(cfg, init, s.log)[x][j] == Target(cfg, s, x, j))
    && RegistersOk(cfg, s)
  }

  /** What a working thread has read so far is still what the vectors contain. */
  ghost predicate RegisterOk(cfg: Config, s: State, t: nat)
    requires Shape(cfg, s) && t < |s.threads|
  {
    assert ThreadOk(cfg, s.threads[t]);
    match s.threads[t].pc
    case LoadSrc(i, left) => left == s.values[s.threads[t].todo[0].dst][i]
    case Store(i, tmp) => tmp == s.values[s.threads[t].todo[0].dst][i] + s.values[s.threads[t].todo[0].src][i]
    case _ => true
  }

  lemma HolderIs(cfg: Config, s: State, u: nat, x: nat)
    requires LocksOk(cfg, s) && u < |s.threads| && x < |s.owner|
    ensures Holds(cfg, s.threads[u], x) <==> s.owner[x] == HeldBy(u)
  {
  }

  /** Whoever else is working has nothing to do with the vector being written. */
  lemma OthersElsewhere(cfg: Config, s: State, t: nat, u: nat)
    requires Shape(cfg, s) && LocksOk(cfg, s)
    requires t < |s.threads| && u < |s.threads| && u != t && Working(s.threads[t].pc) && Working(s.threads[u].pc)
    ensures var d := s.threads[t].todo[0].dst; var c := s.threads[u].todo[0]; d != c.dst && d != c.src
  {
    assert ThreadOk(cfg, s.threads[t]) && ThreadOk(cfg, s.threads[u]);
    var d := s.threads[t].todo[0].dst;
    HolderIs(cfg, s, t, d);
    HolderIs(cfg, s, u, d);
  }

  ghost predicate RegistersOk(cfg: Config, s: State)
    requires Shape(cfg, s)
  {
    forall t | 0 <= t < |s.threads| :: RegisterOk(cfg, s, t)
  }

  /** What a thread has read is not overwritten by another one. */
  lemma RegistersKept(cfg: Config, s: State, t: nat)
    requires Shape(cfg, s) && LocksOk(cfg, s) && RegistersOk(cfg, s) && Enabled(cfg, s, t)
    ensures Shape(cfg, Step(cfg, s, t)) && RegistersOk(cfg, Step(cfg, s, t))
  {
    StepShape(cfg, s, t);
    forall u | 0 <= u < |s.threads|
      ensures RegisterOk(cfg, Step(cfg, s, t), u)
    {
      RegisterKept(cfg, s, t, u);
    }
  }

  lemma RegisterKept(cfg: Config, s: State, t: nat, u: nat)
    requires Shape(cfg, s) && LocksOk(cfg, s) && Enabled(cfg, s, t) && u < |s.threads|
    requires RegisterOk(cfg, s, t) && RegisterOk(cfg, s, u)
    ensures Shape(cfg, Step(cfg, s, t)) && |Step(cfg, s, t).threads| == |s.threads|
    ensures RegisterOk(cfg, Step(cfg, s, t), u)
  {
    StepShape(cfg, s, t);
    if u != t && s.threads[t].pc.Store? && Working(s.threads[u].pc) {
      OthersElsewhere(cfg, s, t, u);
    }
  }

  lemma QuietTarget(cfg: Config, s: State, t: nat, x: nat, j: nat)
    requires Shape(cfg, s) && LocksOk(cfg, s) && Enabled(cfg, s, t) && x < cfg.m && j < cfg.len
    requires !s.threads[t].pc.Store? && Step(cfg, s, t).log == s.log
    ensures Shape(cfg, Step(cfg, s, t)) && Target(cfg, Step(cfg, s, t), x, j) == Target(cfg, s, x, j)
  {
    StepShape(cfg, s, t);
    StepKeepsLocks(cfg, s, t);
    HolderIs(cfg, s, t, x);
    HolderIs(cfg, Step(cfg, s, t), t, x);
  }

  /** A step that touches neither values nor log leaves every target as it was. */
  lemma QuietStep(cfg: Config, init: seq<seq<int>>, s: State, t: nat)
    requires Shape(cfg, s) && Vectors(cfg, init)
    requires LocksOk(cfg, s) && ValuesOk(cfg, init, s) && Enabled(cfg, s, t)
    requires !s.threads[t].pc.Store?
    requires Step(cfg, s, t).log == s.log
    ensures Shape(cfg, Step(cfg, s, t)) && ValuesOk(cfg, init, Step(cfg, s, t))
  {
    StepShape(cfg, s, t);
    RegistersKept(cfg, s, t);
    forall x, j | 0 <= x < cfg.m && 0 <= j < cfg.len
      ensures Target(cfg, Step(cfg, s, t), x, j) == Target(cfg, s, x, j)
    {
      QuietTarget(cfg, s, t, x, j);
    }
  }

  /** When a call has all its locks, its vectors are as the calls before it left them. */
  lemma AtLockPoint(cfg: Config, init: seq<seq<int>>, s: State, t: nat, x: nat)
    requires Shape(cfg, s) && Vectors(cfg, init)
    requires LocksOk(cfg, s) && ValuesOk(cfg, init, s) && Enabled(cfg, s, t)
    requires s.threads[t].pc.First? || s.threads[t].pc.Second?
    requires Step(cfg, s, t).log != s.log
    requires x == s.threads[t].todo[0].dst || x == s.threads[t].todo[0].src
    ensures x < cfg.m && Step(cfg, s, t).owner[x] == HeldBy(t)
    ensures forall j | 0 <= j < cfg.len :: Serial(cfg, init, s.log)[x][j] == s.values[x][j]
  {
    StepShape(cfg, s, t);
    StepKeepsLocks(cfg, s, t);
    HolderIs(cfg, s, t, x);
    HolderIs(cfg, Step(cfg, s, t), t, x);
    forall j | 0 <= j < cfg.len
      ensures Serial(cfg, init, s.log)[x][j] == s.values[x][j]
    {
      assert Target(cfg, s, x, j) == s.values[x][j];
    }
  }

  lemma LockPointStep(cfg: Config, init: seq<seq<int>>, s: State, t: nat)
    requires Shape(cfg, s) && Vectors(cfg, init)
    requires LocksOk(cfg, s) && ValuesOk(cfg, init, s) && Enabled(cfg, s, t)
    requires s.threads[t].pc.First? || s.threads[t].pc.Second?
    requires Step(cfg, s, t).log != s.log
    ensures Shape(cfg, Step(cfg, s, t)) && ValuesOk(cfg, init, Step(cfg, s, t))
  {
    StepShape(cfg, s, t);
    StepKeepsLocks(cfg, s, t);
    var s' := Step(cfg, s, t);
    var c := s.threads[t].todo[0];
    var before := Serial(cfg, init, s.log);
    assert s'.log[..|s'.log| - 1] == s.log;
    AtLockPoint(cfg, init, s, t, c.dst);
    AtLockPoint(cfg, init, s, t, c.src);
    RegistersKept(cfg, s, t);
    forall x, j | 0 <= x < cfg.m && 0 <= j < cfg.len
      ensures Serial(cfg, init, s'.log)[x][j] == Target(cfg, s', x, j)
    {
      HolderIs(cfg, s, t, x);
      HolderIs(cfg, s', t, x);
    }
  }

  lemma StoreTarget(cfg: Config, init: seq<seq<int>>, s: State, t: nat, x: nat, j: nat)
    requires Shape(cfg, s) && Vectors(cfg, init)
    requires LocksOk(cfg, s) && ValuesOk(cfg, init, s) && Enabled(cfg, s, t)
    requires s.threads[t].pc.Store? && x < cfg.m && j < cfg.len
    ensures Shape(cfg, Step(cfg, s, t)) && Target(cfg, Step(cfg, s, t), x, j) == Target(cfg, s, x, j)
  {
    StepShape(cfg, s, t);
    var d := s.threads[t].todo[0].dst;
    assert RegisterOk(cfg, s, t);
    HolderIs(cfg, s, t, d);
    if x != d && s.owner[x].HeldBy? && s.owner[x].t != t && Working(s.threads[s.owner[x].t].pc) {
      OthersElsewhere(cfg, s, t, s.owner[x].t);
    }
  }

  lemma StoreStep(cfg: Config, init: seq<seq<int>>, s: State, t: nat)
    requires Shape(cfg, s) && Vectors(cfg, init)
    requires LocksOk(cfg, s) && ValuesOk(cfg, init, s) && Enabled(cfg, s, t)
    requires s.threads[t].pc.Store?
    ensures Shape(cfg, Step(cfg, s, t)) && ValuesOk(cfg, init, Step(cfg, s, t))
  {
    StepShape(cfg, s, t);
    var s' := Step(cfg, s, t);
    forall x, j | 0 <= x < cfg.m && 0 <= j < cfg.len
      ensures Target(cfg, s', x, j) == Target(cfg, s, x, j)
    {
      StoreTarget(cfg, init, s, t, x, j);
    }
    RegistersKept(cfg, s, t);
  }

  lemma StepKeepsValues(cfg: Config, init: seq<seq<int>>, s: State, t: nat)
    requires Shape(cfg, s) && Vectors(cfg, init)
    requires LocksOk(cfg, s) && ValuesOk(cfg, init, s) && Enabled(cfg, s, t)
    ensures Shape(cfg, Step(cfg, s, t)) && ValuesOk(cfg, init, Step(cfg, s, t))
  {
    if s.threads[t].pc.Store? {
      StoreStep(cfg, init, s, t);
    } else if Step(cfg, s, t).log == s.log {
      QuietStep(cfg, init, s, t);
    } else {
      LockPointStep(cfg, init, s, t);
    }
  }

  // ----- program order

  /** The calls thread `t` has in the log, in order. */
  function Of(log: seq<Entry>, t: nat): seq<Call>
    decreases |log|
  {
    if log == [] then []
    else
      var last := log[|log| - 1];
      Of(log[..|log| - 1], t) + (if last.t == t then [last.call] else [])
  }

  function Pending(th: Thread): seq<Call> {
    if PastLockPoint(th.pc) && th.todo != [] then th.todo[1..] else th.todo
  }

  ghost predicate OrderOk(reqs: seq<seq<Call>>, s: State) {
    && |reqs| == |s.threads|
    && forall t | 0 <= t < |s.threads| :: Of(s.log, t) + Pending(s.threads[t]) == reqs[t]
  }

  lemma StepPending(cfg: Config, s: State, t: nat)
    requires Shape(cfg, s) && Enabled(cfg, s, t)
    ensures var s' := Step(cfg, s, t);
            || (s'.log == s.log && Pending(s'.threads[t]) == Pending(s.threads[t]))
            || exists c :: s'.log == s.log + [Entry(t, c)] && Pending(s.threads[t]) == [c] + Pending(s'.threads[t])
  {
    var s' := Step(cfg, s, t);
    var th := s.threads[t];
    var c := th.todo[0];
    if s'.log != s.log {
      assert s'.log == s.log + [Entry(t, c)];
      assert Pending(th) == [c] + Pending(s'.threads[t]);
    }
  }

  lemma OfSnoc(log: seq<Entry>, e: Entry, t: nat)
    ensures Of(log + [e], t) == if e.t == t then Of(log, t) + [e.call] else Of(log, t)
  {
    assert (log + [e])[..|log|] == log;
  }

  lemma MovesOver(done: seq<Call>, c: Call, rest: seq<Call>)
    ensures (done + [c]) + rest == done + ([c] + rest)
  {
  }

  lemma OrderExtends(reqs: seq<seq<Call>>, s: State, s': State, t: nat, c: Call)
    requires OrderOk(reqs, s) && t < |s.threads| == |s'.threads|
    requires forall u | 0 <= u < |s.threads| && u != t :: s'.threads[u] == s.threads[u]
    requires s'.log == s.log + [Entry(t, c)]
    requires Pending(s.threads[t]) == [c] + Pending(s'.threads[t])
    ensures OrderOk(reqs, s')
  {
    MovesOver(Of(s.log, t), c, Pending(s'.threads[t]));
    forall u | 0 <= u < |s'.threads|
      ensures Of(s'.log, u) + Pending(s'.threads[u]) == reqs[u]
    {
      OfSnoc(s.log, Entry(t, c), u);
      assert Of(s.log, u) + Pending(s.threads[u]) == reqs[u];
    }
  }

  lemma StepMovesOne(cfg: Config, s: State, t: nat)
    requires Shape(cfg, s) && Enabled(cfg, s, t)
    ensures |Step(cfg, s, t).threads| == |s.threads|
    ensures forall u | 0 <= u < |s.threads| && u != t :: Step(cfg, s, t).threads[u] == s.threads[u]
  {
  }

  lemma StepKeepsOrder(cfg: Config, reqs: seq<seq<Call>>, s: State, t: nat)
    requires Shape(cfg, s) && OrderOk(reqs, s) && Enabled(cfg, s, t)
    ensures OrderOk(reqs, Step(cfg, s, t))
  {
    StepMovesOne(cfg, s, t);
    StepPending(cfg, s, t);
    var s' := Step(cfg, s, t);
    if s'.log != s.log {
      var c :| s'.log == s.log + [Entry(t, c)] && Pending(s.threads[t]) == [c] + Pending(s'.threads[t]);
      OrderExtends(reqs, s, s', t, c);
    }
  }

  // ----- whole runs

  ghost predicate Inv(cfg: Config, reqs: seq<seq<Call>>, init: seq<seq<int>>, s: State) {
    && Shape(cfg, s)
    && Vectors(cfg, init)
    && LocksOk(cfg, s)
    && ValuesOk(cfg, init, s)
    && OrderOk(reqs, s)
  }

  lemma StartInv(cfg: Config, reqs: seq<seq<Call>>, init: seq<seq<int>>)
    requires ValidInput(cfg, reqs, init)
    ensures Inv(cfg, reqs, init, Start(cfg, reqs, init))
  {
  }

  lemma StepKeepsInv(cfg: Config, reqs: seq<seq<Call>>, init: seq<seq<int>>, s: State, t: nat)
    requires Inv(cfg, reqs, init, s) && Enabled(cfg, s, t)
    ensures Inv(cfg, reqs, init, Step(cfg, s, t))
  {
    StepKeepsLocks(cfg, s, t);
    StepKeepsValues(cfg, init, s, t);
    StepKeepsOrder(cfg, reqs, s, t);
  }

  lemma {:induction false} RunKeepsInv(cfg: Config, reqs: seq<seq<Call>>, init: seq<seq<int>>, s: State,
      sched: seq<nat>)
    requires Inv(cfg, reqs, init, s) && Runs(cfg, s, sched)
    ensures Inv(cfg, reqs, init, After(cfg, s, sched))
    decreases |sched|
  {
    if sched != [] {
      StepKeepsInv(cfg, reqs, init, s, sched[0]);
      RunKeepsInv(cfg, reqs, init, Step(cfg, s, sched[0]), sched[1..]);
    }
  }

  ghost predicate AllDone(s: State) {
    forall t | 0 <= t < |s.threads| :: s.threads[t].pc.Done?
  }

  /**
    Serializability, for every discipline and every interleaving: at any moment each vector that
    nobody has locked is exactly what the calls logged so far give when executed one after the
    other in lock-point order; when all threads are done that holds of all vectors, and the log
    contains each thread's calls completely and in program order.
   */
  lemma Serializable(cfg: Config, reqs: seq<seq<Call>>, init: seq<seq<int>>, sched: seq<nat>)
    requires ValidInput(cfg, reqs, init)
    requires Runs(cfg, Start(cfg, reqs, init), sched)
    ensures var s := After(cfg, Start(cfg, reqs, init), sched);
            && ValidLog(cfg, s.log)
            && (forall x | 0 <= x < cfg.m && s.owner[x].Free? :: s.values[x] == Serial(cfg, init, s.log)[x])
            && (AllDone(s) ==>
                  && s.values == Serial(cfg, init, s.log)
                  && forall t | 0 <= t < |reqs| :: Of(s.log, t) == reqs[t])
  {
    StartInv(cfg, reqs, init);
    RunKeepsInv(cfg, reqs, init, Start(cfg, reqs, init), sched);
    var s := After(cfg, Start(cfg, reqs, init), sched);
    forall x | 0 <= x < cfg.m && s.owner[x].Free?
      ensures s.values[x] == Serial(cfg, init, s.log)[x]
    {
      UnlockedIsSerial(cfg, init, s, x);
    }
    if AllDone(s) {
      AllUnlocked(cfg, s);
      EverythingLogged(reqs, s);
    }
  }

  lemma UnlockedIsSerial(cfg: Config, init: seq<seq<int>>, s: State, x: nat)
    requires Shape(cfg, s) && Vectors(cfg, init) && ValuesOk(cfg, init, s) && x < cfg.m && s.owner[x].Free?
    ensures s.values[x] == Serial(cfg, init, s.log)[x]
  {
    assert forall j | 0 <= j < cfg.len :: Target(cfg, s, x, j) == s.values[x][j];
  }

  lemma AllUnlocked(cfg: Config, s: State)
    requires LocksOk(cfg, s) && AllDone(s)
    ensures forall x | 0 <= x < |s.owner| :: s.owner[x].Free?
  {
    forall x | 0 <= x < |s.owner|
      ensures s.owner[x].Free?
    {
      if s.owner[x].HeldBy? {
        HolderIs(cfg, s, s.owner[x].t, x);
      }
    }
  }

  lemma EverythingLogged(reqs: seq<seq<Call>>, s: State)
    requires OrderOk(reqs, s) && AllDone(s) && forall t | 0 <= t < |s.threads| :: s.threads[t].todo == []
    ensures forall t | 0 <= t < |reqs| :: Of(s.log, t) == reqs[t]
  {
    forall t | 0 <= t < |reqs|
      ensures Of(s.log, t) == reqs[t]
    {
      assert Of(s.log, t) + Pending(s.threads[t]) == reqs[t];
    }
  }

  /**
    The element loop of `vector_add` on real arrays, the source possibly being the destination:
    it computes the whole-vector sum that `Serial` is made of.
   */
  method AddInPlace(dst: array<int>, src: array<int>)
    requires dst.Length == src.Length
    modifies dst
    ensures dst[..] == AddTo(old(dst[..]), old(src[..]))
  {
    for i := 0 to dst.Length
      invariant forall j | 0 <= j < i :: dst[j] == old(dst[j]) + old(src[j])
      invariant forall j | i <= j < dst.Length :: dst[j] == old(dst[j]) && src[j] == old(src[j])
    {
      dst[i] := dst[i] + src[i];
    }
  }
}
