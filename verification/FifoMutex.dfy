/**
  The hand-off mutex with a linked list of waiters. `guard` protects all fields, so the code
  between a wait on `guard` and the next semaphore operation is one step; every semaphore
  operation is a step of its own. Each `acquire` allocates a node of its own and memory is never
  recycled, so a node also names the call that allocated it.

  `clearsTail` selects the release that resets `tail` when the queue drains; the code as shown is
  `clearsTail == false`.
 */
module FifoMutex {
  import opened Sums

  datatype Link = Null | To(n: nat)

  /** `waiter` is the thread whose call allocated the node. */
  datatype Node = Node(sem: int, next: Link, waiter: nat)

  datatype Thread =
    | Idle
    | WantGuard(n: nat)    // node allocated; about to wait on guard
    | Deciding(n: nat)     // holds guard; about to test locked
    | Taken(n: nat)        // took the free mutex; about to post guard
    | Queued(n: nat)       // appended its node; about to post guard
    | Asleep(n: nat)       // about to wait on its node's semaphore
    | Owner
    | WantRelease          // about to wait on guard
    | Releasing            // holds guard; about to test head
    | HandingOff(n: nat)   // popped n; about to post its semaphore
    | Released             // about to post guard

  /**
    The last three fields are histories: the calls in the order in which they were decided under
    the guard, the calls in the order in which they were given the mutex, and the nodes reachable
    from head.
   */
  datatype State = State(
    locked: int, head: Link, tail: Link, guard: int, nodes: seq<Node>, threads: seq<Thread>,
    arrivals: seq<nat>, grants: seq<nat>, queue: seq<nat>)

  function Start(numThreads: nat): (r: State)
    ensures Shape(r)
  {
    State(0, Null, Null, 1, [], seq(numThreads, i => Idle), [], [], [])
  }

  predicate Valid(s: State, n: nat) {
    n < |s.nodes|
  }

  predicate NodesOf(s: State, t: Thread) {
    match t
    case WantGuard(n) => Valid(s, n)
    case Deciding(n) => Valid(s, n)
    case Taken(n) => Valid(s, n)
    case Queued(n) => Valid(s, n)
    case Asleep(n) => Valid(s, n)
    case HandingOff(n) => Valid(s, n)
    case _ => true
  }

  /** Every pointer is null or leads to an allocated node. */
  predicate Shape(s: State) {
    && (s.head.To? ==> Valid(s, s.head.n))
    && (s.tail.To? ==> Valid(s, s.tail.n))
    && (forall n | 0 <= n < |s.nodes| && s.nodes[n].next.To? :: Valid(s, s.nodes[n].next.n))
    && (forall t | 0 <= t < |s.threads| :: NodesOf(s, s.threads[t]))
  }

  predicate Enabled(s: State, t: nat) {
    && t < |s.threads|
    && match s.threads[t]
       case WantGuard(_) => s.guard > 0
       case Asleep(n) => Valid(s, n) && s.nodes[n].sem > 0
       case WantRelease => s.guard > 0
       case _ => true
  }

  /** Append to the queue: behind `tail` if there is one, else at the head. */
  function Append(s: State, n: nat): State
    requires s.tail.To? ==> Valid(s, s.tail.n)
  {
    var s1 := s.(arrivals := s.arrivals + [n], tail := To(n));
    if s.tail.To? then
      s1.(nodes := s.nodes[s.tail.n := s.nodes[s.tail.n].(next := To(n))],
          queue := if s.queue == [] then [] else s.queue + [n])
    else
      s1.(head := To(n), queue := [n])
  }

  /** Take the first waiter off the queue. */
  function Pop(clearsTail: bool, s: State): State
    requires s.head.To? && Valid(s, s.head.n)
  {
    var rest := s.nodes[s.head.n].next;
    s.(head := rest,
       tail := if clearsTail && rest.Null? then Null else s.tail,
       grants := s.grants + [s.head.n],
       queue := if s.queue == [] then [] else s.queue[1..])
  }

  function Step(clearsTail: bool, s: State, t: nat): State
    requires Shape(s) && Enabled(s, t)
  {
    match s.threads[t]
    case Idle =>
      s.(nodes := s.nodes + [Node(0, Null, t)], threads := s.threads[t := WantGuard(|s.nodes|)])
    case WantGuard(n) => s.(guard := s.guard - 1, threads := s.threads[t := Deciding(n)])
    case Deciding(n) =>
      if s.locked == 0 then
        s.(locked := 1, arrivals := s.arrivals + [n], grants := s.grants + [n],
           threads := s.threads[t := Taken(n)])
      else
        Append(s, n).(threads := s.threads[t := Queued(n)])
    case Taken(n) => s.(guard := s.guard + 1, threads := s.threads[t := Owner])
    case Queued(n) => s.(guard := s.guard + 1, threads := s.threads[t := Asleep(n)])
    case Asleep(n) =>
      s.(nodes := s.nodes[n := s.nodes[n].(sem := s.nodes[n].sem - 1)], threads := s.threads[t := Owner])
    case Owner => s.(threads := s.threads[t := WantRelease])
    case WantRelease => s.(guard := s.guard - 1, threads := s.threads[t := Releasing])
    case Releasing =>
      if s.head.Null?
      then s.(locked := 0, threads := s.threads[t := Released])
      else Pop(clearsTail, s).(threads := s.threads[t := HandingOff(s.head.n)])
    case HandingOff(n) =>
      s.(nodes := s.nodes[n := s.nodes[n].(sem := s.nodes[n].sem + 1)], threads := s.threads[t := Released])
    case Released => s.(guard := s.guard + 1, threads := s.threads[t := Idle])
  }

  lemma StepGrows(clearsTail: bool, s: State, t: nat)
    requires Shape(s) && Enabled(s, t)
    ensures var s' := Step(clearsTail, s, t);
            && |s'.threads| == |s.threads| && |s'.nodes| >= |s.nodes|
            && NodesOf(s', s'.threads[t])
            && forall u | 0 <= u < |s.threads| && u != t :: s'.threads[u] == s.threads[u]
  {
  }

  lemma StepShape(clearsTail: bool, s: State, t: nat)
    requires Shape(s) && Enabled(s, t)
    ensures Shape(Step(clearsTail, s, t))
    ensures |Step(clearsTail, s, t).threads| == |s.threads|
    ensures |Step(clearsTail, s, t).nodes| >= |s.nodes|
  {
    StepGrows(clearsTail, s, t);
  }

  ghost predicate Runs(clearsTail: bool, s: State, sched: seq<nat>)
    requires Shape(s)
    decreases |sched|
  {
    sched == [] ||
    (Enabled(s, sched[0]) &&
     (StepShape(clearsTail, s, sched[0]); Runs(clearsTail, Step(clearsTail, s, sched[0]), sched[1..])))
  }

  ghost function After(clearsTail: bool, s: State, sched: seq<nat>): (r: State)
    requires Shape(s) && Runs(clearsTail, s, sched)
    ensures Shape(r) && |r.threads| == |s.threads|
    decreases |sched|
  {
    if sched == [] then s
    else
      StepShape(clearsTail, s, sched[0]);
      After(clearsTail, Step(clearsTail, s, sched[0]), sched[1..])
  }

  // ----- mutual exclusion

  function InGuard(t: Thread): int {
    if t.Deciding? || t.Taken? || t.Queued? || t.Releasing? || t.HandingOff? || t.Released? then 1 else 0
  }

  /** The thread has the mutex: it may be in the critical section or in a release that has not let go. */
  function Has(t: Thread): int {
    if t.Taken? || t.Owner? || t.WantRelease? || t.Releasing? || t.HandingOff? then 1 else 0
  }

  function Sem(n: Node): int { n.sem }

  /** The mutex is one token: with a thread, or on its way through a waiter's semaphore. */
  ghost predicate TokenInv(s: State) {
    && s.guard >= 0
    && s.guard + Sum(s.threads, InGuard) == 1
    && 0 <= s.locked <= 1
    && s.locked == Sum(s.threads, Has) + Sum(s.nodes, Sem)
    && (forall n | 0 <= n < |s.nodes| :: 0 <= s.nodes[n].sem)
  }

  lemma {:induction false} SemsNonNegative(ns: seq<Node>)
    requires forall n | 0 <= n < |ns| :: 0 <= ns[n].sem
    ensures 0 <= Sum(ns, Sem)
    ensures forall n | 0 <= n < |ns| :: ns[n].sem <= Sum(ns, Sem)
  {
    if ns != [] {
      SemsNonNegative(ns[1..]);
      assert forall n | 0 < n < |ns| :: ns[n] == ns[1..][n - 1];
    }
  }

  /** A step moves at most one token through the semaphores. */
  lemma SemsAfter(clearsTail: bool, s: State, t: nat)
    requires Shape(s) && Enabled(s, t)
    requires forall n | 0 <= n < |s.nodes| :: 0 <= s.nodes[n].sem
    ensures var ns := Step(clearsTail, s, t).nodes;
            && Sum(ns, Sem) == Sum(s.nodes, Sem)
                 + (if s.threads[t].HandingOff? then 1 else if s.threads[t].Asleep? then -1 else 0)
            && forall n | 0 <= n < |ns| :: 0 <= ns[n].sem
  {
    match s.threads[t]
    case Idle => SumConcat(s.nodes, [Node(0, Null, t)], Sem);
    case Deciding(n) =>
      if s.locked != 0 && s.tail.To? {
        SumUpdate(s.nodes, s.tail.n, s.nodes[s.tail.n].(next := To(n)), Sem);
      }
    case Asleep(n) => SumUpdate(s.nodes, n, s.nodes[n].(sem := s.nodes[n].sem - 1), Sem);
    case HandingOff(n) => SumUpdate(s.nodes, n, s.nodes[n].(sem := s.nodes[n].sem + 1), Sem);
    case _ =>
  }

  lemma HoldersAfter(clearsTail: bool, s: State, t: nat)
    requires Shape(s) && Enabled(s, t)
    ensures var s' := Step(clearsTail, s, t); var x, y := s.threads[t], s'.threads[t];
            && Sum(s'.threads, InGuard) == Sum(s.threads, InGuard) - InGuard(x) + InGuard(y)
            && Sum(s'.threads, Has) == Sum(s.threads, Has) - Has(x) + Has(y)
            && Sum(s.threads, Has) >= Has(x) && Sum(s.threads, Has) >= 0
            && Sum(s.threads, InGuard) >= InGuard(x)
  {
    var ts' := Step(clearsTail, s, t).threads;
    var y := ts'[t];
    assert ts' == s.threads[t := y];
    SumUpdate(s.threads, t, y, InGuard);
    SumUpdate(s.threads, t, y, Has);
    SumAtLeast(s.threads, InGuard);
    SumAtLeast(s.threads, Has);
  }

  lemma StepKeepsGuard(clearsTail: bool, s: State, t: nat)
    requires Shape(s) && Enabled(s, t) && s.guard >= 0 && s.guard + Sum(s.threads, InGuard) == 1
    ensures var s' := Step(clearsTail, s, t); s'.guard >= 0 && s'.guard + Sum(s'.threads, InGuard) == 1
  {
    HoldersAfter(clearsTail, s, t);
  }

  lemma StepKeepsToken(clearsTail: bool, s: State, t: nat)
    requires Shape(s) && TokenInv(s) && Enabled(s, t)
    ensures TokenInv(Step(clearsTail, s, t))
  {
    StepKeepsGuard(clearsTail, s, t);
    SemsAfter(clearsTail, s, t);
    SemsNonNegative(s.nodes);
    HoldersAfter(clearsTail, s, t);
  }

  lemma OneOwner(s: State, t: nat, u: nat)
    requires TokenInv(s) && t < |s.threads| && u < |s.threads| && t != u
    ensures !(Has(s.threads[t]) == 1 && Has(s.threads[u]) == 1)
  {
    SemsNonNegative(s.nodes);
    SumTwo(s.threads, t, u, Has);
  }

  // ----- the queue

  /** Following `next` from `head` visits exactly the nodes `q`, in this order. */
  ghost predicate Chain(head: Link, nodes: seq<Node>, q: seq<nat>)
    decreases |q|
  {
    if q == [] then head.Null?
    else head == To(q[0]) && q[0] < |nodes| && Chain(nodes[q[0]].next, nodes, q[1..])
  }

  ghost predicate Distinct(q: seq<nat>) {
    forall i, j | 0 <= i < j < |q| :: q[i] != q[j]
  }

  lemma {:induction false} ChainNodes(head: Link, nodes: seq<Node>, q: seq<nat>)
    requires Chain(head, nodes, q)
    ensures forall i | 0 <= i < |q| :: q[i] < |nodes|
    decreases |q|
  {
    if q != [] {
      ChainNodes(nodes[q[0]].next, nodes, q[1..]);
      assert forall i | 0 < i < |q| :: q[i] == q[1..][i - 1];
    }
  }

  /** Only the `next` fields of the chain's nodes matter. */
  lemma {:induction false} ChainFrame(head: Link, nodes: seq<Node>, nodes': seq<Node>, q: seq<nat>)
    requires Chain(head, nodes, q) && |nodes| <= |nodes'|
    requires forall n | n in q && n < |nodes| :: nodes'[n].next == nodes[n].next
    ensures Chain(head, nodes', q)
    decreases |q|
  {
    if q != [] {
      ChainFrame(nodes[q[0]].next, nodes, nodes', q[1..]);
    }
  }

  lemma {:induction false} ChainAppend(head: Link, nodes: seq<Node>, q: seq<nat>, n: nat)
    requires Chain(head, nodes, q) && q != [] && Distinct(q)
    requires n < |nodes| && nodes[n].next.Null? && n !in q
    ensures q[|q| - 1] < |nodes|
    ensures var l := q[|q| - 1]; Chain(head, nodes[l := nodes[l].(next := To(n))], q + [n])
    decreases |q|
  {
    ChainNodes(head, nodes, q);
    var l := q[|q| - 1];
    var nodes' := nodes[l := nodes[l].(next := To(n))];
    assert (q + [n])[1..] == q[1..] + [n];
    if |q| == 1 {
      assert Chain(To(n), nodes', [n]);
      assert q[1..] + [n] == [n];
    } else {
      assert q[1..][|q| - 2] == l;
      ChainAppend(nodes[q[0]].next, nodes, q[1..], n);
    }
  }

  /** The queue has emptied but `tail` still points at the last node that left it. */
  predicate Drained(s: State) {
    s.head.Null? && s.tail.To?
  }

  ghost predicate SomeoneHandsOff(s: State, n: nat) {
    exists u :: 0 <= u < |s.threads| && s.threads[u] == HandingOff(n)
  }

  predicate Waits(s: State, t: nat, n: nat) {
    t < |s.threads| && (s.threads[t] == Queued(n) || s.threads[t] == Asleep(n))
  }

  ghost predicate ThreadInv(s: State, t: nat)
    requires Shape(s) && t < |s.threads|
  {
    match s.threads[t]
    case WantGuard(n) => NewNode(s, t, n)
    case Deciding(n) => NewNode(s, t, n)
    case Taken(n) => s.nodes[n].waiter == t
    case Queued(n) => s.nodes[n].waiter == t && (!Drained(s) ==> n in s.queue)
    case Asleep(n) =>
      && s.nodes[n].waiter == t
      && (!Drained(s) ==> n in s.queue || s.nodes[n].sem > 0 || SomeoneHandsOff(s, n))
    case HandingOff(n) =>
      && n !in s.queue && s.nodes[n].sem == 0
      && s.nodes[n].waiter < |s.threads| && s.threads[s.nodes[n].waiter] == Asleep(n)
    case _ => true
  }

  /** A node nobody but its allocator knows of. */
  ghost predicate NewNode(s: State, t: nat, n: nat) {
    && n < |s.nodes|
    && s.nodes[n] == Node(0, Null, t)
    && s.tail != To(n)
    && n !in s.queue && n !in s.arrivals
  }

  ghost predicate NodeInv(s: State, n: nat)
    requires n < |s.nodes|
  {
    s.nodes[n].sem > 0 ==>
      s.nodes[n].waiter < |s.threads| && s.threads[s.nodes[n].waiter] == Asleep(n) && n !in s.queue
  }

  ghost predicate QueueInv(clearsTail: bool, s: State) {
    && Shape(s)
    && Chain(s.head, s.nodes, s.queue) && Distinct(s.queue)
    && (s.queue != [] ==> s.tail == To(s.queue[|s.queue| - 1]))
    && (s.queue == [] && clearsTail ==> s.tail.Null?)
    && (!Drained(s) ==> s.arrivals == s.grants + s.queue)
    && (forall i | 0 <= i < |s.arrivals| :: s.arrivals[i] < |s.nodes|)
    && (forall i | 0 <= i < |s.queue| ::
          && s.queue[i] < |s.nodes|
          && Waits(s, s.nodes[s.queue[i]].waiter, s.queue[i]) && s.nodes[s.queue[i]].sem == 0)
    && (forall t | 0 <= t < |s.threads| :: ThreadInv(s, t))
    && (forall n | 0 <= n < |s.nodes| :: NodeInv(s, n))
  }

  lemma AllocKeepsThread(clearsTail: bool, s: State, s': State, t: nat, u: nat)
    requires QueueInv(clearsTail, s) && Shape(s') && t < |s.threads| && s.threads[t].Idle?
    requires s'.nodes == s.nodes + [Node(0, Null, t)] && s'.threads == s.threads[t := WantGuard(|s.nodes|)]
    requires s'.head == s.head && s'.tail == s.tail && s'.queue == s.queue && s'.arrivals == s.arrivals
    requires u < |s.threads| && u != t
    ensures ThreadInv(s', u)
  {
    assert ThreadInv(s, u);
    if s.threads[u].Asleep? && SomeoneHandsOff(s, s.threads[u].n) {
      var v :| 0 <= v < |s.threads| && s.threads[v] == HandingOff(s.threads[u].n);
      assert s'.threads[v] == HandingOff(s.threads[u].n);
    }
  }

  lemma AllocStep(clearsTail: bool, s: State, t: nat)
    requires QueueInv(clearsTail, s) && Enabled(s, t) && s.threads[t].Idle?
    ensures QueueInv(clearsTail, Step(clearsTail, s, t))
  {
    StepShape(clearsTail, s, t);
    var s' := Step(clearsTail, s, t);
    ChainFrame(s.head, s.nodes, s'.nodes, s.queue);
    forall u | 0 <= u < |s'.threads|
      ensures ThreadInv(s', u)
    {
      if u != t {
        AllocKeepsThread(clearsTail, s, s', t, u);
      }
    }
    forall n | 0 <= n < |s'.nodes|
      ensures NodeInv(s', n)
    {
      assert n < |s.nodes| ==> NodeInv(s, n);
    }
  }

  /** Steps that touch neither the nodes nor the queue. */
  predicate Quiet(s: State, t: nat)
    requires t < |s.threads|
  {
    match s.threads[t]
    case WantGuard(_) => true
    case Deciding(_) => s.locked == 0
    case Taken(_) => true
    case Queued(_) => true
    case Owner => true
    case WantRelease => true
    case Releasing => s.head.Null?
    case Released => true
    case _ => false
  }

  lemma QuietKeepsThread(clearsTail: bool, s: State, s': State, t: nat, u: nat)
    requires QueueInv(clearsTail, s) && Shape(s') && t < |s.threads|
    requires s'.nodes == s.nodes && s'.head == s.head && s'.tail == s.tail && s'.queue == s.queue
    requires |s'.threads| == |s.threads| && s'.threads == s.threads[t := s'.threads[t]]
    requires !s.threads[t].Asleep? && !s.threads[t].HandingOff?
    requires s.threads[t].Queued? ==> s'.threads[t] == Asleep(s.threads[t].n)
    requires forall i | 0 <= i < |s'.arrivals| ::
            s'.arrivals[i] in s.arrivals || s.threads[t] == Deciding(s'.arrivals[i])
    requires u < |s.threads| && u != t
    ensures ThreadInv(s', u)
  {
    assert ThreadInv(s, u) && ThreadInv(s, t);
    if s.threads[u].Asleep? && SomeoneHandsOff(s, s.threads[u].n) {
      var v :| 0 <= v < |s.threads| && s.threads[v] == HandingOff(s.threads[u].n);
      assert s'.threads[v] == HandingOff(s.threads[u].n);
    }
  }

  lemma QuietFrame(clearsTail: bool, s: State, s': State, t: nat)
    requires QueueInv(clearsTail, s) && Shape(s') && t < |s.threads|
    requires s'.nodes == s.nodes && s'.head == s.head && s'.tail == s.tail && s'.queue == s.queue
    requires |s'.threads| == |s.threads| && s'.threads == s.threads[t := s'.threads[t]]
    requires !s.threads[t].Asleep? && !s.threads[t].HandingOff?
    requires s.threads[t].Queued? ==> s'.threads[t] == Asleep(s.threads[t].n)
    requires !Drained(s) ==> s'.arrivals == s'.grants + s'.queue
    requires forall i | 0 <= i < |s'.arrivals| ::
            s'.arrivals[i] in s.arrivals || s.threads[t] == Deciding(s'.arrivals[i])
    requires ThreadInv(s', t)
    ensures QueueInv(clearsTail, s')
  {
    forall u | 0 <= u < |s'.threads|
      ensures ThreadInv(s', u)
    {
      if u != t {
        QuietKeepsThread(clearsTail, s, s', t, u);
      }
    }
    forall n | 0 <= n < |s'.nodes|
      ensures NodeInv(s', n)
    {
      assert NodeInv(s, n);
    }
    forall i | 0 <= i < |s'.queue|
      ensures Waits(s', s'.nodes[s'.queue[i]].waiter, s'.queue[i])
    {
      assert Waits(s, s.nodes[s.queue[i]].waiter, s.queue[i]);
    }
  }

  lemma QuietStep(clearsTail: bool, s: State, t: nat)
    requires QueueInv(clearsTail, s) && Enabled(s, t) && Quiet(s, t)
    requires s.threads[t].Deciding? ==> s.queue == []
    ensures QueueInv(clearsTail, Step(clearsTail, s, t))
  {
    StepShape(clearsTail, s, t);
    assert ThreadInv(s, t);
    QuietFrame(clearsTail, s, Step(clearsTail, s, t), t);
  }

  lemma AloneInGuard(s: State, t: nat, u: nat)
    requires TokenInv(s) && t < |s.threads| && u < |s.threads| && t != u && InGuard(s.threads[t]) == 1
    ensures InGuard(s.threads[u]) == 0
  {
    if InGuard(s.threads[u]) == 1 {
      SumTwo(s.threads, t, u, InGuard);
    }
  }

  lemma AppendKeepsThread(clearsTail: bool, s: State, s': State, t: nat, n: nat, u: nat)
    requires QueueInv(clearsTail, s) && Shape(s') && t < |s.threads| && s.threads[t] == Deciding(n)
    requires |s'.nodes| == |s.nodes| && s'.tail == To(n)
    requires forall k | 0 <= k < |s.nodes| ::
            s'.nodes[k].sem == s.nodes[k].sem && s'.nodes[k].waiter == s.nodes[k].waiter
    requires forall k | 0 <= k < |s.nodes| && To(k) != s.tail :: s'.nodes[k] == s.nodes[k]
    requires s'.queue == s.queue + [n] || (Drained(s) && Drained(s') && s'.queue == s.queue)
    requires s'.threads == s.threads[t := Queued(n)] && s'.arrivals == s.arrivals + [n]
    requires Drained(s) ==> Drained(s')
    requires u < |s.threads|
    ensures ThreadInv(s', u)
  {
    assert ThreadInv(s, t) && ThreadInv(s, u);
    if s.threads[u].Asleep? && SomeoneHandsOff(s, s.threads[u].n) {
      var v :| 0 <= v < |s.threads| && s.threads[v] == HandingOff(s.threads[u].n);
      assert s'.threads[v] == HandingOff(s.threads[u].n);
    }
  }

  /** The effect of an append on everything but the list itself. */
  lemma AppendFrame(clearsTail: bool, s: State, s': State, t: nat, n: nat)
    requires QueueInv(clearsTail, s) && Shape(s') && t < |s.threads| && s.threads[t] == Deciding(n)
    requires |s'.nodes| == |s.nodes| && s'.tail == To(n)
    requires forall k | 0 <= k < |s.nodes| ::
            s'.nodes[k].sem == s.nodes[k].sem && s'.nodes[k].waiter == s.nodes[k].waiter
    requires forall k | 0 <= k < |s.nodes| && To(k) != s.tail :: s'.nodes[k] == s.nodes[k]
    requires s'.queue == s.queue + [n] || (Drained(s) && Drained(s') && s'.queue == s.queue)
    requires s'.threads == s.threads[t := Queued(n)] && s'.arrivals == s.arrivals + [n]
    requires Drained(s) ==> Drained(s')
    ensures forall u | 0 <= u < |s'.threads| :: ThreadInv(s', u)
    ensures forall k | 0 <= k < |s'.nodes| :: NodeInv(s', k)
    ensures forall i | 0 <= i < |s'.queue| ::
              && s'.queue[i] < |s'.nodes|
              && Waits(s', s'.nodes[s'.queue[i]].waiter, s'.queue[i]) && s'.nodes[s'.queue[i]].sem == 0
  {
    assert ThreadInv(s, t);
    forall u | 0 <= u < |s'.threads|
      ensures ThreadInv(s', u)
    {
      AppendKeepsThread(clearsTail, s, s', t, n, u);
    }
    forall k | 0 <= k < |s'.nodes|
      ensures NodeInv(s', k)
    {
      assert NodeInv(s, k);
    }
    forall i | 0 <= i < |s'.queue|
      ensures && s'.queue[i] < |s'.nodes|
              && Waits(s', s'.nodes[s'.queue[i]].waiter, s'.queue[i]) && s'.nodes[s'.queue[i]].sem == 0
    {
      if i < |s.queue| {
        assert s'.queue[i] == s.queue[i];
        assert Waits(s, s.nodes[s.queue[i]].waiter, s.queue[i]);
      }
    }
  }

  lemma AppendBehind(clearsTail: bool, s: State, s': State, t: nat, n: nat)
    requires QueueInv(clearsTail, s) && t < |s.threads| && s.threads[t] == Deciding(n) && s.queue != []
    requires Shape(s') && s' == Append(s, n).(threads := s.threads[t := Queued(n)])
    ensures QueueInv(clearsTail, s')
  {
    assert ThreadInv(s, t);
    ChainAppend(s.head, s.nodes, s.queue, n);
    assert s.grants + (s.queue + [n]) == (s.grants + s.queue) + [n];
    AppendFrame(clearsTail, s, s', t, n);
  }

  lemma AppendFirst(clearsTail: bool, s: State, s': State, t: nat, n: nat)
    requires QueueInv(clearsTail, s) && t < |s.threads| && s.threads[t] == Deciding(n) && s.queue == []
    requires Shape(s') && s' == Append(s, n).(threads := s.threads[t := Queued(n)])
    ensures QueueInv(clearsTail, s')
  {
    assert ThreadInv(s, t);
    assert s.grants + [n] == (s.grants + s.queue) + [n];
    AppendFrame(clearsTail, s, s', t, n);
  }

  lemma AppendStep(clearsTail: bool, s: State, t: nat)
    requires QueueInv(clearsTail, s) && Enabled(s, t) && s.threads[t].Deciding? && s.locked != 0
    ensures QueueInv(clearsTail, Step(clearsTail, s, t))
  {
    StepShape(clearsTail, s, t);
    if s.queue != [] {
      AppendBehind(clearsTail, s, Step(clearsTail, s, t), t, s.threads[t].n);
    } else {
      AppendFirst(clearsTail, s, Step(clearsTail, s, t), t, s.threads[t].n);
    }
  }

  /** The effect of a pop on everything but the list itself. */
  lemma PopFrame(clearsTail: bool, s: State, s': State, t: nat, n: nat)
    requires TokenInv(s) && QueueInv(clearsTail, s) && Shape(s') && t < |s.threads| && s.threads[t].Releasing?
    requires s'.nodes == s.nodes && (s'.tail == s.tail || s'.tail == Null)
    requires s.queue == [n] + s'.queue && s'.arrivals == s.arrivals
    requires s'.threads == s.threads[t := HandingOff(n)]
    requires Drained(s) ==> Drained(s')
    ensures forall u | 0 <= u < |s'.threads| :: ThreadInv(s', u)
    ensures forall k | 0 <= k < |s'.nodes| :: NodeInv(s', k)
    ensures forall i | 0 <= i < |s'.queue| ::
              && s'.queue[i] < |s'.nodes|
              && Waits(s', s'.nodes[s'.queue[i]].waiter, s'.queue[i]) && s'.nodes[s'.queue[i]].sem == 0
  {
    assert s.queue[0] == n;
    assert Waits(s, s.nodes[n].waiter, n);
    AloneInGuard(s, t, s.nodes[n].waiter);
    forall u | 0 <= u < |s'.threads|
      ensures ThreadInv(s', u)
    {
      assert ThreadInv(s, u);
      if u == t {
        assert forall i | 0 <= i < |s'.queue| :: s'.queue[i] == s.queue[i + 1];
      } else {
        AloneInGuard(s, t, u);
        assert s'.threads[t] == HandingOff(n);
        if s.threads[u].Asleep? && SomeoneHandsOff(s, s.threads[u].n) {
          var v :| 0 <= v < |s.threads| && s.threads[v] == HandingOff(s.threads[u].n);
          AloneInGuard(s, t, v);
        }
      }
    }
    forall k | 0 <= k < |s'.nodes|
      ensures NodeInv(s', k)
    {
      assert NodeInv(s, k);
    }
    forall i | 0 <= i < |s'.queue|
      ensures && s'.queue[i] < |s'.nodes|
              && Waits(s', s'.nodes[s'.queue[i]].waiter, s'.queue[i]) && s'.nodes[s'.queue[i]].sem == 0
    {
      assert s'.queue[i] == s.queue[i + 1];
      assert Waits(s, s.nodes[s.queue[i + 1]].waiter, s.queue[i + 1]);
    }
  }

  lemma PopFirst(clearsTail: bool, s: State, s': State, t: nat, n: nat)
    requires TokenInv(s) && QueueInv(clearsTail, s) && t < |s.threads| && s.threads[t].Releasing? && s.head == To(n)
    requires Shape(s') && s' == Pop(clearsTail, s).(threads := s.threads[t := HandingOff(n)])
    ensures QueueInv(clearsTail, s')
  {
    PopList(clearsTail, s, s', t, n);
    PopFrame(clearsTail, s, s', t, n);
  }

  /** The effect of a pop on the list. */
  lemma PopList(clearsTail: bool, s: State, s': State, t: nat, n: nat)
    requires QueueInv(clearsTail, s) && t < |s.threads| && s.head == To(n)
    requires Shape(s') && s' == Pop(clearsTail, s).(threads := s.threads[t := HandingOff(n)])
    ensures s.queue == [n] + s'.queue && s'.nodes == s.nodes && s'.arrivals == s.arrivals
    ensures Chain(s'.head, s'.nodes, s'.queue) && Distinct(s'.queue) && (Drained(s) ==> Drained(s'))
    ensures s'.queue != [] ==> s'.tail == To(s'.queue[|s'.queue| - 1])
    ensures s'.queue == [] && clearsTail ==> s'.tail.Null?
    ensures !Drained(s') ==> s'.arrivals == s'.grants + s'.queue
  {
    assert s.queue == [n] + s'.queue;
    MoveOne(s.grants, n, s'.queue);
  }

  lemma MoveOne(p: seq<nat>, n: nat, q: seq<nat>)
    ensures p + ([n] + q) == (p + [n]) + q
  {
  }

  lemma PopStep(clearsTail: bool, s: State, t: nat)
    requires TokenInv(s) && QueueInv(clearsTail, s) && Enabled(s, t) && s.threads[t].Releasing? && s.head.To?
    ensures QueueInv(clearsTail, Step(clearsTail, s, t))
  {
    StepShape(clearsTail, s, t);
    PopFirst(clearsTail, s, Step(clearsTail, s, t), t, s.head.n);
  }

  lemma PostStep(clearsTail: bool, s: State, t: nat)
    requires TokenInv(s) && QueueInv(clearsTail, s) && Enabled(s, t) && s.threads[t].HandingOff?
    ensures QueueInv(clearsTail, Step(clearsTail, s, t))
  {
    StepShape(clearsTail, s, t);
    var s' := Step(clearsTail, s, t);
    var n := s.threads[t].n;
    ChainFrame(s.head, s.nodes, s'.nodes, s.queue);
    assert ThreadInv(s, t);
    forall u | 0 <= u < |s'.threads|
      ensures ThreadInv(s', u)
    {
      assert ThreadInv(s, u);
      if u != t {
        AloneInGuard(s, t, u);
        if s.threads[u].Asleep? && !Drained(s) && SomeoneHandsOff(s, s.threads[u].n) {
          var v :| 0 <= v < |s.threads| && s.threads[v] == HandingOff(s.threads[u].n);
          if v != t {
            AloneInGuard(s, t, v);
          }
        }
      }
    }
    forall k | 0 <= k < |s'.nodes|
      ensures NodeInv(s', k)
    {
      assert NodeInv(s, k);
    }
    forall i | 0 <= i < |s'.queue|
      ensures Waits(s', s'.nodes[s'.queue[i]].waiter, s'.queue[i]) && s'.nodes[s'.queue[i]].sem == 0
    {
      assert Waits(s, s.nodes[s.queue[i]].waiter, s.queue[i]);
    }
  }

  /** A waiter takes the unit from its node's semaphore. */
  lemma WakeFrame(clearsTail: bool, s: State, s': State, t: nat, n: nat)
    requires QueueInv(clearsTail, s) && Shape(s') && t < |s.threads| && s.threads[t] == Asleep(n)
    requires n < |s.nodes| && s.nodes[n].sem == 1
    requires s'.head == s.head && s'.tail == s.tail && s'.queue == s.queue
    requires s'.arrivals == s.arrivals && s'.grants == s.grants
    requires s'.nodes == s.nodes[n := s.nodes[n].(sem := 0)] && s'.threads == s.threads[t := Owner]
    ensures QueueInv(clearsTail, s')
  {
    ChainFrame(s.head, s.nodes, s'.nodes, s.queue);
    assert NodeInv(s, n);
    forall u | 0 <= u < |s'.threads|
      ensures ThreadInv(s', u)
    {
      WakeKeepsThread(clearsTail, s, s', t, n, u);
    }
    forall k | 0 <= k < |s'.nodes|
      ensures NodeInv(s', k)
    {
      WakeKeepsNode(clearsTail, s, s', t, n, k);
    }
    forall i | 0 <= i < |s'.queue|
      ensures && s'.queue[i] < |s'.nodes|
              && Waits(s', s'.nodes[s'.queue[i]].waiter, s'.queue[i]) && s'.nodes[s'.queue[i]].sem == 0
    {
      assert Waits(s, s.nodes[s.queue[i]].waiter, s.queue[i]);
    }
  }

  lemma WakeKeepsNode(clearsTail: bool, s: State, s': State, t: nat, n: nat, k: nat)
    requires QueueInv(clearsTail, s) && t < |s.threads| && s.threads[t] == Asleep(n)
    requires n < |s.nodes| && s.nodes[n].sem == 1 && s'.queue == s.queue
    requires s'.nodes == s.nodes[n := s.nodes[n].(sem := 0)] && s'.threads == s.threads[t := Owner]
    requires k < |s'.nodes|
    ensures NodeInv(s', k)
  {
    assert NodeInv(s, k) && ThreadInv(s, t);
  }

  lemma WakeKeepsThread(clearsTail: bool, s: State, s': State, t: nat, n: nat, u: nat)
    requires QueueInv(clearsTail, s) && Shape(s') && t < |s.threads| && s.threads[t] == Asleep(n)
    requires n < |s.nodes| && s.nodes[n].sem == 1
    requires s'.head == s.head && s'.tail == s.tail && s'.queue == s.queue && s'.arrivals == s.arrivals
    requires s'.nodes == s.nodes[n := s.nodes[n].(sem := 0)] && s'.threads == s.threads[t := Owner]
    requires u < |s'.threads|
    ensures ThreadInv(s', u)
  {
    assert ThreadInv(s, t) && NodeInv(s, n) && ThreadInv(s, u);
    if s.threads[u].Asleep? && SomeoneHandsOff(s, s.threads[u].n) {
      var v :| 0 <= v < |s.threads| && s.threads[v] == HandingOff(s.threads[u].n);
      assert s'.threads[v] == HandingOff(s.threads[u].n);
    }
  }

  lemma SemAtMostOne(s: State, n: nat)
    requires TokenInv(s) && n < |s.nodes|
    ensures s.nodes[n].sem <= 1
  {
    SemsNonNegative(s.nodes);
    SumAtLeast(s.threads, Has);
  }

  lemma WakeStep(clearsTail: bool, s: State, t: nat)
    requires TokenInv(s) && QueueInv(clearsTail, s) && Enabled(s, t) && s.threads[t].Asleep?
    ensures QueueInv(clearsTail, Step(clearsTail, s, t))
  {
    StepShape(clearsTail, s, t);
    SemAtMostOne(s, s.threads[t].n);
    WakeFrame(clearsTail, s, Step(clearsTail, s, t), t, s.threads[t].n);
  }

  // ----- every run keeps both invariants

  /** Besides the two: the mutex is never free while somebody queues, and no call arrives twice. */
  ghost predicate Inv(clearsTail: bool, s: State) {
    TokenInv(s) && QueueInv(clearsTail, s) && (s.queue != [] ==> s.locked == 1) && Distinct(s.arrivals)
  }

  lemma StepKeepsArrivals(clearsTail: bool, s: State, t: nat)
    requires Inv(clearsTail, s) && Enabled(s, t)
    ensures Distinct(Step(clearsTail, s, t).arrivals)
  {
    assert ThreadInv(s, t);
  }

  lemma StepKeepsLocked(clearsTail: bool, s: State, t: nat)
    requires Inv(clearsTail, s) && Enabled(s, t)
    ensures var s' := Step(clearsTail, s, t); s'.queue != [] ==> s'.locked == 1
  {
  }

  lemma StepKeepsInv(clearsTail: bool, s: State, t: nat)
    requires Inv(clearsTail, s) && Enabled(s, t)
    ensures Inv(clearsTail, Step(clearsTail, s, t))
  {
    StepKeepsToken(clearsTail, s, t);
    StepKeepsLocked(clearsTail, s, t);
    StepKeepsArrivals(clearsTail, s, t);
    match s.threads[t]
    case Idle => AllocStep(clearsTail, s, t);
    case Asleep(_) => WakeStep(clearsTail, s, t);
    case HandingOff(_) => PostStep(clearsTail, s, t);
    case Deciding(_) =>
      if s.locked != 0 {
        AppendStep(clearsTail, s, t);
      } else {
        QuietStep(clearsTail, s, t);
      }
    case Releasing =>
      if s.head.To? {
        PopStep(clearsTail, s, t);
      } else {
        QuietStep(clearsTail, s, t);
      }
    case _ => QuietStep(clearsTail, s, t);
  }

  lemma StartToken(numThreads: nat)
    ensures TokenInv(Start(numThreads))
  {
    SumConstant(Start(numThreads).threads, InGuard, 0);
    SumConstant(Start(numThreads).threads, Has, 0);
  }

  lemma StartInv(clearsTail: bool, numThreads: nat)
    ensures Inv(clearsTail, Start(numThreads))
  {
    StartToken(numThreads);
    StartQueue(clearsTail, Start(numThreads));
  }

  lemma StartQueue(clearsTail: bool, s: State)
    requires Shape(s) && s.head.Null? && s.tail.Null? && s.nodes == [] && s.arrivals == s.grants == s.queue == []
    requires forall t | 0 <= t < |s.threads| :: s.threads[t].Idle?
    ensures QueueInv(clearsTail, s)
  {
  }

  lemma {:induction false} RunKeepsInv(clearsTail: bool, s: State, sched: seq<nat>)
    requires Inv(clearsTail, s) && Runs(clearsTail, s, sched)
    ensures Inv(clearsTail, After(clearsTail, s, sched))
    decreases |sched|
  {
    if sched != [] {
      StepKeepsInv(clearsTail, s, sched[0]);
      RunKeepsInv(clearsTail, Step(clearsTail, s, sched[0]), sched[1..]);
    }
  }

  /** Both releases: no two threads ever have the mutex at the same time. */
  lemma AtMostOneOwner(clearsTail: bool, numThreads: nat, sched: seq<nat>, t: nat, u: nat)
    requires Runs(clearsTail, Start(numThreads), sched)
    requires t < numThreads && u < numThreads && t != u
    ensures var s := After(clearsTail, Start(numThreads), sched);
            !(Has(s.threads[t]) == 1 && Has(s.threads[u]) == 1)
  {
    var s := After(clearsTail, Start(numThreads), sched);
    StartInv(clearsTail, numThreads);
    RunKeepsInv(clearsTail, Start(numThreads), sched);
    OneOwner(s, t, u);
  }

  // ----- first come, first served

  /**
    Until the queue drains, and for ever if release clears `tail`, calls are given the mutex in
    exactly the order in which they were decided, and those not yet served are the queue.
   */
  lemma ServedInOrder(clearsTail: bool, numThreads: nat, sched: seq<nat>)
    requires Runs(clearsTail, Start(numThreads), sched)
    ensures var s := After(clearsTail, Start(numThreads), sched);
            && (clearsTail ==> !Drained(s))
            && (!Drained(s) ==> s.arrivals == s.grants + s.queue)
            && Chain(s.head, s.nodes, s.queue)
  {
    StartInv(clearsTail, numThreads);
    RunKeepsInv(clearsTail, Start(numThreads), sched);
  }

  /** Pops of the queue along a run: releases that hand the mutex to a waiter. */
  ghost function HandOffs(clearsTail: bool, s: State, sched: seq<nat>): nat
    requires Shape(s) && Runs(clearsTail, s, sched)
    decreases |sched|
  {
    if sched == [] then 0
    else
      StepShape(clearsTail, s, sched[0]);
      (if s.threads[sched[0]].Releasing? && s.head.To? then 1 else 0)
      + HandOffs(clearsTail, Step(clearsTail, s, sched[0]), sched[1..])
  }

  lemma QueueMoves(clearsTail: bool, s: State, t: nat)
    requires Inv(clearsTail, s) && Enabled(s, t) && s.queue != []
    ensures var s' := Step(clearsTail, s, t);
            if s.threads[t].Releasing?
            then s'.queue == s.queue[1..] && s'.grants == s.grants + [s.queue[0]]
            else s.queue <= s'.queue && s'.grants == s.grants
  {
  }

  /** The queue and the calls served so far. */
  datatype View = View(queue: seq<nat>, grants: seq<nat>)

  function Seen(s: State): View {
    View(s.queue, s.grants)
  }

  /**
    What `h` hand-overs between `s` and `s'` mean for the waiter at position k: if there were at most
    k it is still queued, exactly that much further forward, and the mutex has gone to those before
    it in order; otherwise they and then the waiter itself have been given the mutex.
   */
  ghost predicate MovedUp(s: View, s': View, k: nat, h: nat)
    requires k < |s.queue|
  {
    && (h <= k ==>
          && k - h < |s'.queue| && s'.queue[k - h] == s.queue[k]
          && s'.grants == s.grants + s.queue[..h])
    && (h > k ==> s.grants + s.queue[..k + 1] <= s'.grants)
  }

  lemma MovedUpNot(s: View, k: nat)
    requires k < |s.queue|
    ensures MovedUp(s, s, k, 0)
  {
    assert s.grants + s.queue[..0] == s.grants;
  }

  lemma MovedUpNoRelease(s: View, s1: View, s': View, k: nat, h: nat)
    requires k < |s.queue| && s.queue <= s1.queue && s1.grants == s.grants && MovedUp(s1, s', k, h)
    ensures MovedUp(s, s', k, h)
  {
    assert s1.queue[..k + 1] == s.queue[..k + 1];
    if h <= k {
      assert s1.queue[..h] == s.queue[..h];
    }
  }

  lemma MovedUpRelease(s: View, s1: View, s': View, k: nat, h: nat)
    requires 0 < k < |s.queue| && s1.queue == s.queue[1..] && s1.grants == s.grants + [s.queue[0]]
    requires MovedUp(s1, s', k - 1, h)
    ensures MovedUp(s, s', k, h + 1)
  {
    if h <= k - 1 {
      assert s.queue[..h + 1] == [s.queue[0]] + s1.queue[..h];
    } else {
      assert s.queue[..k + 1] == [s.queue[0]] + s1.queue[..k];
      assert s.grants + s.queue[..k + 1] == s1.grants + s1.queue[..k];
    }
  }

  lemma MovedUpServed(s: View, s1: View, s': View, h: nat)
    requires s.queue != [] && s1.grants == s.grants + [s.queue[0]] && s1.grants <= s'.grants
    ensures MovedUp(s, s', 0, h + 1)
  {
    assert s.queue[..1] == [s.queue[0]];
  }

  /** What a step does to a non-empty queue: hand the mutex to its first node, or only let it grow. */
  ghost predicate Advances(v: View, v': View) {
    && v.grants <= v'.grants
    && (v.queue != [] ==>
          if v.grants == v'.grants then v.queue <= v'.queue
          else v'.queue == v.queue[1..] && v'.grants == v.grants + [v.queue[0]])
  }

  ghost predicate Advancing(vs: seq<View>) {
    forall i | 0 <= i < |vs| - 1 :: Advances(vs[i], vs[i + 1])
  }

  function Handed(vs: seq<View>): nat {
    if |vs| < 2 then 0
    else (if vs[0].queue != [] && vs[0].grants != vs[1].grants then 1 else 0) + Handed(vs[1..])
  }

  ghost function Trace(clearsTail: bool, s: State, sched: seq<nat>): (vs: seq<View>)
    requires Shape(s) && Runs(clearsTail, s, sched)
    ensures |vs| == |sched| + 1 && vs[0] == Seen(s) && vs[|sched|] == Seen(After(clearsTail, s, sched))
    decreases |sched|
  {
    if sched == [] then [Seen(s)]
    else
      StepShape(clearsTail, s, sched[0]);
      [Seen(s)] + Trace(clearsTail, Step(clearsTail, s, sched[0]), sched[1..])
  }

  /** One step of a run, as far as the queue is concerned. */
  lemma FirstStep(clearsTail: bool, s: State, sched: seq<nat>) returns (s1: State)
    requires Inv(clearsTail, s) && Runs(clearsTail, s, sched) && sched != []
    ensures Inv(clearsTail, s1) && Runs(clearsTail, s1, sched[1..])
    ensures Trace(clearsTail, s, sched) == [Seen(s)] + Trace(clearsTail, s1, sched[1..])
    ensures HandOffs(clearsTail, s, sched) == HandOffs(clearsTail, s1, sched[1..])
              + (if s.queue != [] && s.grants != s1.grants then 1 else 0)
    ensures Advances(Seen(s), Seen(s1))
  {
    var t := sched[0];
    s1 := Step(clearsTail, s, t);
    StepKeepsInv(clearsTail, s, t);
    if s.queue != [] {
      QueueMoves(clearsTail, s, t);
      assert |s.grants + [s.queue[0]]| != |s.grants|;
    }
  }

  lemma AdvancingCons(v: View, rest: seq<View>)
    requires rest != [] && Advancing(rest) && Advances(v, rest[0])
    ensures Advancing([v] + rest)
    ensures Handed([v] + rest) == Handed(rest) + (if v.queue != [] && v.grants != rest[0].grants then 1 else 0)
  {
    var vs := [v] + rest;
    assert vs[1..] == rest;
    forall i | 0 <= i < |vs| - 1
      ensures Advances(vs[i], vs[i + 1])
    {
      if i > 0 {
        assert vs[i] == rest[i - 1] && vs[i + 1] == rest[i - 1 + 1];
      }
    }
  }

  lemma {:induction false} TraceAdvances(clearsTail: bool, s: State, sched: seq<nat>)
    requires Inv(clearsTail, s) && Runs(clearsTail, s, sched)
    ensures Advancing(Trace(clearsTail, s, sched))
    ensures Handed(Trace(clearsTail, s, sched)) == HandOffs(clearsTail, s, sched)
    decreases |sched|
  {
    if sched != [] {
      var s1 := FirstStep(clearsTail, s, sched);
      TraceAdvances(clearsTail, s1, sched[1..]);
      AdvancingCons(Seen(s), Trace(clearsTail, s1, sched[1..]));
    }
  }

  lemma {:induction false} AdvancingGrants(vs: seq<View>)
    requires vs != [] && Advancing(vs)
    ensures vs[0].grants <= vs[|vs| - 1].grants
  {
    if |vs| > 1 {
      assert Advances(vs[0], vs[1]);
      assert Advancing(vs[1..]);
      AdvancingGrants(vs[1..]);
    }
  }

  lemma {:induction false} AdvancingMovesUp(vs: seq<View>, k: nat)
    requires vs != [] && Advancing(vs) && k < |vs[0].queue|
    ensures MovedUp(vs[0], vs[|vs| - 1], k, Handed(vs))
  {
    if |vs| == 1 {
      MovedUpNot(vs[0], k);
    } else {
      var rest := vs[1..];
      assert Advances(vs[0], vs[1]);
      assert Advancing(rest) && rest[|rest| - 1] == vs[|vs| - 1];
      if vs[0].grants == vs[1].grants {
        AdvancingMovesUp(rest, k);
        MovedUpNoRelease(vs[0], vs[1], vs[|vs| - 1], k, Handed(rest));
      } else if k > 0 {
        AdvancingMovesUp(rest, k - 1);
        MovedUpRelease(vs[0], vs[1], vs[|vs| - 1], k, Handed(rest));
      } else {
        AdvancingGrants(rest);
        MovedUpServed(vs[0], vs[1], vs[|vs| - 1], Handed(rest));
      }
    }
  }

  /**
    Bounded waiting without overtaking, for any waiter in the queue of any reachable state of
    either version and for every way the run goes on.
   */
  lemma WaiterAtPositionK(clearsTail: bool, s: State, sched: seq<nat>, k: nat)
    requires Inv(clearsTail, s) && Runs(clearsTail, s, sched) && k < |s.queue|
    ensures MovedUp(Seen(s), Seen(After(clearsTail, s, sched)), k, HandOffs(clearsTail, s, sched))
  {
    TraceAdvances(clearsTail, s, sched);
    AdvancingMovesUp(Trace(clearsTail, s, sched), k);
  }

  // ----- after the queue has drained

  /** Thread `t` waits on node `n`, and nobody knows of `n` any more. */
  ghost predicate Stranded(s: State, t: nat, n: nat) {
    && Drained(s)
    && Waits(s, t, n) && n < |s.nodes| && s.nodes[n].sem == 0
    && !SomeoneHandsOff(s, n)
  }

  lemma StepKeepsStranded(clearsTail: bool, s: State, v: nat, t: nat, n: nat)
    requires Shape(s) && Enabled(s, v) && Stranded(s, t, n)
    ensures Stranded(Step(clearsTail, s, v), t, n)
  {
  }

  /** Once the queue has drained with `tail` left behind, it stays that way in every continuation. */
  lemma {:induction false} DrainedForEver(clearsTail: bool, s: State, sched: seq<nat>)
    requires Shape(s) && Runs(clearsTail, s, sched) && Drained(s)
    ensures Drained(After(clearsTail, s, sched))
    decreases |sched|
  {
    if sched != [] {
      StepShape(clearsTail, s, sched[0]);
      DrainedForEver(clearsTail, Step(clearsTail, s, sched[0]), sched[1..]);
    }
  }

  /** A stranded waiter never gets the mutex. */
  lemma {:induction false} StrandedForEver(clearsTail: bool, s: State, sched: seq<nat>, t: nat, n: nat)
    requires Shape(s) && Runs(clearsTail, s, sched) && Stranded(s, t, n)
    ensures Stranded(After(clearsTail, s, sched), t, n)
    ensures After(clearsTail, s, sched).head.Null?
    decreases |sched|
  {
    if sched != [] {
      StepShape(clearsTail, s, sched[0]);
      StepKeepsStranded(clearsTail, s, sched[0], t, n);
      StrandedForEver(clearsTail, Step(clearsTail, s, sched[0]), sched[1..], t, n);
    }
  }
}
