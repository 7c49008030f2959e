/**
  The unsynchronised counter: two threads, each running `counter = counter + 1` in a loop of
  `max` iterations, where the increment is a load followed by a store.

  The main result is exact: it names every value the program can print and shows that no other
  value can be printed.
 */
module RacyCounter {

  datatype Who = A | B

  /** `done` is the loop variable; `reg` is the register between the load and the store. */
  datatype Thread = AtLoad(done: nat) | AtStore(done: nat, reg: int)

  datatype State = State(counter: int, a: Thread, b: Thread)

  const START := State(0, AtLoad(0), AtLoad(0))

  function Get(s: State, w: Who): Thread {
    if w == A then s.a else s.b
  }

  function Set(s: State, w: Who, t: Thread): State {
    if w == A then s.(a := t) else s.(b := t)
  }

  predicate Finished(max: int, t: Thread) {
    t.AtLoad? && t.done >= max
  }

  predicate Enabled(max: int, s: State, w: Who) {
    !Finished(max, Get(s, w))
  }

  /** One machine instruction of thread `w`. */
  function Step(max: int, s: State, w: Who): State
    requires Enabled(max, s, w)
  {
    match Get(s, w)
    case AtLoad(d) => Set(s, w, AtStore(d, s.counter))
    case AtStore(d, r) => Set(s, w, AtLoad(d + 1)).(counter := r + 1)
  }

  predicate Runs(max: int, s: State, sched: seq<Who>)
    decreases |sched|
  {
    sched == [] || (Enabled(max, s, sched[0]) && Runs(max, Step(max, s, sched[0]), sched[1..]))
  }

  function After(max: int, s: State, sched: seq<Who>): State
    requires Runs(max, s, sched)
    decreases |sched|
  {
    if sched == [] then s else After(max, Step(max, s, sched[0]), sched[1..])
  }

  /** A complete execution of the program that prints `v`. */
  predicate Prints(max: int, sched: seq<Who>, v: int) {
    && Runs(max, START, sched)
    && var s := After(max, START, sched);
    && Finished(max, s.a) && Finished(max, s.b) && s.counter == v
  }

  /** The values the program can print. */
  predicate Possible(max: int, v: int) {
    if max <= 0 then v == 0
    else if max == 1 then 1 <= v <= 2
    else 2 <= v <= 2 * max
  }

  // ----- every run stays inside the set

  ghost predicate ThreadInv(max: int, s: State, t: Thread) {
    && (t.done == 0 || t.done <= max)
    && (t.AtStore? ==>
          && t.done < max
          && 0 <= t.reg <= s.a.done + s.b.done
          && (t.done >= 1 ==> t.reg >= 1))
  }

  ghost predicate Inv(max: int, s: State) {
    && ThreadInv(max, s, s.a)
    && ThreadInv(max, s, s.b)
    && 0 <= s.counter <= s.a.done + s.b.done
    && (s.a.done + s.b.done >= 1 ==> s.counter >= 1)
    && (Finished(max, s.a) && Finished(max, s.b) && max >= 2 ==> s.counter >= 2)
  }

  lemma {:induction false} RunKeepsInv(max: int, s: State, sched: seq<Who>)
    requires Inv(max, s) && Runs(max, s, sched)
    ensures Inv(max, After(max, s, sched))
    decreases |sched|
  {
    if sched != [] {
      RunKeepsInv(max, Step(max, s, sched[0]), sched[1..]);
    }
  }

  // ----- every value in the set is reached

  lemma {:induction false} AfterConcat(max: int, s: State, p: seq<Who>, q: seq<Who>)
    requires Runs(max, s, p) && Runs(max, After(max, s, p), q)
    ensures Runs(max, s, p + q)
    ensures After(max, s, p + q) == After(max, After(max, s, p), q)
    decreases |p|
  {
    if p == [] {
      assert p + q == q;
    } else {
      AfterConcat(max, Step(max, s, p[0]), p[1..], q);
      assert (p + q)[0] == p[0] && (p + q)[1..] == p[1..] + q;
    }
  }

  /** `k` undisturbed iterations of one thread. */
  function Solo(w: Who, k: nat): seq<Who> {
    if k == 0 then [] else [w, w] + Solo(w, k - 1)
  }

  lemma {:induction false} SoloAdds(max: int, s: State, w: Who, k: nat)
    requires Get(s, w).AtLoad? && Get(s, w).done + k <= max
    ensures Runs(max, s, Solo(w, k))
    ensures After(max, s, Solo(w, k))
            == Set(s, w, AtLoad(Get(s, w).done + k)).(counter := s.counter + k)
    decreases k
  {
    if k > 0 {
      var s1 := Step(max, s, w);
      var s2 := Step(max, s1, w);
      SoloAdds(max, s2, w, k - 1);
      var sched := Solo(w, k);
      assert sched[0] == w && sched[1..] == [w] + Solo(w, k - 1);
      assert sched[1..][0] == w && sched[1..][1..] == Solo(w, k - 1);
      assert Runs(max, s1, sched[1..]);
    }
  }

  lemma OneStep(max: int, s: State, w: Who)
    requires Enabled(max, s, w)
    ensures Runs(max, s, [w]) && After(max, s, [w]) == Step(max, s, w)
  {
    assert Runs(max, Step(max, s, w), [w][1..]);
  }

  predicate Leads(max: int, s: State, sched: seq<Who>, s': State) {
    Runs(max, s, sched) && After(max, s, sched) == s'
  }

  lemma Then(max: int, s: State, p: seq<Who>, m: State, q: seq<Who>, s': State)
    requires Leads(max, s, p, m) && Leads(max, m, q, s')
    ensures Leads(max, s, p + q, s')
  {
    AfterConcat(max, s, p, q);
  }

  /** `w` steps, then the other thread runs `k` iterations, then `w` steps again. */
  lemma Around(max: int, s: State, w: Who, o: Who, k: nat) returns (sched: seq<Who>, s': State)
    requires w != o && Enabled(max, s, w) && Get(s, o).AtLoad? && Get(s, o).done + k <= max
    requires Get(s, w).AtLoad? || Get(s, w).done < max
    ensures Leads(max, s, sched, s')
    ensures var s1 := Step(max, s, w);
            var s2 := Set(s1, o, AtLoad(Get(s1, o).done + k)).(counter := s1.counter + k);
            Enabled(max, s2, w) ==> s' == Step(max, s2, w)
  {
    var s1 := Step(max, s, w);
    var s2 := Set(s1, o, AtLoad(Get(s1, o).done + k)).(counter := s1.counter + k);
    OneStep(max, s, w);
    SoloAdds(max, s1, o, k);
    Then(max, s, [w], s1, Solo(o, k), s2);
    sched, s' := [w] + Solo(o, k), s2;
    if Enabled(max, s2, w) {
      OneStep(max, s2, w);
      s' := Step(max, s2, w);
      Then(max, s, sched, s2, [w], s');
      sched := sched + [w];
    }
  }

  /**
    B runs `j` iterations and A loads; B runs on to its last iteration while A still holds the old
    value; A's store throws B's work away; A then runs `m` iterations, B loads, A finishes, and
    B's store throws A's remaining work away.
   */
  lemma LosingSchedule(max: int, j: nat, m: nat) returns (sched: seq<Who>)
    requires j < max && m < max
    ensures Prints(max, sched, j + m + 2)
  {
    var s1 := State(j, AtLoad(0), AtLoad(j));
    SoloAdds(max, START, B, j);
    var p, s2 := Around(max, s1, A, B, max - 1 - j);
    assert s2 == State(j + 1, AtLoad(1), AtLoad(max - 1));
    var s3 := State(j + 1 + m, AtLoad(1 + m), AtLoad(max - 1));
    SoloAdds(max, s2, A, m);
    var q, s4 := Around(max, s3, B, A, max - 1 - m);
    assert s4 == State(j + m + 2, AtLoad(max), AtLoad(max));
    Then(max, START, Solo(B, j), s1, p, s2);
    Then(max, START, Solo(B, j) + p, s2, Solo(A, m), s3);
    Then(max, START, Solo(B, j) + p + Solo(A, m), s3, q, s4);
    sched := Solo(B, j) + p + Solo(A, m) + q;
  }

  /** With a single iteration each, both threads can load 0 before either stores. */
  lemma LostUpdate() returns (sched: seq<Who>)
    ensures Prints(1, sched, 1)
  {
    sched := [A, B, A, B];
    var s1 := Step(1, START, A);
    var s2 := Step(1, s1, B);
    var s3 := Step(1, s2, A);
    var s4 := Step(1, s3, B);
    assert sched[1..] == [B, A, B] && sched[1..][1..] == [A, B];
    assert [A, B][1..] == [B] && [B][1..] == [];
    assert Runs(1, s3, [B]) && After(1, s3, [B]) == s4;
    assert Runs(1, s2, [A, B]) && After(1, s2, [A, B]) == s4;
    assert Runs(1, s1, [B, A, B]) && After(1, s1, [B, A, B]) == s4;
  }

  /** A value can be printed if and only if it lies in the stated range. */
  lemma PrintedValuesExact(max: int, v: int)
    ensures (exists sched :: Prints(max, sched, v)) <==> Possible(max, v)
  {
    if sched :| Prints(max, sched, v) {
      RunKeepsInv(max, START, sched);
    }
    if Possible(max, v) {
      if max <= 0 {
        assert Prints(max, [], v);
      } else if v == 1 {
        var sched := LostUpdate();
      } else {
        var j := if v - 2 < max then v - 2 else max - 1;
        var sched := LosingSchedule(max, j, v - 2 - j);
      }
    }
  }

  // ----- when the program prints what it says it should

  /** Along the run, every store finds the value that its load found. */
  predicate NothingLost(max: int, s: State, sched: seq<Who>)
    requires Runs(max, s, sched)
    decreases |sched|
  {
    sched == [] ||
    (var t := Get(s, sched[0]);
     (t.AtStore? ==> t.reg == s.counter) && NothingLost(max, Step(max, s, sched[0]), sched[1..]))
  }

  /** No increment has been lost, and no register is ahead of the counter. */
  predicate Exact(s: State) {
    && s.counter == s.a.done + s.b.done
    && (s.a.AtStore? ==> s.a.reg <= s.counter)
    && (s.b.AtStore? ==> s.b.reg <= s.counter)
  }

  /** Some increment has been lost, and no pending store can make up for it. */
  predicate Behind(s: State) {
    && s.counter < s.a.done + s.b.done
    && (s.a.AtStore? ==> s.a.reg < s.a.done + s.b.done)
    && (s.b.AtStore? ==> s.b.reg < s.a.done + s.b.done)
  }

  lemma {:induction false} StaysBehind(max: int, s: State, sched: seq<Who>)
    requires Behind(s) && Runs(max, s, sched)
    ensures Behind(After(max, s, sched))
    decreases |sched|
  {
    if sched != [] {
      StaysBehind(max, Step(max, s, sched[0]), sched[1..]);
    }
  }

  lemma {:induction false} ExactOrBehind(max: int, s: State, sched: seq<Who>)
    requires Exact(s) && Runs(max, s, sched)
    ensures if NothingLost(max, s, sched) then Exact(After(max, s, sched)) else Behind(After(max, s, sched))
    decreases |sched|
  {
    if sched != [] {
      var t := Get(s, sched[0]);
      if t.AtStore? && t.reg != s.counter {
        StaysBehind(max, Step(max, s, sched[0]), sched[1..]);
      } else {
        ExactOrBehind(max, Step(max, s, sched[0]), sched[1..]);
      }
    }
  }

  /**
    An execution prints `2 * max` if and only if `max` is not negative and every store finds the
    counter as its load has found it.
   */
  lemma PrintsShould(max: int, sched: seq<Who>, v: int)
    requires Prints(max, sched, v)
    ensures v == 2 * max <==> max >= 0 && NothingLost(max, START, sched)
  {
    RunKeepsInv(max, START, sched);
    ExactOrBehind(max, START, sched);
  }
}
