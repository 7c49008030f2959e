/** Sums of an integer weight over the entries of a sequence (threads, slots or messages). */
module Sums {

  function Sum<T>(s: seq<T>, f: T -> int): int {
    if s == [] then 0 else f(s[0]) + Sum(s[1..], f)
  }

  ghost predicate NonNegative<T(!new)>(f: T -> int) {
    forall x :: f(x) >= 0
  }

  lemma {:induction false} SumUpdate<T>(s: seq<T>, i: nat, x: T, f: T -> int)
    requires i < |s|
    ensures Sum(s[i := x], f) == Sum(s, f) - f(s[i]) + f(x)
  {
    if i == 0 {
      assert s[i := x][1..] == s[1..];
    } else {
      assert s[i := x][1..] == s[1..][i - 1 := x];
      SumUpdate(s[1..], i - 1, x, f);
    }
  }

  lemma {:induction false} SumConcat<T>(s: seq<T>, t: seq<T>, f: T -> int)
    ensures Sum(s + t, f) == Sum(s, f) + Sum(t, f)
  {
    if s == [] {
      assert s + t == t;
    } else {
      assert (s + t)[1..] == s[1..] + t;
      SumConcat(s[1..], t, f);
    }
  }

  lemma {:induction false} SumAtLeast<T(!new)>(s: seq<T>, f: T -> int)
    requires NonNegative(f)
    ensures Sum(s, f) >= 0
    ensures forall i | 0 <= i < |s| :: f(s[i]) <= Sum(s, f)
  {
    if s != [] {
      SumAtLeast(s[1..], f);
      forall i | 0 <= i < |s|
        ensures f(s[i]) <= Sum(s, f)
      {
        if i > 0 {
          assert s[i] == s[1..][i - 1];
        }
      }
    }
  }

  /** Two distinct entries together weigh no more than the whole sequence. */
  lemma SumTwo<T(!new)>(s: seq<T>, i: nat, j: nat, f: T -> int)
    requires i < |s| && j < |s| && i != j
    requires NonNegative(f)
    ensures f(s[i]) + f(s[j]) <= Sum(s, f)
  {
    var k := if i < j then j else i;
    assert s == s[..k] + s[k..];
    SumConcat(s[..k], s[k..], f);
    SumAtLeast(s[..k], f);
    SumAtLeast(s[k..], f);
    assert s[k] == s[k..][0];
    assert s[i + j - k] == s[..k][i + j - k];
  }

  lemma {:induction false} SumWitness<T(!new)>(s: seq<T>, f: T -> int) returns (i: nat)
    requires Sum(s, f) > 0
    ensures i < |s| && f(s[i]) > 0
  {
    if f(s[0]) > 0 {
      i := 0;
    } else {
      i := SumWitness(s[1..], f);
      i := i + 1;
    }
  }

  /** If every entry weighs at most `b`, the sequence weighs at most `b` per entry. */
  lemma {:induction false} SumBound<T>(s: seq<T>, f: T -> int, b: int)
    requires forall i | 0 <= i < |s| :: f(s[i]) <= b
    ensures Sum(s, f) <= |s| * b
  {
    if s != [] {
      SumBound(s[1..], f, b);
    }
  }

  lemma {:induction false} SumConstant<T>(s: seq<T>, f: T -> int, b: int)
    requires forall i | 0 <= i < |s| :: f(s[i]) == b
    ensures Sum(s, f) == |s| * b
  {
    if s != [] {
      SumConstant(s[1..], f, b);
    }
  }

  lemma {:induction false} SumBelow<T(!new)>(s: seq<T>, f: T -> int, g: T -> int)
    requires NonNegative(f) && forall x :: f(x) <= g(x)
    ensures 0 <= Sum(s, f) <= Sum(s, g)
  {
    if s != [] {
      SumBelow(s[1..], f, g);
    }
  }

  /** Two sequences of which entry `u` has lost weight and no other entry has gained any. */
  lemma {:induction false} SumFalls<T>(s: seq<T>, f: T -> int, s': seq<T>, g: T -> int, u: nat)
    requires |s| == |s'| && u < |s|
    requires forall i | 0 <= i < |s| && i != u :: g(s'[i]) <= f(s[i])
    requires g(s'[u]) < f(s[u])
    ensures Sum(s', g) < Sum(s, f)
  {
    if u == 0 {
      SumNotAbove(s[1..], f, s'[1..], g);
    } else {
      SumFalls(s[1..], f, s'[1..], g, u - 1);
    }
  }

  lemma {:induction false} SumNotAbove<T>(s: seq<T>, f: T -> int, s': seq<T>, g: T -> int)
    requires |s| == |s'| && forall i | 0 <= i < |s| :: g(s'[i]) <= f(s[i])
    ensures Sum(s', g) <= Sum(s, f)
  {
    if s != [] {
      SumNotAbove(s[1..], f, s'[1..], g);
    }
  }

  /** If entry `i` carries all the weight of `g`, it carries all the weight of any smaller `f`. */
  lemma SumSingle<T(!new)>(s: seq<T>, i: nat, f: T -> int, g: T -> int)
    requires i < |s|
    requires NonNegative(f) && forall x :: f(x) <= g(x)
    requires Sum(s, g) == g(s[i])
    ensures Sum(s, f) == f(s[i])
  {
    var l, r := s[..i], s[i + 1..];
    assert s == l + ([s[i]] + r);
    SumConcat(l, [s[i]] + r, f);
    SumConcat([s[i]], r, f);
    SumConcat(l, [s[i]] + r, g);
    SumConcat([s[i]], r, g);
    SumBelow(l, f, g);
    SumBelow(r, f, g);
  }
}
