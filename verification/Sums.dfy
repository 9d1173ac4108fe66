/** Sums over sequences, and how they change when one element does. */
module Sums {

  function SumOf<T>(s: seq<T>, f: T -> int): int {
    if s == [] then 0 else SumOf(s[..|s| - 1], f) + f(s[|s| - 1])
  }

  lemma SumAppend<T>(s: seq<T>, x: T, f: T -> int)
    ensures SumOf(s + [x], f) == SumOf(s, f) + f(x)
  {}

  lemma {:induction false} SumUpdate<T>(s: seq<T>, i: nat, x: T, f: T -> int)
    requires i < |s|
    ensures SumOf(s[i := x], f) == SumOf(s, f) - f(s[i]) + f(x)
  {
    var front, last := s[..|s| - 1], s[|s| - 1];
    if i == |s| - 1 {
      assert s[i := x][..|s| - 1] == front;
    } else {
      assert s[i := x][..|s| - 1] == front[i := x];
      SumUpdate(front, i, x, f);
    }
  }

  function Without<T>(s: seq<T>, i: nat): seq<T>
    requires i < |s|
  {
    s[..i] + s[i + 1..]
  }

  lemma {:induction false} SumWithout<T>(s: seq<T>, i: nat, f: T -> int)
    requires i < |s|
    ensures SumOf(Without(s, i), f) == SumOf(s, f) - f(s[i])
  {
    var front, last := s[..|s| - 1], s[|s| - 1];
    if i == |s| - 1 {
      assert Without(s, i) == front;
    } else {
      SumWithout(front, i, f);
      assert Without(s, i) == Without(front, i) + [last];
      SumAppend(Without(front, i), last, f);
    }
  }

  lemma {:induction false} SumAtLeast<T>(s: seq<T>, i: nat, f: T -> int)
    requires i < |s| && forall j :: 0 <= j < |s| ==> 0 <= f(s[j])
    ensures f(s[i]) <= SumOf(s, f)
  {
    var front := s[..|s| - 1];
    assert forall j :: 0 <= j < |front| ==> front[j] == s[j];
    if i < |front| {
      SumAtLeast(front, i, f);
    } else {
      SumNonNegative(front, f);
    }
  }

  lemma {:induction false} SumNonNegative<T>(s: seq<T>, f: T -> int)
    requires forall j :: 0 <= j < |s| ==> 0 <= f(s[j])
    ensures 0 <= SumOf(s, f)
  {
    if s != [] {
      var front := s[..|s| - 1];
      assert forall j :: 0 <= j < |front| ==> front[j] == s[j];
      SumNonNegative(front, f);
    }
  }

  /** Element by element, f stays within g plus h plus a constant; so do the sums. */
  lemma {:induction false} SumWithin<T>(s: seq<T>, f: T -> int, g: T -> int, h: T -> int, c: int)
    requires forall j :: 0 <= j < |s| ==> f(s[j]) <= g(s[j]) + h(s[j]) + c
    ensures SumOf(s, f) <= SumOf(s, g) + SumOf(s, h) + c * |s|
  {
    if s != [] {
      var front := s[..|s| - 1];
      assert forall j :: 0 <= j < |front| ==> front[j] == s[j];
      SumWithin(front, f, g, h, c);
      assert c * |s| == c * |front| + c;
    }
  }

  /** The same sum under a function that agrees on every element. */
  lemma {:induction false} SumSame<T>(s: seq<T>, f: T -> int, g: T -> int)
    requires forall j :: 0 <= j < |s| ==> f(s[j]) == g(s[j])
    ensures SumOf(s, f) == SumOf(s, g)
  {
    if s != [] {
      var front := s[..|s| - 1];
      assert forall j :: 0 <= j < |front| ==> front[j] == s[j];
      SumSame(front, f, g);
    }
  }

  /** Sum of g over the numbers below n. */
  function SumBelow(n: nat, g: nat -> int): int {
    if n == 0 then 0 else SumBelow(n - 1, g) + g(n - 1)
  }

  lemma {:induction false} SumBelowWithin(n: nat, g: nat -> int, h: nat -> int)
    requires forall r: nat :: r < n ==> g(r) <= h(r)
    ensures SumBelow(n, g) <= SumBelow(n, h)
  {
    if n > 0 {
      SumBelowWithin(n - 1, g, h);
    }
  }
}
