/** Counting the elements of finite sets of numbers. */
module Counting {
  ghost predicate Distinct(l: seq<nat>) { forall j, k | 0 <= j < k < |l| :: l[j] != l[k] }

  function Elems(l: seq<nat>): set<nat> { set k | k in l }

  function Below(n: nat): set<nat> { if n == 0 then {} else Below(n - 1) + {n - 1} }

  lemma ElemsCount(l: seq<nat>)
    requires Distinct(l)
    ensures |Elems(l)| == |l|
    decreases l
  {
    if l == [] {
      assert Elems(l) == {};
    } else {
      ElemsCount(l[1..]);
      assert l == [l[0]] + l[1..];
      assert l[0] !in l[1..];
      assert Elems(l) == {l[0]} + Elems(l[1..]);
    }
  }

  lemma {:induction false} BelowCount(n: nat)
    ensures |Below(n)| == n && forall k: nat :: k in Below(n) <==> k < n
  {
    if n > 0 {
      BelowCount(n - 1);
    }
  }

  /** A subset is no larger, and as large only when it is the whole. */
  lemma SubsetCount<T>(a: set<T>, b: set<T>)
    requires a <= b
    ensures |a| <= |b| && (|a| == |b| ==> a == b)
    decreases a
  {
    if a == {} {
      assert b != {} ==> |b| > 0;
    } else {
      var x :| x in a;
      SubsetCount(a - {x}, b - {x});
    }
  }

  /** `n` different numbers below `n` are all of them. */
  lemma Pigeon(l: seq<nat>, n: nat, p: nat)
    requires Distinct(l) && |l| == n && p < n && forall k | k in l :: k < n
    ensures p in l
  {
    ElemsCount(l);
    BelowCount(n);
    SubsetCount(Elems(l), Below(n));
    assert p in Below(n);
  }

  // ---- sums -------------------------------------------------------------------------------

  ghost function Sum<T>(s: seq<T>, f: T -> nat): nat {
    if s == [] then 0 else Sum(s[..|s| - 1], f) + f(s[|s| - 1])
  }

  lemma {:induction false} SumUpdate<T>(s: seq<T>, p: nat, x: T, f: T -> nat)
    requires p < |s|
    ensures Sum(s[p := x], f) + f(s[p]) == Sum(s, f) + f(x)
    decreases |s|
  {
    var last := |s| - 1;
    var now := s[p := x];
    if p == last {
      assert now[..last] == s[..last];
    } else {
      SumUpdate(s[..last], p, x, f);
      assert now[..last] == s[..last][p := x] && now[last] == s[last];
    }
  }

  lemma {:induction false} SumAtLeast<T>(s: seq<T>, p: nat, f: T -> nat)
    requires p < |s|
    ensures f(s[p]) <= Sum(s, f)
    decreases |s|
  {
    if p < |s| - 1 {
      SumAtLeast(s[..|s| - 1], p, f);
    }
  }

  lemma {:induction false} SumSome<T>(s: seq<T>, f: T -> nat) returns (p: nat)
    requires Sum(s, f) > 0
    ensures p < |s| && f(s[p]) > 0
    decreases |s|
  {
    var last := |s| - 1;
    if f(s[last]) > 0 {
      p := last;
    } else {
      p := SumSome(s[..last], f);
    }
  }

  lemma {:induction false} SumFalls<T>(s: seq<T>, t: seq<T>, f: T -> nat, g: T -> nat, p: nat)
    requires |s| == |t| && p < |s| && forall q | 0 <= q < |s| :: g(t[q]) <= f(s[q])
    ensures Sum(t, g) <= Sum(s, f) && (g(t[p]) < f(s[p]) ==> Sum(t, g) < Sum(s, f))
  {
    var last := |s| - 1;
    if last > 0 {
      SumFalls(s[..last], t[..last], f, g, if p < last then p else 0);
    }
    assert Sum(s, f) == Sum(s[..last], f) + f(s[last]) && Sum(t, g) == Sum(t[..last], g) + g(t[last]);
  }

  lemma {:induction false} SumSame<T>(s: seq<T>, f: T -> nat, g: T -> nat)
    requires forall x :: f(x) == g(x)
    ensures Sum(s, f) == Sum(s, g)
  {
    if s != [] {
      SumSame(s[..|s| - 1], f, g);
    }
  }
}
