/** Finite sets: taking an element out, and summing. */
module FiniteSets {
  method Pick<T(==)>(s: set<T>) returns (x: T)
    requires s != {}
    ensures x in s
  {
    x :| x in s;
  }

  ghost function Sum<T>(s: set<T>, f: T -> int): (total: int)
  {
    if s == {} then 0
    else
      var x :| x in s;
      f(x) + Sum(s - {x}, f)
  }

  /** Any element may be taken out first. */
  lemma {:induction false} SumRemove<T>(s: set<T>, f: T -> int, x: T)
    requires x in s
    ensures Sum(s, f) == f(x) + Sum(s - {x}, f)
  {
    var y :| y in s && Sum(s, f) == f(y) + Sum(s - {y}, f);
    if y != x {
      SumRemove(s - {y}, f, x);
      SumRemove(s - {x}, f, y);
      assert s - {y} - {x} == s - {x} - {y};
    }
  }

  lemma SumAdd<T>(s: set<T>, f: T -> int, x: T)
    requires x !in s
    ensures Sum(s + {x}, f) == f(x) + Sum(s, f)
  {
    SumRemove(s + {x}, f, x);
    assert s + {x} - {x} == s;
  }

  lemma {:induction false} SumMono<T>(s: set<T>, f: T -> int, g: T -> int)
    requires forall x :: x in s ==> f(x) <= g(x)
    ensures Sum(s, f) <= Sum(s, g)
  {
    if s != {} {
      var x :| x in s;
      SumRemove(s, f, x);
      SumRemove(s, g, x);
      SumMono(s - {x}, f, g);
    }
  }

  lemma {:induction false} SumSame<T>(s: set<T>, f: T -> int, g: T -> int)
    requires forall x :: x in s ==> f(x) == g(x)
    ensures Sum(s, f) == Sum(s, g)
  {
    SumMono(s, f, g);
    SumMono(s, g, f);
  }

  /** Changing one summand changes the sum by as much. */
  lemma SumBump<T>(s: set<T>, f: T -> int, g: T -> int, x: T)
    requires x in s && forall y :: y in s && y != x ==> f(y) == g(y)
    ensures Sum(s, g) - Sum(s, f) == g(x) - f(x)
  {
    SumRemove(s, f, x);
    SumRemove(s, g, x);
    SumSame(s - {x}, f, g);
  }

  lemma {:induction false} SumSubset<T>(s: set<T>, t: set<T>, f: T -> int)
    requires s <= t && forall x :: x in t ==> f(x) >= 0
    ensures 0 <= Sum(s, f) <= Sum(t, f)
    decreases t
  {
    if t != {} {
      if x :| x in t && x !in s {
        SumRemove(t, f, x);
        SumSubset(s, t - {x}, f);
      } else {
        assert s == t;
        var x :| x in t;
        SumRemove(t, f, x);
        SumSubset(s - {x}, t - {x}, f);
      }
    }
  }

  lemma {:induction false} SumScale<T>(s: set<T>, f: T -> int, g: T -> int, c: int)
    requires forall x :: x in s ==> g(x) == c * f(x)
    ensures Sum(s, g) == c * Sum(s, f)
  {
    if s != {} {
      var x :| x in s;
      SumRemove(s, g, x);
      SumRemove(s, f, x);
      SumScale(s - {x}, f, g, c);
    }
  }

  /** The sum over a list of distinct elements is the sum over their set. */
  ghost function SumSeq<T>(xs: seq<T>, f: T -> int): (total: int)
  {
    if xs == [] then 0 else SumSeq(xs[..|xs| - 1], f) + f(xs[|xs| - 1])
  }

  ghost predicate Distinct<T(!new)>(xs: seq<T>)
  {
    forall i, j :: 0 <= i < j < |xs| ==> xs[i] != xs[j]
  }

  lemma {:induction false} SumSeqIsSum<T(!new)>(xs: seq<T>, s: set<T>, f: T -> int)
    requires Distinct(xs) && forall x :: x in s <==> x in xs
    ensures SumSeq(xs, f) == Sum(s, f)
  {
    if xs == [] {
      assert s == {};
    } else {
      var n := |xs| - 1;
      assert xs[n] in xs;
      SumRemove(s, f, xs[n]);
      forall x ensures x in s - {xs[n]} <==> x in xs[..n] {
        if x in s - {xs[n]} {
          var i :| 0 <= i < |xs| && xs[i] == x;
          assert xs[..n][i] == x;
        }
      }
      SumSeqIsSum(xs[..n], s - {xs[n]}, f);
    }
  }

  /** Walk a set in some order. */
  method Enumerate<T(==, !new)>(s: set<T>) returns (xs: seq<T>)
    ensures Distinct(xs) && forall x :: x in xs <==> x in s
  {
    xs := [];
    var rest := s;
    while rest != {}
      invariant rest <= s && Distinct(xs)
      invariant forall x :: x in s <==> x in xs || x in rest
      invariant forall x :: x in rest ==> x !in xs
      decreases rest
    {
      var x := Pick(rest);
      xs, rest := xs + [x], rest - {x};
    }
  }
}
