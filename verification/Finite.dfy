/** Counting and summing over finite sets. */
module Finite {

  method Pick<A>(xs: set<A>) returns (x: A)
    requires xs != {}
    ensures x in xs
  {
    x :| x in xs;
  }

  lemma SubsetSize<A>(xs: set<A>, ys: set<A>)
    requires xs <= ys
    ensures |xs| <= |ys|
    ensures |xs| == |ys| <==> xs == ys
  {
    assert ys == xs + (ys - xs);
    assert |ys| == |xs| + |ys - xs|;
  }

  /** A set that maps injectively into another is no larger. */
  lemma {:induction false} Injected<A, B>(xs: set<A>, ys: set<B>, f: map<A, B>)
    requires forall x | x in xs :: x in f && f[x] in ys
    requires forall x, x' | x in xs && x' in xs && f[x] == f[x'] :: x == x'
    ensures |xs| <= |ys|
    decreases |xs|
  {
    if xs != {} {
      var x :| x in xs;
      Injected(xs - {x}, ys - {f[x]}, f);
    }
  }

  /** The sum of the values of a set of keys. */
  ghost function Sum<A>(f: map<A, nat>, xs: set<A>): nat
    requires xs <= f.Keys
    decreases |xs|
  {
    if xs == {} then 0
    else
      var x :| x in xs;
      f[x] + Sum(f, xs - {x})
  }

  /** Any key can be taken out first. */
  lemma {:induction false} SumTakeOut<A>(f: map<A, nat>, xs: set<A>, x: A)
    requires xs <= f.Keys && x in xs
    ensures Sum(f, xs) == f[x] + Sum(f, xs - {x})
    decreases |xs|
  {
    var y :| y in xs && Sum(f, xs) == f[y] + Sum(f, xs - {y});
    if y != x {
      SumTakeOut(f, xs - {y}, x);
      SumTakeOut(f, xs - {x}, y);
      assert xs - {y} - {x} == xs - {x} - {y};
    }
  }

  /** Only the values of the keys summed matter. */
  lemma {:induction false} SumSame<A>(f: map<A, nat>, g: map<A, nat>, xs: set<A>)
    requires xs <= f.Keys && xs <= g.Keys && forall x | x in xs :: f[x] == g[x]
    ensures Sum(f, xs) == Sum(g, xs)
    decreases |xs|
  {
    if xs != {} {
      var x :| x in xs;
      SumTakeOut(f, xs, x);
      SumTakeOut(g, xs, x);
      SumSame(f, g, xs - {x});
    }
  }

  /** A new key adds its value to the sums that include it, and changes no other. */
  lemma SumNewKey<A>(f: map<A, nat>, xs: set<A>, x: A, v: nat)
    requires xs <= f.Keys && x !in f
    ensures Sum(f[x := v], xs) == Sum(f, xs)
    ensures Sum(f[x := v], xs + {x}) == Sum(f, xs) + v
  {
    SumSame(f[x := v], f, xs);
    SumTakeOut(f[x := v], xs + {x}, x);
    assert xs + {x} - {x} == xs;
  }

  lemma {:induction false} SumSubset<A>(f: map<A, nat>, xs: set<A>, ys: set<A>)
    requires xs <= ys <= f.Keys
    ensures Sum(f, xs) <= Sum(f, ys) && |xs| <= |ys|
    decreases |ys|
  {
    if xs != {} {
      var x :| x in xs;
      SumTakeOut(f, xs, x);
      SumTakeOut(f, ys, x);
      SumSubset(f, xs - {x}, ys - {x});
    }
  }

  function Fibre<A, B(==)>(xs: set<A>, f: map<A, B>, y: B): set<A>
    requires xs <= f.Keys
  {
    set x | x in xs && f[x] == y
  }

  function Above<A, B>(xs: set<A>, f: map<A, B>, ys: set<B>): set<A>
    requires xs <= f.Keys
  {
    set x | x in xs && f[x] in ys
  }

  /** Counting by groups: the sizes of the fibres of `f` over `ys` add up. */
  lemma {:induction false} SumFibres<A, B>(xs: set<A>, f: map<A, B>, sizes: map<B, nat>, ys: set<B>)
    requires xs <= f.Keys && ys <= sizes.Keys
    requires forall y | y in ys :: sizes[y] == |Fibre(xs, f, y)|
    ensures Sum(sizes, ys) == |Above(xs, f, ys)|
    decreases |ys|
  {
    if ys == {} {
      assert Above(xs, f, ys) == {};
    } else {
      var y :| y in ys;
      SumTakeOut(sizes, ys, y);
      SumFibres(xs, f, sizes, ys - {y});
      var here, others := Fibre(xs, f, y), Above(xs, f, ys - {y});
      assert Above(xs, f, ys) == here + others && here !! others;
    }
  }

  method SumOver<A(==)>(f: map<A, nat>, xs: set<A>) returns (total: nat)
    requires xs <= f.Keys
    ensures total == Sum(f, xs)
  {
    var todo := xs;
    ghost var done: set<A> := {};
    total := 0;
    while todo != {}
      invariant todo <= xs && done == xs - todo && total == Sum(f, done)
      decreases |todo|
    {
      var x := Pick(todo);
      assert (done + {x}) - {x} == done;
      SumTakeOut(f, done + {x}, x);
      total, todo, done := total + f[x], todo - {x}, done + {x};
    }
    assert done == xs;
  }

  predicate Distinct<A(==)>(s: seq<A>) {
    forall i, j :: 0 <= i < j < |s| ==> s[i] != s[j]
  }

  /** A list has as many distinct elements as positions exactly when nothing repeats. */
  lemma {:induction false} DistinctExactly<A>(s: seq<A>)
    ensures |set x | x in s| <= |s|
    ensures |set x | x in s| == |s| <==> Distinct(s)
  {
    var xs := set x | x in s;
    if s == [] {
      assert xs == {};
    } else {
      var ys := set x | x in s[1..];
      DistinctExactly(s[1..]);
      assert xs == ys + {s[0]};
      if s[0] in ys {
        assert xs == ys;
        var i :| 0 <= i < |s| - 1 && s[1..][i] == s[0];
        assert s[i + 1] == s[0];
      } else {
        assert forall i :: 0 < i < |s| ==> s[1..][i - 1] == s[i] && s[i] in ys;
      }
      assert Distinct(s) ==> Distinct(s[1..]);
    }
  }
}
