/** Cardinality facts about finite sets and sequences. */
module Finite {

  ghost function Range(n: nat): (r: set<nat>)
    ensures forall x: nat :: x in r <==> x < n
    ensures |r| == n
  {
    if n == 0 then {} else Range(n - 1) + {n - 1}
  }

  lemma {:induction false} SubsetCard<T>(a: set<T>, b: set<T>)
    requires a <= b
    ensures |a| <= |b|
    ensures |a| == |b| ==> a == b
  {
    if a == {} {
    } else {
      var x :| x in a;
      SubsetCard(a - {x}, b - {x});
    }
  }

  ghost predicate Distinct<T>(s: seq<T>) {
    forall i, j :: 0 <= i < j < |s| ==> s[i] != s[j]
  }

  ghost function Elements<T>(s: seq<T>): set<T> {
    set x | x in s
  }

  lemma {:induction false} DistinctCard<T>(s: seq<T>)
    requires Distinct(s)
    ensures |Elements(s)| == |s|
  {
    if s == [] {
      assert Elements(s) == {};
    } else {
      var n := |s| - 1;
      DistinctCard(s[..n]);
      assert s == s[..n] + [s[n]];
      assert Elements(s) == Elements(s[..n]) + {s[n]};
      assert s[n] !in Elements(s[..n]);
    }
  }

  function {:tailrecursion false} Sum(s: seq<int>): (r: int) {
    if s == [] then 0 else Sum(s[..|s| - 1]) + s[|s| - 1]
  }

  lemma {:induction false} SumUpdate(s: seq<int>, i: nat, x: int)
    requires i < |s|
    ensures Sum(s[i := x]) == Sum(s) - s[i] + x
    decreases |s|
  {
    var n := |s| - 1;
    if i == n {
      assert s[i := x][..n] == s[..n];
    } else {
      SumUpdate(s[..n], i, x);
      assert s[i := x][..n] == s[..n][i := x];
    }
  }

  lemma {:induction false} SumBounds(s: seq<int>, lo: int, hi: int)
    requires forall i :: 0 <= i < |s| ==> lo <= s[i] <= hi
    ensures |s| * lo <= Sum(s) <= |s| * hi
    decreases |s|
  {
    if s == [] {
    } else {
      var n := |s| - 1;
      SumBounds(s[..n], lo, hi);
      assert |s| * lo == n * lo + lo && |s| * hi == n * hi + hi;
    }
  }

  /** An injective image has the size of its source. */
  lemma {:induction false} ImageCard<S, T>(a: set<S>, f: map<S, T>, b: set<T>)
    requires a <= f.Keys
    requires forall x, y :: x in a && y in a && f[x] == f[y] ==> x == y
    requires b == set x | x in a :: f[x]
    ensures |b| == |a|
  {
    if a == {} {
      assert b == {};
    } else {
      var x :| x in a;
      var a1 := a - {x};
      var b1 := set y | y in a1 :: f[y];
      ImageCard(a1, f, b1);
      assert b == b1 + {f[x]};
    }
  }

  lemma {:induction false} BijectionCard<S, T>(a: set<S>, b: set<T>, f: map<S, T>, inv: map<T, S>)
    requires f.Keys == a && inv.Keys == b
    requires forall x :: x in a ==> f[x] in b && inv[f[x]] == x
    requires forall y :: y in b ==> inv[y] in a && f[inv[y]] == y
    ensures |b| == |a|
  {
    forall y | y in b
      ensures y in set x | x in a :: f[x]
    {
      assert y == f[inv[y]];
    }
    ImageCard(a, f, b);
  }

  /** n * z by repeated addition, which keeps products away from larger proofs. */
  ghost function Times(n: nat, z: nat): nat {
    if n == 0 then 0 else Times(n - 1, z) + z
  }

  lemma {:induction false} TimesIsProduct(n: nat, z: nat)
    ensures Times(n, z) == n * z
  {
    if n > 0 {
      TimesIsProduct(n - 1, z);
      assert n * z == (n - 1) * z + z;
    }
  }

  lemma {:induction false} TimesAdds(m: nat, n: nat, z: nat)
    ensures Times(m + n, z) == Times(m, z) + Times(n, z)
    decreases n
  {
    if n > 0 {
      TimesAdds(m, n - 1, z);
      assert m + n - 1 == m + (n - 1);
    }
  }
}
