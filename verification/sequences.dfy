/** Sequence notions shared by the models. */
module Sequences {

  ghost predicate Differ<T>(s: seq<T>, i: nat, j: nat)
    requires i < |s| && j < |s|
  {
    s[i] != s[j]
  }

  /** No element occurs twice. The trigger keeps the pairs dormant until one is named. */
  ghost predicate Distinct<T>(s: seq<T>) {
    forall i, j {:trigger Differ(s, i, j)} :: 0 <= i < j < |s| ==> Differ(s, i, j)
  }

  lemma DistinctPairs<T>(s: seq<T>)
    requires Distinct(s)
    ensures forall i, j :: 0 <= i < j < |s| ==> s[i] != s[j]
  {
    forall i, j | 0 <= i < j < |s|
      ensures s[i] != s[j]
    {
      assert Differ(s, i, j);
    }
  }

  /** The same for one element; unlike DistinctPairs it is cheap to use. */
  lemma OnlyAt<T>(s: seq<T>, k: nat)
    requires Distinct(s) && k < |s|
    ensures forall i {:trigger s[i]} :: 0 <= i < |s| && i != k ==> s[i] != s[k]
  {
    DistinctPairs(s);
  }

  /** s with xs put in front of its element k. */
  ghost function Splice<T>(s: seq<T>, k: nat, xs: seq<T>): (r: seq<T>)
    requires k <= |s|
    ensures |r| == |s| + |xs|
  {
    seq(|s| + |xs|, i requires 0 <= i < |s| + |xs| =>
      if i < k then s[i] else if i < k + |xs| then xs[i - k] else s[i - |xs|])
  }

  lemma DistinctSplice<T>(s: seq<T>, k: nat, xs: seq<T>)
    requires Distinct(s) && Distinct(xs) && k <= |s| && forall x :: x in xs ==> x !in s
    ensures Distinct(Splice(s, k, xs))
  {
    DistinctPairs(s);
    DistinctPairs(xs);
    var r := Splice(s, k, xs);
    forall i, j | 0 <= i < j < |r|
      ensures Differ(r, i, j)
    {
      assert k <= i < k + |xs| ==> xs[i - k] in xs;
      assert k <= j < k + |xs| ==> xs[j - k] in xs;
    }
  }

  lemma InSplice<T>(s: seq<T>, k: nat, xs: seq<T>)
    requires k <= |s|
    ensures forall x :: x in Splice(s, k, xs) <==> x in s || x in xs
  {
    var r := Splice(s, k, xs);
    forall x | x in s || x in xs
      ensures x in r
    {
      if x in s {
        var i := IndexOf(s, x);
        assert r[if i < k then i else i + |xs|] == x;
      } else {
        assert r[k + IndexOf(xs, x)] == x;
      }
    }
  }

  /** s without its element k. */
  ghost function Drop<T>(s: seq<T>, k: nat): (r: seq<T>)
    requires k < |s|
    ensures |r| == |s| - 1
  {
    seq(|s| - 1, i requires 0 <= i < |s| - 1 => if i < k then s[i] else s[i + 1])
  }

  lemma DistinctDrop<T>(s: seq<T>, k: nat)
    requires Distinct(s) && k < |s|
    ensures Distinct(Drop(s, k)) && s[k] !in Drop(s, k)
  {
    DistinctPairs(s);
  }

  lemma InDrop<T>(s: seq<T>, k: nat, x: T)
    requires Distinct(s) && k < |s|
    ensures x in Drop(s, k) <==> x in s && x != s[k]
  {
    DistinctPairs(s);
    if x in s && x != s[k] {
      var i :| 0 <= i < |s| && s[i] == x;
      assert Drop(s, k)[if i < k then i else i - 1] == x;
    }
  }

  lemma DistinctUpdate<T>(s: seq<T>, k: nat, x: T)
    requires Distinct(s) && k < |s| && x !in s
    ensures Distinct(s[k := x])
  {
    var t := s[k := x];
    forall i, j | 0 <= i < j < |t|
      ensures Differ(t, i, j)
    {
      assert Differ(s, i, j);
    }
  }

  lemma InUpdate<T>(s: seq<T>, k: nat, x: T)
    requires Distinct(s) && k < |s|
    ensures forall y :: y in s[k := x] <==> y == x || (y in s && y != s[k])
  {
    OnlyAt(s, k);
    var t := s[k := x];
    forall y | y == x || (y in s && y != s[k])
      ensures y in t
    {
      if y == x {
        assert t[k] == x;
      } else {
        assert t[IndexOf(s, y)] == y;
      }
    }
  }

  ghost function IndexOf<T>(s: seq<T>, x: T): (k: nat)
    requires x in s
    ensures k < |s| && s[k] == x
  {
    var k :| 0 <= k < |s| && s[k] == x;
    k
  }

  lemma IndexUnique<T>(s: seq<T>, k: nat)
    requires Distinct(s) && k < |s|
    ensures IndexOf(s, s[k]) == k
  {
    DistinctPairs(s);
  }

  predicate Below(s: seq<nat>, i: nat, j: nat)
    requires i < |s| && j < |s|
  {
    s[i] < s[j]
  }

  /** The first n elements strictly increase and lie below a bound. */
  ghost predicate IncreasingTo(s: seq<nat>, n: nat, bound: nat)
    requires n <= |s|
  {
    && (forall i, j {:trigger Below(s, i, j)} :: 0 <= i < j < n ==> Below(s, i, j))
    && (forall i :: 0 <= i < n ==> s[i] < bound)
  }

  ghost predicate Increasing(s: seq<nat>, bound: nat) {
    IncreasingTo(s, |s|, bound)
  }

  lemma IncreasingAt(s: seq<nat>, bound: nat, i: nat, j: nat)
    requires Increasing(s, bound) && i < |s| && j < |s|
    ensures s[i] < s[j] <==> i < j
    ensures s[i] == s[j] <==> i == j
  {
    assert i < j ==> Below(s, i, j);
    assert j < i ==> Below(s, j, i);
  }

  lemma SliceAt<T>(s: seq<T>, i: nat, j: nat, k: nat)
    requires i <= j <= |s| && k < j - i
    ensures s[i..j][k] == s[i + k]
  {
  }

  lemma SliceOfSlice<T>(s: seq<T>, lo: nat, hi: nat, i: nat, j: nat)
    requires lo <= hi <= |s| && i <= j <= hi - lo
    ensures s[lo..hi][i..j] == s[lo + i..lo + j]
  {
    var t, a, b := s[lo..hi], lo + i, lo + j;
    var p, q := t[i..j], s[a..b];
    assert |p| == |q|;
    forall k | 0 <= k < |p|
      ensures p[k] == q[k]
    {
      var x := i + k;
      SliceAt(t, i, j, k);
      SliceAt(s, lo, hi, x);
      SliceAt(s, a, b, k);
    }
  }

  lemma DistinctFirst<T>(x: T, s: seq<T>)
    requires Distinct(s) && x !in s
    ensures Distinct([x] + s)
  {
    DistinctPairs(s);
    var r := [x] + s;
    forall i, j | 0 <= i < j < |r|
      ensures Differ(r, i, j)
    {
      assert r[j] == s[j - 1];
    }
  }

  lemma DistinctLast<T>(s: seq<T>, x: T)
    requires Distinct(s) && x !in s
    ensures Distinct(s + [x])
  {
    var r := s + [x];
    forall i, j | 0 <= i < j < |r|
      ensures Differ(r, i, j)
    {
      if j < |s| {
        assert Differ(s, i, j);
      }
    }
  }

  /** s without the first x in it. */
  function Without<T(==)>(s: seq<T>, x: T): (r: seq<T>) {
    if s == [] then [] else if s[0] == x then s[1..] else [s[0]] + Without(s[1..], x)
  }

  lemma {:induction false} WithoutIs<T>(s: seq<T>, x: T)
    ensures forall y :: y in Without(s, x) ==> y in s
    ensures forall y :: y in s && y != x ==> y in Without(s, x)
    ensures x !in s ==> Without(s, x) == s
  {
    if s != [] {
      WithoutIs(s[1..], x);
    }
  }

  lemma {:induction false} WithoutAt<T>(s: seq<T>, k: nat)
    requires k < |s| && forall i :: 0 <= i < k ==> s[i] != s[k]
    ensures Without(s, s[k]) == s[..k] + s[k + 1..]
  {
    if k > 0 {
      WithoutAt(s[1..], k - 1);
      assert s[1..][..k - 1] == s[1..k] && s[1..][k..] == s[k + 1..];
      assert [s[0]] + (s[1..k] + s[k + 1..]) == s[..k] + s[k + 1..];
    }
  }

  lemma DistinctWithout<T>(s: seq<T>, x: T)
    requires Distinct(s)
    ensures Distinct(Without(s, x)) && forall y :: y in Without(s, x) <==> y in s && y != x
    ensures x in s ==> |Without(s, x)| == |s| - 1
  {
    DistinctPairs(s);
    WithoutIs(s, x);
    if x in s {
      WithoutAt(s, IndexOf(s, x));
    }
    forall i, j | 0 <= i < j < |Without(s, x)|
      ensures Differ(Without(s, x), i, j)
    {
    }
  }
}
