/** Ordering the drawing requests by colour before they are sent (sort_by_color in
    render-xrender-x11.c): a bottom-up merge sort between the two halves of one buffer. Of two
    equal colours the merge takes the right one first. */
module MergeSort {
  import opened Sequences

  /** A request; only its colour is looked at. */
  datatype Element = Element(color: nat, shape: nat)

  // ----- What the result is -----

  ghost predicate Ascending(s: seq<Element>) {
    forall i, j :: 0 <= i < j < |s| ==> s[i].color <= s[j].color
  }

  /** The elements of one colour, in order. */
  function Only(s: seq<Element>, c: nat): (r: seq<Element>)
    ensures forall i :: 0 <= i < |r| ==> r[i].color == c
  {
    if s == [] then []
    else if s[0].color == c then [s[0]] + Only(s[1..], c)
    else Only(s[1..], c)
  }

  function Reversed(s: seq<Element>): (r: seq<Element>)
    ensures |r| == |s| && forall i :: 0 <= i < |s| ==> r[i] == s[|s| - 1 - i]
  {
    if s == [] then [] else Reversed(s[1..]) + [s[0]]
  }

  ghost predicate OneColor(s: seq<Element>, r: seq<Element>, c: nat) {
    Only(r, c) == Reversed(Only(s, c))
  }

  /** Ascending, and within one colour exactly the elements of s, the last one first. */
  ghost predicate Sorts(s: seq<Element>, r: seq<Element>) {
    Ascending(r) && forall c :: OneColor(s, r, c)
  }

  lemma {:induction false} OnlyBoth(x: seq<Element>, y: seq<Element>, c: nat)
    ensures Only(x + y, c) == Only(x, c) + Only(y, c)
  {
    if x == [] {
      assert x + y == y;
    } else {
      OnlyBoth(x[1..], y, c);
      assert (x + y)[1..] == x[1..] + y;
    }
  }

  lemma ReversedBoth(x: seq<Element>, y: seq<Element>)
    ensures Reversed(x + y) == Reversed(y) + Reversed(x)
  {
  }

  lemma {:induction false} CountOnly(s: seq<Element>, e: Element)
    ensures multiset(Only(s, e.color))[e] == multiset(s)[e]
  {
    if s != [] {
      CountOnly(s[1..], e);
      assert s == [s[0]] + s[1..];
    }
  }

  lemma {:induction false} CountReversed(s: seq<Element>)
    ensures multiset(Reversed(s)) == multiset(s)
  {
    if s != [] {
      CountReversed(s[1..]);
      assert s == [s[0]] + s[1..];
    }
  }

  /** Nothing is lost or made up. */
  lemma SortsPermutes(s: seq<Element>, r: seq<Element>)
    requires Sorts(s, r)
    ensures multiset(r) == multiset(s)
  {
    forall e
      ensures multiset(r)[e] == multiset(s)[e]
    {
      CountOnly(r, e);
      CountOnly(s, e);
      assert OneColor(s, r, e.color);
      CountReversed(Only(s, e.color));
    }
  }

  lemma {:induction false} OnlyIn(s: seq<Element>, i: nat)
    requires i < |s|
    ensures s[i] in Only(s, s[i].color)
  {
    if i > 0 {
      OnlyIn(s[1..], i - 1);
    }
  }

  lemma {:induction false} OnlySub(s: seq<Element>, c: nat)
    ensures forall e :: e in Only(s, c) ==> e in s
  {
    if s != [] {
      OnlySub(s[1..], c);
    }
  }

  /** Ascending sequences that agree on every colour start alike. */
  lemma FirstColor(p: seq<Element>, q: seq<Element>)
    requires Ascending(p) && (forall c :: Only(p, c) == Only(q, c)) && q != []
    ensures p != [] && p[0].color <= q[0].color
  {
    OnlyIn(q, 0);
    var e := q[0];
    assert e in Only(p, e.color);
    OnlySub(p, e.color);
    var i :| 0 <= i < |p| && p[i] == e;
  }

  lemma {:induction false} SameOnly(p: seq<Element>, q: seq<Element>)
    requires Ascending(p) && Ascending(q) && forall c :: Only(p, c) == Only(q, c)
    ensures p == q
  {
    if p == [] {
      if q != [] {
        FirstColor(p, q);
      }
    } else {
      FirstColor(q, p);
      FirstColor(p, q);
      assert Only(p, p[0].color)[0] == p[0] && Only(q, p[0].color)[0] == q[0];
      forall c
        ensures Only(p[1..], c) == Only(q[1..], c)
      {
        assert Only(p, c) == Only(q, c);
        if c == p[0].color {
          assert Only(p[1..], c) == Only(p, c)[1..];
          assert Only(q[1..], c) == Only(q, c)[1..];
        }
      }
      SameOnly(p[1..], q[1..]);
    }
  }

  /** There is only one such result. */
  lemma SortsOnce(s: seq<Element>, p: seq<Element>, q: seq<Element>)
    requires Sorts(s, p) && Sorts(s, q)
    ensures p == q
  {
    forall c
      ensures Only(p, c) == Only(q, c)
    {
      assert OneColor(s, p, c) && OneColor(s, q, c);
    }
    SameOnly(p, q);
  }

  // ----- One merge -----

  function Merge(l: seq<Element>, r: seq<Element>): (m: seq<Element>)
    ensures |m| == |l| + |r|
    decreases |l| + |r|
  {
    if l == [] then r
    else if r == [] then l
    else if l[0].color < r[0].color then [l[0]] + Merge(l[1..], r)
    else [r[0]] + Merge(l, r[1..])
  }

  lemma {:induction false} OnlyNone(s: seq<Element>, c: nat)
    requires forall i :: 0 <= i < |s| ==> s[i].color != c
    ensures Only(s, c) == []
  {
    if s != [] {
      OnlyNone(s[1..], c);
    }
  }

  lemma OnlyCons(e: Element, s: seq<Element>, c: nat)
    ensures Only([e] + s, c) == if e.color == c then [e] + Only(s, c) else Only(s, c)
  {
    assert ([e] + s)[1..] == s;
  }

  /** What was on the right comes first within a colour. */
  lemma {:induction false} MergeOnly(l: seq<Element>, r: seq<Element>, c: nat)
    requires Ascending(l) && Ascending(r)
    ensures Only(Merge(l, r), c) == Only(r, c) + Only(l, c)
    decreases |l| + |r|
  {
    if l == [] || r == [] {
      assert Only(r, c) + [] == Only(r, c);
    } else if l[0].color < r[0].color {
      MergeOnly(l[1..], r, c);
      OnlyCons(l[0], Merge(l[1..], r), c);
      if l[0].color == c {
        OnlyNone(r, c);
      }
    } else {
      MergeOnly(l, r[1..], c);
      OnlyCons(r[0], Merge(l, r[1..]), c);
      if r[0].color == c {
        assert [r[0]] + (Only(r[1..], c) + Only(l, c)) == Only(r, c) + Only(l, c);
      }
    }
  }

  ghost predicate AtLeast(s: seq<Element>, c: nat) {
    forall i :: 0 <= i < |s| ==> c <= s[i].color
  }

  lemma {:induction false} MergeAtLeast(l: seq<Element>, r: seq<Element>, c: nat)
    requires AtLeast(l, c) && AtLeast(r, c)
    ensures AtLeast(Merge(l, r), c)
    decreases |l| + |r|
  {
    if l == [] || r == [] {
    } else if l[0].color < r[0].color {
      MergeAtLeast(l[1..], r, c);
    } else {
      MergeAtLeast(l, r[1..], c);
    }
  }

  lemma {:induction false} MergeAscending(l: seq<Element>, r: seq<Element>)
    requires Ascending(l) && Ascending(r)
    ensures Ascending(Merge(l, r))
    decreases |l| + |r|
  {
    if l == [] || r == [] {
    } else if l[0].color < r[0].color {
      MergeAscending(l[1..], r);
      MergeAtLeast(l[1..], r, l[0].color);
    } else {
      MergeAscending(l, r[1..]);
      MergeAtLeast(l, r[1..], r[0].color);
    }
  }

  /** Merging two sorted neighbours sorts them together. */
  lemma MergeSorts(x: seq<Element>, y: seq<Element>, l: seq<Element>, r: seq<Element>)
    requires Sorts(x, l) && Sorts(y, r)
    ensures Sorts(x + y, Merge(l, r))
  {
    MergeAscending(l, r);
    forall c
      ensures OneColor(x + y, Merge(l, r), c)
    {
      assert OneColor(x, l, c) && OneColor(y, r, c);
      MergeOnly(l, r, c);
      OnlyBoth(x, y, c);
      ReversedBoth(Only(x, c), Only(y, c));
    }
  }

  // ----- One pass -----

  /** Blocks of w elements, the last one maybe shorter, each sorted by itself. */
  ghost predicate Blocks(s: seq<Element>, r: seq<Element>, w: nat)
    requires w > 0
    decreases |s|
  {
    |s| == |r| && if |s| <= w then Sorts(s, r) else Sorts(s[..w], r[..w]) && Blocks(s[w..], r[w..], w)
  }

  /** Merging neighbours pairwise. */
  function Pass(r: seq<Element>, w: nat): (p: seq<Element>)
    requires w > 0
    ensures |p| == |r|
    decreases |r|
  {
    if |r| <= w then Merge(r, [])
    else if |r| <= 2 * w then Merge(r[..w], r[w..])
    else Merge(r[..w], r[w..2 * w]) + Pass(r[2 * w..], w)
  }

  lemma SortsNothing()
    ensures Sorts([], [])
  {
    forall c
      ensures OneColor([], [], c)
    {
    }
  }

  lemma {:induction false} PassBlocks(s: seq<Element>, r: seq<Element>, w: nat)
    requires w > 0 && Blocks(s, r, w)
    ensures Blocks(s, Pass(r, w), 2 * w)
    decreases |s|
  {
    var p := Pass(r, w);
    if |s| <= w {
      SortsNothing();
      MergeSorts(s, [], r, []);
      assert s + [] == s;
    } else if |s| <= 2 * w {
      MergeSorts(s[..w], s[w..], r[..w], r[w..]);
      assert s[..w] + s[w..] == s;
    } else {
      assert s[w..][..w] == s[w..2 * w] && r[w..][..w] == r[w..2 * w];
      assert s[w..][w..] == s[2 * w..] && r[w..][w..] == r[2 * w..];
      MergeSorts(s[..w], s[w..2 * w], r[..w], r[w..2 * w]);
      assert s[..w] + s[w..2 * w] == s[..2 * w];
      PassBlocks(s[2 * w..], r[2 * w..], w);
      assert p[..2 * w] == Merge(r[..w], r[w..2 * w]) && p[2 * w..] == Pass(r[2 * w..], w);
    }
  }

  lemma {:induction false} OnesSorted(s: seq<Element>)
    ensures Blocks(s, s, 1)
    decreases |s|
  {
    var one := if |s| <= 1 then s else s[..1];
    forall c
      ensures OneColor(one, one, c)
    {
      if |one| == 1 {
        assert one[1..] == [];
        assert |Only(one, c)| <= 1;
      }
    }
    if |s| > 1 {
      OnesSorted(s[1..]);
    }
  }

  // ----- The buffer -----

  function Min(a: nat, b: nat): nat { if a < b then a else b }

  /** src and dst are the two halves of the buffer. */
  predicate Halves(length: nat, n: nat, src: nat, dst: nat) {
    2 * n <= length && ((src == 0 && dst == n) || (src == n && dst == 0))
  }

  /** d with xs written from index at on. */
  function Put(d: seq<Element>, at: nat, xs: seq<Element>): (r: seq<Element>)
    requires at + |xs| <= |d|
    ensures |r| == |d|
  {
    seq(|d|, j requires 0 <= j < |d| => if at <= j < at + |xs| then xs[j - at] else d[j])
  }

  lemma PutMore(d: seq<Element>, at: nat, xs: seq<Element>, e: Element)
    requires at + |xs| < |d|
    ensures Put(d, at, xs)[at + |xs| := e] == Put(d, at, xs + [e])
  {
  }

  lemma PutTwice(d: seq<Element>, at: nat, xs: seq<Element>, ys: seq<Element>)
    requires at + |xs| + |ys| <= |d|
    ensures Put(Put(d, at, xs), at + |xs|, ys) == Put(d, at, xs + ys)
  {
  }

  /** What was not written over. */
  lemma PutBeside(d: seq<Element>, at: nat, xs: seq<Element>, i: nat, j: nat)
    requires at + |xs| <= |d| && i <= j <= |d| && (j <= at || at + |xs| <= i)
    ensures Put(d, at, xs)[i..j] == d[i..j]
  {
  }

  lemma PutPart(d: seq<Element>, at: nat, xs: seq<Element>)
    requires at + |xs| <= |d|
    ensures Put(d, at, xs)[at..at + |xs|] == xs
  {
  }

  lemma SliceMore(d: seq<Element>, i: nat, j: nat)
    requires i <= j < |d|
    ensures d[i..j] + [d[j]] == d[i..j + 1]
  {
  }

  lemma SliceRest(d: seq<Element>, i: nat, j: nat)
    requires i < j <= |d|
    ensures d[i..j] != [] && d[i..j][0] == d[i] && d[i..j][1..] == d[i + 1..j]
  {
  }

  /** The rest of one block: d[l0..h] is copied to i0. */
  method CopyRest(data: array<Element>, i0: nat, l0: nat, h: nat) returns (i: nat)
    requires l0 <= h <= data.Length && i0 + (h - l0) <= data.Length && (h <= i0 || i0 + (h - l0) <= l0)
    modifies data
    ensures i == i0 + (h - l0)
    ensures data[..] == Put(old(data[..]), i0, old(data[..])[l0..h])
  {
    ghost var was := data[..];
    i := i0;
    var l := l0;
    while l < h
      invariant l0 <= l <= h && i - i0 == l - l0
      invariant data[..] == Put(was, i0, was[l0..l])
    {
      SliceMore(was, l0, l);
      PutMore(was, i0, was[l0..l], was[l]);
      data[i] := data[l];
      i, l := i + 1, l + 1;
    }
  }

  lemma TakeLeft(done: seq<Element>, x: seq<Element>, y: seq<Element>)
    requires x != [] && y != [] && x[0].color < y[0].color
    ensures done + Merge(x, y) == done + [x[0]] + Merge(x[1..], y)
  {
    assert done + ([x[0]] + Merge(x[1..], y)) == done + [x[0]] + Merge(x[1..], y);
  }

  lemma TakeRight(done: seq<Element>, x: seq<Element>, y: seq<Element>)
    requires x != [] && y != [] && x[0].color >= y[0].color
    ensures done + Merge(x, y) == done + [y[0]] + Merge(x, y[1..])
  {
    assert done + ([y[0]] + Merge(x, y[1..])) == done + [y[0]] + Merge(x, y[1..]);
  }

  lemma OneLeft(done: seq<Element>, x: seq<Element>, y: seq<Element>)
    requires x == [] || y == []
    ensures done + Merge(x, y) == done + x + y
  {
    assert x == [] ==> done + x == done;
    assert y == [] ==> done + x + y == done + x;
  }

  /** The neighbours d[l0..h1] and d[h1..h2] are merged to i0, clear of them. */
  method MergeTwo(data: array<Element>, i0: nat, l0: nat, h1: nat, h2: nat)
    requires l0 <= h1 <= h2 <= data.Length && i0 + (h2 - l0) <= data.Length && (h2 <= i0 || i0 + (h2 - l0) <= l0)
    modifies data
    ensures var was := old(data[..]); data[..] == Put(was, i0, Merge(was[l0..h1], was[h1..h2]))
  {
    ghost var was := data[..];
    ghost var l, r := was[l0..h1], was[h1..h2];
    ghost var done, x, y := [], l, r;
    var i, l1, l2 := i0, l0, h1;
    assert Put(was, i0, []) == was && [] + Merge(l, r) == Merge(l, r);
    while l1 < h1 && l2 < h2
      invariant l0 <= l1 <= h1 <= l2 <= h2 && i == i0 + |done| && |done| == (l1 - l0) + (l2 - h1)
      invariant data[..] == Put(was, i0, done)
      invariant x == was[l1..h1] && y == was[l2..h2]
      invariant Merge(l, r) == done + Merge(x, y)
    {
      SliceRest(was, l1, h1);
      SliceRest(was, l2, h2);
      if data[l1].color < data[l2].color {
        TakeLeft(done, x, y);
        PutMore(was, i0, done, x[0]);
        data[i] := data[l1];
        done, x := done + [x[0]], x[1..];
        i, l1 := i + 1, l1 + 1;
      } else {
        TakeRight(done, x, y);
        PutMore(was, i0, done, y[0]);
        data[i] := data[l2];
        done, y := done + [y[0]], y[1..];
        i, l2 := i + 1, l2 + 1;
      }
    }
    OneLeft(done, x, y);
    CopyBoth(data, was, i0, done, i, l1, h1, l2, h2);
  }

  /** The two loops behind the merge. */
  method CopyBoth(data: array<Element>, ghost was: seq<Element>, ghost i0: nat, ghost done: seq<Element>, i: nat,
                  l1: nat, h1: nat, l2: nat, h2: nat)
    requires |was| == data.Length && l1 <= h1 <= l2 <= h2 <= |was|
    requires i == i0 + |done| && i + (h1 - l1) + (h2 - l2) <= |was|
    requires h2 <= i0 || i + (h1 - l1) + (h2 - l2) <= l1
    requires data[..] == Put(was, i0, done)
    modifies data
    ensures data[..] == Put(was, i0, done + was[l1..h1] + was[l2..h2])
  {
    ghost var x, y := was[l1..h1], was[l2..h2];
    PutBeside(was, i0, done, l1, h1);
    PutTwice(was, i0, done, x);
    var j := CopyRest(data, i, l1, h1);
    assert data[..] == Put(was, i0, done + x);
    PutBeside(was, i0, done + x, l2, h2);
    PutTwice(was, i0, done + x, y);
    j := CopyRest(data, j, l2, h2);
  }

  /** What is left, a block at a time. */
  lemma PassStep(r: seq<Element>, w: nat, h1: nat, h2: nat)
    requires w > 0 && h1 == Min(w, |r|) && h2 == Min(2 * w, |r|)
    ensures Pass(r, w) == Merge(r[..h1], r[h1..h2]) + Pass(r[h2..], w)
  {
    if |r| <= 2 * w {
      assert r[h2..] == [] && Pass([], w) == [];
      if |r| <= w {
        assert r[..h1] == r && r[h1..h2] == [];
      } else {
        assert r[h1..h2] == r[w..];
      }
    }
  }

  /** The same inside the buffer. */
  lemma PassFrom(s: seq<Element>, done: seq<Element>, i: nat, w: nat, h1: nat, h2: nat)
    requires w > 0 && i <= |s| && h1 == Min(i + w, |s|) && h2 == Min(i + 2 * w, |s|)
    ensures done + Pass(s[i..], w) == done + Merge(s[i..h1], s[h1..h2]) + Pass(s[h2..], w)
  {
    var r := s[i..];
    PassStep(r, w, h1 - i, h2 - i);
    assert r[..h1 - i] == s[i..h1] && r[h1 - i..h2 - i] == s[h1..h2] && r[h2 - i..] == s[h2..];
    var m, p := Merge(s[i..h1], s[h1..h2]), Pass(s[h2..], w);
    assert done + (m + p) == done + m + p;
  }

  lemma BlockAt(was: seq<Element>, dst: nat, done: seq<Element>, now: seq<Element>, src: nat, s: seq<Element>, i: nat,
                j: nat, l: nat, h: nat)
    requires Halves(|was|, |s|, src, dst) && |done| <= |s| && i <= j <= |s| && l == src + i && h == src + j
    requires s == was[src..src + |s|] && now == Put(was, dst, done)
    ensures now[l..h] == s[i..j]
  {
    PutBeside(was, dst, done, l, h);
    SliceOfSlice(was, src, src + |s|, i, j);
  }

  lemma PutOn(was: seq<Element>, dst: nat, done: seq<Element>, m: seq<Element>, now: seq<Element>, to: nat,
              d: seq<Element>)
    requires dst + |done| + |m| <= |was| && to == dst + |done| && now == Put(was, dst, done) && d == Put(now, to, m)
    ensures d == Put(was, dst, done + m)
  {
    PutTwice(was, dst, done, m);
  }

  /** The state of a pass: the blocks in front of i are merged. */
  ghost predicate PassedTo(was: seq<Element>, now: seq<Element>, n: nat, src: nat, dst: nat, w: nat,
                           done: seq<Element>) {
    && |now| == |was| && w > 0 && Halves(|was|, n, src, dst) && |done| <= n
    && now == Put(was, dst, done)
    && var s := was[src..src + n]; Pass(s, w) == done + Pass(s[|done|..], w)
  }

  /** The two blocks at i. */
  method MergeBlocks(data: array<Element>, n: nat, src: nat, dst: nat, i: nat, k: nat, ghost w: nat,
                     ghost was: seq<Element>, ghost done0: seq<Element>)
    returns (next: nat, ghost done: seq<Element>)
    requires PassedTo(was, data[..], n, src, dst, w, done0) && |done0| == i < n && k == 2 * w
    modifies data
    ensures PassedTo(was, data[..], n, src, dst, w, done) && i < next == |done|
  {
    var h1, h2 := Min(i + k / 2, n), Min(i + k, n);
    ghost var s, now := was[src..src + n], data[..];
    ghost var m := Merge(s[i..h1], s[h1..h2]);
    var to, l, m1, r := dst + i, src + i, src + h1, src + h2;
    BlockAt(was, dst, done0, now, src, s, i, h1, l, m1);
    BlockAt(was, dst, done0, now, src, s, h1, h2, m1, r);
    MergeTwo(data, to, l, m1, r);
    PutOn(was, dst, done0, m, now, to, data[..]);
    PassFrom(s, done0, i, w, h1, h2);
    next, done := h2, done0 + m;
  }

  /** One pass over all blocks. */
  method PassOver(data: array<Element>, n: nat, src: nat, dst: nat, k: nat, ghost w: nat)
    requires Halves(data.Length, n, src, dst) && k == 2 * w && w > 0
    modifies data
    ensures var was := old(data[..]); data[..] == Put(was, dst, Pass(was[src..src + n], w))
  {
    ghost var was := data[..];
    ghost var s, done := was[src..src + n], [];
    assert s[0..] == s && Put(was, dst, []) == was && [] + Pass(s, w) == Pass(s, w);
    var i := 0;
    while i < n
      invariant |done| == i && PassedTo(was, data[..], n, src, dst, w, done)
    {
      i, done := MergeBlocks(data, n, src, dst, i, k, w, was, done);
    }
    NothingLeft(s, done, w);
  }

  lemma NothingLeft(s: seq<Element>, done: seq<Element>, w: nat)
    requires w > 0
    ensures done + Pass(s[|s|..], w) == done
  {
    assert Pass(s[|s|..], w) == [];
  }

  /** One half of the buffer holds the blocks, and what is behind both halves stays. */
  ghost predicate Holds(was: seq<Element>, n: nat, d: seq<Element>, src: nat, w: nat) {
    |d| == |was| && 2 * n <= |d| && src + n <= |d| && w > 0
    && Blocks(was[..n], d[src..src + n], w) && d[2 * n..] == was[2 * n..]
  }

  lemma PassHolds(was: seq<Element>, n: nat, d: seq<Element>, src: nat, dst: nat, w: nat)
    requires Holds(was, n, d, src, w) && Halves(|d|, n, src, dst)
    ensures Holds(was, n, Put(d, dst, Pass(d[src..src + n], w)), dst, 2 * w)
  {
    var p := Pass(d[src..src + n], w);
    PassBlocks(was[..n], d[src..src + n], w);
    PutPart(d, dst, p);
    PutBeside(d, dst, p, 2 * n, |d|);
  }

  /** The whole sort; the result is in the half that is returned. */
  method SortByColor(data: array<Element>, n: nat) returns (sorted: nat)
    requires 2 * n <= data.Length
    modifies data
    ensures sorted + n <= data.Length
    ensures Sorts(old(data[..n]), data[sorted..sorted + n])
    ensures data[2 * n..] == old(data[2 * n..])
  {
    ghost var was := data[..];
    var dst, src := n, 0;
    var k := 2;
    ghost var w := 1;
    OnesSorted(was[..n]);
    while k < 2 * n
      invariant k == 2 * w && Halves(data.Length, n, src, dst)
      invariant Holds(was, n, data[..], src, w)
      decreases 2 * n - k
    {
      PassHolds(was, n, data[..], src, dst, w);
      PassOver(data, n, src, dst, k, w);
      dst, src := src, dst;
      k, w := k + k, 2 * w;
    }
    sorted := src;
    Sliced(was, data[..], n, src);
  }

  lemma Sliced(was: seq<Element>, d: seq<Element>, n: nat, src: nat)
    requires |was| == |d| && 2 * n <= |d| && src + n <= |d|
    ensures was[0..n] == was[..n] && d[src..src + n] == d[src..][..n]
  {
  }
}
