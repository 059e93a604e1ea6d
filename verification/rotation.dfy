/** Two neighbouring runs of lines change places (swap_3 in screen.c). */
module Rotation {
  import opened Cells
  import opened Ranges
  import opened Sequences
  import opened Stores
  import Concats

  /** Where element i of a rotated sequence comes from: the run from b to c goes in front of the
      run from a to b. */
  function Origin(a: nat, b: nat, c: nat, i: nat): (j: nat)
    requires a <= b <= c
  {
    if a <= i < a + (c - b) then i - a + b
    else if a + (c - b) <= i < c then i - (c - b)
    else i
  }

  ghost function Rotated<T>(s: seq<T>, a: nat, b: nat, c: nat): (r: seq<T>)
    requires a <= b <= c <= |s|
    ensures |r| == |s|
  {
    seq(|s|, i requires 0 <= i < |s| => s[Origin(a, b, c, i)])
  }

  lemma DistinctRotated<T>(s: seq<T>, a: nat, b: nat, c: nat)
    requires Distinct(s) && a <= b <= c <= |s|
    ensures Distinct(Rotated(s, a, b, c))
  {
    var r := Rotated(s, a, b, c);
    forall i, j | 0 <= i < j < |r|
      ensures Differ(r, i, j)
    {
      var i0, j0 := Origin(a, b, c, i), Origin(a, b, c, j);
      assert if i0 < j0 then Differ(s, i0, j0) else Differ(s, j0, i0);
    }
  }

  lemma InRotated<T>(s: seq<T>, a: nat, b: nat, c: nat)
    requires a <= b <= c <= |s|
    ensures forall x :: x in Rotated(s, a, b, c) <==> x in s
  {
    var r := Rotated(s, a, b, c);
    forall x | x in s
      ensures x in r
    {
      var i := IndexOf(s, x);
      var j := Origin(a, a + (c - b), c, i);
      assert r[j] == s[Origin(a, b, c, j)] == x;
    }
  }

  /** With the list cut around both runs, it is as well the list with the runs exchanged. */
  lemma Reordered(line: Heap, order: seq<Ptr>, a: nat, b: nat, c: nat)
    requires a < b < c <= |order| && LinksBut(line, order, {a, b, c})
    ensures LinksBut(line, Rotated(order, a, b, c), {a, a + (c - b), c})
    ensures Doc(line, Rotated(order, a, b, c)) == Rotated(Doc(line, order), a, b, c)
    ensures Labels(line, Rotated(order, a, b, c)) == Rotated(Labels(line, order), a, b, c)
  {
    var r := Rotated(order, a, b, c);
    var cuts := {a, a + (c - b), c};
    DistinctRotated(order, a, b, c);
    forall i | 0 <= i < |r|
      ensures LinkedButAt(line, r, cuts, i)
    {
      assert LinkedButAt(line, order, {a, b, c}, Origin(a, b, c, i));
    }
  }

  /** swap_3: three cuts, three joins. */
  method Swap3(line0: Heap, topAfter: Ptr, midBefore: Ptr, bottomBefore: Ptr, ghost order: seq<Ptr>, ghost a: nat,
               ghost b: nat, ghost c: nat)
    returns (line: Heap)
    requires LinksOk(line0, order) && a < b < c <= |order|
    requires topAfter == order[a] && midBefore == order[b - 1] && bottomBefore == order[c - 1]
    ensures LinksOk(line, Rotated(order, a, b, c))
    ensures Doc(line, Rotated(order, a, b, c)) == Rotated(Doc(line0, order), a, b, c)
    ensures Labels(line, Rotated(order, a, b, c)) == Rotated(Labels(line0, order), a, b, c)
  {
    var topBefore, midAfter, bottomAfter;
    line, topBefore, midAfter, bottomAfter := CutThree(line0, topAfter, midBefore, bottomBefore, order, a, b, c);
    Reordered(line, order, a, b, c);
    line := JoinThree(line, topAfter, midBefore, bottomBefore, topBefore, midAfter, bottomAfter,
                      Rotated(order, a, b, c), a, a + (c - b), c);
  }

  /** Its detaching half. */
  method CutThree(line0: Heap, topAfter: Ptr, midBefore: Ptr, bottomBefore: Ptr, ghost order: seq<Ptr>, ghost a: nat,
                  ghost b: nat, ghost c: nat)
    returns (line: Heap, topBefore: Ptr, midAfter: Ptr, bottomAfter: Ptr)
    requires LinksOk(line0, order) && a < b < c <= |order|
    requires topAfter == order[a] && midBefore == order[b - 1] && bottomBefore == order[c - 1]
    ensures LinksBut(line, order, {a, b, c}) && SameText(line0, line, order)
    ensures topBefore == if a == 0 then NULL else order[a - 1]
    ensures midAfter == order[b] && bottomAfter == if c == |order| then NULL else order[c]
  {
    line := line0;
    Uncut(line, order, {});
    assert LinkedButAt(line, order, {}, a);
    assert a > 0 ==> order[a - 1] in line;
    topBefore := line[topAfter].prev;
    OpenedBefore(line, order, {}, a);
    line := Concats.DetachPrev(line, topAfter);
    assert {} + {a} == {a};
    assert LinkedButAt(line, order, {a}, b - 1);
    assert order[b] in line;
    midAfter := line[midBefore].next;
    Opened(line, order, {a}, b);
    line := Concats.DetachNext(line, midBefore);
    assert {a} + {b} == {a, b};
    assert LinkedButAt(line, order, {a, b}, c - 1);
    assert c < |order| ==> order[c] in line;
    bottomAfter := line[bottomBefore].next;
    Opened(line, order, {a, b}, c);
    line := Concats.DetachNext(line, bottomBefore);
    assert {a, b} + {c} == {a, b, c};
  }

  /** Its attaching half, in terms of the new order. */
  method JoinThree(line0: Heap, topAfter: Ptr, midBefore: Ptr, bottomBefore: Ptr, topBefore: Ptr, midAfter: Ptr,
                   bottomAfter: Ptr, ghost order: seq<Ptr>, ghost a: nat, ghost b: nat, ghost c: nat)
    returns (line: Heap)
    requires LinksBut(line0, order, {a, b, c}) && a < b < c <= |order|
    requires order[a] == midAfter && order[b - 1] == bottomBefore && order[b] == topAfter && order[c - 1] == midBefore
    requires topBefore == if a == 0 then NULL else order[a - 1]
    requires bottomAfter == if c == |order| then NULL else order[c]
    ensures LinksOk(line, order) && SameText(line0, line, order)
  {
    line := line0;
    assert order[a] in line && order[b] in line && order[b - 1] in line && order[c - 1] in line;
    assert (a > 0 ==> order[a - 1] in line) && (c < |order| ==> order[c] in line);
    if topBefore != NULL {
      Closed(line, order, {a, b, c}, a, midAfter);
      line := Concats.AttachNext(line, topBefore, midAfter);
      assert {a, b, c} - {a} == {b, c};
    } else {
      assert a == 0;
      assert {0} + {b, c} == {a, b, c};
      EndCut(line, order, {b, c});
    }
    Closed(line, order, {b, c}, b, topAfter);
    line := Concats.AttachNext(line, bottomBefore, topAfter);
    assert {b, c} - {b} == {c};
    Closed(line, order, {c}, c, bottomAfter);
    line := Concats.AttachNext(line, midBefore, bottomAfter);
    Uncut(line, order, {c} - {c});
  }

  lemma EndCut(line: Heap, order: seq<Ptr>, cuts: set<nat>)
    requires LinksBut(line, order, {0} + cuts)
    ensures LinksBut(line, order, cuts)
  {
    forall i | 0 <= i < |order|
      ensures LinkedButAt(line, order, cuts, i)
    {
      assert LinkedButAt(line, order, {0} + cuts, i);
    }
  }
}
