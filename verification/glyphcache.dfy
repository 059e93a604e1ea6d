/** Intrusive circular lists (list.h): a list is a ring through its head. */
module Rings {
  import opened Sequences

  const HEAD := -1

  /** The two links of every node that is in the list, and of the head. */
  datatype Ring = Ring(next: map<int, int>, prev: map<int, int>)

  /** The node at a place of the ring; the head is at both ends. */
  function At(order: seq<int>, i: int): int {
    if 1 <= i <= |order| then order[i - 1] else HEAD
  }

  ghost predicate LinkAt(r: Ring, order: seq<int>, i: int) {
    var a, b := At(order, i), At(order, i + 1);
    a in r.next && r.next[a] == b && b in r.prev && r.prev[b] == a
  }

  ghost predicate Linked(r: Ring, order: seq<int>) {
    && Distinct(order) && HEAD !in order
    && forall i :: 0 <= i <= |order| ==> LinkAt(r, order, i)
  }

  /** list_init. */
  function Init(): (r: Ring)
    ensures Linked(r, [])
  {
    Ring(map[HEAD := HEAD], map[HEAD := HEAD])
  }

  /** list_insert_after behind the head. */
  method InsertFirst(r0: Ring, x: int, ghost order: seq<int>) returns (r: Ring)
    requires Linked(r0, order) && x !in order && x != HEAD
    ensures Linked(r, [x] + order)
  {
    assert LinkAt(r0, order, 0);
    var prev, next := HEAD, r0.next[HEAD];
    r := Ring(r0.next[prev := x], r0.prev[next := x]);
    r := Ring(r.next[x := next], r.prev[x := prev]);
    FirstLinked(r0, r, x, order);
  }

  lemma FirstLinked(r0: Ring, r: Ring, x: int, order: seq<int>)
    requires Linked(r0, order) && x !in order && x != HEAD && LinkAt(r0, order, 0)
    requires r.next == r0.next[HEAD := x][x := r0.next[HEAD]] && r.prev == r0.prev[r0.next[HEAD] := x][x := HEAD]
    ensures Linked(r, [x] + order)
  {
    var more := [x] + order;
    DistinctPairs(order);
    DistinctFirst(x, order);
    forall i | 0 <= i <= |more|
      ensures LinkAt(r, more, i)
    {
      assert i > 0 ==> LinkAt(r0, order, i - 1);
      assert At(more, i) == (if i == 0 then HEAD else if i == 1 then x else At(order, i - 1));
      assert At(more, i + 1) == if i == 0 then x else At(order, i);
    }
  }

  /** list_remove. */
  method Remove(r0: Ring, x: int, ghost order: seq<int>, ghost k: nat) returns (r: Ring)
    requires Linked(r0, order) && k < |order| && order[k] == x
    ensures Linked(r, order[..k] + order[k + 1..])
  {
    assert LinkAt(r0, order, k) && LinkAt(r0, order, k + 1);
    var n, p := r0.next[x], r0.prev[x];
    r := Ring(r0.next[p := n], r0.prev[n := p]);
    r := Ring(r.next - {x}, r.prev - {x});
    RestLinked(r0, r, x, order, k);
  }

  lemma RestLinked(r0: Ring, r: Ring, x: int, order: seq<int>, k: nat)
    requires Linked(r0, order) && k < |order| && order[k] == x && LinkAt(r0, order, k) && LinkAt(r0, order, k + 1)
    requires r.next == r0.next[r0.prev[x] := r0.next[x]] - {x} && r.prev == r0.prev[r0.next[x] := r0.prev[x]] - {x}
    ensures Linked(r, order[..k] + order[k + 1..])
  {
    var less := order[..k] + order[k + 1..];
    DistinctPairs(order);
    forall i, j | 0 <= i < j < |less|
      ensures Differ(less, i, j)
    {
      assert less[i] == order[if i < k then i else i + 1] && less[j] == order[if j < k then j else j + 1];
    }
    forall i | 0 <= i <= |less|
      ensures LinkAt(r, less, i)
    {
      assert At(less, i) == At(order, if i <= k then i else i + 1);
      assert At(less, i + 1) == At(order, if i < k then i + 1 else i + 2);
      assert LinkAt(r0, order, if i < k then i else i + 1);
      assert At(order, k + 1) == x;
    }
  }

  lemma LastLinked(r: Ring, order: seq<int>)
    requires Linked(r, order) && order != []
    ensures HEAD in r.prev && r.prev[HEAD] == order[|order| - 1]
  {
    assert LinkAt(r, order, |order|);
  }
}

/** The glyph cache (font.c): rendered glyphs are kept in a hash table; those that are not plain
    characters are also in a list, the one fetched last in front, and the one at its end makes room
    for a new one. */
module GlyphCaches {
  import opened HashTables
  import opened Rings
  import opened Sequences

  // ----- Recency -----

  function Take(n: nat, s: seq<int>): seq<int> { if |s| <= n then s else s[..n] }

  /** A list after one fetch: that glyph comes to the front, and whatever is too much goes. */
  function Touched(n: nat, s: seq<int>, x: int): seq<int> { Take(n, [x] + Without(s, x)) }

  const LRU_MIN_CACHED := 128

  /** Glyphs that are in the list if they can be rendered at all. */
  predicate Listed(render: int -> Option<nat>, g: int) { g >= LRU_MIN_CACHED && render(g).Some? }

  /** All listed glyphs that were ever fetched, those fetched later in front. */
  function Recent(render: int -> Option<nat>, history: seq<int>): (r: seq<int>) {
    if history == [] then []
    else
      var g, before := history[|history| - 1], Recent(render, history[..|history| - 1]);
      if Listed(render, g) then [g] + Without(before, g) else before
  }

  /** Behind which fetch a glyph was last fetched. */
  function LastFetch(history: seq<int>, g: int): (r: nat)
    ensures r <= |history|
  {
    if history == [] then 0
    else if history[|history| - 1] == g then |history|
    else LastFetch(history[..|history| - 1], g)
  }

  /** Cutting the list before or after a glyph comes to the front is the same. */
  lemma TouchedTake(n: nat, s: seq<int>, x: int)
    requires n > 0 && Distinct(s)
    ensures Touched(n, Take(n, s), x) == Touched(n, s, x)
  {
    DistinctPairs(s);
    var t := Take(n, s);
    if |s| > n {
      if x in s {
        var k := IndexOf(s, x);
        WithoutAt(s, k);
        if k < n {
          WithoutAt(t, k);
          assert Touched(n, t, x) == [x] + (t[..k] + t[k + 1..]);
        } else {
          WithoutIs(t, x);
        }
      } else {
        WithoutIs(s, x);
        WithoutIs(t, x);
      }
    }
  }

  lemma DistinctFront(s: seq<int>, x: int)
    requires Distinct(s)
    ensures Distinct([x] + Without(s, x)) && x !in Without(s, x)
  {
    DistinctWithout(s, x);
    DistinctFirst(x, Without(s, x));
  }

  lemma {:induction false} RecentDistinct(render: int -> Option<nat>, history: seq<int>)
    ensures Distinct(Recent(render, history))
  {
    if history != [] {
      var before := history[..|history| - 1];
      RecentDistinct(render, before);
      DistinctFront(Recent(render, before), history[|history| - 1]);
    }
  }

  /** What is in the recency list. */
  lemma {:induction false} RecentHas(render: int -> Option<nat>, history: seq<int>)
    ensures forall g :: g in Recent(render, history) <==> Listed(render, g) && g in history
  {
    if history != [] {
      var g, h := history[|history| - 1], history[..|history| - 1];
      RecentHas(render, h);
      WithoutIs(Recent(render, h), g);
    }
  }

  ghost predicate LaterFirst(history: seq<int>, s: seq<int>, i: int, j: int)
    requires 0 <= i < |s| && 0 <= j < |s|
  {
    LastFetch(history, s[i]) > LastFetch(history, s[j])
  }

  /** What was fetched later is in front. */
  ghost predicate ByRecency(history: seq<int>, s: seq<int>) {
    forall i, j {:trigger LaterFirst(history, s, i, j)} :: 0 <= i < j < |s| ==> LaterFirst(history, s, i, j)
  }

  lemma FetchedAgain(history: seq<int>, s: seq<int>)
    requires history != [] && Distinct(s) && ByRecency(history[..|history| - 1], s)
    ensures history[|history| - 1] !in s ==> ByRecency(history, s)
    ensures ByRecency(history, [history[|history| - 1]] + Without(s, history[|history| - 1]))
  {
    var g, h := history[|history| - 1], history[..|history| - 1];
    var r, t := Without(s, g), [g] + Without(s, g);
    DistinctFront(s, g);
    WithoutIs(s, g);
    var k := if g in s then IndexOf(s, g) else |s|;
    if g in s {
      DistinctPairs(s);
      WithoutAt(s, k);
    }
    forall i, j | 0 <= i < j < |s| && g !in s
      ensures LaterFirst(history, s, i, j)
    {
      assert LaterFirst(h, s, i, j);
    }
    forall i, j | 0 <= i < j < |t|
      ensures LaterFirst(history, t, i, j)
    {
      assert t[j] == r[j - 1] != g;
      if i > 0 {
        assert t[i] == r[i - 1] != g;
        var a, b := if i - 1 < k then i - 1 else i, if j - 1 < k then j - 1 else j;
        assert r[i - 1] == s[a] && r[j - 1] == s[b];
        assert LaterFirst(h, s, a, b);
      }
    }
  }

  lemma {:induction false} RecentOrder(render: int -> Option<nat>, history: seq<int>)
    ensures ByRecency(history, Recent(render, history))
  {
    if history != [] {
      var g, h := history[|history| - 1], history[..|history| - 1];
      RecentOrder(render, h);
      RecentDistinct(render, h);
      RecentHas(render, h);
      FetchedAgain(history, Recent(render, h));
    }
  }

  // ----- The index -----

  /** How glyphs are drawn and where they are stored. */
  datatype Face = Face(render: int -> Option<nat>, hash: int -> nat)

  function KeyOf(f: Face, g: int): Key
    requires g >= 0
  {
    Key(f.hash(g), g)
  }

  /** An entry is what rendering gives, and is there because it is a plain character or in the list. */
  ghost predicate EntryOk(f: Face, m: Contents, order: seq<int>, history: seq<int>, k: Key)
    requires k in m
  {
    && k == KeyOf(f, k.name) && f.render(k.name) == Some(m[k].id) && m[k].key == k
    && k.name in history && (k.name >= LRU_MIN_CACHED ==> k.name in order)
  }

  ghost predicate InIndex(f: Face, m: Contents, g: int) { g >= 0 && KeyOf(f, g) in m }

  ghost predicate IndexOk(f: Face, m: Contents, order: seq<int>, history: seq<int>) {
    && (forall k :: k in m ==> EntryOk(f, m, order, history, k))
    && (forall g :: g in order ==> g >= LRU_MIN_CACHED && InIndex(f, m, g))
    && (forall g :: g in history ==> 0 <= g && (g < LRU_MIN_CACHED && f.render(g).Some? ==> InIndex(f, m, g)))
  }

  /** The index holds the plain characters that were ever fetched, the list, and nothing else. */
  lemma IndexIs(f: Face, m: Contents, order: seq<int>, history: seq<int>, g: int)
    requires IndexOk(f, m, order, history) && g >= 0
    ensures KeyOf(f, g) in m <==> if g < 128 then g in history && f.render(g).Some? else g in order
    ensures KeyOf(f, g) in m ==> f.render(g) == Some(m[KeyOf(f, g)].id)
  {
    assert KeyOf(f, g) in m ==> EntryOk(f, m, order, history, KeyOf(f, g));
    assert g in order ==> InIndex(f, m, g);
    assert g in history && g < LRU_MIN_CACHED && f.render(g).Some? ==> InIndex(f, m, g);
  }

  /** A glyph that is there already pushes nothing out. */
  lemma AgainKeeps(n: nat, s: seq<int>, x: int)
    requires Distinct(s) && |s| <= n && x in s
    ensures Touched(n, s, x) == [x] + Without(s, x) && |Touched(n, s, x)| == |s|
    ensures forall y :: y in Touched(n, s, x) <==> y in s
  {
    DistinctPairs(s);
    WithoutAt(s, IndexOf(s, x));
    WithoutIs(s, x);
  }

  /** A new glyph pushes out at most the last one of a full list. */
  lemma NewKeeps(n: nat, s: seq<int>, x: int)
    requires n > 0 && |s| <= n && x !in s
    ensures forall i :: 0 <= i < |s| && i < n - 1 ==> s[i] in Touched(n, s, x)
  {
    WithoutIs(s, x);
    forall i | 0 <= i < |s| && i < n - 1
      ensures s[i] in Touched(n, s, x)
    {
      assert Touched(n, s, x)[i + 1] == s[i];
    }
  }

  /** What a fetch pushes out of the list is the last one of a full list. */
  lemma LastGoes(f: Face, limit: nat, order: seq<int>, history: seq<int>, g: int, x: int)
    requires limit > 0 && order == Take(limit, Recent(f.render, history)) && x in order
    requires x !in Touched(limit, order, g)
    ensures g !in order && |order| == limit && x == order[limit - 1]
  {
    RecentDistinct(f.render, history);
    DistinctPairs(Recent(f.render, history));
    WithoutIs(order, g);
    assert Touched(limit, order, g)[0] == g;
    if g in order {
      AgainKeeps(limit, order, g);
    } else {
      NewKeeps(limit, order, g);
    }
  }

  /** And it was fetched before everything that stays. */
  lemma OldestGoes(f: Face, limit: nat, order: seq<int>, history: seq<int>, g: int, x: int)
    requires limit > 0 && order == Take(limit, Recent(f.render, history)) && x in order
    requires x !in Touched(limit, order, g)
    ensures g !in order && |order| == limit && x == order[limit - 1]
    ensures forall y :: y in order && y != x ==> LastFetch(history, y) > LastFetch(history, x)
  {
    LastGoes(f, limit, order, history, g, x);
    RecentOrder(f.render, history);
    forall y | y in order && y != x
      ensures LastFetch(history, y) > LastFetch(history, x)
    {
      assert LaterFirst(history, Recent(f.render, history), IndexOf(order, y), limit - 1);
    }
  }

  /** Nothing new, whatever the order. */
  lemma IndexSame(f: Face, m: Contents, order: seq<int>, order1: seq<int>, history: seq<int>, g: int)
    requires IndexOk(f, m, order, history) && g >= 0 && (forall x :: x in order1 <==> x in order)
    requires f.render(g).Some? ==> InIndex(f, m, g)
    ensures IndexOk(f, m, order1, history + [g])
  {
    forall k | k in m
      ensures EntryOk(f, m, order1, history + [g], k)
    {
      assert EntryOk(f, m, order, history, k);
    }
  }

  lemma IndexMore(f: Face, m: Contents, order: seq<int>, order1: seq<int>, history: seq<int>, g: int, e: Elem)
    requires IndexOk(f, m, order, history) && g >= 0 && f.render(g) == Some(e.id) && e.key == KeyOf(f, g)
    requires forall x :: x in order1 <==> x in order || (x == g && g >= LRU_MIN_CACHED)
    ensures IndexOk(f, m[e.key := e], order1, history + [g])
  {
    var m1 := m[e.key := e];
    forall k | k in m1
      ensures EntryOk(f, m1, order1, history + [g], k)
    {
      assert k != e.key ==> EntryOk(f, m, order, history, k);
    }
    forall x | x in order1
      ensures x >= LRU_MIN_CACHED && InIndex(f, m1, x)
    {
      assert x in order ==> InIndex(f, m, x);
    }
    forall x | x in history + [g]
      ensures 0 <= x && (x < LRU_MIN_CACHED && f.render(x).Some? ==> InIndex(f, m1, x))
    {
      assert x in history || x == g;
      assert x in history && x < LRU_MIN_CACHED && f.render(x).Some? ==> InIndex(f, m, x);
    }
  }

  lemma IndexLess(f: Face, m: Contents, order: seq<int>, order1: seq<int>, history: seq<int>, last: int)
    requires IndexOk(f, m, order, history) && last >= LRU_MIN_CACHED
    requires forall x :: x in order1 <==> x in order && x != last
    ensures IndexOk(f, m - {KeyOf(f, last)}, order1, history)
  {
    var m1 := m - {KeyOf(f, last)};
    forall k | k in m1
      ensures EntryOk(f, m1, order1, history, k)
    {
      assert EntryOk(f, m, order, history, k);
    }
    forall x | x in order1
      ensures x >= LRU_MIN_CACHED && InIndex(f, m1, x)
    {
      assert InIndex(f, m, x) && KeyOf(f, x).name == x;
    }
    forall x | x in history
      ensures 0 <= x && (x < LRU_MIN_CACHED && f.render(x).Some? ==> InIndex(f, m1, x))
    {
      assert x < LRU_MIN_CACHED && f.render(x).Some? ==> InIndex(f, m, x) && KeyOf(f, x).name == x;
    }
  }

  /** The list after one more fetch. */
  lemma ListStep(f: Face, limit: nat, order: seq<int>, history: seq<int>, g: int)
    requires limit > 0 && order == Take(limit, Recent(f.render, history))
    ensures (if Listed(f.render, g) then Touched(limit, order, g) else order) ==
      Take(limit, Recent(f.render, history + [g]))
  {
    assert (history + [g])[..|history|] == history;
    RecentDistinct(f.render, history);
    TouchedTake(limit, Recent(f.render, history), g);
  }

  lemma LastOnce(order: seq<int>, g: int)
    requires Distinct(order) && order != [] && g !in order
    ensures var k := |order| - 1; forall x :: x in [g] + order[..k] <==> x in [g] + order && x != order[k]
  {
    var k := |order| - 1;
    DistinctPairs(order);
    assert order == order[..k] + [order[k]];
  }

  lemma FrontTaken(limit: nat, order: seq<int>, g: int)
    requires limit > 0 && g !in order
    ensures [g] + Take(limit - 1, order) == Touched(limit, order, g)
  {
    WithoutIs(order, g);
  }

  // ----- The cache -----

  class GlyphCache {
    const face: Face
    /** How many glyphs the list may hold. */
    const limit: nat
    const glyphs: Table
    var lru: Ring
    var lruSize: nat
    /** The glyphs in the list, from the front. */
    ghost var order: seq<int>
    /** All fetches so far. */
    ghost var history: seq<int>

    ghost predicate Valid()
      reads this, glyphs
    {
      && glyphs.Valid() && limit > 0
      && Linked(lru, order) && lruSize == |order|
      && order == Take(limit, Recent(face.render, history))
      && IndexOk(face, glyphs.contents, order, history)
    }

    /** An empty cache; caps is a constant of the source. */
    constructor (f: Face, limit0: nat, caps: nat)
      requires limit0 > 0 && caps > 0
      ensures Valid() && fresh(glyphs) && face == f && limit == limit0 && history == []
    {
      face, limit := f, limit0;
      glyphs := new Table(caps);
      lru, lruSize, order, history := Init(), 0, [], [];
    }

    /** list_remove and list_insert_after: the glyph comes to the front. */
    method ToFront(g: int)
      requires Linked(lru, order) && g in order && |order| <= limit
      modifies this`lru, this`order
      ensures Linked(lru, order) && order == Touched(limit, old(order), g) && |order| == |old(order)|
      ensures forall x :: x in order <==> x in old(order)
    {
      ghost var k := IndexOf(order, g);
      DistinctPairs(order);
      WithoutAt(order, k);
      AgainKeeps(limit, order, g);
      DistinctFront(order, g);
      lru := Remove(lru, g, order, k);
      order := Without(order, g);
      lru := InsertFirst(lru, g, order);
      order := [g] + order;
    }

    /** Make room for a new glyph g, which is in the index already: the one at the end of the list
        goes. */
    method Evict(ghost g: int, ghost fetched: seq<int>)
      requires glyphs.Valid() && Linked(lru, order) && order != [] && g !in order
      requires IndexOk(face, glyphs.contents, [g] + order, fetched)
      modifies this`lru, this`order, glyphs
      ensures glyphs.Valid() && Linked(lru, order) && order == old(order)[..|old(order)| - 1]
      ensures IndexOk(face, glyphs.contents, [g] + order, fetched)
    {
      LastLinked(lru, order);
      var last := lru.prev[HEAD];
      ghost var k := |order| - 1;
      ghost var less := order[..k];
      assert order[..k] + order[k + 1..] == less;
      LastOnce(order, g);
      assert last in [g] + order;
      IndexLess(face, glyphs.contents, [g] + order, [g] + less, fetched, last);
      lru := Remove(lru, last, order, k);
      order := less;
      var gone := glyphs.Erase(KeyOf(face, last));
    }

    /** There is room in the list for a new glyph g, which is in the index already. */
    method MakeRoom(ghost g: int, ghost fetched: seq<int>)
      requires glyphs.Valid() && Linked(lru, order) && lruSize == |order| <= limit && limit > 0 && g !in order
      requires IndexOk(face, glyphs.contents, [g] + order, fetched)
      modifies this`lru, this`lruSize, this`order, glyphs
      ensures glyphs.Valid() && Linked(lru, order) && lruSize == |order| + 1 && order == Take(limit - 1, old(order))
      ensures g !in order
      ensures IndexOk(face, glyphs.contents, [g] + order, fetched)
    {
      if lruSize >= limit {
        Evict(g, fetched);
      } else {
        lruSize := lruSize + 1;
      }
    }

    /** The new glyph goes into the list. */
    method Enlist(g: nat, ghost fetched: seq<int>)
      requires glyphs.Valid() && Linked(lru, order) && lruSize == |order| <= limit && limit > 0 && g !in order
      requires IndexOk(face, glyphs.contents, [g] + order, fetched)
      modifies this`lru, this`lruSize, this`order, glyphs
      ensures glyphs.Valid() && Linked(lru, order) && lruSize == |order| && order == Touched(limit, old(order), g)
      ensures IndexOk(face, glyphs.contents, order, fetched)
    {
      FrontTaken(limit, order, g);
      MakeRoom(g, fetched);
      lru := InsertFirst(lru, g, order);
      order := [g] + order;
    }

    /** The new glyph goes into the index and into the list. */
    method MissListed(g: nat, c: Cursor, e: Elem)
      requires Valid() && glyphs.Hint(e.key, c) && e.key == KeyOf(face, g) && e.key !in glyphs.contents
      requires face.render(g) == Some(e.id)
      requires g >= LRU_MIN_CACHED && g !in order
      requires Touched(limit, order, g) == Take(limit, Recent(face.render, history + [g]))
      modifies this, glyphs
      ensures Valid() && history == old(history) + [g]
      ensures order == Touched(limit, old(order), g)
    {
      IndexMore(face, glyphs.contents, order, [g] + order, history, g, e);
      var there := glyphs.InsertHint(c, e);
      Enlist(g, history + [g]);
      history := history + [g];
    }

    /** The glyph is there. */
    method Hit(g: nat)
      requires Valid() && KeyOf(face, g) in glyphs.contents
      modifies this
      ensures Valid() && history == old(history) + [g]
      ensures order == if Listed(face.render, g) then Touched(limit, old(order), g) else old(order)
    {
      ghost var was := order;
      ListStep(face, limit, order, history, g);
      assert EntryOk(face, glyphs.contents, order, history, KeyOf(face, g));
      if g >= LRU_MIN_CACHED {
        ToFront(g);
      }
      IndexSame(face, glyphs.contents, was, order, history, g);
      history := history + [g];
    }

    /** The glyph is new. */
    method Miss(g: nat, c: Cursor, e: Elem)
      requires Valid() && glyphs.Hint(e.key, c) && e.key == KeyOf(face, g) && e.key !in glyphs.contents
      requires face.render(g) == Some(e.id)
      modifies this, glyphs
      ensures Valid() && history == old(history) + [g]
      ensures order == if Listed(face.render, g) then Touched(limit, old(order), g) else old(order)
    {
      ListStep(face, limit, order, history, g);
      assert g in order ==> InIndex(face, glyphs.contents, g);
      WithoutIs(order, g);
      if g < LRU_MIN_CACHED {
        IndexMore(face, glyphs.contents, order, order, history, g, e);
        var was := glyphs.InsertHint(c, e);
        history := history + [g];
      } else {
        MissListed(g, c, e);
      }
    }

    /** glyph_cache_fetch. What comes back is what rendering gives, whether it was there or not; a plain
        character is there for good once it was rendered, another glyph as long as it is in the list. */
    method Fetch(g: nat) returns (found: Option<Elem>, isNew: bool)
      requires Valid()
      modifies this, glyphs
      ensures Valid() && history == old(history) + [g]
      ensures found == if face.render(g).Some? then Some(Elem(KeyOf(face, g), face.render(g).value)) else None
      ensures isNew <==> !(if g < 128 then g in old(history) && face.render(g).Some? else g in old(order))
      ensures order == if Listed(face.render, g) then Touched(limit, old(order), g) else old(order)
    {
      var key := KeyOf(face, g);
      IndexIs(face, glyphs.contents, order, history, g);
      ListStep(face, limit, order, history, g);
      var c := glyphs.LookupPtr(key);
      if c.at < |glyphs.data[c.bucket]| {
        found, isNew := Some(glyphs.data[c.bucket][c.at]), false;
        Hit(g);
        return;
      }
      isNew := true;
      var made := face.render(g);
      if made.None? {
        IndexSame(face, glyphs.contents, order, order, history, g);
        history := history + [g];
        return None, true;
      }
      var e := Elem(key, made.value);
      found := Some(e);
      Miss(g, c, e);
    }
  }
}
