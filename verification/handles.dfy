/** Weak handles into lines (struct line_handle): an intrusive doubly linked list per line.
    A pointer is a number and memory maps it to the structure there. Structures are values
    here; module MainScreen keeps the memory in the fields of a class. */
module Handles {
  import opened Sequences

  type Ptr = nat
  const NULL: Ptr := 0

  /** struct line_handle. */
  datatype Node = Node(prev: Ptr, next: Ptr, line: Ptr, offset: nat)

  /** line->first_handle of every line, and the handles. */
  datatype Memory = Memory(first: map<Ptr, Ptr>, node: map<Ptr, Node>)
  {
    function SetPrev(h: Ptr, p: Ptr): Memory requires h in node { this.(node := node[h := node[h].(prev := p)]) }
    function SetNext(h: Ptr, p: Ptr): Memory requires h in node { this.(node := node[h := node[h].(next := p)]) }
    function SetFirst(l: Ptr, p: Ptr): Memory { this.(first := first[l := p]) }
    function SetPlace(h: Ptr, l: Ptr, o: nat): Memory
      requires h in node
    {
      this.(node := node[h := node[h].(line := l, offset := o)])
    }
  }

  /** The handles of list are linked in this order, from the list head, and point into line p. */
  ghost predicate ListOk(m: Memory, list: seq<Ptr>, p: Ptr) {
    && p in m.first && m.first[p] == (if list == [] then NULL else list[0])
    && NULL !in list && Distinct(list)
    && (forall h :: h in list ==> h in m.node && m.node[h].line == p)
    && (forall i {:trigger m.node[list[i]]} :: 0 <= i < |list| ==>
          && m.node[list[i]].prev == (if i == 0 then NULL else list[i - 1])
          && m.node[list[i]].next == (if i == |list| - 1 then NULL else list[i + 1]))
  }

  /** lists gives the handle list of every line; a handle outside its line's list is unregistered. */
  ghost predicate Ok(m: Memory, lists: map<Ptr, seq<Ptr>>) {
    forall p :: p in lists ==> ListOk(m, lists[p], p)
  }

  ghost predicate Registered(m: Memory, lists: map<Ptr, seq<Ptr>>, h: Ptr) {
    h in m.node && m.node[h].line in lists && h in lists[m.node[h].line]
  }

  ghost predicate SamePlace(m0: Memory, m: Memory, h: Ptr) {
    h in m0.node && h in m.node && m.node[h].line == m0.node[h].line && m.node[h].offset == m0.node[h].offset
  }

  /** All handles keep their line and offset. */
  ghost predicate SamePlaces(m0: Memory, m: Memory) {
    (forall h :: h in m.node ==> h in m0.node) && forall h :: h in m0.node ==> SamePlace(m0, m, h)
  }

  /** line_handle_add: link the handle in front of its line's list. */
  method Add(m0: Memory, h: Ptr, ghost lists: map<Ptr, seq<Ptr>>) returns (m: Memory)
    requires Ok(m0, lists) && h != NULL && h in m0.node && m0.node[h].line in lists && h !in lists[m0.node[h].line]
    ensures SamePlaces(m0, m) && Ok(m, lists[m0.node[h].line := [h] + lists[m0.node[h].line]])
  {
    m := m0;
    var p := m.node[h].line;
    assert ListOk(m0, lists[p], p);
    var follower := m.first[p];
    m := m.SetFirst(p, h);
    if follower != NULL {
      m := m.SetPrev(follower, h);
    }
    m := m.SetNext(h, follower);
    m := m.SetPrev(h, NULL);
    LinkedInFront(m0, m, lists[p], h, p);
    OtherLists(m0, m, lists, lists[p := [h] + lists[p]], p);
  }

  /** line_handle_remove: unlink the handle from its line's list; its place stays. */
  method Remove(m0: Memory, h: Ptr, ghost lists: map<Ptr, seq<Ptr>>) returns (m: Memory)
    requires Ok(m0, lists) && h in m0.node && (m0.node[h].line == NULL || Registered(m0, lists, h))
    ensures SamePlaces(m0, m)
    ensures m0.node[h].line == NULL ==> m == m0
    ensures m0.node[h].line != NULL ==>
      var list := lists[m0.node[h].line];
      Ok(m, lists[m0.node[h].line := Drop(list, IndexOf(list, h))])
  {
    m := m0;
    var p := m.node[h].line;
    if p == NULL {
      return;
    }
    ghost var list, k := lists[p], IndexOf(lists[p], h);
    assert ListOk(m0, list, p);
    var follower, leader := m.node[h].next, m.node[h].prev;
    if leader == NULL {
      m := m.SetFirst(p, follower);
    } else {
      assert leader == list[k - 1];
      m := m.SetNext(leader, follower);
      m := m.SetPrev(h, NULL);
    }
    if follower != NULL {
      assert follower == list[k + 1];
      m := m.SetPrev(follower, leader);
      m := m.SetNext(h, NULL);
    }
    UnlinkedPlaces(m0, m, h, p);
    Unlinked(m0, m, list, k, p);
    OtherLists(m0, m, lists, lists[p := Drop(list, k)], p);
  }

  /** A change confined to the handles of line p leaves all other lists linked. */
  lemma OtherLists(m0: Memory, m: Memory, lists0: map<Ptr, seq<Ptr>>, lists: map<Ptr, seq<Ptr>>, p: Ptr)
    requires Ok(m0, lists0) && p in lists0 && p in lists && lists == lists0[p := lists[p]]
    requires forall h :: h in m0.node && m0.node[h].line != p ==> h in m.node && m.node[h] == m0.node[h]
    requires forall q :: q in m0.first && q != p ==> q in m.first && m.first[q] == m0.first[q]
    requires ListOk(m, lists[p], p)
    ensures Ok(m, lists)
  {
    forall q | q in lists
      ensures ListOk(m, lists[q], q)
    {
      if q != p {
        assert ListOk(m0, lists0[q], q);
      }
    }
  }

  /** Linking a handle in front of a list. */
  lemma LinkedInFront(m0: Memory, m: Memory, list: seq<Ptr>, h: Ptr, p: Ptr)
    requires ListOk(m0, list, p) && h !in list && h != NULL && h in m0.node && m0.node[h].line == p
    requires var follower := m0.first[p];
      var m1 := m0.SetFirst(p, h);
      var m2 := if follower == NULL then m1 else m1.SetPrev(follower, h);
      m == m2.SetNext(h, follower).SetPrev(h, NULL)
    ensures ListOk(m, [h] + list, p)
  {
    DistinctPairs(list);
    var more := [h] + list;
    forall i | 0 <= i < |more|
      ensures m.node[more[i]].prev == (if i == 0 then NULL else more[i - 1])
      ensures m.node[more[i]].next == (if i == |more| - 1 then NULL else more[i + 1])
    {
      if i > 0 {
        assert more[i] == list[i - 1];
      }
    }
  }

  /** Unlinking moves no handle. */
  lemma UnlinkedPlaces(m0: Memory, m: Memory, h: Ptr, p: Ptr)
    requires h in m0.node
    requires var leader, follower := m0.node[h].prev, m0.node[h].next;
      && (leader != NULL ==> leader in m0.node) && (follower != NULL ==> follower in m0.node)
      && var m1 := if leader == NULL then m0.SetFirst(p, follower) else m0.SetNext(leader, follower).SetPrev(h, NULL);
         m == if follower == NULL then m1 else m1.SetPrev(follower, leader).SetNext(h, NULL)
    ensures SamePlaces(m0, m)
  {
  }

  /** Unlinking element k of a list leaves the others linked in order. */
  lemma Unlinked(m0: Memory, m: Memory, list: seq<Ptr>, k: nat, p: Ptr)
    requires k < |list| && ListOk(m0, list, p)
    requires var h := list[k];
      var leader, follower := m0.node[h].prev, m0.node[h].next;
      && (leader != NULL ==> leader in m0.node) && (follower != NULL ==> follower in m0.node)
      && var m1 := if leader == NULL then m0.SetFirst(p, follower) else m0.SetNext(leader, follower).SetPrev(h, NULL);
         m == if follower == NULL then m1 else m1.SetPrev(follower, leader).SetNext(h, NULL)
    ensures ListOk(m, Drop(list, k), p)
  {
    DistinctPairs(list);
    DistinctDrop(list, k);
    var less := Drop(list, k);
    forall i | 0 <= i < |less|
      ensures m.node[less[i]].prev == (if i == 0 then NULL else less[i - 1])
      ensures m.node[less[i]].next == (if i == |less| - 1 then NULL else less[i + 1])
    {
      var j := if i < k then i else i + 1;
      assert less[i] == list[j];
    }
  }

  // ----- Moving handles to another line -----

  /** Unlink handle k of a line and link it into another line, its offset shifted. */
  method Relink(m0: Memory, from: Ptr, to: Ptr, h: Ptr, shift: int, ghost lists: map<Ptr, seq<Ptr>>, ghost k: nat)
    returns (m: Memory)
    requires Ok(m0, lists) && from in lists && to in lists && from != to && from != NULL
    requires k < |lists[from]| && h == lists[from][k] && h in m0.node && m0.node[h].offset + shift >= 0
    ensures Ok(m, lists[from := Drop(lists[from], k)][to := [h] + lists[to]])
    ensures SamePlaces(m0.SetPlace(h, to, m0.node[h].offset + shift), m)
  {
    ghost var less := lists[from := Drop(lists[from], k)];
    assert ListOk(m0, lists[from], from) && ListOk(m0, lists[to], to);
    IndexUnique(lists[from], k);
    DistinctDrop(lists[from], k);
    m := Remove(m0, h, lists);
    ghost var removed := m;
    m := m.SetPlace(h, to, m.node[h].offset + shift);
    forall p | p in less
      ensures h !in less[p]
    {
      assert ListOk(m0, lists[p], p);
    }
    Repointed(removed, m, less, h);
    ghost var placed := m;
    m := Add(m, h, less);
    forall x | x in m0.node
      ensures SamePlace(m0.SetPlace(h, to, m0.node[h].offset + shift), m, x)
    {
      assert SamePlace(m0, removed, x) && SamePlace(placed, m, x);
    }
  }

  /** One round of the handle loops of split_line and concat_line: the handle behind kept is
      relinked into line to if it lies at or behind atLeast. */
  method Visit(m0: Memory, from: Ptr, to: Ptr, h: Ptr, atLeast: nat, shift: int, ghost lists0: map<Ptr, seq<Ptr>>,
               ghost kept: seq<Ptr>, ghost rest: seq<Ptr>)
    returns (m: Memory, following: Ptr, ghost lists: map<Ptr, seq<Ptr>>)
    requires Ok(m0, lists0) && from in lists0 && to in lists0 && from != to && from != NULL && atLeast + shift >= 0
    requires lists0[from] == kept + rest && rest != [] && h == rest[0] && h in m0.node
    ensures Ok(m, lists) && following == if |rest| == 1 then NULL else rest[1]
    ensures m0.node[h].offset < atLeast ==> m == m0 && lists == lists0
    ensures m0.node[h].offset >= atLeast ==>
      lists == lists0[from := kept + rest[1..]][to := [h] + lists0[to]]
    ensures m0.node[h].offset >= atLeast ==> SamePlaces(m0.SetPlace(h, to, m0.node[h].offset + shift), m)
  {
    m, lists := m0, lists0;
    ghost var list, k := lists0[from], |kept|;
    assert ListOk(m0, list, from);
    assert list[k] == h;
    following := m.node[h].next;
    assert following == m.node[list[k]].next;
    if m.node[h].offset >= atLeast {
      assert Drop(list, k) == kept + rest[1..];
      m := Relink(m, from, to, h, shift, lists, k);
      lists := lists0[from := kept + rest[1..]][to := [h] + lists0[to]];
    }
  }

  /** Changing the place of an unregistered handle does not disturb the lists. */
  lemma Repointed(m0: Memory, m: Memory, lists: map<Ptr, seq<Ptr>>, h: Ptr)
    requires Ok(m0, lists) && h in m0.node && h in m.node
    requires m == m0.SetPlace(h, m.node[h].line, m.node[h].offset)
    requires forall p :: p in lists ==> h !in lists[p]
    ensures Ok(m, lists)
  {
    forall p | p in lists
      ensures ListOk(m, lists[p], p)
    {
      assert ListOk(m0, lists[p], p);
    }
  }

  /** The handles of list that no longer wait in rest, and lie at or behind atLeast, have moved. */
  ghost predicate MovedSoFar(m0: Memory, m: Memory, list: seq<Ptr>, rest: seq<Ptr>, to: Ptr, atLeast: nat, shift: int) {
    && (forall h :: h in m.node ==> h in m0.node) && (forall h :: h in m0.node ==> h in m.node)
    && forall h :: h in m0.node ==>
         if h in list && h !in rest && m0.node[h].offset >= atLeast
         then m.node[h].line == to && m.node[h].offset == m0.node[h].offset + shift
         else m.node[h].line == m0.node[h].line && m.node[h].offset == m0.node[h].offset
  }

  /** The handle loops of split_line and concat_line: every handle of from at or behind atLeast
      is relinked into line to, its offset shifted; the others stay as they are. */
  method Rehome(m0: Memory, from: Ptr, to: Ptr, atLeast: nat, shift: int, ghost lists0: map<Ptr, seq<Ptr>>)
    returns (m: Memory, ghost lists: map<Ptr, seq<Ptr>>)
    requires Ok(m0, lists0) && from in lists0 && to in lists0 && from != to && from != NULL && atLeast + shift >= 0
    ensures Ok(m, lists) && lists.Keys == lists0.Keys
    ensures MovedSoFar(m0, m, lists0[from], [], to, atLeast, shift)
    ensures forall p :: p in lists0 && p != from && p != to ==> lists[p] == lists0[p]
    ensures forall h :: h in lists[from] <==> h in lists0[from] && m0.node[h].offset < atLeast
    ensures forall h :: h in lists[to] <==> h in lists0[to] || (h in lists0[from] && m0.node[h].offset >= atLeast)
  {
    m, lists := m0, lists0;
    ghost var kept: seq<Ptr>, rest := [], lists0[from];
    assert ListOk(m0, lists0[from], from);
    var h := m.first[from];
    while h != NULL
      invariant Ok(m, lists) && lists.Keys == lists0.Keys && h == if rest == [] then NULL else rest[0]
      invariant lists[from] == kept + rest && Distinct(lists[from]) && NULL !in rest
      invariant forall p :: p in lists0 && p != from && p != to ==> lists[p] == lists0[p]
      invariant forall x :: x in kept ==> x in lists0[from] && m0.node[x].offset < atLeast
      invariant forall x :: x in rest ==> x in lists0[from]
      invariant forall x :: x in lists0[from] && x !in rest && m0.node[x].offset < atLeast ==> x in kept
      invariant forall x :: x in lists0[from] && x !in rest && m0.node[x].offset >= atLeast ==> x in lists[to]
      invariant forall x :: x in lists0[to] ==> x in lists[to]
      invariant forall x :: x in lists[to] ==> x in lists0[to] || (x in lists0[from] && m0.node[x].offset >= atLeast)
      invariant MovedSoFar(m0, m, lists0[from], rest, to, atLeast, shift)
      decreases |rest|
    {
      var current := h;
      HeadOfRest(kept, rest);
      assert current in lists0[from] && current in m0.node && m.node[current].offset == m0.node[current].offset;
      ghost var before, mb := lists, m;
      m, h, lists := Visit(m, from, to, current, atLeast, shift, lists, kept, rest);
      if m0.node[current].offset < atLeast {
        kept := kept + [current];
      } else {
        TwoUpdates(before, lists, from, kept + rest[1..], to, [current] + before[to]);
        MovedStep(m0, mb, m, lists0[from], rest, current, to, atLeast, shift);
      }
      rest := rest[1..];
    }
  }

  lemma MovedStep(m0: Memory, mb: Memory, m: Memory, list: seq<Ptr>, rest: seq<Ptr>, h0: Ptr, to: Ptr, atLeast: nat,
                  shift: int)
    requires MovedSoFar(m0, mb, list, rest, to, atLeast, shift) && atLeast + shift >= 0
    requires rest != [] && rest[0] == h0 && h0 in list && h0 !in rest[1..]
    requires h0 in m0.node && h0 in mb.node && mb.node[h0].offset == m0.node[h0].offset >= atLeast
    requires SamePlaces(mb.SetPlace(h0, to, mb.node[h0].offset + shift), m)
    ensures MovedSoFar(m0, m, list, rest[1..], to, atLeast, shift)
  {
    assert rest == [h0] + rest[1..];
    forall h | h in m0.node
      ensures h in m.node &&
         if h in list && h !in rest[1..] && m0.node[h].offset >= atLeast
         then m.node[h].line == to && m.node[h].offset == m0.node[h].offset + shift
         else m.node[h].line == m0.node[h].line && m.node[h].offset == m0.node[h].offset
    {
      assert SamePlace(mb.SetPlace(h0, to, mb.node[h0].offset + shift), m, h);
    }
  }

  lemma TwoUpdates(before: map<Ptr, seq<Ptr>>, after: map<Ptr, seq<Ptr>>, from: Ptr, a: seq<Ptr>, to: Ptr, b: seq<Ptr>)
    requires from in before && to in before && from != to && after == before[from := a][to := b]
    ensures after.Keys == before.Keys && after[from] == a && after[to] == b
    ensures forall p :: p in before && p != from && p != to ==> after[p] == before[p]
  {
  }

  lemma HeadOfRest(kept: seq<Ptr>, rest: seq<Ptr>)
    requires rest != [] && Distinct(kept + rest)
    ensures rest[0] !in rest[1..] && rest[0] !in kept
    ensures kept + rest == kept + [rest[0]] + rest[1..]
    ensures forall h :: h in rest ==> h == rest[0] || h in rest[1..]
    ensures Distinct(kept + rest[1..]) && Distinct(kept + [rest[0]] + rest[1..])
  {
    DistinctDrop(kept + rest, |kept|);
    assert Drop(kept + rest, |kept|) == kept + rest[1..];
    assert (kept + rest)[|kept|] == rest[0];
    assert kept + rest == kept + [rest[0]] + rest[1..];
    forall i | 0 <= i < |rest| - 1
      ensures rest[1..][i] != rest[0]
    {
      assert (kept + rest[1..])[|kept| + i] == rest[1..][i];
    }
  }

  /** A new line has no handles. */
  lemma NewLine(m: Memory, lists: map<Ptr, seq<Ptr>>, p: Ptr)
    requires Ok(m, lists) && p !in lists
    ensures Ok(m.SetFirst(p, NULL), lists[p := []])
  {
    var new_ := lists[p := []];
    forall q | q in new_
      ensures ListOk(m.SetFirst(p, NULL), new_[q], q)
    {
      if q != p {
        assert ListOk(m, lists[q], q);
      }
    }
  }

  /** Handles of line from at or behind atLeast have moved to line to, all others are where they
      were, and the same handles are registered. */
  ghost predicate Moved(m0: Memory, lists0: map<Ptr, seq<Ptr>>, m: Memory, lists: map<Ptr, seq<Ptr>>, from: Ptr,
                        to: Ptr, atLeast: nat, shift: int) {
    forall h :: Registered(m0, lists0, h) ==>
      && Registered(m, lists, h)
      && if m0.node[h].line == from && m0.node[h].offset >= atLeast
         then m.node[h].line == to && m.node[h].offset == m0.node[h].offset + shift
         else m.node[h].line == m0.node[h].line && m.node[h].offset == m0.node[h].offset
  }

  lemma RehomeMoves(m0: Memory, lists0: map<Ptr, seq<Ptr>>, m: Memory, lists: map<Ptr, seq<Ptr>>, from: Ptr, to: Ptr,
                    atLeast: nat, shift: int)
    requires Ok(m0, lists0) && from in lists0 && to in lists0 && from != to && lists.Keys == lists0.Keys
    requires MovedSoFar(m0, m, lists0[from], [], to, atLeast, shift)
    requires forall p :: p in lists0 && p != from && p != to ==> lists[p] == lists0[p]
    requires forall h :: h in lists[from] <==> h in lists0[from] && m0.node[h].offset < atLeast
    requires forall h :: h in lists[to] <==> h in lists0[to] || (h in lists0[from] && m0.node[h].offset >= atLeast)
    ensures Moved(m0, lists0, m, lists, from, to, atLeast, shift)
  {
    forall h | Registered(m0, lists0, h)
      ensures Registered(m, lists, h)
      ensures if m0.node[h].line == from && m0.node[h].offset >= atLeast
         then m.node[h].line == to && m.node[h].offset == m0.node[h].offset + shift
         else m.node[h].line == m0.node[h].line && m.node[h].offset == m0.node[h].offset
    {
      assert ListOk(m0, lists0[from], from);
    }
  }

  // ----- A line that moves to another address -----

  /** The handle loop of realloc_line_: the line was copied from p to q, list head included, and
      its handles are repointed in place. */
  method Readdress(m0: Memory, p: Ptr, q: Ptr, ghost lists0: map<Ptr, seq<Ptr>>)
    returns (m: Memory, ghost lists: map<Ptr, seq<Ptr>>)
    requires Ok(m0, lists0) && p in lists0 && q !in lists0 && q != NULL
    ensures Ok(m, lists) && lists == (lists0 - {p})[q := lists0[p]]
    ensures Moved(m0, lists0, m, lists, p, q, 0, 0)
  {
    ghost var list := lists0[p];
    assert ListOk(m0, list, p);
    m := m0.SetFirst(q, m0.first[p]);
    lists := (lists0 - {p})[q := list];
    var h := m.first[q];
    ghost var n := 0;
    while h != NULL
      invariant n <= |list| && h == if n == |list| then NULL else list[n]
      invariant m.first == m0.first[q := m0.first[p]] && m.node.Keys == m0.node.Keys
      invariant forall x :: x in m0.node ==>
        m.node[x] == if x in list[..n] then m0.node[x].(line := q) else m0.node[x]
      decreases |list| - n
    {
      assert list[n] in list;
      m := m.SetPlace(h, q, m.node[h].offset);
      assert list[..n + 1] == list[..n] + [h];
      assert m.node[list[n]].next == m0.node[list[n]].next;
      h := m.node[h].next;
      n := n + 1;
    }
    assert list[..n] == list;
    Readdressed(m0, m, lists0, p, q);
  }

  lemma Readdressed(m0: Memory, m: Memory, lists0: map<Ptr, seq<Ptr>>, p: Ptr, q: Ptr)
    requires Ok(m0, lists0) && p in lists0 && q !in lists0 && q != NULL
    requires p in m0.first && m.first == m0.first[q := m0.first[p]] && m.node.Keys == m0.node.Keys
    requires forall x :: x in m0.node ==>
      m.node[x] == if x in lists0[p] then m0.node[x].(line := q) else m0.node[x]
    ensures var lists := (lists0 - {p})[q := lists0[p]]; Ok(m, lists) && Moved(m0, lists0, m, lists, p, q, 0, 0)
  {
    var lists := (lists0 - {p})[q := lists0[p]];
    assert ListOk(m0, lists0[p], p);
    forall l | l in lists
      ensures ListOk(m, lists[l], l)
    {
      if l == q {
        ReaddressedList(m0, m, lists0[p], p, q);
      } else {
        assert ListOk(m0, lists0[l], l);
      }
    }
    forall h | Registered(m0, lists0, h)
      ensures Registered(m, lists, h)
    {
      assert ListOk(m0, lists0[m0.node[h].line], m0.node[h].line);
    }
  }

  lemma ReaddressedList(m0: Memory, m: Memory, list: seq<Ptr>, p: Ptr, q: Ptr)
    requires ListOk(m0, list, p) && q in m.first && m.first[q] == m0.first[p] && m.node.Keys == m0.node.Keys
    requires forall x :: x in m0.node && x in list ==> m.node[x] == m0.node[x].(line := q)
    ensures ListOk(m, list, q)
  {
    forall i | 0 <= i < |list|
      ensures m.node[list[i]].prev == (if i == 0 then NULL else list[i - 1])
      ensures m.node[list[i]].next == (if i == |list| - 1 then NULL else list[i + 1])
    {
      assert m.node[list[i]] == m0.node[list[i]].(line := q);
    }
  }

  // ----- A line that goes away -----

  /** The handles in gone point nowhere, the others are where they were. */
  ghost predicate LetGo(m0: Memory, m: Memory, gone: seq<Ptr>) {
    && m.node.Keys == m0.node.Keys
    && forall h :: h in m0.node ==>
         if h in gone then m.node[h].line == NULL else SamePlace(m0, m, h)
  }

  /** The handle loop of free_line: the handles of the line are weak, and point nowhere afterwards. */
  method Release(m0: Memory, p: Ptr, ghost lists0: map<Ptr, seq<Ptr>>) returns (m: Memory)
    requires Ok(m0, lists0) && p in lists0 && p != NULL
    ensures Ok(m, lists0 - {p}) && LetGo(m0, m, lists0[p])
  {
    m := m0;
    ghost var list, n := lists0[p], 0;
    assert list[n..] == list && lists0[p := list] == lists0;
    while m.first[p] != NULL
      invariant n <= |list| && p in m.first && Ok(m, lists0[p := list[n..]])
      invariant LetGo(m0, m, list[..n])
      decreases |list| - n
    {
      m := ReleaseFirst(m0, m, p, lists0, n);
      n := n + 1;
    }
    ghost var left := lists0[p := list[n..]];
    assert ListOk(m, left[p], p);
    assert list[..n] == list;
    forall q | q in lists0 - {p}
      ensures ListOk(m, lists0[q], q)
    {
      assert ListOk(m, left[q], q);
    }
  }

  /** One round of it. */
  method ReleaseFirst(ghost m0: Memory, m1: Memory, p: Ptr, ghost lists0: map<Ptr, seq<Ptr>>, ghost n: nat)
    returns (m: Memory)
    requires p in lists0 && p != NULL && n <= |lists0[p]| && p in m1.first && m1.first[p] != NULL
    requires Ok(m1, lists0[p := lists0[p][n..]]) && LetGo(m0, m1, lists0[p][..n])
    ensures n < |lists0[p]| && p in m.first && Ok(m, lists0[p := lists0[p][n + 1..]])
    ensures LetGo(m0, m, lists0[p][..n + 1])
  {
    ghost var list, lists := lists0[p], lists0[p := lists0[p][n..]];
    ghost var rest := lists[p];
    assert ListOk(m1, rest, p);
    var h := m1.first[p];
    assert rest[0] == h && h in rest && list[n] == h;
    IndexUnique(rest, 0);
    var m2 := Remove(m1, h, lists);
    assert Drop(rest, 0) == list[n + 1..];
    ghost var less := lists0[p := list[n + 1..]];
    assert lists[p := Drop(rest, 0)] == less;
    assert h in m2.node && SamePlace(m1, m2, h);
    m := m2.SetPlace(h, NULL, m2.node[h].offset);
    forall q | q in less
      ensures h !in less[q]
    {
      if q == p {
        DistinctDrop(rest, 0);
      } else {
        assert ListOk(m1, lists[q], q);
      }
    }
    Repointed(m2, m, less, h);
    OneMoreGone(m0, m1, m2, m, list, n);
    assert ListOk(m, less[p], p);
  }

  lemma OneMoreGone(m0: Memory, m1: Memory, m2: Memory, m: Memory, list: seq<Ptr>, n: nat)
    requires n < |list| && LetGo(m0, m1, list[..n]) && SamePlaces(m1, m2) && list[n] in m2.node
    requires m == m2.SetPlace(list[n], NULL, m2.node[list[n]].offset)
    ensures LetGo(m0, m, list[..n + 1])
  {
    assert list[..n + 1] == list[..n] + [list[n]];
    forall x | x in m0.node
      ensures if x in list[..n + 1] then m.node[x].line == NULL else SamePlace(m0, m, x)
    {
      assert x in m1.node;
      assert SamePlace(m1, m2, x);
    }
  }

  /** Handles of lines that are still there are where they were; those of the other lines point nowhere. */
  ghost predicate Spared(m0: Memory, lists0: map<Ptr, seq<Ptr>>, m: Memory, lists: map<Ptr, seq<Ptr>>) {
    && (forall h :: h in m0.node ==> h in m.node) && (forall p :: p in lists ==> p in lists0 && lists[p] == lists0[p])
    && forall h :: Registered(m0, lists0, h) ==>
         if m0.node[h].line in lists then SamePlace(m0, m, h) else m.node[h].line == NULL
  }

  lemma SparedStep(m0: Memory, lists0: map<Ptr, seq<Ptr>>, m1: Memory, lists1: map<Ptr, seq<Ptr>>, m: Memory, p: Ptr)
    requires Ok(m0, lists0) && Spared(m0, lists0, m1, lists1) && p in lists1 && p != NULL
    requires LetGo(m1, m, lists1[p])
    ensures Spared(m0, lists0, m, lists1 - {p})
  {
    forall h | Registered(m0, lists0, h)
      ensures if m0.node[h].line in lists1 - {p} then SamePlace(m0, m, h) else m.node[h].line == NULL
    {
      assert ListOk(m0, lists0[p], p);
      assert h in m1.node;
    }
  }

  // ----- A handle that is set to another place -----

  /** A registered handle is taken off its line's list and given another place. */
  method Unhook(m0: Memory, h: Ptr, p: Ptr, offset: nat, ghost lists: map<Ptr, seq<Ptr>>) returns (m: Memory)
    requires Ok(m0, lists) && Registered(m0, lists, h) && m0.node[h].line != NULL
    ensures SamePlaces(m0.SetPlace(h, p, offset), m)
    ensures var l: Ptr := m0.node[h].line;
      var less := lists[l := Drop(lists[l], IndexOf(lists[l], h))];
      Ok(m, less) && forall q :: q in less ==> h !in less[q]
  {
    ghost var l: Ptr := m0.node[h].line;
    ghost var less := lists[l := Drop(lists[l], IndexOf(lists[l], h))];
    m := Remove(m0, h, lists);
    ghost var m1 := m;
    assert ListOk(m0, lists[l], l);
    DistinctDrop(lists[l], IndexOf(lists[l], h));
    forall q | q in less
      ensures h !in less[q]
    {
      assert ListOk(m0, lists[q], q);
    }
    assert SamePlace(m0, m1, h);
    m := m.SetPlace(h, p, offset);
    Repointed(m1, m, less, h);
    forall x | x in m0.node
      ensures SamePlace(m0.SetPlace(h, p, offset), m, x)
    {
      assert SamePlace(m0, m1, x);
    }
  }

  /** replace_handle: a registered handle is registered at the given place instead. */
  method Replace(m0: Memory, h: Ptr, p: Ptr, offset: nat, ghost lists0: map<Ptr, seq<Ptr>>)
    returns (m: Memory, ghost lists: map<Ptr, seq<Ptr>>)
    requires Ok(m0, lists0) && Registered(m0, lists0, h) && p in lists0 && m0.node[h].line != NULL && h != NULL
    ensures Ok(m, lists) && lists.Keys == lists0.Keys && Registered(m, lists, h)
    ensures SamePlaces(m0.SetPlace(h, p, offset), m)
    ensures forall x :: Registered(m0, lists0, x) ==> Registered(m, lists, x)
  {
    ghost var l: Ptr := m0.node[h].line;
    ghost var less := lists0[l := Drop(lists0[l], IndexOf(lists0[l], h))];
    m := Unhook(m0, h, p, offset, lists0);
    ghost var m1 := m;
    assert SamePlace(m0.SetPlace(h, p, offset), m1, h);
    m := Add(m, h, less);
    lists := less[p := [h] + less[p]];
    forall x | x in m0.node
      ensures SamePlace(m0.SetPlace(h, p, offset), m, x)
    {
      assert SamePlace(m0.SetPlace(h, p, offset), m1, x) && SamePlace(m1, m, x);
    }
    ReplaceKeeps(m0, m, lists0, h, p, offset);
  }

  lemma ReplaceKeeps(m0: Memory, m: Memory, lists0: map<Ptr, seq<Ptr>>, h: Ptr, p: Ptr, offset: nat)
    requires Ok(m0, lists0) && Registered(m0, lists0, h) && p in lists0
    requires SamePlaces(m0.SetPlace(h, p, offset), m)
    ensures var l: Ptr := m0.node[h].line;
      var less := lists0[l := Drop(lists0[l], IndexOf(lists0[l], h))];
      var lists := less[p := [h] + less[p]];
      forall x :: Registered(m0, lists0, x) ==> Registered(m, lists, x)
  {
    var l: Ptr := m0.node[h].line;
    var less := lists0[l := Drop(lists0[l], IndexOf(lists0[l], h))];
    var lists := less[p := [h] + less[p]];
    assert ListOk(m0, lists0[l], l);
    forall x | Registered(m0, lists0, x)
      ensures Registered(m, lists, x)
    {
      assert SamePlace(m0.SetPlace(h, p, offset), m, x);
      InDrop(lists0[l], IndexOf(lists0[l], h), x);
      if x == h {
        assert lists[p][0] == h;
      }
    }
  }

  /** A handle on the stack, filled in and registered. */
  method AddNew(m0: Memory, h: Ptr, p: Ptr, offset: nat, ghost lists0: map<Ptr, seq<Ptr>>)
    returns (m: Memory, ghost lists: map<Ptr, seq<Ptr>>)
    requires Ok(m0, lists0) && p in lists0 && h != NULL && h !in m0.node
    ensures Ok(m, lists) && lists.Keys == lists0.Keys && forall x :: x in m.node ==> x == h || x in m0.node
    ensures Registered(m, lists, h) && m.node[h].line == p && m.node[h].offset == offset
    ensures forall x :: Registered(m0, lists0, x) ==> Registered(m, lists, x) && SamePlace(m0, m, x)
  {
    m := m0.(node := m0.node[h := Node(NULL, NULL, p, offset)]);
    ghost var m1 := m;
    forall q | q in lists0
      ensures ListOk(m1, lists0[q], q) && h !in lists0[q]
    {
      assert ListOk(m0, lists0[q], q);
    }
    m := Add(m, h, lists0);
    lists := lists0[p := [h] + lists0[p]];
    assert lists[p][0] == h && SamePlace(m1, m, h);
    forall x | Registered(m0, lists0, x)
      ensures Registered(m, lists, x) && SamePlace(m0, m, x)
    {
      assert SamePlace(m1, m, x);
    }
  }
}
