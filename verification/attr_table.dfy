/** The open-addressed attribute table of a line (line.c:48-152). The hash is a parameter:
    everything here holds for any hash function. */
module AttrTable {
  import opened Cells
  import opened Powers
  import opened Sets

  const ATTRID_MAX := 4096
  const INIT_CAP := 4

  type Hash = Attr -> nat

  /** The slot where probing for an attribute starts. */
  function Home(hash: Hash, a: Attr, caps: nat): (h: nat)
    requires caps > 0
    ensures h < caps
  {
    hash(a) % caps
  }

  /** Slot m lies on the circular probe path from slot h up to, not including, slot j. */
  predicate OnPath(h: nat, j: nat, m: nat) {
    if h <= j then h <= m < j else h <= m || m < j
  }

  ghost predicate NoDefault(tab: seq<Attr>) {
    forall j :: 0 <= j < |tab| ==> tab[j] != DEFAULT_ATTR
  }

  predicate Twins(tab: seq<Attr>, j: nat, m: nat)
    requires j < |tab| && m < |tab|
  {
    tab[j] == tab[m]
  }

  /** No stored attribute is stored twice. */
  ghost predicate NoTwins(tab: seq<Attr>) {
    forall j, m {:trigger Twins(tab, j, m)} :: 0 <= j < m < |tab| && !tab[j].Empty() ==> !Twins(tab, j, m)
  }

  /** Nothing free lies between the home of a stored attribute and its slot. */
  ghost predicate NoGaps(hash: Hash, tab: seq<Attr>) {
    forall j, m {:trigger OnPath(Home(hash, tab[j], |tab|), j, m)} ::
      0 <= j < |tab| && 0 <= m < |tab| && !tab[j].Empty() && OnPath(Home(hash, tab[j], |tab|), j, m)
      ==> !tab[m].Empty()
  }

  ghost predicate TableOk(hash: Hash, tab: seq<Attr>) {
    IsPowerOfTwo(|tab|) && NoDefault(tab) && NoTwins(tab) && NoGaps(hash, tab)
  }

  ghost predicate Full(tab: seq<Attr>) {
    forall j :: 0 <= j < |tab| ==> !tab[j].Empty()
  }

  /** The slots met in the first n probe steps from h. */
  predicate Visited(h: nat, n: nat, caps: nat, m: nat) {
    h <= m < h + n || m + caps < h + n
  }

  ghost predicate Passed(tab: seq<Attr>, attr: Attr, h: nat, n: nat) {
    forall m :: 0 <= m < |tab| && Visited(h, n, |tab|, m) ==> !tab[m].Empty() && tab[m] != attr
  }

  /** insert_attr: id of the slot now holding attr, or 0 when the table is full. */
  method InsertAttr(ghost hash: Hash, tab0: seq<Attr>, attr: Attr, h: nat) returns (id: nat, tab: seq<Attr>)
    requires TableOk(hash, tab0) && !attr.Empty() && attr != DEFAULT_ATTR && h == hash(attr)
    ensures TableOk(hash, tab) && id <= |tab0|
    ensures id == 0 <==> attr !in tab0 && Full(tab0)
    ensures tab == if id == 0 then tab0 else tab0[id - 1 := attr]
    ensures id > 0 ==> tab0[id - 1].Empty() || tab0[id - 1] == attr
    ensures attr in tab0 ==> tab == tab0
  {
    tab := tab0;
    var caps := |tab|;
    var i := h % caps;
    var i0 := i;
    ghost var n := 0;
    while true
      invariant 0 <= i < caps && 0 <= n < caps
      invariant i == if i0 + n < caps then i0 + n else i0 + n - caps
      invariant Passed(tab0, attr, i0, n)
      decreases caps - n
    {
      if tab[i].Empty() {
        FreeSlotFound(hash, tab, attr, i, n);
        tab := tab[i := attr];
        return i + 1, tab;
      } else if tab[i] == attr {
        return i + 1, tab;
      }
      i := i + 1;
      if i >= caps {
        i := i - caps;
      }
      n := n + 1;
      if i == i0 {
        break;
      }
    }
    assert forall m :: 0 <= m < caps ==> Visited(i0, n, caps, m);
    return 0, tab;
  }

  /** The first free slot met while probing shows that attr is absent, and may take it. */
  lemma FreeSlotFound(hash: Hash, tab: seq<Attr>, attr: Attr, i: nat, n: nat)
    requires TableOk(hash, tab) && i < |tab| && tab[i].Empty() && !attr.Empty() && attr != DEFAULT_ATTR
    requires var h := Home(hash, attr, |tab|);
      n < |tab| && (i == if h + n < |tab| then h + n else h + n - |tab|) && Passed(tab, attr, h, n)
    ensures attr !in tab && TableOk(hash, tab[i := attr])
  {
    var h := Home(hash, attr, |tab|);
    if attr in tab {
      var j :| 0 <= j < |tab| && tab[j] == attr;
      assert !Visited(h, n, |tab|, j);
      assert OnPath(Home(hash, tab[j], |tab|), j, i);
      assert false;
    }
    var new_ := tab[i := attr];
    forall j, m | 0 <= j < m < |new_| && !new_[j].Empty()
      ensures !Twins(new_, j, m)
    {
      if j != i && m != i {
        assert !Twins(tab, j, m);
      }
    }
    forall j, m | 0 <= j < |new_| && 0 <= m < |new_| && !new_[j].Empty()
                  && OnPath(Home(hash, new_[j], |new_|), j, m)
      ensures !new_[m].Empty()
    {
      if j == i && m != i {
        assert Visited(h, n, |tab|, m);
      } else if m != i {
        assert !tab[j].Empty();
      }
    }
  }

  // ----- Moving a table: every used slot is copied once and becomes a forwarding mark -----

  /** Where an id of the old table leads once its slot holds a forwarding mark. */
  function Forward(tab: seq<Attr>, id: nat): nat
    requires id <= |tab|
  {
    if id == 0 then 0 else tab[id - 1].bg
  }

  /** The mark in a moved slot: the id of its copy, or 0 if the new table was full. */
  ghost predicate MarkOk(orig: Attr, mark: Attr, dst: seq<Attr>) {
    && mark.Empty()
    && if mark.bg == 0 then Full(dst) && orig !in dst else mark.bg <= |dst| && dst[mark.bg - 1] == orig
  }

  ghost predicate MarkedSlots(orig: seq<Attr>, tab: seq<Attr>, dst: seq<Attr>, moved: set<nat>) {
    && |tab| == |orig|
    && (forall id :: id in moved ==> 1 <= id <= |orig| && !orig[id - 1].Empty())
    && (forall id {:trigger tab[id - 1]} :: 1 <= id <= |tab| ==>
          if id in moved then MarkOk(orig[id - 1], tab[id - 1], dst) else tab[id - 1] == orig[id - 1])
  }

  /** Every attribute of the new table was copied from a moved slot. */
  ghost predicate Copied(tab: seq<Attr>, dst: seq<Attr>, moved: set<nat>) {
    forall k {:trigger HasSource(tab, moved, k)} ::
      0 <= k < |dst| && !dst[k].Empty() ==> HasSource(tab, moved, k)
  }

  ghost predicate HasSource(tab: seq<Attr>, moved: set<nat>, k: nat) {
    exists id :: id in moved && 1 <= id <= |tab| && tab[id - 1].bg == k + 1
  }

  ghost predicate Moving(hash: Hash, orig: seq<Attr>, tab: seq<Attr>, dst: seq<Attr>, moved: set<nat>) {
    TableOk(hash, orig) && TableOk(hash, dst) && MarkedSlots(orig, tab, dst, moved) && Copied(tab, dst, moved)
  }

  /** move_one_attr: the id in dst of slot id - 1, copying the slot on its first visit. */
  method MoveOneAttr(hash: Hash, dst0: seq<Attr>, tab0: seq<Attr>, id: nat, ghost orig: seq<Attr>,
                     ghost moved: set<nat>)
    returns (newId: nat, dst: seq<Attr>, tab: seq<Attr>)
    requires Moving(hash, orig, tab0, dst0, moved)
    requires 1 <= id <= |tab0| && !orig[id - 1].Empty()
    ensures Moving(hash, orig, tab, dst, moved + {id}) && |dst| == |dst0|
    ensures newId == Forward(tab, id) <= |dst|
    ensures forall k :: k in moved ==> tab[k - 1] == tab0[k - 1]
  {
    dst, tab := dst0, tab0;
    var at := tab[id - 1];
    if !at.Empty() {
      newId, dst := InsertAttr(hash, dst, at, hash(at));
      tab := tab[id - 1 := tab[id - 1].(bg := newId, fg := 0)];
      MoveStep(orig, tab0, tab, dst0, dst, moved, id, newId);
    } else {
      newId := at.bg;
      assert MarkOk(orig[id - 1], tab[id - 1], dst);
      assert moved + {id} == moved;
    }
  }

  /** tab and dst are what one copying step makes of tab0 and dst0. */
  ghost predicate Step(orig: Attr, tab0: seq<Attr>, tab: seq<Attr>, dst0: seq<Attr>, dst: seq<Attr>, id: nat, n: nat) {
    && 1 <= id <= |tab0| && |dst| == |dst0| && n <= |dst0|
    && tab == tab0[id - 1 := tab0[id - 1].(bg := n, fg := 0)]
    && (n == 0 <==> orig !in dst0 && Full(dst0))
    && dst == (if n == 0 then dst0 else dst0[n - 1 := orig])
    && (n > 0 ==> dst0[n - 1].Empty() || dst0[n - 1] == orig)
  }

  lemma MarkKept(at: Attr, mark: Attr, o: Attr, tab0: seq<Attr>, tab: seq<Attr>, dst0: seq<Attr>, dst: seq<Attr>,
                 id: nat, n: nat)
    requires Step(at, tab0, tab, dst0, dst, id, n) && !at.Empty() && !o.Empty() && o != at && MarkOk(o, mark, dst0)
    ensures MarkOk(o, mark, dst)
  {
    if mark.bg == 0 && n > 0 {
      assert dst0[n - 1] == at;
      assert dst == dst0;
    }
  }

  lemma MoveStep(orig: seq<Attr>, tab0: seq<Attr>, tab: seq<Attr>, dst0: seq<Attr>, dst: seq<Attr>, moved: set<nat>,
                 id: nat, n: nat)
    requires NoTwins(orig) && MarkedSlots(orig, tab0, dst0, moved) && Copied(tab0, dst0, moved)
    requires 1 <= id <= |orig| && id !in moved && !orig[id - 1].Empty()
    requires Step(orig[id - 1], tab0, tab, dst0, dst, id, n)
    ensures MarkedSlots(orig, tab, dst, moved + {id}) && Copied(tab, dst, moved + {id})
  {
    forall k {:trigger tab[k - 1]} | 1 <= k <= |tab|
      ensures if k in moved + {id} then MarkOk(orig[k - 1], tab[k - 1], dst) else tab[k - 1] == orig[k - 1]
    {
      if k != id {
        assert tab0[k - 1] == tab[k - 1];
        if k in moved {
          assert !Twins(orig, if k < id then k - 1 else id - 1, if k < id then id - 1 else k - 1);
          MarkKept(orig[id - 1], tab[k - 1], orig[k - 1], tab0, tab, dst0, dst, id, n);
        }
      }
    }
    CopiedStep(orig, tab0, tab, dst0, dst, moved, id, n);
  }

  lemma CopiedStep(orig: seq<Attr>, tab0: seq<Attr>, tab: seq<Attr>, dst0: seq<Attr>, dst: seq<Attr>, moved: set<nat>,
                   id: nat, n: nat)
    requires Copied(tab0, dst0, moved) && 1 <= id <= |orig| && id !in moved
    requires Step(orig[id - 1], tab0, tab, dst0, dst, id, n)
    ensures Copied(tab, dst, moved + {id})
  {
    forall k | 0 <= k < |dst| && !dst[k].Empty()
      ensures HasSource(tab, moved + {id}, k)
    {
      if k == n - 1 {
        assert tab[id - 1].bg == k + 1;
      } else {
        assert dst0[k] == dst[k] && HasSource(tab0, moved, k);
        var i :| i in moved && 1 <= i <= |tab0| && tab0[i - 1].bg == k + 1;
        assert tab[i - 1].bg == k + 1;
      }
    }
  }

  /** An injection into a set bounds the size of its domain. */
  lemma {:induction false} InjectionBound(f: map<nat, nat>, image: set<nat>)
    requires forall x :: x in f ==> f[x] in image
    requires forall x, y :: x in f && y in f && x != y ==> f[x] != f[y]
    ensures |f.Keys| <= |image|
    decreases |image|
  {
    if f.Keys != {} {
      var x :| x in f;
      var g := map y | y in f && y != x :: f[y];
      assert g.Keys == f.Keys - {x};
      InjectionBound(g, image - {f[x]});
    }
  }

  ghost function UpTo(n: nat): (s: set<nat>)
    ensures forall k: nat :: k in s <==> k < n
    ensures |s| == n
  {
    if n == 0 then {} else UpTo(n - 1) + {n - 1}
  }

  /** If no moved attribute was lost, they fit. */
  lemma NoneLost(orig: seq<Attr>, tab: seq<Attr>, dst: seq<Attr>, moved: set<nat>)
    requires NoTwins(orig) && MarkedSlots(orig, tab, dst, moved)
    requires forall id :: id in moved ==> Forward(tab, id) > 0
    ensures |moved| <= |dst|
  {
    forall id | id in moved
      ensures 1 <= id <= |tab| && 1 <= tab[id - 1].bg <= |dst| && dst[tab[id - 1].bg - 1] == orig[id - 1]
    {
      assert MarkOk(orig[id - 1], tab[id - 1], dst);
    }
    var f: map<nat, nat> := map id | id in moved :: tab[id - 1].bg - 1;
    assert f.Keys == moved;
    forall x, y | x in f && y in f && x != y
      ensures f[x] != f[y]
    {
      assert !Twins(orig, if x < y then x - 1 else y - 1, if x < y then y - 1 else x - 1);
    }
    InjectionBound(f, UpTo(|dst|));
  }

  ghost function Source(tab: seq<Attr>, dst: seq<Attr>, moved: set<nat>, k: nat): (id: nat)
    requires Copied(tab, dst, moved) && k < |dst| && !dst[k].Empty()
    ensures id in moved && 1 <= id <= |tab| && tab[id - 1].bg == k + 1
  {
    assert HasSource(tab, moved, k);
    var id :| id in moved && 1 <= id <= |tab| && tab[id - 1].bg == k + 1;
    id
  }

  /** A full table was copied from as many moved slots, none of which was lost. */
  lemma {:induction false} FullFromMoved(tab: seq<Attr>, dst: seq<Attr>, moved: set<nat>, n: nat)
    requires Copied(tab, dst, moved) && Full(dst) && n <= |dst|
    ensures |set id | id in moved && 1 <= id <= |tab| && 1 <= tab[id - 1].bg <= n| >= n
  {
    if n > 0 {
      FullFromMoved(tab, dst, moved, n - 1);
      var before := set id | id in moved && 1 <= id <= |tab| && 1 <= tab[id - 1].bg <= n - 1;
      var after := set id | id in moved && 1 <= id <= |tab| && 1 <= tab[id - 1].bg <= n;
      var last := Source(tab, dst, moved, n - 1);
      SubsetSize(before + {last}, after);
    }
  }

  /** If a moved attribute was lost, they did not fit. */
  lemma OneLost(orig: seq<Attr>, tab: seq<Attr>, dst: seq<Attr>, moved: set<nat>, lost: nat)
    requires MarkedSlots(orig, tab, dst, moved) && Copied(tab, dst, moved)
    requires lost in moved && Forward(tab, lost) == 0
    ensures |moved| > |dst|
  {
    assert MarkOk(orig[lost - 1], tab[lost - 1], dst);
    FullFromMoved(tab, dst, moved, |dst|);
    SubsetSize((set id | id in moved && 1 <= id <= |tab| && 1 <= tab[id - 1].bg <= |dst|) + {lost}, moved);
  }

  // ----- How many attributes a table stores -----

  ghost function Stored(tab: seq<Attr>): set<Attr> {
    set a | a in tab && !a.Empty()
  }

  lemma {:induction false} StoredSize(tab: seq<Attr>)
    ensures |Stored(tab)| <= |tab|
    ensures Full(tab) && NoTwins(tab) ==> |Stored(tab)| == |tab|
  {
    if tab != [] {
      var n := |tab| - 1;
      StoredSize(tab[..n]);
      if NoTwins(tab) {
        forall j, m | 0 <= j < m < n && !tab[..n][j].Empty()
          ensures !Twins(tab[..n], j, m)
        {
          assert !Twins(tab, j, m);
        }
        forall j | 0 <= j < n && !tab[j].Empty()
          ensures tab[j] != tab[n]
        {
          assert !Twins(tab, j, n);
        }
      }
      if tab[n].Empty() {
        assert Stored(tab) == Stored(tab[..n]);
      } else {
        assert Stored(tab) == Stored(tab[..n]) + {tab[n]};
      }
    }
  }

  /** What was copied was stored before. */
  lemma CopiedStored(orig: seq<Attr>, tab: seq<Attr>, dst: seq<Attr>, moved: set<nat>)
    requires MarkedSlots(orig, tab, dst, moved) && Copied(tab, dst, moved)
    ensures Stored(dst) <= Stored(orig)
  {
    forall a | a in Stored(dst)
      ensures a in Stored(orig)
    {
      var k :| 0 <= k < |dst| && dst[k] == a;
      var id := Source(tab, dst, moved, k);
      assert MarkOk(orig[id - 1], tab[id - 1], dst);
    }
  }

  // ----- Capacities -----

  /** The largest number of attributes a table holds before its capacity would reach
      ATTRID_MAX, where ids no longer fit the 12 bits of a cell. */
  const MAX_STORED := 2048

  /** CAPS_INC_STEP: double, at least INIT_CAP and at most ATTRID_MAX. */
  function CapsStep(caps: nat): nat {
    var wanted := if 2 * caps > INIT_CAP then 2 * caps else INIT_CAP;
    if wanted < ATTRID_MAX then wanted else ATTRID_MAX
  }

  lemma MaxStoredIsPower()
    ensures IsPowerOfTwo(MAX_STORED)
  {
    assert IsPowerOfTwo(32);
    assert IsPowerOfTwo(512);
  }

  lemma FreeTableOk(hash: Hash, tab: seq<Attr>)
    requires IsPowerOfTwo(|tab|) && forall k :: 0 <= k < |tab| ==> tab[k].Empty()
    ensures TableOk(hash, tab)
  {
  }

  lemma StepBelowCeiling(n: nat)
    requires IsPowerOfTwo(n) && n < MAX_STORED
    ensures IsPowerOfTwo(CapsStep(n)) && n < CapsStep(n) < ATTRID_MAX
  {
    MaxStoredIsPower();
    PowersBelow(n, MAX_STORED);
    assert 2 * n / 2 == n;
  }

  /** Before growing a full table: the doubled capacity exceeds what is stored and used. */
  lemma GrowFits(tab: seq<Attr>, attr: Attr, used: set<nat>)
    requires IsPowerOfTwo(|tab|) && NoTwins(tab) && Full(tab) && attr !in tab && !attr.Empty()
    requires |Stored(tab) + {attr}| <= MAX_STORED
    requires forall id :: id in used ==> 1 <= id <= |tab|
    ensures |Stored(tab)| == |tab| && IsPowerOfTwo(CapsStep(|tab|)) && |tab| < CapsStep(|tab|) < ATTRID_MAX
    ensures |used| <= CapsStep(|tab|)
  {
    StoredSize(tab);
    assert |Stored(tab) + {attr}| == |tab| + 1;
    StepBelowCeiling(|tab|);
    SubsetSize(used, UpTo(|tab| + 1) - {0});
  }

  /** A table below the ceiling never stores more than the limit. */
  lemma TableBelowCeiling(tab: seq<Attr>)
    requires tab != [] ==> IsPowerOfTwo(|tab|) && |tab| < ATTRID_MAX
    ensures |Stored(tab)| <= |tab| <= MAX_STORED
  {
    StoredSize(tab);
    if |tab| > MAX_STORED {
      MaxStoredIsPower();
      PowersBelow(MAX_STORED, |tab|);
    }
  }
}
