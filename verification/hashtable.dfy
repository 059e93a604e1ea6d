/** The chained hash table (hashtable.h; ht_adjust and ht_shrink in util.c): whatever it rehashes, it
    stays the same finite map, and moving the elements to a table of another size never makes that
    one grow in turn. */
module HashTables {
  import opened Powers

  datatype Option<T> = None | Some(value: T)

  /** What the comparison function compares, with the hash it is stored under. */
  datatype Key = Key(hash: nat, name: nat)

  /** An element; id tells apart elements of the same key. */
  datatype Elem = Elem(key: Key, id: nat)

  type Chain = seq<Elem>
  type Contents = map<Key, Elem>

  // ----- Sizes -----

  const HT_INIT_CAPS := 8

  function LoadFactor(caps: nat): nat { 15 * caps / 16 }

  lemma Doubled(c: nat)
    requires IsPowerOfTwo(c)
    ensures IsPowerOfTwo(2 * c) && LoadFactor(c) + 1 <= LoadFactor(2 * c)
  {
    assert 2 * c / 2 == c;
  }

  lemma Halved(c: nat)
    requires IsPowerOfTwo(c) && c > HT_INIT_CAPS
    ensures IsPowerOfTwo(c / 2) && c / 2 >= HT_INIT_CAPS && LoadFactor(c) / 2 <= LoadFactor(c / 2)
  {
    assert IsPowerOfTwo(8);
    PowersBelow(8, c);
  }

  // ----- What the chains hold -----

  /** caps is a power of two, so the mask takes the remainder. */
  function Slot(hash: nat, caps: nat): (r: nat)
    requires caps > 0
    ensures r < caps
  {
    hash % caps
  }

  ghost predicate ElemOk(chain: Chain, i: nat, b: nat, caps: nat, m: Contents)
    requires i < |chain| && caps > 0
  {
    var e := chain[i];
    Slot(e.key.hash, caps) == b && e.key in m && m[e.key] == e
  }

  ghost predicate Apart(chain: Chain, i: nat, j: nat)
    requires i < |chain| && j < |chain|
  {
    chain[i].key != chain[j].key
  }

  ghost predicate ChainOk(chain: Chain, b: nat, caps: nat, m: Contents)
    requires caps > 0
  {
    && (forall i :: 0 <= i < |chain| ==> ElemOk(chain, i, b, caps, m))
    && (forall i, j {:trigger Apart(chain, i, j)} :: 0 <= i < j < |chain| ==> Apart(chain, i, j))
  }

  ghost predicate Reached(data: seq<Chain>, caps: nat, m: Contents, k: Key)
    requires k in m && caps == |data| > 0
  {
    m[k].key == k && m[k] in data[Slot(k.hash, caps)]
  }

  /** The chains hold the map m. */
  ghost predicate Holds(data: seq<Chain>, caps: nat, m: Contents) {
    && |data| == caps && IsPowerOfTwo(caps) && caps > 0
    && (forall b :: 0 <= b < caps ==> ChainOk(data[b], b, caps, m))
    && (forall k :: k in m ==> Reached(data, caps, m, k))
  }

  lemma HoldsMore(data: seq<Chain>, caps: nat, m: Contents, e: Elem)
    requires Holds(data, caps, m) && e.key !in m
    ensures var b := Slot(e.key.hash, caps); Holds(data[b := data[b] + [e]], caps, m[e.key := e])
  {
    var b := Slot(e.key.hash, caps);
    var data1, m1 := data[b := data[b] + [e]], m[e.key := e];
    forall c | 0 <= c < caps
      ensures ChainOk(data1[c], c, caps, m1)
    {
      assert ChainOk(data[c], c, caps, m);
      forall i | 0 <= i < |data1[c]|
        ensures ElemOk(data1[c], i, c, caps, m1)
      {
        assert i < |data[c]| ==> ElemOk(data[c], i, c, caps, m);
      }
      forall i, j | 0 <= i < j < |data1[c]|
        ensures Apart(data1[c], i, j)
      {
        assert ElemOk(data[c], i, c, caps, m);
        assert j < |data[c]| ==> Apart(data[c], i, j);
      }
    }
    forall k | k in m1
      ensures Reached(data1, caps, m1, k)
    {
      if k != e.key {
        assert Reached(data, caps, m, k);
      } else {
        assert data1[b][|data[b]|] == e;
      }
    }
  }

  lemma HoldsLess(data: seq<Chain>, caps: nat, m: Contents, b: nat, i: nat)
    requires Holds(data, caps, m) && b < caps && i < |data[b]|
    ensures var e := data[b][i];
      e.key in m && m[e.key] == e && Holds(data[b := data[b][..i] + data[b][i + 1..]], caps, m - {e.key})
  {
    var e := data[b][i];
    var rest := data[b][..i] + data[b][i + 1..];
    var data1, m1 := data[b := rest], m - {e.key};
    assert ChainOk(data[b], b, caps, m) && ElemOk(data[b], i, b, caps, m);
    forall c | 0 <= c < caps
      ensures ChainOk(data1[c], c, caps, m1)
    {
      assert ChainOk(data[c], c, caps, m);
      RestOk(data[c], c, caps, m, b, i, e, data1[c]);
    }
    forall k | k in m1
      ensures Reached(data1, caps, m1, k)
    {
      assert Reached(data, caps, m, k);
      var c := Slot(k.hash, caps);
      if c == b {
        var j :| 0 <= j < |data[b]| && data[b][j] == m[k];
        assert rest[if j < i then j else j - 1] == m[k];
      }
    }
  }

  lemma RestOk(chain: Chain, c: nat, caps: nat, m: Contents, b: nat, i: nat, e: Elem, after: Chain)
    requires caps > 0 && ChainOk(chain, c, caps, m) && Slot(e.key.hash, caps) == b
    requires if c == b then i < |chain| && chain[i] == e && after == chain[..i] + chain[i + 1..] else after == chain
    ensures ChainOk(after, c, caps, m - {e.key})
  {
    forall j | 0 <= j < |after|
      ensures ElemOk(after, j, c, caps, m - {e.key})
    {
      var at := if c == b && j >= i then j + 1 else j;
      assert ElemOk(chain, at, c, caps, m) && after[j] == chain[at];
      if c == b {
        assert if at < i then Apart(chain, at, i) else Apart(chain, i, at);
      }
    }
    forall j, l | 0 <= j < l < |after|
      ensures Apart(after, j, l)
    {
      assert Apart(chain, if c == b && j >= i then j + 1 else j, if c == b && l >= i then l + 1 else l);
    }
  }

  lemma HoldsOther(data: seq<Chain>, caps: nat, m: Contents, b: nat, i: nat, e: Elem)
    requires Holds(data, caps, m) && b < caps && i < |data[b]| && data[b][i].key == e.key
    ensures e.key in m && Holds(data[b := data[b][i := e]], caps, m[e.key := e])
  {
    var data1, m1 := data[b := data[b][i := e]], m[e.key := e];
    assert ChainOk(data[b], b, caps, m) && ElemOk(data[b], i, b, caps, m);
    forall c | 0 <= c < caps
      ensures ChainOk(data1[c], c, caps, m1)
    {
      assert ChainOk(data[c], c, caps, m);
      forall j | 0 <= j < |data1[c]|
        ensures ElemOk(data1[c], j, c, caps, m1)
      {
        assert ElemOk(data[c], j, c, caps, m);
        if c == b && j != i {
          assert if j < i then Apart(data[c], j, i) else Apart(data[c], i, j);
        }
      }
      forall j, l | 0 <= j < l < |data1[c]|
        ensures Apart(data1[c], j, l)
      {
        assert Apart(data[c], j, l);
      }
    }
    forall k | k in m1
      ensures Reached(data1, caps, m1, k)
    {
      if k == e.key {
        assert data1[b][i] == e;
      } else {
        assert Reached(data, caps, m, k);
        var c := Slot(k.hash, caps);
        var j :| 0 <= j < |data[c]| && data[c][j] == m[k];
        assert data1[c][j] == m[k];
      }
    }
  }

  // ----- Walking the table -----

  /** ht_iter: a bucket, and how far into its chain. */
  datatype Cursor = Cursor(bucket: nat, at: nat)

  /** The first bucket from b on that is not empty. */
  function NextFull(data: seq<Chain>, b: nat): (r: nat)
    requires b <= |data|
    ensures b <= r <= |data| && (r < |data| ==> data[r] != []) && forall c :: b <= c < r ==> data[c] == []
    decreases |data| - b
  {
    if b == |data| || data[b] != [] then b else NextFull(data, b + 1)
  }

  lemma {:induction false} FirstFull(data: seq<Chain>, a: nat, b: nat)
    requires a <= b <= |data| && forall c :: a <= c < b ==> data[c] == []
    ensures NextFull(data, a) == NextFull(data, b)
    decreases b - a
  {
    if a < b {
      FirstFull(data, a + 1, b);
    }
  }

  lemma Located(data: seq<Chain>, caps: nat, m: Contents, k: Key)
    requires Holds(data, caps, m)
    ensures k in m ==> m[k].key == k && m[k] in data[Slot(k.hash, caps)]
  {
    assert k in m ==> Reached(data, caps, m, k);
  }

  lemma AllLocated(data: seq<Chain>, caps: nat, m: Contents)
    requires Holds(data, caps, m)
    ensures forall k :: k in m ==> data[Slot(k.hash, caps)] != []
  {
    forall k
      ensures k in m ==> data[Slot(k.hash, caps)] != []
    {
      Located(data, caps, m, k);
    }
  }

  lemma NoneFull(data: seq<Chain>, caps: nat, m: Contents)
    requires Holds(data, caps, m) && NextFull(data, 0) == caps
    ensures m == map[]
  {
    AllLocated(data, caps, m);
    assert m.Keys == {};
  }

  /** The map was is in two parts. */
  ghost predicate Parts(was: Contents, done: Contents, rest: Contents) {
    && (forall k :: k in done ==> k in was && was[k] == done[k] && k !in rest)
    && (forall k :: k in rest ==> k in was && was[k] == rest[k])
    && (forall k :: k in was ==> k in done || k in rest)
    && |was| == |done| + |rest|
  }

  lemma Moved(was: Contents, done: Contents, rest: Contents, e: Elem)
    requires Parts(was, done, rest) && e.key in rest && rest[e.key] == e
    ensures e.key !in done && Parts(was, done[e.key := e], rest - {e.key})
  {
    SizeLess(rest, e.key);
    assert |done[e.key := e]| == |done| + 1;
  }

  /** Once the first element of the first full bucket is gone, the next one is there or in a later bucket. */
  lemma StillFirst(data0: seq<Chain>, data: seq<Chain>, b: nat)
    requires b < |data0| && b == NextFull(data0, 0) && data == data0[b := data0[b][..0] + data0[b][1..]]
    ensures NextFull(data, 0) == if 0 < |data[b]| then b else NextFull(data, b + 1)
  {
    FirstFull(data, 0, b);
    if data[b] == [] {
      FirstFull(data, 0, b + 1);
    }
  }

  lemma SizeLess(m: Contents, k: Key)
    requires k in m
    ensures |m - {k}| == |m| - 1
  {
    var r := m - {k};
    assert r.Keys == m.Keys - {k};
    assert |r.Keys| == |r| && |m.Keys| == |m|;
  }

  // ----- The table -----

  class Table {
    var caps: nat
    var size: int
    var data: seq<Chain>
    /** The map the chains hold. */
    ghost var contents: Contents

    ghost predicate Valid()
      reads this
    {
      Holds(data, caps, contents) && size == |contents| <= LoadFactor(caps)
    }

    /** ht_init. */
    constructor (wanted: nat)
      requires wanted > 0
      ensures Valid() && contents == map[] && caps == CeilPowerOfTwo(wanted)
    {
      caps, size, contents := CeilPowerOfTwo(wanted), 0, map[];
      data := seq(CeilPowerOfTwo(wanted), _ => []);
    }

    /** The same for a size that is a power of two. */
    constructor Sized(c: nat)
      requires c > 0 && IsPowerOfTwo(c)
      ensures Valid() && contents == map[] && caps == c
    {
      caps, size, contents := c, 0, map[];
      data := seq(c, _ => []);
    }

    /** Where an element of this key is, or would be added. */
    ghost predicate Hint(key: Key, c: Cursor)
      reads this
    {
      && |data| == caps > 0 && c.bucket == Slot(key.hash, caps) && c.at <= |data[c.bucket]|
      && (c.at < |data[c.bucket]| <==> key in contents)
      && (key in contents ==> data[c.bucket][c.at] == contents[key] && contents[key].key == key)
    }

    /** ht_lookup_ptr. */
    method LookupPtr(key: Key) returns (c: Cursor)
      requires Valid()
      ensures Hint(key, c)
    {
      var b := Slot(key.hash, caps);
      var i := 0;
      assert ChainOk(data[b], b, caps, contents);
      while i < |data[b]| && data[b][i].key != key
        invariant i <= |data[b]| && forall j :: 0 <= j < i ==> data[b][j].key != key
      {
        i := i + 1;
      }
      if i < |data[b]| {
        assert ElemOk(data[b], i, b, caps, contents);
      }
      Located(data, caps, contents, key);
      c := Cursor(b, i);
    }

    /** ht_find. */
    method Find(key: Key) returns (found: Option<Elem>)
      requires Valid()
      ensures found == if key in contents then Some(contents[key]) else None
    {
      var c := LookupPtr(key);
      found := if c.at < |data[c.bucket]| then Some(data[c.bucket][c.at]) else None;
    }

    /** ht_insert_hint: nothing is done if the key is there already. */
    method InsertHint(c: Cursor, e: Elem) returns (found: Option<Elem>)
      requires Valid() && Hint(e.key, c)
      modifies this
      ensures Valid()
      ensures found == if e.key in old(contents) then Some(old(contents)[e.key]) else None
      ensures contents == if e.key in old(contents) then old(contents) else old(contents)[e.key := e]
      ensures caps == if |contents| > 15 * old(caps) / 16 then 2 * old(caps) else old(caps)
      decreases if size + 1 > LoadFactor(caps) then 1 else 0, 1
    {
      var b := c.bucket;
      if c.at < |data[b]| {
        found := Some(data[b][c.at]);
      } else {
        found := None;
        HoldsMore(data, caps, contents, e);
        data := data[b := data[b] + [e]];
        contents := contents[e.key := e];
        Adjust(1);
      }
    }

    /** ht_insert. */
    method Insert(e: Elem) returns (found: Option<Elem>)
      requires Valid()
      modifies this
      ensures Valid()
      ensures found == if e.key in old(contents) then Some(old(contents)[e.key]) else None
      ensures contents == if e.key in old(contents) then old(contents) else old(contents)[e.key := e]
      ensures caps == if |contents| > 15 * old(caps) / 16 then 2 * old(caps) else old(caps)
      decreases if size + 1 > LoadFactor(caps) then 1 else 0, 2
    {
      var c := LookupPtr(e.key);
      found := InsertHint(c, e);
    }

    /** ht_replace: the element takes the place of what was there under its key. */
    method Replace(e: Elem) returns (found: Option<Elem>)
      requires Valid()
      modifies this
      ensures Valid()
      ensures found == if e.key in old(contents) then Some(old(contents)[e.key]) else None
      ensures contents == old(contents)[e.key := e]
    {
      var c := LookupPtr(e.key);
      var b := c.bucket;
      if c.at < |data[b]| {
        found := Some(data[b][c.at]);
        HoldsOther(data, caps, contents, b, c.at, e);
        data := data[b := data[b][c.at := e]];
        contents := contents[e.key := e];
      } else {
        found := None;
        HoldsMore(data, caps, contents, e);
        data := data[b := data[b] + [e]];
        contents := contents[e.key := e];
        Adjust(1);
      }
    }

    /** ht_erase. */
    method Erase(key: Key) returns (found: Option<Elem>)
      requires Valid()
      modifies this
      ensures Valid() && caps == old(caps)
      ensures found == if key in old(contents) then Some(old(contents)[key]) else None
      ensures contents == old(contents) - {key}
    {
      var c := LookupPtr(key);
      var b := c.bucket;
      if c.at < |data[b]| {
        found := Some(data[b][c.at]);
        HoldsLess(data, caps, contents, b, c.at);
        SizeLess(contents, key);
        data := data[b := data[b][..c.at] + data[b][c.at + 1..]];
        contents := contents - {key};
        Adjust(-1);
      } else {
        found := None;
        assert contents - {key} == contents;
      }
    }

    /** ht_begin. */
    method Begin() returns (it: Cursor)
      requires |data| == caps
      ensures it == Cursor(NextFull(data, 0), 0)
    {
      var b := Advance(0);
      it := Cursor(b, 0);
    }

    /** The loop over empty buckets. */
    method Advance(b0: nat) returns (b: nat)
      requires b0 <= |data| == caps
      ensures b == NextFull(data, b0)
    {
      b := b0;
      while b < caps && data[b] == []
        invariant b0 <= b <= caps && NextFull(data, b) == NextFull(data, b0)
      {
        b := b + 1;
      }
    }

    /** ht_erase_current: the element goes, and the cursor stands on the next one. */
    method EraseCurrent(it: Cursor) returns (e: Elem, next: Cursor)
      requires Holds(data, caps, contents) && size == |contents| && it.bucket < caps && it.at < |data[it.bucket]|
      modifies this
      ensures Holds(data, caps, contents) && size == |contents| && caps == old(caps)
      ensures e == old(data[it.bucket][it.at]) && e.key in old(contents) && old(contents)[e.key] == e
      ensures contents == old(contents) - {e.key}
      ensures data == old(data)[it.bucket := old(data)[it.bucket][..it.at] + old(data)[it.bucket][it.at + 1..]]
      ensures next == if it.at < |data[it.bucket]| then it else Cursor(NextFull(data, it.bucket + 1), 0)
    {
      var b := it.bucket;
      e := data[b][it.at];
      HoldsLess(data, caps, contents, b, it.at);
      SizeLess(contents, e.key);
      size := size - 1;
      data := data[b := data[b][..it.at] + data[b][it.at + 1..]];
      contents := contents - {e.key};
      next := it;
      if it.at >= |data[b]| {
        var n := Advance(b + 1);
        next := Cursor(n, 0);
      }
    }

    /** One element is erased here and inserted there. */
    method MoveOne(tmp: Table, it: Cursor, ghost was: Contents) returns (next: Cursor)
      requires this != tmp && Holds(data, caps, contents) && size == |contents|
      requires it == Cursor(NextFull(data, 0), 0) && it.bucket < caps
      requires tmp.Valid() && Parts(was, tmp.contents, contents) && |was| <= LoadFactor(tmp.caps)
      modifies this, tmp
      ensures Holds(data, caps, contents) && size == |contents| < |old(contents)| && caps == old(caps)
      ensures next == Cursor(NextFull(data, 0), 0)
      ensures tmp.Valid() && tmp.caps == old(tmp.caps) && Parts(was, tmp.contents, contents)
      decreases 0, 3
    {
      ghost var rest := contents;
      var e;
      e, next := EraseCurrent(it);
      SizeLess(rest, e.key);
      Moved(was, tmp.contents, rest, e);
      StillFirst(old(data), data, it.bucket);
      var found := tmp.Insert(e);
    }

    /** Every element is moved. There is room, so the other table does not grow. */
    method MoveAll(tmp: Table)
      requires this != tmp && Holds(data, caps, contents) && size == |contents|
      requires tmp.Valid() && tmp.contents == map[] && |contents| <= LoadFactor(tmp.caps)
      modifies this, tmp
      ensures tmp.Valid() && tmp.contents == old(contents) && tmp.caps == old(tmp.caps)
      decreases 0, 4
    {
      ghost var was := contents;
      var it := Begin();
      while it.bucket < caps
        invariant Holds(data, caps, contents) && size == |contents| && it == Cursor(NextFull(data, 0), 0)
        invariant tmp.Valid() && tmp.caps == old(tmp.caps) && Parts(was, tmp.contents, contents)
        decreases |contents|
      {
        it := MoveOne(tmp, it, was);
      }
      NoneFull(data, caps, contents);
    }

    /** ht_adjust: a size change, and twice the buckets when the table is too full. */
    method Adjust(inc: int)
      requires Holds(data, caps, contents) && size + inc == |contents| <= LoadFactor(caps) + 1
      modifies this
      ensures Valid() && contents == old(contents)
      ensures caps == if |contents| > 15 * old(caps) / 16 then 2 * old(caps) else old(caps)
      decreases if size + inc > LoadFactor(caps) then 1 else 0, 0
    {
      size := size + inc;
      if size > LoadFactor(caps) {
        Doubled(caps);
        var tmp := new Table.Sized(2 * caps);
        MoveAll(tmp);
        caps, size, data, contents := tmp.caps, tmp.size, tmp.data, tmp.contents;
      }
    }

    /** ht_shrink. */
    method Shrink()
      requires Valid()
      modifies this
      ensures Valid() && contents == old(contents) && caps <= old(caps)
      ensures caps < old(caps) ==> caps >= 8
      ensures caps <= 8 || size > 15 * caps / 16 / 2
    {
      var c := ShrunkCaps(size, caps);
      if caps == c {
        return;
      }
      var tmp := new Table.Sized(c);
      MoveAll(tmp);
      caps, size, data, contents := tmp.caps, tmp.size, tmp.data, tmp.contents;
    }
  }

  /** Half the buckets as long as that leaves room for twice the elements. */
  method ShrunkCaps(size: int, caps: nat) returns (c: nat)
    requires IsPowerOfTwo(caps) && 0 < caps && size <= LoadFactor(caps)
    ensures 0 < c <= caps && IsPowerOfTwo(c) && size <= LoadFactor(c) && (c < caps ==> c >= HT_INIT_CAPS)
    ensures c <= HT_INIT_CAPS || size > LoadFactor(c) / 2
  {
    c := caps;
    while size <= LoadFactor(c) / 2 && c > HT_INIT_CAPS
      invariant 0 < c <= caps && IsPowerOfTwo(c) && size <= LoadFactor(c) && (c < caps ==> c >= HT_INIT_CAPS)
    {
      Halved(c);
      c := c / 2;
    }
  }
}
