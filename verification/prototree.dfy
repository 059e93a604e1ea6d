/** The tree of protocol names (uri.c): names are spelled backwards from the root; the children of
    all nodes share one array, in which a node's children lie in the order of their characters,
    from its first_child on. */
module ProtoTrees {
  import opened Sequences

  const ALPHABET := 42

  /** The characters that can be in names. */
  predicate InNames(ch: char) {
    'a' <= ch <= 'z' || 'A' <= ch <= 'Z' || '0' <= ch <= '9' || ch in ".-+/_*"
  }

  /** char_to_index: letters in either case, digits, and six marks; -1 for anything else. */
  function CharToIndex(ch: char): (i: int)
    ensures -1 <= i < ALPHABET && (i >= 0 <==> InNames(ch))
  {
    if ch == '.' then 37
    else if ch == '-' then 36
    else if ch == '+' then 39
    else if ch == '/' then 38
    else if ch == '_' then 40
    else if ch == '*' then 41
    else if '0' <= ch <= '9' then 26 + (ch as int - '0' as int)
    else if 'a' <= ch <= 'z' then ch as int - 'a' as int
    else if 'A' <= ch <= 'Z' then ch as int - 'A' as int
    else -1
  }

  function ToLower(ch: char): char {
    if 'A' <= ch <= 'Z' then (ch as int + 32) as char else ch
  }

  /** A character has the index of one that can be in names exactly if it is the same, letter case aside. */
  lemma SameIndex(a: char, b: char)
    ensures CharToIndex(a) == CharToIndex(b) >= 0 <==> InNames(a) && ToLower(a) == ToLower(b)
  {
  }

  /** The bits of has_child. */
  type Bits = b: seq<bool> | |b| == ALPHABET witness seq(ALPHABET, _ => false)

  /** The population count of the bits below n. */
  function Rank(bits: seq<bool>, n: nat): (r: nat)
    requires n <= |bits|
    ensures r <= n
  {
    if n == 0 then 0 else Rank(bits, n - 1) + (if bits[n - 1] then 1 else 0)
  }

  function Count(bits: Bits): nat { Rank(bits, ALPHABET) }

  lemma {:induction false} RankGrows(bits: seq<bool>, m: nat, n: nat)
    requires m <= n <= |bits|
    ensures Rank(bits, m) <= Rank(bits, n)
    ensures m < n && bits[m] ==> Rank(bits, m) < Rank(bits, n)
  {
    if m < n - 1 {
      RankGrows(bits, m, n - 1);
    }
  }

  lemma {:induction false} RankSet(bits: seq<bool>, c: nat, n: nat)
    requires c < |bits| && !bits[c] && n <= |bits|
    ensures Rank(bits[c := true], n) == Rank(bits, n) + (if c < n then 1 else 0)
  {
    if n > 0 {
      RankSet(bits, c, n - 1);
    }
  }

  /** struct node_head. */
  datatype Head = Head(firstChild: nat, hasChild: Bits, leaf: bool)

  /** struct proto_tree; node_count is the length of children, there being one node more than that. */
  datatype Tree = Tree(heads: seq<Head>, children: seq<nat>)

  /** The number of children of the nodes before node i. */
  ghost function ChildrenBefore(heads: seq<Head>, i: nat): (n: nat)
    requires i <= |heads|
  {
    if i == 0 then 0 else ChildrenBefore(heads, i - 1) + Count(heads[i - 1].hasChild)
  }

  /** Where the child of node i for character c is in the shared array. */
  function Slot(t: Tree, i: nat, c: nat): nat
    requires i < |t.heads| && c < ALPHABET
  {
    t.heads[i].firstChild + Rank(t.heads[i].hasChild, c)
  }

  // The tree as a set of names: paths gives the name of every node, spelled from the root.

  ghost predicate FirstOk(t: Tree, i: nat)
    requires i < |t.heads|
  {
    t.heads[i].firstChild == ChildrenBefore(t.heads, i)
  }

  /** The child of a node for a character has the node's path and the character as its path. */
  ghost predicate ChildOk(t: Tree, paths: seq<seq<nat>>, i: nat, c: nat)
    requires i < |t.heads| == |paths| && c < ALPHABET
  {
    t.heads[i].hasChild[c] ==>
      var s := Slot(t, i, c);
      s < |t.children| && 0 < t.children[s] < |t.heads| && paths[t.children[s]] == paths[i] + [c]
  }

  /** Node k is the child of some node. */
  ghost predicate HasParent(t: Tree, paths: seq<seq<nat>>, k: nat)
    requires k < |t.heads| == |paths|
  {
    exists i, c :: 0 <= i < |t.heads| && 0 <= c < ALPHABET && t.heads[i].hasChild[c] && paths[k] == paths[i] + [c]
  }

  ghost predicate Shaped(t: Tree, paths: seq<seq<nat>>) {
    && |paths| == |t.heads| == |t.children| + 1 && paths[0] == [] && Distinct(paths)
    && ChildrenBefore(t.heads, |t.heads|) == |t.children|
    && (forall i {:trigger FirstOk(t, i)} :: 0 <= i < |t.heads| ==> FirstOk(t, i))
    && (forall i, c {:trigger ChildOk(t, paths, i, c)} ::
          0 <= i < |t.heads| && 0 <= c < ALPHABET ==> ChildOk(t, paths, i, c))
    && (forall k {:trigger HasParent(t, paths, k)} :: 0 < k < |t.heads| ==> HasParent(t, paths, k))
  }

  /** A node has a child for a character exactly if the path goes on with it. */
  lemma ChildIffPath(t: Tree, paths: seq<seq<nat>>, i: nat, c: nat)
    requires Shaped(t, paths) && i < |t.heads| && c < ALPHABET
    ensures t.heads[i].hasChild[c] <==> paths[i] + [c] in paths
  {
    assert ChildOk(t, paths, i, c);
    if paths[i] + [c] in paths {
      var k := IndexOf(paths, paths[i] + [c]);
      assert HasParent(t, paths, k);
      var i2, c2 :| 0 <= i2 < |t.heads| && 0 <= c2 < ALPHABET && t.heads[i2].hasChild[c2] &&
        paths[k] == paths[i2] + [c2];
      assert (paths[i] + [c])[|paths[i]|] == c && (paths[i2] + [c2])[|paths[i2]|] == c2;
      assert (paths[i] + [c])[..|paths[i]|] == paths[i] && (paths[i2] + [c2])[..|paths[i2]|] == paths[i2];
      OnlyAt(paths, i);
    }
  }

  // ----- A new child -----

  const NO_BITS: Bits := seq(ALPHABET, _ => false)

  /** The heads after a child of node i for character c was put in. */
  ghost function HeadsPlus(heads: seq<Head>, i: nat, c: nat): (r: seq<Head>)
    requires i < |heads| && c < ALPHABET
    ensures |r| == |heads| + 1
  {
    seq(|heads| + 1, j requires 0 <= j < |heads| + 1 =>
      if j == |heads| then Head(|heads|, NO_BITS, false)
      else if j > i then heads[j].(firstChild := heads[j].firstChild + 1)
      else if j == i then heads[j].(hasChild := heads[j].hasChild[c := true])
      else heads[j])
  }

  lemma {:induction false} BeforeGrows(heads: seq<Head>, j: nat, k: nat)
    requires j < k <= |heads|
    ensures ChildrenBefore(heads, j) + Count(heads[j].hasChild) <= ChildrenBefore(heads, k)
  {
    if j < k - 1 {
      BeforeGrows(heads, j, k - 1);
    }
  }

  lemma {:induction false} BeforePlus(heads: seq<Head>, i: nat, c: nat, k: nat)
    requires i < |heads| && c < ALPHABET && !heads[i].hasChild[c] && k <= |heads|
    ensures ChildrenBefore(HeadsPlus(heads, i, c), k) == ChildrenBefore(heads, k) + (if k > i then 1 else 0)
  {
    if k > 0 {
      BeforePlus(heads, i, c, k - 1);
      if k - 1 == i {
        RankSet(heads[i].hasChild, c, ALPHABET);
      }
    }
  }

  lemma {:induction false} NoneSet(n: nat)
    requires n <= ALPHABET
    ensures Rank(NO_BITS, n) == 0
  {
    if n > 0 {
      NoneSet(n - 1);
    }
  }

  /** The new node's number goes into the shared array; what was behind moves up. */
  ghost function ChildrenPlus(children: seq<nat>, p: nat, k: nat): (r: seq<nat>)
    requires p <= |children|
    ensures |r| == |children| + 1
  {
    children[..p] + [k] + children[p..]
  }

  ghost function TreePlus(t: Tree, i: nat, c: nat): Tree
    requires i < |t.heads| && c < ALPHABET && Slot(t, i, c) <= |t.children|
  {
    Tree(HeadsPlus(t.heads, i, c), ChildrenPlus(t.children, Slot(t, i, c), |t.heads|))
  }

  lemma SlotWithin(t: Tree, paths: seq<seq<nat>>, i: nat, c: nat)
    requires Shaped(t, paths) && i < |t.heads| && c < ALPHABET
    ensures Slot(t, i, c) <= |t.children|
  {
    assert FirstOk(t, i);
    BeforeGrows(t.heads, i, |t.heads|);
    RankGrows(t.heads[i].hasChild, c, ALPHABET);
  }

  /** Every child is found where it was put. */
  lemma ChildPlus(t: Tree, paths: seq<seq<nat>>, i: nat, c: nat, j: nat, d: nat)
    requires Shaped(t, paths) && i < |t.heads| && c < ALPHABET && !t.heads[i].hasChild[c]
    requires Slot(t, i, c) <= |t.children| && j <= |t.heads| && d < ALPHABET
    ensures ChildOk(TreePlus(t, i, c), paths + [paths[i] + [c]], j, d)
  {
    var r := TreePlus(t, i, c);
    if j < |t.heads| && r.heads[j].hasChild[d] {
      if j != i || d != c {
        assert ChildOk(t, paths, j, d) && FirstOk(t, i) && FirstOk(t, j);
        ChildSlotMoved(t, i, c, j, d);
      } else {
        RankSet(t.heads[i].hasChild, c, c);
      }
    }
  }

  /** Slots before the new one stay, those behind it are one further up. */
  lemma ChildSlotMoved(t: Tree, i: nat, c: nat, j: nat, d: nat)
    requires i < |t.heads| && j < |t.heads| && c < ALPHABET && d < ALPHABET && !t.heads[i].hasChild[c]
    requires t.heads[j].hasChild[d] && FirstOk(t, i) && FirstOk(t, j)
    requires Slot(t, i, c) <= |t.children| && Slot(t, j, d) < |t.children|
    ensures Slot(TreePlus(t, i, c), j, d) < |TreePlus(t, i, c).children|
    ensures TreePlus(t, i, c).children[Slot(TreePlus(t, i, c), j, d)] == t.children[Slot(t, j, d)]
  {
    var bits := t.heads[i].hasChild;
    if j < i {
      BeforeGrows(t.heads, j, i);
      RankGrows(t.heads[j].hasChild, d, ALPHABET);
    } else if j > i {
      BeforeGrows(t.heads, i, j);
      RankGrows(bits, c, ALPHABET);
    } else {
      RankSet(bits, c, d);
      if d < c {
        RankGrows(bits, d, c);
      } else {
        RankGrows(bits, c, d);
      }
    }
  }

  lemma ShapedPlus(t: Tree, paths: seq<seq<nat>>, i: nat, c: nat)
    requires Shaped(t, paths) && i < |t.heads| && c < ALPHABET && !t.heads[i].hasChild[c]
    ensures Slot(t, i, c) <= |t.children| && Shaped(TreePlus(t, i, c), paths + [paths[i] + [c]])
  {
    SlotWithin(t, paths, i, c);
    var r, paths2 := TreePlus(t, i, c), paths + [paths[i] + [c]];
    forall j | 0 <= j < |r.heads|
      ensures FirstOk(r, j)
    {
      assert j < |t.heads| ==> FirstOk(t, j);
      BeforePlus(t.heads, i, c, j);
    }
    BeforePlus(t.heads, i, c, |t.heads|);
    NoneSet(ALPHABET);
    forall j, d | 0 <= j < |r.heads| && 0 <= d < ALPHABET
      ensures ChildOk(r, paths2, j, d)
    {
      ChildPlus(t, paths, i, c, j, d);
    }
    forall k | 0 < k < |r.heads|
      ensures HasParent(r, paths2, k)
    {
      ParentPlus(t, paths, i, c, k);
    }
    ChildIffPath(t, paths, i, c);
    DistinctLast(paths, paths[i] + [c]);
  }

  lemma ParentPlus(t: Tree, paths: seq<seq<nat>>, i: nat, c: nat, k: nat)
    requires Shaped(t, paths) && i < |t.heads| && c < ALPHABET && Slot(t, i, c) <= |t.children| && 0 < k <= |t.heads|
    ensures HasParent(TreePlus(t, i, c), paths + [paths[i] + [c]], k)
  {
    var r, paths2 := TreePlus(t, i, c), paths + [paths[i] + [c]];
    if k < |t.heads| {
      assert HasParent(t, paths, k);
      var i2, c2 :| 0 <= i2 < |t.heads| && 0 <= c2 < ALPHABET && t.heads[i2].hasChild[c2] &&
        paths[k] == paths[i2] + [c2];
      assert r.heads[i2].hasChild[c2] && paths2[k] == paths2[i2] + [c2];
    } else {
      assert r.heads[i].hasChild[c] && paths2[k] == paths2[i] + [c];
    }
  }

  /** child_index: the child of a node for a character, or -1. */
  function ChildIndex(t: Tree, i: nat, ch: char): (k: int)
    requires i < |t.heads|
    requires CharToIndex(ch) >= 0 && t.heads[i].hasChild[CharToIndex(ch)] ==> Slot(t, i, CharToIndex(ch)) < |t.children|
  {
    var c := CharToIndex(ch);
    if c < 0 || !t.heads[i].hasChild[c] then -1 else t.children[Slot(t, i, c)]
  }

  /** child_index_add: the child of a node for a character, put in if it is not there; -1 if the
      character cannot be in names. */
  method ChildIndexAdd(t0: Tree, i: nat, ch: char, ghost paths0: seq<seq<nat>>)
    returns (t: Tree, k: int, ghost paths: seq<seq<nat>>)
    requires Shaped(t0, paths0) && i < |t0.heads|
    ensures Shaped(t, paths) && paths0 <= paths
    ensures if CharToIndex(ch) < 0 then k == -1 && t == t0 && paths == paths0
            else 0 <= k < |t.heads| && paths[k] == paths0[i] + [CharToIndex(ch)]
    ensures forall j :: 0 <= j < |t.heads| ==> t.heads[j].leaf == (j < |t0.heads| && t0.heads[j].leaf)
  {
    t, paths, k := t0, paths0, -1;
    var c := CharToIndex(ch);
    if c < 0 {
      return;
    }
    var has := t.heads[i].hasChild[c];
    var child := Slot(t, i, c);
    assert ChildOk(t, paths, i, c);
    if !has {
      ShapedPlus(t0, paths0, i, c);
      t := PutIn(t0, i, c, child);
      paths := paths0 + [paths0[i] + [c]];
      assert ChildOk(t, paths, i, c);
      assert t.heads[i].hasChild[c] && Slot(t, i, c) == child by {
        RankSet(t0.heads[i].hasChild, c, c);
      }
    }
    k := t.children[child];
  }

  /** Its insertion: two arrays change. */
  method PutIn(t0: Tree, i: nat, c: nat, child: nat) returns (t: Tree)
    requires i < |t0.heads| && c < ALPHABET && child == Slot(t0, i, c) <= |t0.children|
    requires |t0.heads| == |t0.children| + 1
    ensures t == TreePlus(t0, i, c)
  {
    var nodeCount := |t0.children|;
    var children := t0.children[..child] + [0] + t0.children[child..];
    var heads := t0.heads;
    var j := i + 1;
    while j <= nodeCount
      invariant i < j <= nodeCount + 1 == |heads| == |t0.heads|
      invariant forall x :: 0 <= x < |heads| ==>
        heads[x] == if i < x < j then t0.heads[x].(firstChild := t0.heads[x].firstChild + 1) else t0.heads[x]
    {
      heads := heads[j := heads[j].(firstChild := heads[j].firstChild + 1)];
      j := j + 1;
    }
    nodeCount := nodeCount + 1;
    heads := heads + [Head(nodeCount, NO_BITS, false)];
    children := children[child := nodeCount];
    heads := heads[i := heads[i].(hasChild := heads[i].hasChild[c := true])];
    t := Tree(heads, children);
    assert heads == HeadsPlus(t0.heads, i, c);
    assert children == ChildrenPlus(t0.children, child, |t0.heads|);
  }

  // ----- Names -----

  predicate Valid(s: string) {
    forall i :: 0 <= i < |s| ==> InNames(s[i])
  }

  /** A name as a path: the indices of its characters, last one first. */
  function Code(s: string): (p: seq<nat>)
    requires Valid(s)
    ensures |p| == |s|
  {
    if s == [] then [] else Code(s[1..]) + [CharToIndex(s[0])]
  }

  function Lower(s: string): (r: string)
    ensures |r| == |s|
  {
    seq(|s|, i requires 0 <= i < |s| => ToLower(s[i]))
  }

  /** Two names have the same path exactly if they are the same, letter case aside. */
  lemma {:induction false} SameCode(a: string, b: string)
    requires Valid(a) && Valid(b)
    ensures Code(a) == Code(b) <==> Lower(a) == Lower(b)
  {
    if |a| == |b| && a != [] {
      SameCode(a[1..], b[1..]);
      SameIndex(a[0], b[0]);
      assert Code(a)[..|a| - 1] == Code(a[1..]) && Code(b)[..|b| - 1] == Code(b[1..]);
      assert Code(a)[|a| - 1] == CharToIndex(a[0]) && Code(b)[|b| - 1] == CharToIndex(b[0]);
      assert Lower(a) == [ToLower(a[0])] + Lower(a[1..]) && Lower(b) == [ToLower(b[0])] + Lower(b[1..]);
      assert Lower(a)[1..] == Lower(a[1..]) && Lower(b)[1..] == Lower(b[1..]);
      assert Lower(a)[0] == ToLower(a[0]) && Lower(b)[0] == ToLower(b[0]);
    } else if |a| != |b| {
      assert |Lower(a)| != |Lower(b)|;
    }
  }

  /** Letter case makes no difference, neither to what can be a name nor to which one it is. */
  lemma {:induction false} CaseAside(s: string, t: string)
    requires Lower(s) == Lower(t)
    ensures Valid(s) <==> Valid(t)
    ensures Valid(s) ==> Code(s) == Code(t)
  {
    assert |Lower(s)| == |Lower(t)|;
    forall i | 0 <= i < |s|
      ensures InNames(s[i]) <==> InNames(t[i])
    {
      assert Lower(s)[i] == Lower(t)[i];
      SameIndex(s[i], t[i]);
      SameIndex(t[i], s[i]);
    }
    if Valid(s) {
      SameCode(s, t);
    }
  }

  lemma LowerTwice(s: string)
    ensures Lower(Lower(s)) == Lower(s)
  {
  }

  /** The leaves are exactly the nodes of the names. */
  ghost predicate Holds(t: Tree, paths: seq<seq<nat>>, names: set<seq<nat>>) {
    && Shaped(t, paths)
    && (forall i :: 0 <= i < |t.heads| ==> (t.heads[i].leaf <==> paths[i] in names))
    && (forall p :: p in names ==> p in paths)
  }

  /** New nodes are no leaves and have no names. */
  lemma StillHolds(t0: Tree, paths0: seq<seq<nat>>, t: Tree, paths: seq<seq<nat>>, names: set<seq<nat>>)
    requires Holds(t0, paths0, names) && Shaped(t, paths) && paths0 <= paths
    requires forall j :: 0 <= j < |t.heads| ==> t.heads[j].leaf == (j < |t0.heads| && t0.heads[j].leaf)
    ensures Holds(t, paths, names)
  {
    forall i | 0 <= i < |t.heads|
      ensures t.heads[i].leaf <==> paths[i] in names
    {
      if i >= |t0.heads| && paths[i] in names {
        var j := IndexOf(paths0, paths[i]);
        OnlyAt(paths, i);
      }
    }
    forall p | p in names
      ensures p in paths
    {
      assert paths[IndexOf(paths0, p)] == p;
    }
  }

  lemma {:induction false} SameBefore(heads: seq<Head>, heads2: seq<Head>, k: nat)
    requires k <= |heads| == |heads2| && forall j :: 0 <= j < |heads| ==> heads2[j].hasChild == heads[j].hasChild
    ensures ChildrenBefore(heads2, k) == ChildrenBefore(heads, k)
  {
    if k > 0 {
      SameBefore(heads, heads2, k - 1);
    }
  }

  function WithLeaf(t: Tree, k: nat): Tree
    requires k < |t.heads|
  {
    t.(heads := t.heads[k := t.heads[k].(leaf := true)])
  }

  /** A node that becomes a leaf adds its name. */
  lemma LeafSet(t: Tree, paths: seq<seq<nat>>, names: set<seq<nat>>, k: nat)
    requires Holds(t, paths, names) && k < |t.heads|
    ensures Holds(WithLeaf(t, k), paths, names + {paths[k]})
  {
    var r := WithLeaf(t, k);
    forall i | 0 <= i < |r.heads|
      ensures FirstOk(r, i)
    {
      assert FirstOk(t, i);
      SameBefore(t.heads, r.heads, i);
    }
    SameBefore(t.heads, r.heads, |t.heads|);
    forall i, c | 0 <= i < |r.heads| && 0 <= c < ALPHABET
      ensures ChildOk(r, paths, i, c)
    {
      assert ChildOk(t, paths, i, c);
    }
    forall j | 0 < j < |r.heads|
      ensures HasParent(r, paths, j)
    {
      assert HasParent(t, paths, j);
      var i2, c2 :| 0 <= i2 < |t.heads| && 0 <= c2 < ALPHABET && t.heads[i2].hasChild[c2] &&
        paths[j] == paths[i2] + [c2];
      assert r.heads[i2].hasChild[c2];
    }
    OnlyAt(paths, k);
  }

  /** reverse_proto_tree_add_proto. */
  method AddProto(t0: Tree, proto: string, ghost paths0: seq<seq<nat>>, ghost names0: set<seq<nat>>)
    returns (t: Tree, ok: bool, ghost paths: seq<seq<nat>>, ghost names: set<seq<nat>>)
    requires Holds(t0, paths0, names0)
    ensures Holds(t, paths, names) && paths0 <= paths && (ok <==> Valid(proto))
    ensures names == if ok then names0 + {Code(proto)} else names0
  {
    t, paths, names, ok := t0, paths0, names0, false;
    var node := 0;
    var it := |proto|;
    while it > 0
      invariant 0 <= it <= |proto| && Holds(t, paths, names0) && paths0 <= paths
      invariant Valid(proto[it..]) && 0 <= node < |t.heads| && paths[node] == Code(proto[it..])
    {
      var child;
      ghost var paths1, t1 := paths, t;
      t, child, paths := ChildIndexAdd(t, node, proto[it - 1], paths);
      StillHolds(t1, paths1, t, paths, names0);
      if child < 0 {
        assert !Valid(proto);
        return;
      }
      it := it - 1;
      assert proto[it..] == [proto[it]] + proto[it + 1..];
      assert proto[it..][1..] == proto[it + 1..];
      node := child;
    }
    assert proto[0..] == proto;
    LeafSet(t, paths, names0, node);
    t := WithLeaf(t, node);
    ok, names := true, names0 + {Code(proto)};
  }

  // ----- Matching -----

  /** The last k characters of a text. */
  function Suffix(text: string, k: nat): string
    requires k <= |text|
  {
    text[|text| - k..]
  }

  /** The last k characters are a name. */
  ghost predicate NameAt(text: string, names: set<seq<nat>>, k: nat)
    requires k <= |text|
  {
    Valid(Suffix(text, k)) && Code(Suffix(text, k)) in names
  }

  lemma NameAtLower(text: string, names: set<seq<nat>>, k: nat)
    requires k <= |text|
    ensures NameAt(Lower(text), names, k) <==> NameAt(text, names, k)
  {
    assert Suffix(Lower(text), k) == Lower(Suffix(text, k));
    LowerTwice(Suffix(text, k));
    CaseAside(Lower(Suffix(text, k)), Suffix(text, k));
  }

  /** The length of the longest name that ends a text, among the last len characters; 0 if there is none. */
  ghost function Longest(text: string, names: set<seq<nat>>, len: nat): (k: nat)
    requires len <= |text|
    ensures k <= len
  {
    if len == 0 || NameAt(text, names, len) then len else Longest(text, names, len - 1)
  }

  lemma {:induction false} LongestIs(text: string, names: set<seq<nat>>, len: nat, k: nat)
    requires k <= len <= |text| && (k > 0 ==> NameAt(text, names, k))
    requires forall j :: k < j <= len ==> !NameAt(text, names, j)
    ensures Longest(text, names, len) == k
    decreases len
  {
    if k < len {
      LongestIs(text, names, len - 1, k);
    }
  }

  /** Letter case makes no difference to what is matched. */
  lemma {:induction false} LongestLower(text: string, names: set<seq<nat>>, len: nat)
    requires len <= |text|
    ensures Longest(Lower(text), names, len) == Longest(text, names, len)
    decreases len
  {
    if len > 0 {
      NameAtLower(text, names, len);
      LongestLower(text, names, len - 1);
    }
  }

  /** Paths are closed under taking the front. */
  lemma {:induction false} FrontOfPath(t: Tree, paths: seq<seq<nat>>, p: seq<nat>, n: nat)
    requires Shaped(t, paths) && p in paths && n <= |p|
    ensures p[..n] in paths
    decreases |p|
  {
    if n == |p| {
      assert p[..n] == p;
    } else {
      var k := IndexOf(paths, p);
      assert HasParent(t, paths, k);
      var i, c :| 0 <= i < |t.heads| && 0 <= c < ALPHABET && t.heads[i].hasChild[c] && paths[k] == paths[i] + [c];
      FrontOfPath(t, paths, paths[i], n);
      assert p[..n] == paths[i][..n];
    }
  }

  lemma {:induction false} CodeOfSuffix(text: string, k: nat, m: nat)
    requires k <= m <= |text| && Valid(Suffix(text, m))
    ensures Valid(Suffix(text, k)) && Code(Suffix(text, m))[..k] == Code(Suffix(text, k))
    decreases m
  {
    if k < m {
      assert Suffix(text, m)[1..] == Suffix(text, m - 1);
      CodeOfSuffix(text, k, m - 1);
      assert Code(Suffix(text, m))[..k] == Code(Suffix(text, m - 1))[..k];
    }
  }

  /** No name goes on behind a node without the child for the next character. */
  lemma NothingFurther(t: Tree, paths: seq<seq<nat>>, names: set<seq<nat>>, node: nat, text: string, k: nat, m: nat)
    requires Holds(t, paths, names) && node < |t.heads| && k < m <= |text|
    requires Valid(Suffix(text, k)) && paths[node] == Code(Suffix(text, k))
    requires var c := CharToIndex(text[|text| - 1 - k]); c < 0 || !t.heads[node].hasChild[c]
    ensures !NameAt(text, names, m)
  {
    if NameAt(text, names, m) {
      CodeOfSuffix(text, k + 1, m);
      var c := CharToIndex(text[|text| - 1 - k]);
      assert Suffix(text, k + 1)[0] == text[|text| - 1 - k] && Suffix(text, k + 1)[1..] == Suffix(text, k);
      FrontOfPath(t, paths, Code(Suffix(text, m)), k + 1);
      ChildIffPath(t, paths, node, c);
    }
  }

  /** match_reverse_proto_tree: the length of the longest name that ends the text, among the last len
      characters, 0 if there is none; and whether it is the name of one given leaf. */
  method Match(t: Tree, text: string, len: nat, fileLeaf: nat, ghost paths: seq<seq<nat>>, ghost names: set<seq<nat>>)
    returns (size: nat, isFile: bool)
    requires Holds(t, paths, names) && len <= |text| && fileLeaf < |t.heads|
    ensures size <= len && (size > 0 ==> NameAt(text, names, size))
    ensures forall k :: size < k <= len ==> !NameAt(text, names, k)
    ensures size == Longest(text, names, len)
    ensures size > 0 ==> (isFile <==> Code(Suffix(text, size)) == paths[fileLeaf])
  {
    size, isFile := 0, false;
    var node, i := 0, 0;
    assert Suffix(text, 0) == [];
    while i < len
      invariant 0 <= i <= len && size <= i && node < |t.heads|
      invariant Valid(Suffix(text, i)) && paths[node] == Code(Suffix(text, i))
      invariant size > 0 ==> NameAt(text, names, size)
      invariant forall k :: size < k <= i && k > 0 ==> !NameAt(text, names, k)
      invariant size > 0 ==> (isFile <==> Code(Suffix(text, size)) == paths[fileLeaf])
    {
      var ch := text[|text| - 1 - i];
      assert CharToIndex(ch) >= 0 ==> ChildOk(t, paths, node, CharToIndex(ch));
      var child := ChildIndex(t, node, ch);
      if child < 0 {
        forall k | i < k <= len
          ensures !NameAt(text, names, k)
        {
          NothingFurther(t, paths, names, node, text, i, k);
        }
        LongestIs(text, names, len, size);
        return;
      }
      node := child;
      i := i + 1;
      assert Suffix(text, i)[0] == ch && Suffix(text, i)[1..] == Suffix(text, i - 1);
      if t.heads[node].leaf {
        size := i;
        OnlyAt(paths, node);
        isFile := node == fileLeaf;
      }
    }
    LongestIs(text, names, len, size);
  }

  // ----- The tree of all protocols -----

  ghost function CodesOf(list: seq<string>): (r: set<seq<nat>>) {
    set s | s in list && Valid(s) :: Code(s)
  }

  /** The lines of the services table. */
  method AddAll(t0: Tree, protocols: seq<string>, ghost fileLeaf: nat, ghost paths0: seq<seq<nat>>,
                ghost names0: set<seq<nat>>)
    returns (t: Tree, ghost paths: seq<seq<nat>>, ghost names: set<seq<nat>>)
    requires Holds(t0, paths0, names0) && names0 == CodesOf(["file"])
    requires fileLeaf < |t0.heads| && Valid("file") && paths0[fileLeaf] == Code("file")
    ensures Holds(t, paths, names) && names == CodesOf(["file"] + protocols)
    ensures fileLeaf < |t.heads| && paths[fileLeaf] == Code("file")
  {
    t, paths, names := t0, paths0, names0;
    var n := 0;
    while n < |protocols|
      invariant n <= |protocols| && Holds(t, paths, names) && names == CodesOf(["file"] + protocols[..n])
      invariant fileLeaf < |t.heads| && paths[fileLeaf] == Code("file")
    {
      ghost var paths1, names1 := paths, names;
      var ok;
      t, ok, paths, names := AddProto(t, protocols[n], paths, names);
      OneMoreCode(["file"] + protocols[..n], protocols[n]);
      assert ["file"] + protocols[..n + 1] == ["file"] + protocols[..n] + [protocols[n]];
      n := n + 1;
    }
    assert protocols[..n] == protocols;
  }

  /** init_proto_tree: 'file' and the protocols of the services table, as far as they are names. */
  method Init(protocols: seq<string>)
    returns (t: Tree, fileLeaf: nat, ghost paths: seq<seq<nat>>, ghost names: set<seq<nat>>)
    ensures Holds(t, paths, names) && names == CodesOf(["file"] + protocols)
    ensures fileLeaf < |t.heads| && Valid("file") && paths[fileLeaf] == Code("file")
  {
    t, paths, names := Tree([Head(0, NO_BITS, false)], []), [[]], {};
    NoneSet(ALPHABET);
    EmptyTree(t);
    assert Valid("file");
    var ok;
    t, ok, paths, names := AddProto(t, "file", paths, names);
    assert names == CodesOf(["file"]);
    fileLeaf := Find(t, "file", paths, names);
    t, paths, names := AddAll(t, protocols, fileLeaf, paths, names);
  }

  lemma EmptyTree(t: Tree)
    requires t == Tree([Head(0, NO_BITS, false)], []) && Rank(NO_BITS, ALPHABET) == 0
    ensures Holds(t, [[]], {})
  {
    forall i, c | 0 <= i < 1 && 0 <= c < ALPHABET
      ensures ChildOk(t, [[]], i, c)
    {
      assert !NO_BITS[c];
    }
    assert FirstOk(t, 0);
    assert ChildrenBefore(t.heads, 1) == ChildrenBefore(t.heads, 0) + Count(NO_BITS);
  }

  lemma OneMoreCode(list: seq<string>, s: string)
    ensures CodesOf(list + [s]) == if Valid(s) then CodesOf(list) + {Code(s)} else CodesOf(list)
  {
    assert forall x :: x in list + [s] <==> x in list || x == s;
  }

  /** The walk to the node of a name. */
  method Find(t: Tree, name: string, ghost paths: seq<seq<nat>>, ghost names: set<seq<nat>>) returns (node: nat)
    requires Holds(t, paths, names) && Valid(name) && Code(name) in names
    ensures node < |t.heads| && paths[node] == Code(name)
  {
    node := 0;
    var i := |name|;
    while i > 0
      invariant 0 <= i <= |name| && node < |t.heads| && paths[node] == Code(name[i..])
    {
      ghost var c := CharToIndex(name[i - 1]);
      assert name[i - 1..][1..] == name[i..] && Suffix(name, |name| - i + 1) == name[i - 1..] &&
        Suffix(name, |name|) == name;
      CodeOfSuffix(name, |name| - i + 1, |name|);
      FrontOfPath(t, paths, Code(name), |name| - i + 1);
      ChildIffPath(t, paths, node, c);
      assert ChildOk(t, paths, node, c);
      node := ChildIndex(t, node, name[i - 1]);
      i := i - 1;
    }
    assert name[0..] == name;
  }

  /** What Match finds in the tree of all protocols, in terms of strings: the longest end of the text
      that is, letter case aside, 'file' or one of the protocols that are names. */
  lemma NamesAreStrings(protocols: seq<string>, text: string, k: nat)
    requires k <= |text|
    ensures NameAt(text, CodesOf(["file"] + protocols), k) <==>
      exists s :: s in ["file"] + protocols && Valid(s) && Lower(s) == Lower(Suffix(text, k))
  {
    var list, end := ["file"] + protocols, Suffix(text, k);
    if s :| s in list && Valid(s) && Lower(s) == Lower(end) {
      CaseAside(s, end);
    }
    if NameAt(text, CodesOf(list), k) {
      var s :| s in list && Valid(s) && Code(s) == Code(end);
      SameCode(s, end);
    }
  }
}
