/** Lines that move to another address, and concatenation, the inverse of splitting
    (realloc_line and concat_line in line.c). */
module Concats {
  import opened Cells
  import opened Lines
  import opened Sequences
  import opened Stores
  import Handles

  /** realloc_line keeps what fits the new capacity. */
  function Fitted(p: Para, caps: nat): Para {
    if caps < |p.text| then p.(text := p.text[..caps]) else p
  }

  /** A line with a new value, copied to q and linked there in place of p. */
  function Relocated(line: Heap, p: Ptr, q: Ptr, para: Para): Heap
    requires p in line && p != q
    requires line[p].next != NULL ==> line[p].next in line
    requires line[p].prev != NULL ==> line[p].prev in line
  {
    var rec := line[p];
    var l1 := line[q := rec.(para := para)];
    var l2 := if rec.next == NULL then l1 else l1[rec.next := l1[rec.next].(prev := q)];
    var l3 := if rec.prev == NULL then l2 else l2[rec.prev := l2[rec.prev].(next := q)];
    l3 - {p}
  }

  lemma RelocatedAt(line: Heap, order: seq<Ptr>, k: nat, q: Ptr, para: Para, i: nat)
    requires LinksOk(line, order) && k < |order| && i < |order| && q !in order && q != NULL
    requires order[k] in line
    requires line[order[k]].next != NULL ==> line[order[k]].next in line
    requires line[order[k]].prev != NULL ==> line[order[k]].prev in line
    ensures var new_, order_ := Relocated(line, order[k], q, para), order[k := q];
      && LinkedAt(new_, order_, i)
      && new_[order_[i]].para == Doc(line, order)[k := para][i]
      && new_[order_[i]].seqno == Labels(line, order)[i]
  {
    OnlyAt(order, k);
    assert LinkedAt(line, order, k) && LinkedAt(line, order, i);
    if k > 0 {
      OnlyAt(order, k - 1);
    }
    if k + 1 < |order| {
      OnlyAt(order, k + 1);
    }
  }

  lemma RelocatedOk(line: Heap, order: seq<Ptr>, k: nat, q: Ptr, para: Para)
    requires LinksOk(line, order) && k < |order| && q !in order && q != NULL
    requires order[k] in line
    requires line[order[k]].next != NULL ==> line[order[k]].next in line
    requires line[order[k]].prev != NULL ==> line[order[k]].prev in line
    ensures var new_, order_ := Relocated(line, order[k], q, para), order[k := q];
      && LinksOk(new_, order_)
      && Doc(new_, order_) == Doc(line, order)[k := para]
      && Labels(new_, order_) == Labels(line, order)
  {
    var new_, order_ := Relocated(line, order[k], q, para), order[k := q];
    DistinctUpdate(order, k, q);
    forall i | 0 <= i < |order_|
      ensures LinkedAt(new_, order_, i)
      ensures new_[order_[i]].para == Doc(line, order)[k := para][i]
      ensures new_[order_[i]].seqno == Labels(line, order)[i]
    {
      RelocatedAt(line, order, k, q, para, i);
    }
  }

  /** A new value for line k, in place. */
  lemma Rewritten(line: Heap, order: seq<Ptr>, k: nat, para: Para)
    requires LinksOk(line, order) && k < |order| && order[k] in line
    ensures var new_ := line[order[k] := line[order[k]].(para := para)];
      && LinksOk(new_, order)
      && Doc(new_, order) == Doc(line, order)[k := para]
      && Labels(new_, order) == Labels(line, order)
  {
    var new_ := line[order[k] := line[order[k]].(para := para)];
    OnlyAt(order, k);
    forall i | 0 <= i < |order|
      ensures LinkedAt(new_, order, i)
    {
      assert LinkedAt(line, order, i);
    }
  }

  lemma RespannedOk(spans0: seq<Span>, spans: seq<Span>, rows: seq<Row>, order: seq<Ptr>, k: nat, q: Ptr)
    requires SpansOk(spans0, rows, order) && Distinct(order) && NULL !in order && k < |order| && |spans| == |spans0|
    requires forall j :: 0 <= j < |spans| ==> spans[j] == MoveSpan(spans0[j], order[k], q, 0, 0)
    ensures SpansOk(spans, rows, order[k := q])
  {
    OnlyAt(order, k);
    var order_ := order[k := q];
    forall j | 0 <= j < |spans|
      ensures SpanAt(spans, rows, order_, j)
    {
      assert SpanAt(spans0, rows, order, j);
    }
  }

  /** The list part of realloc_line; moved says whether the pool gave the line another address. */
  method ReallocList(s0: Store, p: Ptr, caps: nat, moved: bool, ghost order: seq<Ptr>, ghost k: nat)
    returns (s: Store, q: Ptr)
    requires LinksOk(s0.line, order) && LabelsOk(s0.line, order, s0.nextSeqno) && k < |order| && order[k] == p
    requires p in s0.line && NULL < s0.brk && forall x :: x in order ==> x < s0.brk
    ensures q == if moved then s0.brk else p
    ensures s == s0.(line := s.line, brk := if moved then q + 1 else s0.brk)
    ensures LinksOk(s.line, order[k := q]) && LabelsOk(s.line, order[k := q], s.nextSeqno)
    ensures Doc(s.line, order[k := q]) == Doc(s0.line, order)[k := Fitted(s0.line[p].para, caps)]
  {
    var para := Fitted(s0.line[p].para, caps);
    if moved {
      q := s0.brk;
      assert LinkedAt(s0.line, order, k);
      assert k > 0 ==> order[k - 1] in s0.line;
      assert k + 1 < |order| ==> order[k + 1] in s0.line;
      RelocatedOk(s0.line, order, k, q, para);
      s := s0.(line := Relocated(s0.line, p, q, para), brk := q + 1);
    } else {
      q := p;
      Rewritten(s0.line, order, k, para);
      assert order[k := q] == order;
      s := s0.(line := s0.line[p := s0.line[p].(para := para)]);
    }
  }

  /** realloc_line: only the capacity and the address of a line change, and what no longer fits
      is cut off. Links, spans and handles follow the line. */
  method ReallocLine(s0: Store, p: Ptr, caps: nat, moved: bool, ghost v0: View, ghost k: nat)
    returns (s: Store, q: Ptr, ghost v: View)
    requires Valid(s0, v0) && k < |v0.order| && v0.order[k] == p && p in s0.line
    ensures Valid(s, v) && |s.spans| == |s0.spans| && s.nextSeqno == s0.nextSeqno
    ensures v.order == v0.order[k := q] && v.rows == v0.rows
    ensures q == (if moved then s0.brk else p) && (!moved ==> v == v0 && s.hs == s0.hs && s.spans == s0.spans)
    ensures Doc(s.line, v.order) == Doc(s0.line, v0.order)[k := Fitted(s0.line[p].para, caps)]
    ensures Handles.Moved(s0.hs, v0.lists, s.hs, v.lists, p, q, 0, 0)
  {
    var needed := false;
    if |s0.spans| > 0 {
      EndsOk(s0, v0.order, v0.rows);
      needed := NeedsSpanFix(s0, p);
    }
    forall j | 0 <= j < |v0.rows| && !needed
      ensures v0.rows[j].para != k
    {
      NoSpanOutside(s0, v0.order, v0.rows, k, j);
    }
    s, q := ReallocList(s0, p, caps, moved, v0.order, k);
    v := View(v0.order[k := q], v0.lists, v0.rows);
    if moved {
      assert p in v0.order && q !in v0.order;
      var hs;
      ghost var lists;
      hs, lists := Handles.Readdress(s0.hs, p, q, v0.lists);
      var spans := FixSpans(s0.spans, needed, p, q, 0, 0, v0.rows, v0.order, k);
      RespannedOk(s0.spans, spans, v0.rows, v0.order, k, q);
      s := s.(hs := hs, spans := spans);
      v := v.(lists := lists);
      InUpdate(v0.order, k, q);
      assert forall x :: x in v.order ==> x == q || x in v0.order;
      assert forall x :: x in v.order ==> x < s.brk;
    } else {
      assert v0.order[k := q] == v0.order;
    }
  }

  // ----- Concatenation -----

  function DetachNext(line: Heap, p: Ptr): Heap
    requires p in line && (line[p].next != NULL ==> line[p].next in line)
  {
    var next := line[p].next;
    var l1 := if next == NULL then line else line[next := line[next].(prev := NULL)];
    l1[p := l1[p].(next := NULL)]
  }

  function DetachPrev(line: Heap, p: Ptr): Heap
    requires p in line && (line[p].prev != NULL ==> line[p].prev in line)
  {
    var prev := line[p].prev;
    var l1 := if prev == NULL then line else line[prev := line[prev].(next := NULL)];
    l1[p := l1[p].(prev := NULL)]
  }

  function AttachNext(line: Heap, p: Ptr, next: Ptr): Heap
    requires p in line && (next != NULL ==> next in line)
  {
    var l1 := if next == NULL then line else line[next := line[next].(prev := p)];
    l1[p := l1[p].(next := next)]
  }

  /** concat_line's list part: q is taken out behind p, which gets the joined value. */
  function Merged(line: Heap, p: Ptr, q: Ptr, para: Para): Heap
    requires p in line && q in line && p != q && line[q].prev == p
    requires line[q].next != NULL ==> line[q].next in line && line[q].next != q
  {
    var next := line[q].next;
    var l1 := line[p := line[p].(para := para)];
    AttachNext(DetachPrev(DetachNext(l1, q), q), p, next) - {q}
  }

  lemma MergedAt(line: Heap, order: seq<Ptr>, k: nat, para: Para, i: nat)
    requires LinksOk(line, order) && k + 1 < |order| && i < |order| - 1
    requires order[k] in line && order[k + 1] in line && order[k] != order[k + 1] && line[order[k + 1]].prev == order[k]
    requires var next := line[order[k + 1]].next; next != NULL ==> next in line && next != order[k + 1]
    ensures var new_, order_ := Merged(line, order[k], order[k + 1], para), Drop(order, k + 1);
      && LinkedAt(new_, order_, i)
      && new_[order_[i]].para == Drop(Doc(line, order)[k := para], k + 1)[i]
      && new_[order_[i]].seqno == Drop(Labels(line, order), k + 1)[i]
  {
    var j := if i <= k then i else i + 1;
    OnlyAt(order, k);
    OnlyAt(order, k + 1);
    assert LinkedAt(line, order, k) && LinkedAt(line, order, k + 1) && LinkedAt(line, order, j);
    if k + 2 < |order| {
      OnlyAt(order, k + 2);
    }
  }

  lemma MergedOk(line: Heap, order: seq<Ptr>, k: nat, para: Para)
    requires LinksOk(line, order) && k + 1 < |order|
    requires order[k] in line && order[k + 1] in line && order[k] != order[k + 1] && line[order[k + 1]].prev == order[k]
    requires var next := line[order[k + 1]].next; next != NULL ==> next in line && next != order[k + 1]
    ensures var new_, order_ := Merged(line, order[k], order[k + 1], para), Drop(order, k + 1);
      && LinksOk(new_, order_)
      && Doc(new_, order_) == Drop(Doc(line, order)[k := para], k + 1)
      && Labels(new_, order_) == Drop(Labels(line, order), k + 1)
  {
    var new_, order_ := Merged(line, order[k], order[k + 1], para), Drop(order, k + 1);
    DistinctDrop(order, k + 1);
    forall i | 0 <= i < |order_|
      ensures LinkedAt(new_, order_, i)
      ensures new_[order_[i]].para == Drop(Doc(line, order)[k := para], k + 1)[i]
      ensures new_[order_[i]].seqno == Drop(Labels(line, order), k + 1)[i]
    {
      MergedAt(line, order, k, para, i);
    }
  }

  lemma IncreasingDrop(s: seq<nat>, bound: nat, k: nat)
    requires Increasing(s, bound) && k < |s|
    ensures Increasing(Drop(s, k), bound)
  {
    var r := Drop(s, k);
    forall i, j | 0 <= i < j < |r|
      ensures Sequences.Below(r, i, j)
    {
      assert Sequences.Below(s, if i < k then i else i + 1, if j < k then j else j + 1);
    }
  }

  ghost function JoinDoc(doc: seq<Para>, k: nat): (r: seq<Para>)
    requires k + 1 < |doc|
    ensures |r| == |doc| - 1
  {
    Drop(doc[k := Joined(doc[k], doc[k + 1])], k + 1)
  }

  /** In the place of the two paragraphs there is one, which goes on in the next line if the second did. */
  lemma JoinDocAt(doc: seq<Para>, k: nat)
    requires k + 1 < |doc|
    ensures var r, p, q := JoinDoc(doc, k), doc[k], doc[k + 1];
      r[k] == Para(p.text + q.text, q.pad, q.wrapped) && r[..k] == doc[..k] && r[k + 1..] == doc[k + 2..]
  {
  }

  function JoinRow(r: Row, k: nat, len: nat): Row {
    if r.para == k + 1 then r.(para := k, offset := r.offset + len)
    else if r.para > k + 1 then r.(para := r.para - 1)
    else r
  }

  ghost function JoinRows(rows: seq<Row>, k: nat, len: nat): (r: seq<Row>)
    ensures |r| == |rows|
  {
    seq(|rows|, i requires 0 <= i < |rows| => JoinRow(rows[i], k, len))
  }

  lemma JoinSpansOk(spans0: seq<Span>, spans: seq<Span>, rows: seq<Row>, order: seq<Ptr>, k: nat, len: nat)
    requires SpansOk(spans0, rows, order) && Distinct(order) && NULL !in order && k + 1 < |order| && |spans| == |spans0|
    requires forall j :: 0 <= j < |rows| && rows[j].para == k ==> rows[j].offset <= len
    requires forall j :: 0 <= j < |spans| ==> spans[j] == MoveSpan(spans0[j], order[k + 1], order[k], 0, len)
    ensures SpansOk(spans, JoinRows(rows, k, len), Drop(order, k + 1))
  {
    OnlyAt(order, k + 1);
    var rows_, order_ := JoinRows(rows, k, len), Drop(order, k + 1);
    forall i, j | 0 <= i <= j < |rows_|
      ensures RowLe(rows_, i, j)
    {
      assert RowLe(rows, i, j);
    }
    forall j | 0 <= j < |spans|
      ensures SpanAt(spans, rows_, order_, j)
    {
      assert SpanAt(spans0, rows, order, j);
    }
  }

  /** concat_line's list part. */
  method MergeLines(s0: Store, p: Ptr, q: Ptr, ghost order: seq<Ptr>, ghost k: nat) returns (s: Store)
    requires LinksOk(s0.line, order) && LabelsOk(s0.line, order, s0.nextSeqno)
    requires k + 1 < |order| && order[k] == p && order[k + 1] == q && p in s0.line && q in s0.line
    ensures s == s0.(line := s.line)
    ensures LinksOk(s.line, Drop(order, k + 1)) && LabelsOk(s.line, Drop(order, k + 1), s.nextSeqno)
    ensures Doc(s.line, Drop(order, k + 1)) == JoinDoc(Doc(s0.line, order), k)
  {
    OnlyAt(order, k + 1);
    assert LinkedAt(s0.line, order, k + 1);
    assert k + 2 < |order| ==> order[k + 2] in s0.line;
    var para := Joined(s0.line[p].para, s0.line[q].para);
    MergedOk(s0.line, order, k, para);
    IncreasingDrop(Labels(s0.line, order), s0.nextSeqno, k + 1);
    s := s0.(line := Merged(s0.line, p, q, para));
  }

  /** The span part of concat_line: spans of the second line move behind the first one's text. */
  method MergeSpans(s: Store, p: Ptr, q: Ptr, len: nat, ghost rows: seq<Row>, ghost order: seq<Ptr>, ghost k: nat)
    returns (spans: seq<Span>)
    requires LinksOk(s.line, order) && LabelsOk(s.line, order, s.nextSeqno) && SpansOk(s.spans, rows, order)
    requires k + 1 < |order| && order[k] == p && order[k + 1] == q && q in s.line
    requires forall j :: 0 <= j < |rows| && rows[j].para == k ==> rows[j].offset <= len
    ensures |spans| == |s.spans| && SpansOk(spans, JoinRows(rows, k, len), Drop(order, k + 1))
  {
    var needed := false;
    if |s.spans| > 0 {
      EndsOk(s, order, rows);
      needed := NeedsSpanFix(s, q);
    }
    forall j | 0 <= j < |rows| && !needed
      ensures rows[j].para != k + 1
    {
      NoSpanOutside(s, order, rows, k + 1, j);
    }
    OnlyAt(order, k + 1);
    spans := FixSpans(s.spans, needed, q, p, 0, len, rows, order, k + 1);
    JoinSpansOk(s.spans, spans, rows, order, k, len);
  }

  /** The handle part of concat_line: the second line's handles move behind the first one's text,
      and the second line goes. */
  method MergeHandles(hs0: Handles.Memory, p: Ptr, q: Ptr, len: nat, ghost lists0: map<Ptr, seq<Ptr>>)
    returns (hs: Handles.Memory, ghost lists: map<Ptr, seq<Ptr>>)
    requires Handles.Ok(hs0, lists0) && p in lists0 && q in lists0 && p != q && q != NULL
    ensures Handles.Ok(hs, lists) && lists.Keys == lists0.Keys - {q}
    ensures Handles.Moved(hs0, lists0, hs, lists, q, p, 0, len)
  {
    ghost var lists1;
    hs, lists1 := Handles.Rehome(hs0, q, p, 0, len, lists0);
    Handles.RehomeMoves(hs0, lists0, hs, lists1, q, p, 0, len);
    lists := lists1 - {q};
    forall h | Handles.Registered(hs0, lists0, h)
      ensures Handles.Registered(hs, lists, h)
    {
      assert Handles.Registered(hs, lists1, h);
    }
  }

  /** The cells of the second line are now behind those of the first, which may have moved from p
      to p2; each handle still names its cell. */
  ghost predicate HandlesJoined(m0: Handles.Memory, lists0: map<Ptr, seq<Ptr>>, m: Handles.Memory,
                                lists: map<Ptr, seq<Ptr>>, p: Ptr, q: Ptr, p2: Ptr, len: nat) {
    forall h :: Handles.Registered(m0, lists0, h) ==>
      && Handles.Registered(m, lists, h)
      && m.node[h].line == (if m0.node[h].line == p || m0.node[h].line == q then p2 else m0.node[h].line)
      && m.node[h].offset == m0.node[h].offset + (if m0.node[h].line == q then len else 0)
  }

  lemma MovedTwice(m0: Handles.Memory, lists0: map<Ptr, seq<Ptr>>, m1: Handles.Memory, lists1: map<Ptr, seq<Ptr>>,
                   m: Handles.Memory, lists: map<Ptr, seq<Ptr>>, p: Ptr, q: Ptr, p2: Ptr, len: nat)
    requires Handles.Moved(m0, lists0, m1, lists1, p, p2, 0, 0) && Handles.Moved(m1, lists1, m, lists, q, p2, 0, len)
    requires p != q && q != p2
    ensures HandlesJoined(m0, lists0, m, lists, p, q, p2, len)
  {
    forall h | Handles.Registered(m0, lists0, h)
      ensures Handles.Registered(m, lists, h)
    {
      assert Handles.Registered(m1, lists1, h);
    }
  }

  /** concat_line: line k + 1 is appended to line k, which may move to another address. */
  method ConcatLine(s0: Store, p: Ptr, q: Ptr, caps2: nat, moved: bool, ghost v0: View, ghost k: nat)
    returns (s: Store, p2: Ptr, ghost v: View)
    requires Valid(s0, v0) && k + 1 < |v0.order| && v0.order[k] == p && v0.order[k + 1] == q
    requires p in s0.line && q in s0.line && |s0.line[q].para.text| <= caps2
    requires forall j :: 0 <= j < |v0.rows| && v0.rows[j].para == k ==> v0.rows[j].offset <= |s0.line[p].para.text|
    ensures Valid(s, v) && |s.spans| == |s0.spans| && s.nextSeqno == s0.nextSeqno
    ensures p2 == (if moved then s0.brk else p) && v.order == Drop(v0.order[k := p2], k + 1)
    ensures v.rows == JoinRows(v0.rows, k, |s0.line[p].para.text|)
    ensures Doc(s.line, v.order) == JoinDoc(Doc(s0.line, v0.order), k)
    ensures HandlesJoined(s0.hs, v0.lists, s.hs, v.lists, p, q, p2, |s0.line[p].para.text|)
  {
    var len := |s0.line[p].para.text|;
    var s1;
    ghost var v1;
    s1, p2, v1 := ReallocLine(s0, p, len + caps2, moved, v0, k);
    OnlyAt(v0.order, k + 1);
    OnlyAt(v1.order, k + 1);
    assert v1.order[k] == p2 && v1.order[k + 1] == q;
    assert Doc(s1.line, v1.order) == Doc(s0.line, v0.order);
    assert p2 in v1.order && q in v1.order;
    assert p2 in s1.line && q in s1.line;
    var spans := MergeSpans(s1, p2, q, len, v1.rows, v1.order, k);
    var hs;
    ghost var lists;
    hs, lists := MergeHandles(s1.hs, p2, q, len, v1.lists);
    MovedTwice(s0.hs, v0.lists, s1.hs, v1.lists, hs, lists, p, q, p2, len);
    s := MergeLines(s1, p2, q, v1.order, k);
    s := s.(hs := hs, spans := spans);
    v := View(Drop(v1.order, k + 1), lists, JoinRows(v0.rows, k, len));
    forall x
      ensures x in v.order <==> x in v1.order && x != q
    {
      InDrop(v1.order, k + 1, x);
    }
  }

  /** Concatenation undoes splitting: text, attributes and wrap mark of the paragraph, the rows,
      and the order of the other paragraphs are back. */
  lemma ConcatUndoesSplit(doc: seq<Para>, rows: seq<Row>, k: nat, offset: nat)
    requires k < |doc| && offset <= |doc[k].text|
    ensures JoinDoc(SplitDoc(doc, k, offset), k) == doc
    ensures JoinRows(SplitRows(rows, k, offset), k, offset) == rows
  {
    JoinCut(doc[k], offset);
  }

  /** Splitting undoes concatenation, but for the padding and the wrap mark of the first line. */
  lemma SplitUndoesConcat(doc: seq<Para>, rows: seq<Row>, k: nat)
    requires k + 1 < |doc|
    requires forall j :: 0 <= j < |rows| && rows[j].para == k ==> rows[j].offset < |doc[k].text|
    ensures SplitDoc(JoinDoc(doc, k), k, |doc[k].text|) == doc[k := Para(doc[k].text, doc[k + 1].pad, false)]
    ensures SplitRows(JoinRows(rows, k, |doc[k].text|), k, |doc[k].text|) == rows
  {
    CutJoin(doc[k], doc[k + 1]);
  }

  /** A split followed by a concatenation brings every handle back to its cell. */
  lemma HandlesComeBack(m0: Handles.Memory, lists0: map<Ptr, seq<Ptr>>, m1: Handles.Memory,
                        lists1: map<Ptr, seq<Ptr>>, m: Handles.Memory, lists: map<Ptr, seq<Ptr>>, p: Ptr, tail: Ptr,
                        p2: Ptr, offset: nat)
    requires Handles.Moved(m0, lists0, m1, lists1, p, tail, offset, 0 - offset) && p != tail && tail !in lists0
    requires HandlesJoined(m1, lists1, m, lists, p, tail, p2, offset)
    ensures HandlesJoined(m0, lists0, m, lists, p, p, p2, 0)
  {
    forall h | Handles.Registered(m0, lists0, h)
      ensures Handles.Registered(m, lists, h)
    {
      assert Handles.Registered(m1, lists1, h);
    }
  }

  /** A line is cut and its tail is appended again: the document, the rows of the screen and the cells
      that handles name are back; only the line's address may be another one. */
  method SplitAndConcat(s0: Store, p: Ptr, offset: nat, caps2: nat, moved: bool, ghost v0: View, ghost k: nat)
    returns (s: Store, p2: Ptr, ghost v: View)
    requires Valid(s0, v0) && k < |v0.order| && v0.order[k] == p && p in s0.line
    requires offset <= |s0.line[p].para.text| <= offset + caps2
    ensures Valid(s, v) && v.order == v0.order[k := p2] && v.rows == v0.rows && |s.spans| == |s0.spans|
    ensures Doc(s.line, v.order) == Doc(s0.line, v0.order)
    ensures HandlesJoined(s0.hs, v0.lists, s.hs, v.lists, p, p, p2, 0)
  {
    var s1, tail;
    ghost var v1;
    s1, tail, v1 := SplitLine(s0, p, offset, v0, k);
    TailAt(s0, v0, s1, v1, k, offset, tail);
    s, p2, v := ConcatLine(s1, p, tail, caps2, moved, v1, k);
    ConcatUndoesSplit(Doc(s0.line, v0.order), v0.rows, k, offset);
    HandlesComeBack(s0.hs, v0.lists, s1.hs, v1.lists, s.hs, v.lists, p, tail, p2, offset);
    assert Drop(v1.order[k := p2], k + 1) == v0.order[k := p2];
  }

  lemma TailAt(s0: Store, v0: View, s1: Store, v1: View, k: nat, offset: nat, tail: Ptr)
    requires Valid(s0, v0) && Valid(s1, v1) && k < |v0.order| && tail == s0.brk
    requires offset <= |Doc(s0.line, v0.order)[k].text|
    requires v1.order == Splice(v0.order, k + 1, [tail]) && v1.rows == SplitRows(v0.rows, k, offset)
    requires Doc(s1.line, v1.order) == SplitDoc(Doc(s0.line, v0.order), k, offset)
    ensures v1.order[k] == v0.order[k] && v1.order[k + 1] == tail && v0.order[k] in s1.line && tail in s1.line
    ensures v0.order[k] != tail && tail !in v0.lists && tail !in v0.order
    ensures s1.line[v0.order[k]].para == Head(Doc(s0.line, v0.order)[k], offset)
    ensures s1.line[tail].para == Tail(Doc(s0.line, v0.order)[k], offset)
  {
    assert v0.order[k] in v0.order;
    assert LinkedAt(s1.line, v1.order, k) && LinkedAt(s1.line, v1.order, k + 1);
    assert Doc(s1.line, v1.order)[k] == s1.line[v1.order[k]].para;
    assert Doc(s1.line, v1.order)[k + 1] == s1.line[v1.order[k + 1]].para;
  }
}
