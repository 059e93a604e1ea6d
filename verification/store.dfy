/** The paragraph store: a doubly linked list of lines with order labels, the array of screen
    spans into it, and the handles that follow its cells (line.c, line.h). A line is at a
    number, its pointer; what it holds is its Para, which module Lines works out in cells. */
module Stores {
  import opened Cells
  import opened Lines
  import opened Sequences
  import Handles

  type Ptr = nat
  const NULL: Ptr := 0
  const SEQNO_INC := 16

  /** struct line, its handles aside. */
  datatype LineRec = LineRec(next: Ptr, prev: Ptr, seqno: nat, para: Para)

  type Heap = map<Ptr, LineRec>

  /** struct line_span; an unused slot of the span array has no line. */
  datatype Span = Span(line: Ptr, offset: nat, width: nat)

  /** A span by the position of its line in the document. */
  datatype Row = Row(para: nat, offset: nat, width: nat)

  /** struct screen_storage, line_next_seqno, and the next unused address. */
  datatype Store = Store(line: Heap, hs: Handles.Memory, spans: seq<Span>, nextSeqno: nat, brk: Ptr)

  /** What a store stands for: the lines in document order, the handles of each line, and the
      used spans by document position. */
  datatype View = View(order: seq<Ptr>, lists: map<Ptr, seq<Ptr>>, rows: seq<Row>)

  ghost predicate Covers(line: Heap, order: seq<Ptr>) {
    forall i {:trigger order[i] in line} :: 0 <= i < |order| ==> order[i] in line
  }

  /** Line i of the document is linked to its neighbours. */
  ghost predicate LinkedAt(line: Heap, order: seq<Ptr>, i: nat)
    requires i < |order|
  {
    && order[i] in line
    && line[order[i]].prev == (if i == 0 then NULL else order[i - 1])
    && line[order[i]].next == (if i == |order| - 1 then NULL else order[i + 1])
  }

  ghost predicate LinksOk(line: Heap, order: seq<Ptr>) {
    && NULL !in order && Distinct(order) && Covers(line, order)
    && forall i {:trigger LinkedAt(line, order, i)} :: 0 <= i < |order| ==> LinkedAt(line, order, i)
  }

  ghost function Labels(line: Heap, order: seq<Ptr>): (s: seq<nat>)
    requires Covers(line, order)
    ensures |s| == |order|
  {
    seq(|order|, i requires 0 <= i < |order| => line[order[i]].seqno)
  }

  /** Labels strictly increase along the list and stay below the counter. */
  ghost predicate LabelsOk(line: Heap, order: seq<Ptr>, nextSeqno: nat) {
    Covers(line, order) && Increasing(Labels(line, order), nextSeqno)
  }

  /** The document: the paragraphs in list order. */
  ghost function Doc(line: Heap, order: seq<Ptr>): (doc: seq<Para>)
    requires Covers(line, order)
    ensures |doc| == |order|
  {
    seq(|order|, i requires 0 <= i < |order| => line[order[i]].para)
  }

  predicate RowLe(rows: seq<Row>, i: nat, j: nat)
    requires i < |rows| && j < |rows|
  {
    rows[i].para < rows[j].para || (rows[i].para == rows[j].para && rows[i].offset <= rows[j].offset)
  }

  ghost predicate RowsSorted(rows: seq<Row>) {
    forall i, j {:trigger RowLe(rows, i, j)} :: 0 <= i <= j < |rows| ==> RowLe(rows, i, j)
  }

  /** Slot j holds row j, or is unused behind the rows. */
  ghost predicate SpanAt(spans: seq<Span>, rows: seq<Row>, order: seq<Ptr>, j: nat)
    requires j < |spans|
  {
    if j < |rows| then rows[j].para < |order| && spans[j] == Span(order[rows[j].para], rows[j].offset, rows[j].width)
    else spans[j].line == NULL
  }

  /** The used slots come first, in document order. */
  ghost predicate SpansOk(spans: seq<Span>, rows: seq<Row>, order: seq<Ptr>) {
    && |rows| <= |spans| && RowsSorted(rows)
    && forall i {:trigger SpanAt(spans, rows, order, i)} :: 0 <= i < |spans| ==> SpanAt(spans, rows, order, i)
  }

  ghost predicate AddressesOk(s: Store, order: seq<Ptr>, lists: map<Ptr, seq<Ptr>>) {
    && NULL < s.brk && (forall p :: p in order ==> p < s.brk)
    && (forall p :: p in order <==> p in lists)
  }

  ghost predicate Valid(s: Store, v: View) {
    && LinksOk(s.line, v.order) && LabelsOk(s.line, v.order, s.nextSeqno)
    && Handles.Ok(s.hs, v.lists) && SpansOk(s.spans, v.rows, v.order) && AddressesOk(s, v.order, v.lists)
  }

  /** Valid, but for the spans: while the screen is laid out anew they mean nothing. */
  ghost predicate ListsOk(s: Store, order: seq<Ptr>, lists: map<Ptr, seq<Ptr>>) {
    && LinksOk(s.line, order) && LabelsOk(s.line, order, s.nextSeqno)
    && Handles.Ok(s.hs, lists) && AddressesOk(s, order, lists)
  }

  // ----- Labels -----

  /** fixup_lines_seqno: fresh labels from line k to the end of the list. */
  method FixupLinesSeqno(line0: Heap, next0: nat, first: Ptr, ghost order: seq<Ptr>, ghost k: nat)
    returns (line: Heap, nextSeqno: nat)
    requires LinksOk(line0, order) && k <= |order| && first == if k == |order| then NULL else order[k]
    requires IncreasingTo(Labels(line0, order), k, next0)
    ensures nextSeqno == next0 + 16 * (|order| - k)
    ensures LinksOk(line, order) && Doc(line, order) == Doc(line0, order)
    ensures LabelsOk(line, order, nextSeqno)
    ensures forall i :: 0 <= i < |order| ==>
      Labels(line, order)[i] == if i < k then Labels(line0, order)[i] else next0 + 16 * (i - k)
  {
    line, nextSeqno := line0, next0;
    var p := first;
    ghost var n := k;
    while p != NULL
      invariant k <= n <= |order| && p == if n == |order| then NULL else order[n]
      invariant nextSeqno == next0 + 16 * (n - k)
      invariant LinksOk(line, order) && Doc(line, order) == Doc(line0, order)
      invariant forall i :: 0 <= i < |order| ==>
        Labels(line, order)[i] == if k <= i < n then next0 + 16 * (i - k) else Labels(line0, order)[i]
      decreases |order| - n
    {
      Labelled(line, order, n, nextSeqno);
      line := line[p := line[p].(seqno := nextSeqno)];
      nextSeqno := nextSeqno + SEQNO_INC;
      p := line[p].next;
      n := n + 1;
    }
    FreshLabels(Labels(line0, order), Labels(line, order), k, next0);
  }

  /** Setting one label changes nothing else. */
  lemma Labelled(line: Heap, order: seq<Ptr>, n: nat, mark: nat)
    requires LinksOk(line, order) && n < |order| && order[n] in line
    ensures var new_ := line[order[n] := line[order[n]].(seqno := mark)];
      && LinksOk(new_, order) && Doc(new_, order) == Doc(line, order)
      && Labels(new_, order) == Labels(line, order)[n := mark]
      && new_[order[n]].next == if n == |order| - 1 then NULL else order[n + 1]
  {
    OnlyAt(order, n);
    assert LinkedAt(line, order, n);
    var new_ := line[order[n] := line[order[n]].(seqno := mark)];
    forall i | 0 <= i < |order|
      ensures LinkedAt(new_, order, i)
    {
      assert LinkedAt(line, order, i);
    }
  }

  lemma FreshLabels(labels0: seq<nat>, labels: seq<nat>, k: nat, base: nat)
    requires k <= |labels0| == |labels| && IncreasingTo(labels0, k, base)
    requires forall i :: 0 <= i < |labels| ==> labels[i] == if i < k then labels0[i] else base + 16 * (i - k)
    ensures Increasing(labels, base + 16 * (|labels| - k))
  {
    forall i, j | 0 <= i < j < |labels|
      ensures Below(labels, i, j)
    {
      assert j < k ==> Below(labels0, i, j);
    }
  }

  /** need_fix_span_array: whether some span may refer to a line, judged by labels alone. */
  predicate NeedsSpanFix(s: Store, p: Ptr)
    requires p in s.line
    requires |s.spans| > 0 ==> EndOk(s, s.spans[0].line) && EndOk(s, s.spans[|s.spans| - 1].line)
  {
    && |s.spans| > 0
    && (s.spans[0].line == NULL || s.line[s.spans[0].line].seqno <= s.line[p].seqno)
    && (s.spans[|s.spans| - 1].line == NULL || s.line[p].seqno <= s.line[s.spans[|s.spans| - 1].line].seqno)
  }

  predicate EndOk(s: Store, p: Ptr) { p == NULL || p in s.line }

  /** Labels decide document order, which is what line_span_cmp relies on. */
  lemma LabelOrder(line: Heap, order: seq<Ptr>, nextSeqno: nat, i: nat, j: nat)
    requires LabelsOk(line, order, nextSeqno) && i < |order| && j < |order|
    ensures line[order[i]].seqno < line[order[j]].seqno <==> i < j
    ensures line[order[i]].seqno == line[order[j]].seqno <==> i == j
  {
    IncreasingAt(Labels(line, order), nextSeqno, i, j);
    assert Labels(line, order)[i] == line[order[i]].seqno && Labels(line, order)[j] == line[order[j]].seqno;
  }

  /** If the labels rule a line out, no span refers to it. */
  lemma NoSpanOutside(s: Store, order: seq<Ptr>, rows: seq<Row>, k: nat, i: nat)
    requires LabelsOk(s.line, order, s.nextSeqno) && SpansOk(s.spans, rows, order) && Distinct(order) && NULL !in order
    requires k < |order| && order[k] in s.line && i < |rows|
    requires |s.spans| > 0 ==> EndOk(s, s.spans[0].line) && EndOk(s, s.spans[|s.spans| - 1].line)
    requires !NeedsSpanFix(s, order[k])
    ensures rows[i].para != k
  {
    var last := |s.spans| - 1;
    assert SpanAt(s.spans, rows, order, 0) && SpanAt(s.spans, rows, order, i) && SpanAt(s.spans, rows, order, last);
    LabelOrder(s.line, order, s.nextSeqno, rows[0].para, k);
    assert RowLe(rows, 0, i);
    if rows[0].para <= k {
      assert last < |rows| && s.spans[last].line != NULL;
      LabelOrder(s.line, order, s.nextSeqno, k, rows[last].para);
      assert RowLe(rows, i, last);
    }
  }

  // ----- Splitting: what it does to the document, the spans and the list -----

  ghost function SplitDoc(doc: seq<Para>, k: nat, offset: nat): (r: seq<Para>)
    requires k < |doc| && offset <= |doc[k].text|
    ensures |r| == |doc| + 1
  {
    Splice(doc[k := Head(doc[k], offset)], k + 1, [Tail(doc[k], offset)])
  }

  /** In the place of the paragraph there are its two parts; only the last one may go on in the next line. */
  lemma SplitDocAt(doc: seq<Para>, k: nat, offset: nat)
    requires k < |doc| && offset <= |doc[k].text|
    ensures var r, p := SplitDoc(doc, k, offset), doc[k];
      && r[k] == Para(p.text[..offset], p.pad, false) && r[k + 1] == Para(p.text[offset..], p.pad, p.wrapped)
      && r[..k] == doc[..k] && r[k + 2..] == doc[k + 1..]
  {
  }

  function SplitRow(r: Row, k: nat, offset: nat): Row {
    if r.para > k then r.(para := r.para + 1)
    else if r.para == k && r.offset >= offset then r.(para := k + 1, offset := r.offset - offset)
    else r
  }

  ghost function SplitRows(rows: seq<Row>, k: nat, offset: nat): (r: seq<Row>)
    ensures |r| == |rows|
  {
    seq(|rows|, i requires 0 <= i < |rows| => SplitRow(rows[i], k, offset))
  }

  lemma SplitRowsSorted(rows: seq<Row>, k: nat, offset: nat)
    requires RowsSorted(rows)
    ensures RowsSorted(SplitRows(rows, k, offset))
  {
    forall i, j | 0 <= i <= j < |rows|
      ensures RowLe(SplitRows(rows, k, offset), i, j)
    {
      assert RowLe(rows, i, j);
    }
  }

  /** Linking a line in behind src; src keeps the given head. */
  function LinkBehind(line: Heap, src: Ptr, head: Para, tail: Ptr, tailPara: Para, seqno: nat): Heap
    requires src in line && (line[src].next != NULL ==> line[src].next in line)
  {
    var next := line[src].next;
    var l1 := line[src := line[src].(next := tail, para := head)];
    var l2 := if next == NULL then l1 else l1[next := l1[next].(prev := tail)];
    l2[tail := LineRec(next, src, seqno, tailPara)]
  }

  /** Line i of a list with this document and these labels. */
  ghost predicate LineIs(line: Heap, order: seq<Ptr>, doc: seq<Para>, labels: seq<nat>, i: nat)
    requires i < |order| == |doc| == |labels|
  {
    LinkedAt(line, order, i) && line[order[i]].para == doc[i] && line[order[i]].seqno == labels[i]
  }

  lemma ListIs(line: Heap, order: seq<Ptr>, doc: seq<Para>, labels: seq<nat>)
    requires NULL !in order && Distinct(order) && |order| == |doc| == |labels|
    requires forall i {:trigger LineIs(line, order, doc, labels, i)} :: 0 <= i < |order| ==>
      LineIs(line, order, doc, labels, i)
    ensures LinksOk(line, order) && Doc(line, order) == doc && Labels(line, order) == labels
  {
    forall i | 0 <= i < |order|
      ensures LinkedAt(line, order, i) && line[order[i]].para == doc[i] && line[order[i]].seqno == labels[i]
    {
      assert LineIs(line, order, doc, labels, i);
    }
  }

  lemma LinkedBehindAt(line: Heap, order: seq<Ptr>, k: nat, head: Para, tail: Ptr, tailPara: Para, seqno: nat, i: nat)
    requires LinksOk(line, order) && k < |order| && tail !in order && tail != NULL
    requires order[k] in line && (line[order[k]].next != NULL ==> line[order[k]].next in line)
    requires i <= |order|
    ensures LineIs(LinkBehind(line, order[k], head, tail, tailPara, seqno), Splice(order, k + 1, [tail]),
                   Splice(Doc(line, order)[k := head], k + 1, [tailPara]),
                   Splice(Labels(line, order), k + 1, [seqno]), i)
  {
    OnlyAt(order, k);
    assert LinkedAt(line, order, k);
    if k + 1 < |order| {
      OnlyAt(order, k + 1);
    }
    if i != k + 1 {
      assert LinkedAt(line, order, if i <= k then i else i - 1);
    }
  }

  lemma LinkedBehind(line: Heap, order: seq<Ptr>, k: nat, head: Para, tail: Ptr, tailPara: Para, seqno: nat)
    requires LinksOk(line, order) && k < |order| && tail !in order && tail != NULL
    requires order[k] in line && (line[order[k]].next != NULL ==> line[order[k]].next in line)
    ensures var new_, order_ := LinkBehind(line, order[k], head, tail, tailPara, seqno), Splice(order, k + 1, [tail]);
      && LinksOk(new_, order_)
      && Doc(new_, order_) == Splice(Doc(line, order)[k := head], k + 1, [tailPara])
      && Labels(new_, order_) == Splice(Labels(line, order), k + 1, [seqno])
  {
    var new_, order_ := LinkBehind(line, order[k], head, tail, tailPara, seqno), Splice(order, k + 1, [tail]);
    var doc := Splice(Doc(line, order)[k := head], k + 1, [tailPara]);
    var labels := Splice(Labels(line, order), k + 1, [seqno]);
    DistinctSplice(order, k + 1, [tail]);
    InSplice(order, k + 1, [tail]);
    forall i | 0 <= i < |order_|
      ensures LineIs(new_, order_, doc, labels, i)
    {
      LinkedBehindAt(line, order, k, head, tail, tailPara, seqno, i);
    }
    ListIs(new_, order_, doc, labels);
  }

  /** The label split_line gives the tail: the midpoint, or a new one when there is no room
      or no next line; in the former case the lines behind must be relabelled. */
  method TailLabel(line: Heap, next0: nat, src: Ptr, ghost order: seq<Ptr>, ghost k: nat)
    returns (seqno: nat, needFixup: bool, nextSeqno: nat)
    requires LinksOk(line, order) && LabelsOk(line, order, next0) && k < |order| && order[k] == src
    ensures nextSeqno >= next0 && (needFixup ==> k + 1 < |order|)
    ensures var labels := Splice(Labels(line, order), k + 1, [seqno]);
      if needFixup then IncreasingTo(labels, k + 2, nextSeqno) else Increasing(labels, nextSeqno)
  {
    nextSeqno := next0;
    assert LinkedAt(line, order, k);
    if k + 1 < |order| {
      assert LinkedAt(line, order, k + 1);
      LabelOrder(line, order, next0, k, k + 1);
    }
    var next := line[src].next;
    var dist := if next != NULL then line[next].seqno - line[src].seqno else 0;
    needFixup := next != NULL && dist < 2;
    if dist < 2 {
      seqno := nextSeqno;
      nextSeqno := nextSeqno + SEQNO_INC;
    } else {
      seqno := line[src].seqno + dist / 2;
    }
    assert Labels(line, order)[k] < next0 && (k + 1 < |order| ==> Labels(line, order)[k + 1] < next0);
    LabelInserted(Labels(line, order), next0, k, seqno, nextSeqno, needFixup);
  }

  lemma LabelInserted(labels: seq<nat>, next0: nat, k: nat, seqno: nat, nextSeqno: nat, needFixup: bool)
    requires Increasing(labels, next0) && k < |labels| && labels[k] < seqno < nextSeqno && next0 <= nextSeqno
    requires !needFixup && k + 1 < |labels| ==> seqno < labels[k + 1]
    ensures var new_ := Splice(labels, k + 1, [seqno]);
      if needFixup then IncreasingTo(new_, k + 2, nextSeqno) else Increasing(new_, nextSeqno)
  {
    var new_ := Splice(labels, k + 1, [seqno]);
    forall i, j | 0 <= i < j < |new_| && (j < k + 2 || !needFixup)
      ensures Below(new_, i, j)
    {
      var i0, j0 := if i <= k then i else i - 1, if j <= k then j else j - 1;
      IncreasingAt(labels, next0, i0, j0);
      IncreasingAt(labels, next0, i0, k);
      if k + 1 < |labels| {
        IncreasingAt(labels, next0, k + 1, j0);
      }
    }
  }

  /** A span of line p at or behind atLeast, moved to line q. */
  function MoveSpan(span: Span, p: Ptr, q: Ptr, atLeast: nat, shift: int): Span
    requires atLeast + shift >= 0
  {
    if span.line == p && span.offset >= atLeast then Span(q, span.offset + shift, span.width) else span
  }

  /** The loops over the span array (for_span_array_line): spans of line p at or behind atLeast
      move to line q. Only the one run of spans of p is visited, and nothing if the labels
      ruled p out. */
  method FixSpans(spans0: seq<Span>, needed: bool, p: Ptr, q: Ptr, atLeast: nat, shift: int, ghost rows: seq<Row>,
                  ghost order: seq<Ptr>, ghost k: nat) returns (spans: seq<Span>)
    requires SpansOk(spans0, rows, order) && Distinct(order) && NULL !in order
    requires k < |order| && order[k] == p && q != p && atLeast + shift >= 0
    requires !needed ==> forall j :: 0 <= j < |rows| ==> rows[j].para != k
    ensures |spans| == |spans0|
    ensures forall j :: 0 <= j < |spans| ==> spans[j] == MoveSpan(spans0[j], p, q, atLeast, shift)
  {
    spans := spans0;
    OnlyAt(order, k);
    if needed {
      var i := 0;
      while i < |spans| && spans[i].line != p
        invariant 0 <= i <= |spans| && forall j :: 0 <= j < i ==> spans[j].line != p
      {
        i := i + 1;
      }
      ghost var i0 := i;
      while i < |spans| && spans[i].line == p
        invariant i0 <= i <= |spans| == |spans0|
        invariant forall j :: i <= j < |spans| ==> spans[j] == spans0[j]
        invariant forall j :: 0 <= j < i ==> spans[j] == MoveSpan(spans0[j], p, q, atLeast, shift)
        invariant i0 < i ==> i <= |rows| && rows[i - 1].para == k
        invariant i0 == i && i < |spans| ==> spans[i].line == p
      {
        assert SpanAt(spans0, rows, order, i);
        if spans[i].offset >= atLeast {
          spans := spans[i := Span(q, spans[i].offset + shift, spans[i].width)];
        }
        i := i + 1;
      }
      forall j | i <= j < |spans|
        ensures spans0[j].line != p
      {
        assert SpanAt(spans0, rows, order, j) && SpanAt(spans0, rows, order, i);
        if j < |rows| {
          assert RowLe(rows, i - 1, i) && RowLe(rows, i, j);
        }
      }
    } else {
      forall j | 0 <= j < |spans|
        ensures spans[j].line != p
      {
        assert SpanAt(spans0, rows, order, j);
      }
    }
  }

  /** Row positions after a line was put in behind line k. */
  ghost function ShiftRows(rows: seq<Row>, k: nat): (r: seq<Row>)
    ensures |r| == |rows|
  {
    seq(|rows|, i requires 0 <= i < |rows| => if rows[i].para > k then rows[i].(para := rows[i].para + 1) else rows[i])
  }

  lemma EndsOk(s: Store, order: seq<Ptr>, rows: seq<Row>)
    requires Covers(s.line, order) && SpansOk(s.spans, rows, order) && |s.spans| > 0
    ensures EndOk(s, s.spans[0].line) && EndOk(s, s.spans[|s.spans| - 1].line)
  {
    var last := |s.spans| - 1;
    assert SpanAt(s.spans, rows, order, 0) && SpanAt(s.spans, rows, order, last);
    assert |rows| > 0 ==> order[rows[0].para] in s.line;
    assert last < |rows| ==> order[rows[last].para] in s.line;
  }

  /** Splitting where no document line is linked yet at tail. */
  method SplitList(s0: Store, src: Ptr, offset: nat, ghost order: seq<Ptr>, ghost k: nat) returns (s: Store, tail: Ptr)
    requires LinksOk(s0.line, order) && LabelsOk(s0.line, order, s0.nextSeqno)
    requires k < |order| && order[k] == src && src in s0.line && offset <= |s0.line[src].para.text|
    requires NULL < s0.brk && forall p :: p in order ==> p < s0.brk
    ensures var order_ := Splice(order, k + 1, [tail]);
      && LinksOk(s.line, order_) && LabelsOk(s.line, order_, s.nextSeqno)
      && Doc(s.line, order_) == SplitDoc(Doc(s0.line, order), k, offset)
    ensures tail == s0.brk && s.brk == tail + 1 && s.hs == s0.hs && s.spans == s0.spans
  {
    var seqno, needFixup, nextSeqno := TailLabel(s0.line, s0.nextSeqno, src, order, k);
    tail := s0.brk;
    assert LinkedAt(s0.line, order, k);
    assert k + 1 < |order| ==> order[k + 1] in s0.line;
    LinkedBehind(s0.line, order, k, Head(s0.line[src].para, offset), tail, Tail(s0.line[src].para, offset), seqno);
    ghost var order_ := Splice(order, k + 1, [tail]);
    var line := LinkBehind(s0.line, src, Head(s0.line[src].para, offset), tail, Tail(s0.line[src].para, offset), seqno);
    if needFixup {
      assert LinkedAt(line, order_, k + 1);
      line, nextSeqno := FixupLinesSeqno(line, nextSeqno, line[tail].next, order_, k + 2);
    }
    s := s0.(line := line, nextSeqno := nextSeqno, brk := tail + 1);
  }

  /** The span part of split_line: spans at or behind the cut move to the tail. */
  method SplitSpans(s: Store, src: Ptr, tail: Ptr, offset: nat, ghost rows: seq<Row>, ghost order: seq<Ptr>,
                    ghost k: nat)
    returns (spans: seq<Span>)
    requires SpansOk(s.spans, rows, order) && Distinct(order) && NULL !in order && NULL != tail
    requires k < |order| && order[k] == src && src in s.line && tail !in order
    requires LinksOk(s.line, Splice(order, k + 1, [tail]))
    requires LabelsOk(s.line, Splice(order, k + 1, [tail]), s.nextSeqno)
    ensures |spans| == |s.spans| && SpansOk(spans, SplitRows(rows, k, offset), Splice(order, k + 1, [tail]))
  {
    TailLinkedIn(s.spans, rows, order, k, tail);
    ghost var order_ := Splice(order, k + 1, [tail]);
    var needed := false;
    if |s.spans| > 0 {
      EndsOk(s, order_, ShiftRows(rows, k));
      needed := NeedsSpanFix(s, src);
    }
    forall j | 0 <= j < |rows| && !needed
      ensures rows[j].para != k
    {
      NoSpanOutside(s, order_, ShiftRows(rows, k), k, j);
    }
    OnlyAt(order, k);
    spans := FixSpans(s.spans, needed, src, tail, offset, 0 - offset, rows, order, k);
    SplitSpansOk(s.spans, spans, rows, order, k, offset, tail);
  }

  /** The handle part of split_line: tail is a new line, and takes the handles at or behind the cut. */
  method MoveToNew(hs0: Handles.Memory, src: Ptr, tail: Ptr, offset: nat, ghost lists0: map<Ptr, seq<Ptr>>)
    returns (hs: Handles.Memory, ghost lists: map<Ptr, seq<Ptr>>)
    requires Handles.Ok(hs0, lists0) && src in lists0 && tail !in lists0 && src != NULL
    ensures Handles.Ok(hs, lists) && lists.Keys == lists0.Keys + {tail}
    ensures Handles.Moved(hs0, lists0, hs, lists, src, tail, offset, 0 - offset)
  {
    Handles.NewLine(hs0, lists0, tail);
    var hs1 := hs0.SetFirst(tail, NULL);
    ghost var lists1 := lists0[tail := []];
    hs, lists := Handles.Rehome(hs1, src, tail, offset, 0 - offset, lists1);
    Handles.RehomeMoves(hs1, lists1, hs, lists, src, tail, offset, 0 - offset);
    forall h | Handles.Registered(hs0, lists0, h)
      ensures Handles.Registered(hs1, lists1, h)
    {
      assert hs0.node[h].line != tail;
    }
  }

  /** split_line: cut line k at offset; cells, spans and handles behind the cut go to the tail. */
  method SplitLine(s0: Store, src: Ptr, offset: nat, ghost v0: View, ghost k: nat)
    returns (s: Store, tail: Ptr, ghost v: View)
    requires Valid(s0, v0) && k < |v0.order| && v0.order[k] == src && src in s0.line
    requires offset <= |s0.line[src].para.text|
    ensures Valid(s, v) && tail == s0.brk && |s.spans| == |s0.spans|
    ensures v.order == Splice(v0.order, k + 1, [tail]) && v.rows == SplitRows(v0.rows, k, offset)
    ensures Doc(s.line, v.order) == SplitDoc(Doc(s0.line, v0.order), k, offset)
    ensures Handles.Moved(s0.hs, v0.lists, s.hs, v.lists, src, tail, offset, 0 - offset)
  {
    s, tail := SplitList(s0, src, offset, v0.order, k);
    ghost var order := Splice(v0.order, k + 1, [tail]);
    assert src in v0.order;
    var hs;
    ghost var lists;
    hs, lists := MoveToNew(s.hs, src, tail, offset, v0.lists);
    assert src in s.line by { assert LinkedAt(s.line, order, k); }
    var spans := SplitSpans(s, src, tail, offset, v0.rows, v0.order, k);
    s := s.(hs := hs, spans := spans);
    v := View(order, lists, SplitRows(v0.rows, k, offset));
    InSplice(v0.order, k + 1, [tail]);
  }

  lemma SplitSpansOk(spans0: seq<Span>, spans: seq<Span>, rows: seq<Row>, order: seq<Ptr>, k: nat, offset: nat,
                     tail: Ptr)
    requires SpansOk(spans0, rows, order) && Distinct(order) && NULL !in order && k < |order| && |spans| == |spans0|
    requires forall j :: 0 <= j < |spans| ==> spans[j] == MoveSpan(spans0[j], order[k], tail, offset, 0 - offset)
    ensures SpansOk(spans, SplitRows(rows, k, offset), Splice(order, k + 1, [tail]))
  {
    SplitRowsSorted(rows, k, offset);
    OnlyAt(order, k);
    var rows_, order_ := SplitRows(rows, k, offset), Splice(order, k + 1, [tail]);
    forall j | 0 <= j < |spans|
      ensures SpanAt(spans, rows_, order_, j)
    {
      assert SpanAt(spans0, rows, order, j);
    }
  }

  lemma TailLinkedIn(spans: seq<Span>, rows: seq<Row>, order: seq<Ptr>, k: nat, tail: Ptr)
    requires SpansOk(spans, rows, order) && k < |order|
    ensures SpansOk(spans, ShiftRows(rows, k), Splice(order, k + 1, [tail]))
  {
    forall i, j | 0 <= i <= j < |rows|
      ensures RowLe(ShiftRows(rows, k), i, j)
    {
      assert RowLe(rows, i, j);
    }
    var rows_, order_ := ShiftRows(rows, k), Splice(order, k + 1, [tail]);
    forall i | 0 <= i < |spans|
      ensures SpanAt(spans, rows_, order_, i)
    {
      assert SpanAt(spans, rows, order, i);
    }
  }
}
