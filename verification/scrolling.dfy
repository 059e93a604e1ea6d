/** The screen: the span array over the paragraph store, and scrolling (screen.c). */
module Scrolling {
  import opened Cells
  import opened Lines
  import opened Rotation
  import opened ScreenRows
  import opened Sequences
  import opened Stores
  import Concats
  import Handles

  /** The handle of the top of the history is at the start of the first line. */
  ghost predicate TopOk(hs: Handles.Memory, v: View, top: Ptr) {
    && |v.order| > 0 && Handles.Registered(hs, v.lists, top) && top != NULL
    && hs.node[top].line == v.order[0] && hs.node[top].offset == 0
  }

  /** What validate_main_screen and validate_altscreen check, and more: the store is valid and all
      rows of the screen are shown, which is where the document ends. */
  ghost predicate SpansFit(st: Store, v: View, width: nat) {
    Stores.Valid(st, v) && |st.spans| == |v.rows| && RowsOk(v.rows, Doc(st.line, v.order), width)
  }

  ghost predicate ScreenOk(st: Store, v: View, width: nat, top: Ptr) {
    SpansFit(st, v, width) && TopOk(st.hs, v, top)
  }

  /** Row y by what the span array says. */
  lemma SpanOfRow(st: Store, v: View, width: nat, top: Ptr, y: nat)
    requires ScreenOk(st, v, width, top) && y < |v.rows|
    ensures v.rows[y].para < |v.order| && v.order[v.rows[y].para] in st.line
    ensures st.spans[y] == Span(v.order[v.rows[y].para], v.rows[y].offset, v.rows[y].width)
    ensures RowFits(v.rows[y], Doc(st.line, v.order), width)
    ensures st.line[st.spans[y].line].para == Doc(st.line, v.order)[v.rows[y].para]
  {
    assert SpanAt(st.spans, v.rows, v.order, y);
    assert RowFits(v.rows[y], Doc(st.line, v.order), width);
  }

  /** Two rows are of the same line exactly if their spans are. */
  lemma SameLine(st: Store, v: View, width: nat, top: Ptr, y: nat, z: nat)
    requires ScreenOk(st, v, width, top) && y < |v.rows| && z < |v.rows|
    ensures st.spans[y].line == st.spans[z].line <==> v.rows[y].para == v.rows[z].para
  {
    SpanOfRow(st, v, width, top, y);
    SpanOfRow(st, v, width, top, z);
    OnlyAt(v.order, v.rows[y].para);
  }

  /** What split_line does to the screen when it cuts at the start of row y. */
  lemma SplitScreen(st0: Store, v0: View, st: Store, v: View, width: nat, top: Ptr, y: nat, tail: Ptr)
    requires ScreenOk(st0, v0, width, top) && Stores.Valid(st, v) && |st.spans| == |st0.spans| && y < |v0.rows|
    requires v0.rows[y].offset > 0 && v0.rows[y].para < |v0.order|
    requires v0.rows[y].offset <= |Doc(st0.line, v0.order)[v0.rows[y].para].text|
    requires v.order == Splice(v0.order, v0.rows[y].para + 1, [tail])
    requires v.rows == SplitRows(v0.rows, v0.rows[y].para, v0.rows[y].offset)
    requires Doc(st.line, v.order) == SplitDoc(Doc(st0.line, v0.order), v0.rows[y].para, v0.rows[y].offset)
    requires Handles.Moved(st0.hs, v0.lists, st.hs, v.lists, v0.order[v0.rows[y].para], tail, v0.rows[y].offset,
                           0 - v0.rows[y].offset)
    ensures ScreenOk(st, v, width, top)
    ensures SameScreen(v0.rows, Doc(st0.line, v0.order), v.rows, Doc(st.line, v.order), width)
  {
    var doc0 := Doc(st0.line, v0.order);
    SplitKeepsRows(v0.rows, doc0, width, y);
    assert Handles.Registered(st0.hs, v0.lists, top);
    assert v.order[0] == v0.order[0];
  }

  /** Line k gets a new value, and the span in slot y another width. */
  method SetLine(st0: Store, p: Ptr, para: Para, y: nat, width: nat, ghost v0: View, ghost k: nat)
    returns (st: Store, ghost v: View)
    requires Stores.Valid(st0, v0) && k < |v0.order| && v0.order[k] == p && p in st0.line && y < |v0.rows|
    ensures Stores.Valid(st, v) && v == v0.(rows := v0.rows[y := v0.rows[y].(width := width)])
    ensures Doc(st.line, v.order) == Doc(st0.line, v0.order)[k := para]
    ensures st == st0.(line := st.line, spans := st.spans) && |st.spans| == |st0.spans|
  {
    Concats.Rewritten(st0.line, v0.order, k, para);
    st := st0.(line := st0.line[p := st0.line[p].(para := para)]);
    assert SpanAt(st0.spans, v0.rows, v0.order, y);
    st := st.(spans := st.spans[y := st.spans[y].(width := width)]);
    v := v0.(rows := v0.rows[y := v0.rows[y].(width := width)]);
    Resized(st0.spans, v0.rows, v0.order, y, width);
  }

  lemma Resized(spans: seq<Span>, rows: seq<Row>, order: seq<Ptr>, y: nat, width: nat)
    requires SpansOk(spans, rows, order) && y < |rows|
    ensures SpansOk(spans[y := spans[y].(width := width)], rows[y := rows[y].(width := width)], order)
  {
    var spans_, rows_ := spans[y := spans[y].(width := width)], rows[y := rows[y].(width := width)];
    forall i, j | 0 <= i <= j < |rows_|
      ensures RowLe(rows_, i, j)
    {
      assert RowLe(rows, i, j);
    }
    forall j | 0 <= j < |spans_|
      ensures SpanAt(spans_, rows_, order, j)
    {
      assert SpanAt(spans, rows, order, j);
    }
  }

  /** Row y is made blank, and so is its line, which the row has to itself. */
  method ClearLine(st0: Store, y: nat, attr: Attr, ghost width: nat, ghost top: Ptr, ghost v0: View)
    returns (st: Store, ghost v: View)
    requires ScreenOk(st0, v0, width, top) && y < |v0.rows| && v0.rows[y].offset == 0
    requires y + 1 < |v0.rows| ==> v0.rows[y + 1].offset == 0
    requires st0.spans[y].line in st0.line
    ensures ScreenOk(st, v, width, top) && v0.rows[y].para < |v0.order|
    ensures v.rows == v0.rows[y := Row(v0.rows[y].para, 0, 0)]
    ensures var doc0, k := Doc(st0.line, v0.order), v0.rows[y].para;
      Doc(st.line, v.order) == doc0[k := Para([], attr, doc0[k].wrapped)]
  {
    ghost var k, doc0 := v0.rows[y].para, Doc(st0.line, v0.order);
    SpanOfRow(st0, v0, width, top, y);
    var p;
    st, p, v := Concats.ReallocLine(st0, st0.spans[y].line, 0, false, v0, k);
    assert st.line[p].para == Doc(st.line, v.order)[k];
    st, v := SetLine(st, p, st.line[p].para.(pad := attr), y, 0, v, k);
    assert Doc(st.line, v.order) == doc0[k := Para([], attr, doc0[k].wrapped)];
    ClearKeepsRows(v0.rows, doc0, width, y, Para([], attr, doc0[k].wrapped));
    assert Handles.Registered(st0.hs, v0.lists, top);
  }

  /** The line of row y is split where the row starts. */
  method SplitAt(st0: Store, y: nat, ghost width: nat, ghost top: Ptr, ghost v0: View)
    returns (st: Store, ghost v: View)
    requires ScreenOk(st0, v0, width, top) && y < |st0.spans| && v0.rows[y].offset > 0
    ensures ScreenOk(st, v, width, top)
    ensures SameScreen(v0.rows, Doc(st0.line, v0.order), v.rows, Doc(st.line, v.order), width)
    ensures |v.rows| == |v0.rows| && v.rows[y].offset == 0
    ensures Doc(st.line, v.order) == SplitDoc(Doc(st0.line, v0.order), v0.rows[y].para, v0.rows[y].offset)
  {
    SpanOfRow(st0, v0, width, top, y);
    var tail;
    st, tail, v := SplitLine(st0, st0.spans[y].line, st0.spans[y].offset, v0, v0.rows[y].para);
    SplitScreen(st0, v0, st, v, width, top, y, tail);
  }

  /** screen_split_line_before. */
  method SplitBefore(st0: Store, y: nat, ghost width: nat, ghost top: Ptr, ghost v0: View)
    returns (st: Store, ghost v: View)
    requires ScreenOk(st0, v0, width, top) && y < |st0.spans|
    ensures ScreenOk(st, v, width, top)
    ensures SameScreen(v0.rows, Doc(st0.line, v0.order), v.rows, Doc(st.line, v.order), width)
    ensures |v.rows| == |v0.rows| && v.rows[y].offset == 0
  {
    st, v := st0, v0;
    SpanOfRow(st0, v0, width, top, y);
    SameAsBefore(st0, v0, width, top);
    if st0.spans[y].offset > 0 {
      st, v := SplitAt(st0, y, width, top, v0);
    }
  }

  /** screen_split_line_after. */
  method SplitAfter(st0: Store, y: nat, ghost width: nat, ghost top: Ptr, ghost v0: View)
    returns (st: Store, ghost v: View)
    requires ScreenOk(st0, v0, width, top) && y < |st0.spans|
    ensures ScreenOk(st, v, width, top)
    ensures SameScreen(v0.rows, Doc(st0.line, v0.order), v.rows, Doc(st.line, v.order), width)
    ensures |v.rows| == |v0.rows|
    ensures EndsLine(v.rows, y)
  {
    st, v := st0, v0;
    SameAsBefore(st0, v0, width, top);
    if y + 1 < |st0.spans| {
      SameLine(st0, v0, width, top, y, y + 1);
      assert Follows(v0.rows, y + 1);
      if st0.spans[y].line == st0.spans[y + 1].line {
        SpanOfRow(st0, v0, width, top, y);
        SpanOfRow(st0, v0, width, top, y + 1);
        assert st0.spans[y].offset + st0.spans[y].width == st0.spans[y + 1].offset;
        st, v := SplitAt(st0, y + 1, width, top, v0);
      }
    }
  }

  lemma SameAsBefore(st: Store, v: View, width: nat, top: Ptr)
    requires ScreenOk(st, v, width, top)
    ensures SameScreen(v.rows, Doc(st.line, v.order), v.rows, Doc(st.line, v.order), width)
  {
    forall j | 0 <= j < |v.rows|
      ensures ShowsAs(v.rows, Doc(st.line, v.order), j, v.rows, Doc(st.line, v.order), j, width)
    {
      assert RowFits(v.rows[j], Doc(st.line, v.order), width);
    }
  }

  /** One row of screen_erase_fast. */
  method EraseRow(st1: Store, i: nat, attr: Attr, ghost width: nat, ghost top: Ptr, ghost rows0: seq<Row>,
                  ghost doc0: seq<Para>, ghost v1: View, ghost ys: nat)
    returns (st: Store, ghost v: View)
    requires ScreenOk(st1, v1, width, top)
    requires ErasedTo(rows0, doc0, v1.rows, Doc(st1.line, v1.order), width, attr, ys, i)
    requires ys <= i < |st1.spans|
    ensures ScreenOk(st, v, width, top) && ErasedTo(rows0, doc0, v.rows, Doc(st.line, v.order), width, attr, ys, i + 1)
  {
    ghost var v2;
    var st2;
    st2, v2 := SplitAfter(st1, i, width, top, v1);
    SpanOfRow(st2, v2, width, top, i);
    st, v := ClearLine(st2, i, attr, width, top, v2);
    ghost var doc2 := Doc(st2.line, v2.order);
    ErasedStep(rows0, doc0, v1.rows, Doc(st1.line, v1.order), v2.rows, doc2, width, ys, i,
               Para([], attr, doc2[v2.rows[i].para].wrapped));
  }

  /** screen_erase_fast: rows from ys to ye - 1 become blank lines. */
  method EraseFast(st0: Store, ys: nat, ye: nat, attr: Attr, ghost width: nat, ghost top: Ptr, ghost v0: View)
    returns (st: Store, ghost v: View)
    requires ScreenOk(st0, v0, width, top) && ys <= ye <= |st0.spans| && ys < |st0.spans|
    ensures ScreenOk(st, v, width, top)
    ensures ErasedTo(v0.rows, Doc(st0.line, v0.order), v.rows, Doc(st.line, v.order), width, attr, ys, ye)
  {
    ghost var doc0 := Doc(st0.line, v0.order);
    st, v := SplitBefore(st0, ys, width, top, v0);
    var i := ys;
    while i < ye
      invariant ys <= i <= ye && ScreenOk(st, v, width, top)
      invariant ErasedTo(v0.rows, doc0, v.rows, Doc(st.line, v.order), width, attr, ys, i)
    {
      st, v := EraseRow(st, i, attr, width, top, v0.rows, doc0, v, ys);
      i := i + 1;
    }
  }

  // ----- Scrolling a region -----

  /** The lines at the borders of the two runs. */
  lemma Borders(spans: seq<Span>, rows: seq<Row>, order: seq<Ptr>, doc: seq<Para>, width: nat, top: nat, mid: nat,
                bottom: nat)
    requires SpansOk(spans, rows, order) && RowsOk(rows, doc, width) && |doc| == |order| && top < mid < bottom <= |rows|
    requires rows[top].offset == 0 && rows[mid].offset == 0 && (bottom < |rows| ==> rows[bottom].offset == 0)
    ensures var a, b, c := rows[top].para, rows[mid].para, rows[bottom - 1].para + 1;
      && a < b < c <= |order| && Chained(RotRows(rows, top, mid, bottom, a, b, c))
      && spans[top].line == order[a] && spans[mid - 1].line == order[b - 1]
      && spans[bottom - 1].line == order[c - 1] && spans[mid].line == order[b]
  {
    RotateKeepsRows(rows, doc, width, top, mid, bottom);
    assert Follows(rows, mid);
    assert SpanAt(spans, rows, order, top) && SpanAt(spans, rows, order, mid - 1);
    assert SpanAt(spans, rows, order, mid) && SpanAt(spans, rows, order, bottom - 1);
  }

  /** The region's two runs of rows change places: the list of lines by swap_3, the span array by
      copying, and lines from the second run on get new labels. */
  method Exchange(st0: Store, top: nat, mid: nat, bottom: nat, ghost v0: View, ghost a: nat, ghost b: nat, ghost c: nat)
    returns (st: Store, ghost v: View)
    requires Stores.Valid(st0, v0) && top < mid < bottom <= |st0.spans| == |v0.rows| && a < b < c <= |v0.order|
    requires st0.spans[top].line == v0.order[a] && st0.spans[mid - 1].line == v0.order[b - 1]
    requires st0.spans[bottom - 1].line == v0.order[c - 1]
    requires Chained(RotRows(v0.rows, top, mid, bottom, a, b, c))
    ensures Stores.Valid(st, v)
    ensures v == View(Rotated(v0.order, a, b, c), v0.lists, RotRows(v0.rows, top, mid, bottom, a, b, c))
    ensures Doc(st.line, v.order) == Rotated(Doc(st0.line, v0.order), a, b, c)
    ensures st.hs == st0.hs && |st.spans| == |st0.spans|
  {
    var line := Swap3(st0.line, st0.spans[top].line, st0.spans[mid - 1].line, st0.spans[bottom - 1].line, v0.order, a,
                      b, c);
    var temp := st0.spans[top..mid];
    var spans := st0.spans[..top] + st0.spans[mid..bottom] + temp + st0.spans[bottom..];
    v := View(Rotated(v0.order, a, b, c), v0.lists, RotRows(v0.rows, top, mid, bottom, a, b, c));
    assert spans == Rotated(st0.spans, top, mid, bottom);
    RotatedSpans(st0.spans, v0.rows, v0.order, top, mid, bottom, a, b, c);
    InRotated(v0.order, a, b, c);
    RotatedLabels(Labels(st0.line, v0.order), st0.nextSeqno, a, b, c);
    assert spans[top + (bottom - mid)] == st0.spans[top];
    assert v.order[a + (c - b)] == v0.order[a];
    var nextSeqno;
    line, nextSeqno := FixupLinesSeqno(line, st0.nextSeqno, spans[top + (bottom - mid)].line, v.order, a + (c - b));
    st := st0.(line := line, spans := spans, nextSeqno := nextSeqno);
  }

  lemma RotatedSpans(spans: seq<Span>, rows: seq<Row>, order: seq<Ptr>, top: nat, mid: nat, bottom: nat, a: nat,
                     b: nat, c: nat)
    requires SpansOk(spans, rows, order) && |spans| == |rows| && top <= mid <= bottom <= |rows|
    requires a <= b <= c <= |order|
    requires Chained(RotRows(rows, top, mid, bottom, a, b, c))
    ensures SpansOk(Rotated(spans, top, mid, bottom), RotRows(rows, top, mid, bottom, a, b, c), Rotated(order, a, b, c))
  {
    var spans_, order_ := Rotated(spans, top, mid, bottom), Rotated(order, a, b, c);
    var rows_ := RotRows(rows, top, mid, bottom, a, b, c);
    ChainedSorted(rows_);
    forall j | 0 <= j < |spans_|
      ensures SpanAt(spans_, rows_, order_, j)
    {
      assert SpanAt(spans, rows, order, Origin(top, mid, bottom, j));
    }
  }

  lemma RotatedLabels(labels: seq<nat>, bound: nat, a: nat, b: nat, c: nat)
    requires Increasing(labels, bound) && a <= b <= c <= |labels|
    ensures IncreasingTo(Rotated(labels, a, b, c), a + (c - b), bound)
  {
    var r := Rotated(labels, a, b, c);
    forall i, j | 0 <= i < j < a + (c - b)
      ensures Sequences.Below(r, i, j)
    {
      assert Sequences.Below(labels, Origin(a, b, c, i), Origin(a, b, c, j));
    }
  }

  /** Lines from row y on get new labels; nothing else changes. */
  method Relabel(st0: Store, y: nat, ghost width: nat, ghost topLine: Ptr, ghost v: View) returns (st: Store)
    requires ScreenOk(st0, v, width, topLine) && y < |st0.spans|
    ensures ScreenOk(st, v, width, topLine) && Doc(st.line, v.order) == Doc(st0.line, v.order)
    ensures st.hs == st0.hs && st.spans == st0.spans
  {
    SpanOfRow(st0, v, width, topLine, y);
    var line, nextSeqno := FixupLinesSeqno(st0.line, st0.nextSeqno, st0.spans[y].line, v.order, v.rows[y].para);
    st := st0.(line := line, nextSeqno := nextSeqno);
  }

  /** The handle of the top of the history is set to the first line of the screen. */
  method ResetTop(st0: Store, width: nat, topLine: Ptr, ghost v0: View) returns (st: Store, ghost v: View)
    requires Stores.Valid(st0, v0) && |st0.spans| == |v0.rows| && RowsOk(v0.rows, Doc(st0.line, v0.order), width)
    requires v0.rows[0].para == 0 && topLine != NULL && Handles.Registered(st0.hs, v0.lists, topLine)
    requires st0.hs.node[topLine].line != NULL
    ensures ScreenOk(st, v, width, topLine) && v.rows == v0.rows && v.order == v0.order && st == st0.(hs := st.hs)
  {
    assert SpanAt(st0.spans, v0.rows, v0.order, 0);
    assert v0.order[0] in v0.order;
    var hs;
    ghost var lists;
    hs, lists := Handles.Replace(st0.hs, topLine, st0.spans[0].line, 0, v0.lists);
    assert Handles.SamePlace(st0.hs.SetPlace(topLine, st0.spans[0].line, 0), hs, topLine);
    st := st0.(hs := hs);
    v := v0.(lists := lists);
  }

  /** Whether the top of the history is where the screen starts. */
  predicate TopOnScreen(st: Store, topLine: Ptr)
    requires topLine in st.hs.node && |st.spans| > 0
  {
    st.hs.node[topLine].line == st.spans[0].line && st.hs.node[topLine].offset == st.spans[0].offset
  }

  /** Two runs of rows of the region change places. */
  method RotateRuns(st0: Store, top: nat, mid: nat, bottom: nat, ghost width: nat, ghost v0: View, ghost a: nat,
                    ghost b: nat, ghost c: nat)
    returns (st: Store, ghost v: View)
    requires SpansFit(st0, v0, width) && top < mid < bottom <= |st0.spans|
    requires a == v0.rows[top].para && b == v0.rows[mid].para && c == v0.rows[bottom - 1].para + 1
    requires v0.rows[top].offset == 0 && v0.rows[mid].offset == 0
    requires bottom < |v0.rows| ==> v0.rows[bottom].offset == 0
    ensures SpansFit(st, v, width) && st.hs == st0.hs && v.lists == v0.lists
    ensures Rearranged(v0.rows, Doc(st0.line, v0.order), v.rows, Doc(st.line, v.order), width, top, mid, bottom)
    ensures a < b < c <= |v0.order| && v.order == Rotated(v0.order, a, b, c)
    ensures v.rows == RotRows(v0.rows, top, mid, bottom, a, b, c)
  {
    ghost var doc0 := Doc(st0.line, v0.order);
    Borders(st0.spans, v0.rows, v0.order, doc0, width, top, mid, bottom);
    st, v := Exchange(st0, top, mid, bottom, v0, a, b, c);
    RotatedTo(v0.rows, doc0, v.rows, Doc(st.line, v.order), width, top, mid, bottom, a, b, c);
  }

  /** The second half of screen_scroll_fast: two runs of the region change places, or if one of them
      is empty nothing moves; the lines below are relabelled, and the top of the history follows. */
  method RotateRegion(st0: Store, top: nat, mid: nat, bottom: nat, resetTop: bool, width: nat, topLine: Ptr,
                      ghost v0: View)
    returns (st: Store, ghost v: View)
    requires ScreenOk(st0, v0, width, topLine) && top <= mid <= bottom <= |st0.spans| && top < bottom
    requires v0.rows[top].offset == 0 && (mid < |v0.rows| ==> v0.rows[mid].offset == 0)
    requires bottom < |v0.rows| ==> v0.rows[bottom].offset == 0
    requires resetTop <==> top == 0 && v0.rows[0].para == 0
    ensures ScreenOk(st, v, width, topLine)
    ensures Rearranged(v0.rows, Doc(st0.line, v0.order), v.rows, Doc(st.line, v.order), width, top, mid, bottom)
  {
    st, v := st0, v0;
    if top < mid < bottom {
      ghost var a, b, c := v0.rows[top].para, v0.rows[mid].para, v0.rows[bottom - 1].para + 1;
      st, v := RotateRuns(st0, top, mid, bottom, width, v0, a, b, c);
      FirstLineKept(v0.rows, v0.order, top, mid, bottom, a, b, c);
    } else {
      NothingRearranged(v0.rows, Doc(st0.line, v0.order), width, top, mid, bottom);
      var from := top + (bottom - mid);
      if from < |st0.spans| {
        st := Relabel(st0, from, width, topLine, v0);
      }
    }
    if resetTop {
      st, v := ResetTop(st, width, topLine, v);
    }
  }

  /** The list keeps its first line unless the region starts with it. */
  lemma FirstLineKept(rows: seq<Row>, order: seq<Ptr>, top: nat, mid: nat, bottom: nat, a: nat, b: nat, c: nat)
    requires Chained(rows) && top < mid < bottom <= |rows| && rows[top].offset == 0 && a == rows[top].para
    requires a < b < c <= |order| && rows[mid].para == b
    ensures a > 0 ==> Rotated(order, a, b, c)[0] == order[0]
    ensures a == 0 ==> top == 0 && RotRows(rows, top, mid, bottom, a, b, c)[0].para == 0
  {
    if top > 0 {
      StartsAbove(rows, 0, top);
    }
  }

  lemma TopOnScreenMeans(st: Store, v: View, width: nat, topLine: Ptr)
    requires ScreenOk(st, v, width, topLine)
    ensures TopOnScreen(st, topLine) <==> AtTop(v.rows)
  {
    SpanOfRow(st, v, width, topLine, 0);
    OnlyAt(v.order, 0);
  }

  /** The borders of the region are made borders of lines. */
  method CutRegion(st0: Store, top: nat, bottom: nat, ghost width: nat, ghost topLine: Ptr, ghost v0: View)
    returns (st: Store, ghost v: View, ghost rows1: seq<Row>, ghost doc1: seq<Para>)
    requires ScreenOk(st0, v0, width, topLine) && top < bottom <= |st0.spans|
    ensures ScreenOk(st, v, width, topLine) && |v.rows| == |v0.rows|
    ensures SameScreen(v0.rows, Doc(st0.line, v0.order), rows1, doc1, width)
    ensures SameScreen(rows1, doc1, v.rows, Doc(st.line, v.order), width)
    ensures v.rows[top].offset == 0 && (bottom < |v.rows| ==> v.rows[bottom].offset == 0)
  {
    st, v := SplitBefore(st0, top, width, topLine, v0);
    rows1, doc1 := v.rows, Doc(st.line, v.order);
    assert rows1[top].offset == 0;
    var last := bottom - 1;
    st, v := SplitAfter(st, last, width, topLine, v);
    EndsLineAbove(v.rows, last, bottom);
  }

  /** Rows from ys to ye - 1 are blanked, then the runs change places. */
  method EraseAndSwap(st0: Store, top: nat, mid: nat, bottom: nat, ys: nat, ye: nat, attr: Attr, resetTop: bool,
                      width: nat, topLine: Ptr, ghost v0: View)
    returns (st: Store, ghost v: View, ghost rows2: seq<Row>, ghost doc2: seq<Para>)
    requires ScreenOk(st0, v0, width, topLine) && top <= mid <= bottom <= |st0.spans|
    requires ys < ye && ((ys == top && ye == mid) || (ys == mid && ye == bottom))
    requires v0.rows[top].offset == 0 && (bottom < |v0.rows| ==> v0.rows[bottom].offset == 0)
    requires resetTop <==> top == 0 && AtTop(v0.rows)
    ensures ScreenOk(st, v, width, topLine)
    ensures ErasedTo(v0.rows, Doc(st0.line, v0.order), rows2, doc2, width, attr, ys, ye)
    ensures Rearranged(rows2, doc2, v.rows, Doc(st.line, v.order), width, top, mid, bottom)
  {
    st, v := EraseFast(st0, ys, ye, attr, width, topLine, v0);
    rows2, doc2 := v.rows, Doc(st.line, v.order);
    st, v := RotateRegion(st, top, mid, bottom, resetTop, width, topLine, v);
  }

  /** screen_scroll_fast without history: the region from row top to row bottom - 1 scrolls by
      amount, up if it is positive. */
  method ScrollRegion(st0: Store, top: nat, bottom: nat, amount: int, attr: Attr, width: nat, topLine: Ptr,
                      ghost v0: View)
    returns (st: Store, n: int, ghost v: View)
    requires ScreenOk(st0, v0, width, topLine) && top < bottom <= |st0.spans|
    ensures ScreenOk(st, v, width, topLine)
    ensures n == if amount > bottom - top then bottom - top else if amount < top - bottom then top - bottom else amount
    ensures Scrolled(v0.rows, Doc(st0.line, v0.order), v.rows, Doc(st.line, v.order), width, attr, top, bottom, n)
  {
    ghost var rows0, doc0 := v0.rows, Doc(st0.line, v0.order);
    TopOnScreenMeans(st0, v0, width, topLine);
    var resetTop := top == 0 && TopOnScreen(st0, topLine);
    ghost var rowsA, docA, rowsB, docB;
    st, v, rowsA, docA := CutRegion(st0, top, bottom, width, topLine, v0);
    ghost var rows1, doc1 := v.rows, Doc(st.line, v.order);
    SameScreenAgain(rows0, doc0, rowsA, docA, rows1, doc1, width);
    n := amount;
    if amount > 0 {
      n := if amount < bottom - top then amount else bottom - top;
      var mid := top + n;
      st, v, rowsB, docB := EraseAndSwap(st, top, mid, bottom, top, mid, attr, resetTop, width, topLine, v);
      EraseAndRotate(rows0, doc0, rows1, doc1, rowsB, docB, v.rows, Doc(st.line, v.order), width, attr, top, mid,
                     bottom, top, mid, n);
    } else if amount < 0 {
      n := if amount > top - bottom then amount else top - bottom;
      var mid := bottom + n;
      st, v, rowsB, docB := EraseAndSwap(st, top, mid, bottom, mid, bottom, attr, resetTop, width, topLine, v);
      EraseAndRotate(rows0, doc0, rows1, doc1, rowsB, docB, v.rows, Doc(st.line, v.order), width, attr, top, mid,
                     bottom, mid, bottom, n);
    } else {
      NotScrolled(rows0, doc0, rows1, doc1, width, attr, top, bottom);
    }
  }
}
