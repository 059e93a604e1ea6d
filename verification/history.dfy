/** Scrolling into the history: rows leave the screen at the top, their lines stay in the list, and
    blank lines come in at the bottom of the region (screen_scroll_fast with history in screen.c).
    Two assumptions are carried. Each line that is pushed is optimized; its text stays as it is if its
    attributes are not undercounted (OptimizeLine in module Lines says exactly when). And the history
    is below its limit: beyond it lines are freed at its far end, which is not part of this model. */
module History {
  import opened Cells
  import opened Lines
  import opened Ranges
  import opened ScreenRows
  import opened Scrolling
  import opened Sequences
  import opened Stores
  import Concats
  import Handles

  /** push_history_until: how many lines go into the history; their texts are kept if none of them is
      undercounted. The loop for lines that come back from the history has
      the guard that was just found false, so it is never entered: nothing is counted then. */
  method PushHistory(line: Heap, from0: Ptr, to0: Ptr, ghost order: seq<Ptr>, ghost nextSeqno: nat, ghost i0: nat,
                     ghost j0: nat)
    returns (delta: int)
    requires LinksOk(line, order) && LabelsOk(line, order, nextSeqno)
    requires i0 < |order| && j0 < |order| && from0 == order[i0] && to0 == order[j0]
    ensures delta == if i0 < j0 then j0 - i0 else 0
  {
    delta := 0;
    var from, to := from0, to0;
    ghost var i := i0;
    assert order[i0] in line && order[j0] in line;
    LabelOrder(line, order, nextSeqno, i, j0);
    if line[from].seqno < line[to].seqno {
      while line[from].seqno < line[to].seqno
        invariant i0 <= i <= j0 && from == order[i] && from in line && delta == i - i0
        invariant line[from].seqno < line[to].seqno <==> i < j0
        decreases j0 - i
      {
        delta := delta + 1;
        assert LinkedAt(line, order, i) && LinkedAt(line, order, i + 1);
        from := line[from].next;
        i := i + 1;
        LabelOrder(line, order, nextSeqno, i, j0);
      }
    }
  }

  /** The rows after n rows left at the top of the region and n new lines came in at its bottom, as lines from p on. */
  ghost function PushedRows(rows: seq<Row>, bottom: nat, n: nat, p: nat): (r: seq<Row>)
    requires n <= bottom <= |rows|
    ensures |r| == |rows|
  {
    seq(|rows|, j requires 0 <= j < |rows| =>
      if j < bottom - n then rows[j + n]
      else if j < bottom then Row(p + (j - (bottom - n)), 0, 0)
      else rows[j].(para := rows[j].para + n))
  }

  /** The rows show what Scrolled says of the region from row 0. */
  ghost predicate ScrolledUp(rows0: seq<Row>, doc0: seq<Para>, rows: seq<Row>, doc: seq<Para>, width: nat, attr: Attr,
                             bottom: nat, n: nat) {
    && |rows| == |rows0|
    && forall j :: 0 <= j < |rows| ==> ScrolledRow(rows0, doc0, rows, doc, width, attr, 0, bottom, n, j)
  }

  lemma PushKeepsRows(rows: seq<Row>, doc: seq<Para>, width: nat, bottom: nat, n: nat, p: nat, attr: Attr)
    requires RowsOk(rows, doc, width) && 0 < n <= bottom <= |rows| && p == rows[bottom - 1].para + 1
    requires bottom < |rows| ==> rows[bottom].offset == 0
    ensures p <= |doc|
    ensures var rows_, doc_ := PushedRows(rows, bottom, n, p), Splice(doc, p, Blanks(attr, n));
      RowsOk(rows_, doc_, width) && ScrolledUp(rows, doc, rows_, doc_, width, attr, bottom, n)
  {
    var rows_, doc_ := PushedRows(rows, bottom, n, p), Splice(doc, p, Blanks(attr, n));
    assert RowFits(rows[bottom - 1], doc, width);
    forall j | 0 <= j < |rows|
      ensures RowFits(rows_[j], doc_, width) && ScrolledRow(rows, doc, rows_, doc_, width, attr, 0, bottom, n, j)
    {
      PushedRow(rows, doc, width, bottom, n, p, attr, j);
    }
    forall j | 0 < j < |rows|
      ensures Follows(rows_, j)
    {
      PushedFollows(rows, bottom, n, p, j);
    }
    if bottom < |rows| {
      assert Follows(rows, bottom);
    }
  }

  lemma PushedRow(rows: seq<Row>, doc: seq<Para>, width: nat, bottom: nat, n: nat, p: nat, attr: Attr, j: nat)
    requires RowsOk(rows, doc, width) && 0 < n <= bottom <= |rows| && p == rows[bottom - 1].para + 1 <= |doc|
    requires (bottom < |rows| ==> rows[bottom].offset == 0) && j < |rows|
    ensures var rows_, doc_ := PushedRows(rows, bottom, n, p), Splice(doc, p, Blanks(attr, n));
      RowFits(rows_[j], doc_, width) && ScrolledRow(rows, doc, rows_, doc_, width, attr, 0, bottom, n, j)
  {
    var i := if j < bottom - n then j + n else j;
    assert RowFits(rows[i], doc, width);
    if bottom - n <= j < bottom {
      assert Blank(attr).text[0..0] == [];
    }
    if i < bottom - 1 {
      RowsInOrder(rows, i, bottom - 1);
    } else if bottom <= i {
      StartsAbove(rows, bottom - 1, bottom);
      if bottom < i {
        RowsInOrder(rows, bottom, i);
      }
    }
  }

  lemma PushedFollows(rows: seq<Row>, bottom: nat, n: nat, p: nat, j: nat)
    requires Chained(rows) && 0 < n <= bottom <= |rows| && p == rows[bottom - 1].para + 1 && 0 < j < |rows|
    requires bottom < |rows| ==> rows[bottom].offset == 0
    ensures Follows(PushedRows(rows, bottom, n, p), j)
  {
    if j + n < |rows| {
      assert Follows(rows, j + n);
    }
    assert Follows(rows, j);
  }

  /** Blank lines add no text. */
  lemma {:induction false} BlanksAreFlat(doc: seq<Para>, k: nat, attr: Attr, n: nat)
    requires k <= |doc|
    ensures Flat(Splice(doc, k, Blanks(attr, n))) == Flat(doc)
    decreases |doc| + n
  {
    if k < |doc| {
      BlanksAreFlat(doc[..|doc| - 1], k, attr, n);
      SameLast(doc, k, attr, n);
    } else if n > 0 {
      BlanksAreFlat(doc, k, attr, n - 1);
      OneBlankLess(doc, attr, n);
    } else {
      assert Splice(doc, k, Blanks(attr, n)) == doc;
    }
  }

  lemma SameLast(doc: seq<Para>, k: nat, attr: Attr, n: nat)
    requires k < |doc|
    ensures var d, front := Splice(doc, k, Blanks(attr, n)), doc[..|doc| - 1];
      d[..|d| - 1] == Splice(front, k, Blanks(attr, n)) && d[|d| - 1] == doc[|doc| - 1]
  {
  }

  lemma OneBlankLess(doc: seq<Para>, attr: Attr, n: nat)
    requires n > 0
    ensures var d := Splice(doc, |doc|, Blanks(attr, n));
      d[..|d| - 1] == Splice(doc, |doc|, Blanks(attr, n - 1)) && d[|d| - 1] == Blank(attr)
  {
  }

  /** The span array after memmove and create_lines_range shows the pushed rows. */
  lemma PushedSpans(spans0: seq<Span>, spans: seq<Span>, rows: seq<Row>, order: seq<Ptr>, bottom: nat, n: nat, p: nat,
                    brk: Ptr)
    requires SpansOk(spans0, rows, order) && |spans| == |spans0| == |rows| && 0 < n <= bottom <= |rows| && NULL < brk
    requires p == rows[bottom - 1].para + 1 && p <= |order| && Chained(rows) && Chained(PushedRows(rows, bottom, n, p))
    requires bottom < |rows| ==> rows[bottom].offset == 0
    requires forall j :: 0 <= j < bottom - n ==> spans[j] == spans0[j + n]
    requires forall j :: bottom - n <= j < bottom ==> spans[j] == Span(brk + (j - (bottom - n)), 0, 0)
    requires forall j :: bottom <= j < |spans| ==> spans[j] == spans0[j]
    ensures SpansOk(spans, PushedRows(rows, bottom, n, p), Splice(order, p, NewLines(brk, n)))
  {
    var rows_, order_ := PushedRows(rows, bottom, n, p), Splice(order, p, NewLines(brk, n));
    ChainedSorted(rows_);
    forall j | 0 <= j < |spans|
      ensures SpanAt(spans, rows_, order_, j)
    {
      if j < bottom - n {
        assert SpanAt(spans0, rows, order, j + n);
        if j + n < bottom - 1 {
          RowsInOrder(rows, j + n, bottom - 1);
        }
      } else if j < bottom {
        assert rows_[j].para == p + (j - (bottom - n)) && spans[j].line == brk + (j - (bottom - n));
      } else {
        assert SpanAt(spans0, rows, order, j);
        assert spans[j] == spans0[j];
        StartsAbove(rows, bottom - 1, bottom);
        if bottom < j {
          RowsInOrder(rows, bottom, j);
        }
      }
    }
  }

  /** The list is opened behind the line of the region's last row. */
  method OpenBehind(line0: Heap, bottomLine: Ptr, ghost order: seq<Ptr>, ghost p: nat)
    returns (line: Heap, bottomNext: Ptr)
    requires LinksOk(line0, order) && 0 < p <= |order| && bottomLine == order[p - 1]
    ensures LinksBut(line, order, {p}) && Sides(order, p, bottomLine, bottomNext) && SameText(line0, line, order)
  {
    assert LinkedAt(line0, order, p - 1);
    assert p < |order| ==> order[p] in line0;
    bottomNext := line0[bottomLine].next;
    Uncut(line0, order, {});
    Opened(line0, order, {}, p);
    assert {} + {p} == {p};
    line := Concats.DetachNext(line0, bottomLine);
  }

  /** The list part: n blank lines behind the line of the region's last row. */
  method PushList(st0: Store, bottom: nat, n: nat, attr: Attr, ghost v0: View, ghost p: nat)
    returns (st: Store, ghost lists: map<Ptr, seq<Ptr>>)
    requires Stores.Valid(st0, v0) && 0 < n <= bottom <= |st0.spans| && 0 < p <= |v0.order|
    requires st0.spans[bottom - 1].line == v0.order[p - 1]
    ensures ListsOk(st, Splice(v0.order, p, NewLines(st0.brk, n)), lists) && lists == WithNewLines(v0.lists, st0.brk, n)
    ensures Doc(st.line, Splice(v0.order, p, NewLines(st0.brk, n))) ==
      Splice(Doc(st0.line, v0.order), p, Blanks(attr, n))
    ensures st.hs.node == st0.hs.node && |st.spans| == |st0.spans|
    ensures forall j :: 0 <= j < bottom - n ==> st.spans[j] == st0.spans[j + n]
    ensures forall j :: bottom - n <= j < bottom ==> st.spans[j] == Span(st0.brk + (j - (bottom - n)), 0, 0)
    ensures forall j :: bottom <= j < |st.spans| ==> st.spans[j] == st0.spans[j]
  {
    var bottomLine := st0.spans[bottom - 1].line;
    var line, bottomNext := OpenBehind(st0.line, bottomLine, v0.order, p);
    assert Labels(line, v0.order) == Labels(st0.line, v0.order) && Doc(line, v0.order) == Doc(st0.line, v0.order);
    var spans := st0.spans[n..bottom] + st0.spans[bottom - n..];
    st := st0.(line := line, spans := spans);
    st, lists := InsertLines(st, bottomLine, bottomNext, bottom - n, attr, n, v0.order, v0.lists, p);
  }

  /** The region's last row ends a line: n rows leave at its top, n blank lines come in at its bottom. */
  method PushRows(st0: Store, bottom: nat, n: nat, attr: Attr, ghost width: nat, ghost v0: View, ghost p: nat)
    returns (st: Store, ghost v: View)
    requires SpansFit(st0, v0, width) && 0 < n <= bottom <= |st0.spans| && p == v0.rows[bottom - 1].para + 1
    requires bottom < |v0.rows| ==> v0.rows[bottom].offset == 0
    ensures SpansFit(st, v, width) && st.hs.node == st0.hs.node && p <= |v0.order|
    ensures v ==
      View(Splice(v0.order, p, NewLines(st0.brk, n)), WithNewLines(v0.lists, st0.brk, n),
           PushedRows(v0.rows, bottom, n, p))
    ensures Doc(st.line, v.order) == Splice(Doc(st0.line, v0.order), p, Blanks(attr, n))
  {
    PushKeepsRows(v0.rows, Doc(st0.line, v0.order), width, bottom, n, p, attr);
    assert SpanAt(st0.spans, v0.rows, v0.order, bottom - 1);
    ghost var lists;
    st, lists := PushList(st0, bottom, n, attr, v0, p);
    PushedSpans(st0.spans, st.spans, v0.rows, v0.order, bottom, n, p, st0.brk);
    v := View(Splice(v0.order, p, NewLines(st0.brk, n)), lists, PushedRows(v0.rows, bottom, n, p));
  }

  /** screen_scroll_fast with history: the region from the top of the screen to row bottom - 1
      scrolls up, no text is lost (under the two assumptions above), and the lines that left the screen
      are counted. */
  method ScrollIntoHistory(st0: Store, bottom: nat, amount: nat, attr: Attr, ghost width: nat, ghost topLine: Ptr,
                           ghost v0: View)
    returns (st: Store, pushed: int, ghost v: View, ghost rows1: seq<Row>, ghost doc1: seq<Para>)
    requires ScreenOk(st0, v0, width, topLine) && 0 < bottom <= |st0.spans| && amount > 0
    ensures ScreenOk(st, v, width, topLine)
    ensures SameScreen(v0.rows, Doc(st0.line, v0.order), rows1, doc1, width)
    ensures ScrolledUp(rows1, doc1, v.rows, Doc(st.line, v.order), width, attr, bottom,
                       if amount < bottom then amount else bottom)
    ensures Flat(Doc(st.line, v.order)) == Flat(Doc(st0.line, v0.order))
    ensures |v.rows| > 0 && |rows1| > 0 && pushed == v.rows[0].para - rows1[0].para >= 0
  {
    var last := bottom - 1;
    st, v := SplitAfter(st0, last, width, topLine, v0);
    EndsLineAbove(v.rows, last, bottom);
    rows1, doc1 := v.rows, Doc(st.line, v.order);
    var n := if amount < bottom then amount else bottom;
    ghost var p := rows1[last].para + 1;
    PushKeepsRows(rows1, doc1, width, bottom, n, p, attr);
    BlanksAreFlat(doc1, p, attr, n);
    st, pushed, v := PushAndCount(st, bottom, n, attr, width, topLine, v, p);
  }

  method PushScreen(st0: Store, bottom: nat, n: nat, attr: Attr, ghost width: nat, ghost topLine: Ptr, ghost v0: View,
                    ghost p: nat)
    returns (st: Store, ghost v: View)
    requires ScreenOk(st0, v0, width, topLine) && 0 < n <= bottom <= |st0.spans| && p == v0.rows[bottom - 1].para + 1
    requires bottom < |v0.rows| ==> v0.rows[bottom].offset == 0
    ensures ScreenOk(st, v, width, topLine) && p <= |v0.order| && v.rows == PushedRows(v0.rows, bottom, n, p)
    ensures v.order == Splice(v0.order, p, NewLines(st0.brk, n)) && v0.rows[0].para < p <= |v.order|
    ensures v0.rows[0].para <= v.rows[0].para
    ensures Doc(st.line, v.order) == Splice(Doc(st0.line, v0.order), p, Blanks(attr, n))
  {
    FirstPushed(v0.rows, bottom, n, p);
    st, v := PushRows(st0, bottom, n, attr, width, v0, p);
    TopKept(st0.hs, st.hs, v0, v, topLine, st0.brk, p, n);
  }

  method PushAndCount(st0: Store, bottom: nat, n: nat, attr: Attr, ghost width: nat, ghost topLine: Ptr,
                      ghost v0: View, ghost p: nat)
    returns (st: Store, pushed: int, ghost v: View)
    requires ScreenOk(st0, v0, width, topLine) && 0 < n <= bottom <= |st0.spans| && p == v0.rows[bottom - 1].para + 1
    requires bottom < |v0.rows| ==> v0.rows[bottom].offset == 0
    ensures ScreenOk(st, v, width, topLine) && p <= |v0.order| && v.rows == PushedRows(v0.rows, bottom, n, p)
    ensures Doc(st.line, v.order) == Splice(Doc(st0.line, v0.order), p, Blanks(attr, n))
    ensures pushed == v.rows[0].para - v0.rows[0].para >= 0
  {
    var firstToHist := st0.spans[0].line;
    assert SpanAt(st0.spans, v0.rows, v0.order, 0);
    st, v := PushScreen(st0, bottom, n, attr, width, topLine, v0, p);
    assert SpanAt(st.spans, v.rows, v.order, 0);
    pushed := PushHistory(st.line, firstToHist, st.spans[0].line, v.order, st.nextSeqno, v0.rows[0].para,
                          v.rows[0].para);
  }

  /** New lines behind the first one leave the handle of the top of the history in place. */
  lemma TopKept(hs0: Handles.Memory, hs: Handles.Memory, v0: View, v: View, topLine: Ptr, brk: Ptr, p: nat, n: nat)
    requires TopOk(hs0, v0, topLine) && hs.node == hs0.node && 0 < p <= |v0.order| && v0.order[0] < brk
    requires v.order == Splice(v0.order, p, NewLines(brk, n)) && v.lists == WithNewLines(v0.lists, brk, n)
    ensures TopOk(hs, v, topLine)
  {
  }

  lemma FirstPushed(rows: seq<Row>, bottom: nat, n: nat, p: nat)
    requires Chained(rows) && 0 < n <= bottom <= |rows| && p == rows[bottom - 1].para + 1
    ensures rows[0].para < p && rows[0].para <= PushedRows(rows, bottom, n, p)[0].para
  {
    if bottom > 1 {
      RowsInOrder(rows, 0, bottom - 1);
    }
    if n < bottom {
      RowsInOrder(rows, 0, n);
    }
  }
}
