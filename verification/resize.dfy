/** Resizing the main screen (resize_main_screen in screen.c): the paragraphs are wrapped again at
    the new width, around the cell the cursor is on. */
module Resize {
  import opened Cells
  import opened Lines
  import opened Positions
  import opened Ranges
  import opened Reflow
  import opened ScreenRows
  import opened Scrolling
  import opened Sequences
  import opened Stores
  import opened Wrapping
  import Concats
  import Handles
  import History

  /** Handle h names the cell at an offset in line k of the document. */
  ghost predicate Names(hs: Handles.Memory, order: seq<Ptr>, lists: map<Ptr, seq<Ptr>>, h: Ptr, k: nat, offset: nat) {
    && h != NULL && k < |order| && Handles.Registered(hs, lists, h)
    && hs.node[h].line == order[k] && hs.node[h].offset == offset
  }

  /** A line that moves to another address takes its handles along. */
  lemma NamesMoved(hs0: Handles.Memory, order: seq<Ptr>, lists0: map<Ptr, seq<Ptr>>, hs: Handles.Memory,
                   lists: map<Ptr, seq<Ptr>>, p: Ptr, q: Ptr, i: nat, h: Ptr, k: nat, offset: nat)
    requires Names(hs0, order, lists0, h, k, offset) && Distinct(order) && i < |order| && order[i] == p
    requires Handles.Moved(hs0, lists0, hs, lists, p, q, 0, 0)
    ensures Names(hs, order[i := q], lists, h, k, offset)
  {
    OnlyAt(order, i);
  }

  // ----- The line of a cursor reaches to the cursor -----

  /** A paragraph filled up with blank cells in the attribute of its padding. */
  function Extended(p: Para, size: nat): (r: Para)
    ensures |r.text| == if |p.text| < size then size else |p.text|
  {
    if |p.text| < size then p.(text := p.text + seq(size - |p.text|, i => Glyph(0, p.pad))) else p
  }

  /** screen_adjust_line_ex: the line of row y is filled up to the given column. */
  method AdjustLine(st0: Store, y: nat, size: nat, moved: bool, ghost v0: View)
    returns (st: Store, ghost v: View, ghost p: Ptr, ghost q: Ptr)
    requires Stores.Valid(st0, v0) && |st0.spans| == |v0.rows| && y < |v0.rows|
    requires v0.rows[y].para < |v0.order|
    ensures Stores.Valid(st, v) && |st.spans| == |v.rows| == |v0.rows|
    ensures var k := v0.rows[y].para;
      && p == v0.order[k] && v.order == v0.order[k := q]
      && var doc0 := Doc(st0.line, v0.order);
         Doc(st.line, v.order) == doc0[k := Extended(doc0[k], v0.rows[y].offset + size)]
    ensures Handles.Moved(st0.hs, v0.lists, st.hs, v.lists, p, q, 0, 0)
    ensures forall j :: 0 <= j < |v.rows| ==> v.rows[j].para == v0.rows[j].para && v.rows[j].offset == v0.rows[j].offset
  {
    ghost var k, doc := v0.rows[y].para, Doc(st0.line, v0.order);
    assert SpanAt(st0.spans, v0.rows, v0.order, y);
    assert v0.order[k] in st0.line;
    var line := st0.spans[y].line;
    var newSize := st0.spans[y].offset + size;
    st, v, p, q := st0, v0, line, line;
    if |st0.line[line].para.text| >= newSize {
      assert doc[k := doc[k]] == doc && v0.order[k := q] == v0.order;
      return;
    }
    var at;
    st, at, v := Concats.ReallocLine(st0, line, newSize, moved, v0, k);
    q := at;
    assert v.order[k] == at && at in st.line;
    assert st.line[at].para == doc[k];
    st, v := SetLine(st, at, Extended(st.line[at].para, newSize), y, size, v, k);
  }

  // ----- Handles on the stack -----

  /** The handles that resize_main_screen keeps on the stack, by address. */
  datatype Anchors = Anchors(first: Ptr, cursor: Ptr, saved: Ptr)
  {
    predicate FreshIn(hs: Handles.Memory) {
      && first != NULL && cursor != NULL && saved != NULL && first != cursor && first != saved && cursor != saved
      && first !in hs.node && cursor !in hs.node && saved !in hs.node
    }
  }

  /** The place of a cell: line and offset. */
  datatype Mark = Mark(para: nat, offset: nat)

  /** The stack handles name these cells. */
  ghost predicate StackNames(hs: Handles.Memory, order: seq<Ptr>, lists: map<Ptr, seq<Ptr>>, an: Anchors, first: Mark,
                             cursor: Mark, saved: Mark) {
    && Names(hs, order, lists, an.first, first.para, first.offset)
    && Names(hs, order, lists, an.cursor, cursor.para, cursor.offset)
    && Names(hs, order, lists, an.saved, saved.para, saved.offset)
  }

  /** Apart from them, the handle of the top of the history is where it belongs. */
  ghost predicate Anchored(hs: Handles.Memory, order: seq<Ptr>, lists: map<Ptr, seq<Ptr>>, top: Ptr, an: Anchors,
                           first: Mark, cursor: Mark, saved: Mark) {
    && top != an.first && top != an.cursor && top != an.saved && Names(hs, order, lists, top, 0, 0)
    && StackNames(hs, order, lists, an, first, cursor, saved)
  }

  /** The cell under column x of row y. */
  function MarkAt(rows: seq<Row>, x: nat, y: nat): Mark
    requires y < |rows|
  {
    Mark(rows[y].para, rows[y].offset + x)
  }

  method RegisterThree(hs0: Handles.Memory, an: Anchors, first: Pos, cursor: Pos, saved: Pos,
                       ghost lists0: map<Ptr, seq<Ptr>>)
    returns (hs: Handles.Memory, ghost lists: map<Ptr, seq<Ptr>>)
    requires Handles.Ok(hs0, lists0) && an.FreshIn(hs0)
    requires first.line in lists0 && cursor.line in lists0 && saved.line in lists0
    ensures Handles.Ok(hs, lists) && lists.Keys == lists0.Keys
    ensures Handles.Registered(hs, lists, an.first) && Placed(hs, an.first, first)
    ensures Handles.Registered(hs, lists, an.cursor) && Placed(hs, an.cursor, cursor)
    ensures Handles.Registered(hs, lists, an.saved) && Placed(hs, an.saved, saved)
    ensures forall x :: Handles.Registered(hs0, lists0, x) ==>
      Handles.Registered(hs, lists, x) && Handles.SamePlace(hs0, hs, x)
  {
    hs, lists := Handles.AddNew(hs0, an.first, first.line, first.offset, lists0);
    hs, lists := Handles.AddNew(hs, an.cursor, cursor.line, cursor.offset, lists);
    hs, lists := Handles.AddNew(hs, an.saved, saved.line, saved.offset, lists);
  }

  ghost predicate Placed(hs: Handles.Memory, h: Ptr, pos: Pos) {
    h in hs.node && hs.node[h].line == pos.line && hs.node[h].offset == pos.offset
  }

  /** The stack handles are registered. */
  method AddAnchors(st0: Store, cx: nat, cy: nat, sx: nat, sy: nat, ghost top: Ptr, an: Anchors, ghost v0: View,
                    ghost width: nat)
    returns (st: Store, ghost v: View)
    requires ScreenOk(st0, v0, width, top) && cy < |v0.rows| && sy < |v0.rows| && an.FreshIn(st0.hs)
    ensures ScreenOk(st, v, width, top) && v == v0.(lists := v.lists) && st == st0.(hs := st.hs)
    ensures Anchored(st.hs, v.order, v.lists, top, an, MarkAt(v.rows, 0, 0), MarkAt(v.rows, cx, cy),
                     MarkAt(v.rows, sx, sy))
  {
    SpansInLists(st0, v0, 0);
    SpansInLists(st0, v0, cy);
    SpansInLists(st0, v0, sy);
    var hs;
    ghost var lists;
    hs, lists := RegisterThree(st0.hs, an, Pos(st0.spans[0].line, st0.spans[0].offset),
                               Pos(st0.spans[cy].line, st0.spans[cy].offset + cx),
                               Pos(st0.spans[sy].line, st0.spans[sy].offset + sx), v0.lists);
    st, v := st0.(hs := hs), v0.(lists := lists);
  }

  lemma SpansInLists(st: Store, v: View, y: nat)
    requires Stores.Valid(st, v) && |st.spans| == |v.rows| && y < |v.rows|
    ensures v.rows[y].para < |v.order|
    ensures st.spans[y].line == v.order[v.rows[y].para] && st.spans[y].line in v.lists && st.spans[y].line in st.line
    ensures st.spans[y].offset == v.rows[y].offset
  {
    assert SpanAt(st.spans, v.rows, v.order, y);
    assert v.order[v.rows[y].para] in v.order;
  }

  lemma AnchorsMoved(hs0: Handles.Memory, order: seq<Ptr>, lists0: map<Ptr, seq<Ptr>>, hs: Handles.Memory,
                     lists: map<Ptr, seq<Ptr>>, p: Ptr, q: Ptr, i: nat, top: Ptr, an: Anchors, first: Mark,
                     cursor: Mark, saved: Mark)
    requires Anchored(hs0, order, lists0, top, an, first, cursor, saved) && Distinct(order) && i < |order|
    requires order[i] == p
    requires Handles.Moved(hs0, lists0, hs, lists, p, q, 0, 0)
    ensures Anchored(hs, order[i := q], lists, top, an, first, cursor, saved)
  {
    NamesMoved(hs0, order, lists0, hs, lists, p, q, i, top, 0, 0);
    NamesMoved(hs0, order, lists0, hs, lists, p, q, i, an.first, first.para, first.offset);
    NamesMoved(hs0, order, lists0, hs, lists, p, q, i, an.cursor, cursor.para, cursor.offset);
    NamesMoved(hs0, order, lists0, hs, lists, p, q, i, an.saved, saved.para, saved.offset);
  }

  /** The document with a paragraph filled up so that it has the given cell. */
  function FilledUp(doc: seq<Para>, m: Mark): (r: seq<Para>)
    requires m.para < |doc|
    ensures |r| == |doc| && m.offset < |r[m.para].text|
    ensures forall i :: 0 <= i < |doc| ==> |doc[i].text| <= |r[i].text|
  {
    doc[m.para := Extended(doc[m.para], m.offset + 1)]
  }

  /** screen_adjust_line_ex for the row of a cursor. */
  method FillUp(st0: Store, x: nat, y: nat, moved: bool, ghost top: Ptr, ghost an: Anchors, ghost v0: View,
                ghost first: Mark, ghost cursor: Mark, ghost saved: Mark)
    returns (st: Store, ghost v: View)
    requires Stores.Valid(st0, v0) && |st0.spans| == |v0.rows| && y < |v0.rows| && v0.rows[y].para < |v0.order|
    requires Anchored(st0.hs, v0.order, v0.lists, top, an, first, cursor, saved)
    ensures Stores.Valid(st, v) && |st.spans| == |v.rows| == |v0.rows| && |v.order| == |v0.order|
    ensures Doc(st.line, v.order) == FilledUp(Doc(st0.line, v0.order), MarkAt(v0.rows, x, y))
    ensures Anchored(st.hs, v.order, v.lists, top, an, first, cursor, saved)
    ensures forall j :: 0 <= j < |v.rows| ==> v.rows[j].para == v0.rows[j].para && v.rows[j].offset == v0.rows[j].offset
  {
    ghost var p, q;
    st, v, p, q := AdjustLine(st0, y, x + 1, moved, v0);
    AnchorsMoved(st0.hs, v0.order, v0.lists, st.hs, v.lists, p, q, v0.rows[y].para, top, an, first, cursor, saved);
  }

  /** The span array gets its new size; what its slots hold then does not matter. */
  method SizeSpans(st0: Store, height: nat, ghost v: View) returns (st: Store)
    requires Stores.Valid(st0, v)
    ensures ListsOk(st, v.order, v.lists) && |st.spans| == height && st == st0.(spans := st.spans)
  {
    var spans := if height <= |st0.spans| then st0.spans[..height]
                 else st0.spans + seq(height - |st0.spans|, i => Span(NULL, 0, 0));
    st := st0.(spans := spans);
  }

  method FillUpBoth(st0: Store, cx: nat, cy: nat, sx: nat, sy: nat, moved1: bool, moved2: bool, ghost top: Ptr,
                    ghost an: Anchors, ghost v0: View, ghost first: Mark, ghost cursor: Mark, ghost saved: Mark)
    returns (st: Store, ghost v: View)
    requires Stores.Valid(st0, v0) && |st0.spans| == |v0.rows| && cy < |v0.rows| && sy < |v0.rows|
    requires v0.rows[cy].para < |v0.order| && v0.rows[sy].para < |v0.order|
    requires Anchored(st0.hs, v0.order, v0.lists, top, an, first, cursor, saved)
    ensures Stores.Valid(st, v) && |v.order| == |v0.order|
    ensures Doc(st.line, v.order) ==
      FilledUp(FilledUp(Doc(st0.line, v0.order), MarkAt(v0.rows, cx, cy)), MarkAt(v0.rows, sx, sy))
    ensures Anchored(st.hs, v.order, v.lists, top, an, first, cursor, saved)
  {
    st, v := FillUp(st0, cx, cy, moved1, top, an, v0, first, cursor, saved);
    assert MarkAt(v.rows, sx, sy) == MarkAt(v0.rows, sx, sy);
    st, v := FillUp(st, sx, sy, moved2, top, an, v, first, cursor, saved);
  }

  /** The stack handles are set, and the lines of both cursors reach to them. */
  method Prepare(st0: Store, cx: nat, cy: nat, sx: nat, sy: nat, moved1: bool, moved2: bool, ghost top: Ptr,
                 an: Anchors, ghost v0: View, ghost width: nat)
    returns (st: Store, ghost v: View)
    requires ScreenOk(st0, v0, width, top) && cy < |v0.rows| && sy < |v0.rows| && an.FreshIn(st0.hs)
    ensures Stores.Valid(st, v) && |v.order| > 0
    ensures v0.rows[cy].para < |v0.order| && v0.rows[sy].para < |v0.order|
    ensures Doc(st.line, v.order) ==
      FilledUp(FilledUp(Doc(st0.line, v0.order), MarkAt(v0.rows, cx, cy)), MarkAt(v0.rows, sx, sy))
    ensures Anchored(st.hs, v.order, v.lists, top, an, MarkAt(v0.rows, 0, 0), MarkAt(v0.rows, cx, cy),
                     MarkAt(v0.rows, sx, sy))
  {
    SpansInLists(st0, v0, cy);
    SpansInLists(st0, v0, sy);
    ghost var m0, mc, ms := MarkAt(v0.rows, 0, 0), MarkAt(v0.rows, cx, cy), MarkAt(v0.rows, sx, sy);
    st, v := AddAnchors(st0, cx, cy, sx, sy, top, an, v0, width);
    st, v := FillUpBoth(st, cx, cy, sx, sy, moved1, moved2, top, an, v, m0, mc, ms);
  }

  // ----- Blank lines in front of the document -----

  ghost function WithBlanks(doc: seq<Para>, n: nat): (r: seq<Para>)
    ensures |r| == n + |doc| && forall i :: 0 <= i < |doc| ==> r[n + i] == doc[i]
  {
    Splice(doc, 0, Blanks(DEFAULT_ATTR, n))
  }

  /** Each of them is one row. */
  lemma {:induction false} BlankRows(wide: Wide, doc: seq<Para>, width: nat, n: nat, k: nat)
    requires width >= 2 && k <= n + |doc|
    ensures RowsBefore(wide, WithBlanks(doc, n), width, k) ==
      if k <= n then k else n + RowsBefore(wide, doc, width, k - n)
  {
    if k > 0 {
      BlankRows(wide, doc, width, n, k - 1);
      if k <= n {
        assert WithBlanks(doc, n)[k - 1] == Blank(DEFAULT_ATTR);
      } else {
        assert WithBlanks(doc, n)[n + (k - 1 - n)] == doc[k - 1 - n];
      }
    }
  }

  function Lowered(m: Mark, n: nat): Mark { m.(para := m.para + n) }

  function LowerPlace(a: Place, n: nat): Place { a.(para := a.para + n) }

  lemma PlaceBelow(wide: Wide, doc: seq<Para>, width: nat, n: nat, a: Place)
    requires width >= 2 && IsPlace(wide, doc, width, a)
    ensures IsPlace(wide, WithBlanks(doc, n), width, LowerPlace(a, n))
    ensures Index(wide, WithBlanks(doc, n), width, LowerPlace(a, n)) == n + Index(wide, doc, width, a)
    ensures OffsetOf(wide, WithBlanks(doc, n), width, LowerPlace(a, n)) == OffsetOf(wide, doc, width, a)
  {
    BlankRows(wide, doc, width, n, n + a.para);
    assert WithBlanks(doc, n)[n + a.para] == doc[a.para];
  }

  /** New lines in front of the list: handles keep their cells. */
  lemma NamesBelow(hs0: Handles.Memory, order: seq<Ptr>, lists: map<Ptr, seq<Ptr>>, hs: Handles.Memory, brk: Ptr,
                   n: nat, h: Ptr, m: Mark)
    requires Names(hs0, order, lists, h, m.para, m.offset) && hs.node == hs0.node && forall p :: p in order ==> p < brk
    ensures Names(hs, Splice(order, 0, NewLines(brk, n)), WithNewLines(lists, brk, n), h, m.para + n, m.offset)
  {
    assert order[m.para] in order;
  }

  lemma NamesKept(hs0: Handles.Memory, order: seq<Ptr>, lists0: map<Ptr, seq<Ptr>>, hs: Handles.Memory,
                  lists: map<Ptr, seq<Ptr>>, top: Ptr, p: Ptr, h: Ptr, m: Mark)
    requires Names(hs0, order, lists0, h, m.para, m.offset) && h != top && top in hs0.node
    requires Handles.SamePlaces(hs0.SetPlace(top, p, 0), hs)
    requires forall x :: Handles.Registered(hs0, lists0, x) ==> Handles.Registered(hs, lists, x)
    ensures Names(hs, order, lists, h, m.para, m.offset)
  {
    assert Handles.SamePlace(hs0.SetPlace(top, p, 0), hs, h);
  }

  /** The handle of the top of the history moves to the new first line. */
  method RaiseTop(hs0: Handles.Memory, p: Ptr, top: Ptr, ghost an: Anchors, ghost order: seq<Ptr>,
                  ghost lists0: map<Ptr, seq<Ptr>>, ghost first: Mark, ghost cursor: Mark, ghost saved: Mark)
    returns (hs: Handles.Memory, ghost lists: map<Ptr, seq<Ptr>>)
    requires Handles.Ok(hs0, lists0) && |order| > 0 && order[0] == p && p in lists0 && NULL !in lists0
    requires top != NULL && top != an.first && top != an.cursor && top != an.saved
    requires Handles.Registered(hs0, lists0, top)
    requires StackNames(hs0, order, lists0, an, first, cursor, saved)
    ensures Handles.Ok(hs, lists) && lists.Keys == lists0.Keys
    ensures Anchored(hs, order, lists, top, an, first, cursor, saved)
  {
    hs, lists := Handles.Replace(hs0, top, p, 0, lists0);
    assert Handles.SamePlace(hs0.SetPlace(top, p, 0), hs, top);
    NamesKept(hs0, order, lists0, hs, lists, top, p, an.first, first);
    NamesKept(hs0, order, lists0, hs, lists, top, p, an.cursor, cursor);
    NamesKept(hs0, order, lists0, hs, lists, top, p, an.saved, saved);
  }

  lemma AllBelow(hs0: Handles.Memory, order: seq<Ptr>, lists: map<Ptr, seq<Ptr>>, hs: Handles.Memory, brk: Ptr,
                 n: nat, top: Ptr, an: Anchors, first: Mark, cursor: Mark, saved: Mark)
    requires Anchored(hs0, order, lists, top, an, first, cursor, saved) && hs.node == hs0.node
    requires forall p :: p in order ==> p < brk
    ensures Handles.Registered(hs, WithNewLines(lists, brk, n), top)
    ensures StackNames(hs, Splice(order, 0, NewLines(brk, n)), WithNewLines(lists, brk, n), an,
                       Lowered(first, n), Lowered(cursor, n), Lowered(saved, n))
  {
    NamesBelow(hs0, order, lists, hs, brk, n, top, Mark(0, 0));
    NamesBelow(hs0, order, lists, hs, brk, n, an.first, first);
    NamesBelow(hs0, order, lists, hs, brk, n, an.cursor, cursor);
    NamesBelow(hs0, order, lists, hs, brk, n, an.saved, saved);
  }

  /** The lines of it. */
  method NewInFront(st0: Store, n: nat, next: Ptr, ghost v0: View)
    returns (st: Store, ghost order: seq<Ptr>, ghost lists: map<Ptr, seq<Ptr>>)
    requires ListsOk(st0, v0.order, v0.lists) && n > 0 && |st0.spans| > 0 && |v0.order| > 0 && next == v0.order[0]
    ensures order == Splice(v0.order, 0, NewLines(st0.brk, n)) && lists == WithNewLines(v0.lists, st0.brk, n)
    ensures ListsOk(st, order, lists) && |st.spans| == |st0.spans| && order[0] == st0.brk && st0.brk in lists
    ensures NULL !in lists
    ensures Doc(st.line, order) == WithBlanks(Doc(st0.line, v0.order), n) && st.hs.node == st0.hs.node
  {
    Uncut(st0.line, v0.order, {0});
    order := Splice(v0.order, 0, NewLines(st0.brk, n));
    st, lists := InsertLines(st0, NULL, next, 0, DEFAULT_ATTR, n, v0.order, v0.lists, 0);
    assert order[0] == st0.brk && order[0] in order;
  }

  /** create_lines_range in front of the first line: the handle of the top of the history goes
      along, the other handles keep their cells. */
  method AddBlanksInFront(st0: Store, n: nat, top: Ptr, ghost an: Anchors, ghost v0: View, ghost first: Mark,
                          ghost cursor: Mark, ghost saved: Mark)
    returns (st: Store, ghost v: View)
    requires ListsOk(st0, v0.order, v0.lists) && n > 0 && |st0.spans| > 0 && |v0.order| > 0
    requires Anchored(st0.hs, v0.order, v0.lists, top, an, first, cursor, saved)
    ensures ListsOk(st, v.order, v.lists) && |st.spans| == |st0.spans| && |v.order| == n + |v0.order|
    ensures Doc(st.line, v.order) == WithBlanks(Doc(st0.line, v0.order), n)
    ensures Anchored(st.hs, v.order, v.lists, top, an, Lowered(first, n), Lowered(cursor, n), Lowered(saved, n))
  {
    ghost var order, lists;
    st, order, lists := NewInFront(st0, n, st0.hs.node[top].line, v0);
    AllBelow(st0.hs, v0.order, v0.lists, st.hs, st0.brk, n, top, an, first, cursor, saved);
    var hs;
    hs, lists := RaiseTop(st.hs, st0.brk, top, an, order, lists, Lowered(first, n), Lowered(cursor, n),
                          Lowered(saved, n));
    st := st.(hs := hs);
    v := View(order, lists, v0.rows);
  }

  // ----- The row that comes to the top of the screen -----

  /** From the cursor's row at the new width, as many rows up as the cursor is below the top of the
      screen; blank lines are put in front if there are not enough. */
  method FindTop(wide: Wide, st0: Store, cy: nat, width: nat, top: Ptr, an: Anchors, ghost v0: View,
                 ghost first: Mark, ghost cursor: Mark, ghost saved: Mark)
    returns (st: Store, it: Pos, n: nat, ghost v: View, ghost a: Place, ghost b: Place)
    requires width >= 2 && ListsOk(st0, v0.order, v0.lists) && |st0.spans| > 0 && |v0.order| > 0
    requires Anchored(st0.hs, v0.order, v0.lists, top, an, first, cursor, saved)
    requires cursor.offset < |Doc(st0.line, v0.order)[cursor.para].text|
    ensures ListsOk(st, v.order, v.lists) && |st.spans| == |st0.spans|
    ensures Doc(st.line, v.order) == WithBlanks(Doc(st0.line, v0.order), n)
    ensures Anchored(st.hs, v.order, v.lists, top, an, Lowered(first, n), Lowered(cursor, n), Lowered(saved, n))
    ensures At(wide, st.line, v.order, width, it, b) && IsPlace(wide, Doc(st.line, v.order), width, a)
    ensures a.para == cursor.para + n && RowHolds(wide, Doc(st.line, v.order)[a.para].text, width, a.row, cursor.offset)
    ensures Index(wide, Doc(st.line, v.order), width, a) == Index(wide, Doc(st.line, v.order), width, b) + cy
    ensures n > 0 ==> b == Place(0, 0)
  {
    ghost var doc := Doc(st0.line, v0.order);
    assert v0.order[cursor.para] in v0.order && v0.order[cursor.para] in st0.line;
    var at := st0.hs.node[an.cursor];
    var offset;
    ghost var row;
    offset, row := RoundOffset(wide, st0.line[at.line].para.text, at.offset, width);
    a := Place(cursor.para, row);
    var rest;
    it, rest, b := ShiftN(wide, st0.line, Pos(at.line, offset), 0 - cy, width, v0.order, a);
    st, v, n := st0, v0, 0;
    IndexOrders(wide, doc, width, a, b);
    if rest < 0 {
      n := 0 - rest;
      st, v := AddBlanksInFront(st0, n, top, an, v0, first, cursor, saved);
      PlaceBelow(wide, doc, width, n, a);
      a := LowerPlace(a, n);
      b := Place(0, 0);
      it := Pos(st.hs.node[top].line, 0);
    } else {
      NoBlanks(doc, first, cursor, saved);
    }
  }

  lemma NoBlanks(doc: seq<Para>, first: Mark, cursor: Mark, saved: Mark)
    ensures WithBlanks(doc, 0) == doc && Lowered(first, 0) == first && Lowered(cursor, 0) == cursor
    ensures Lowered(saved, 0) == saved
  {
  }

  // ----- Where the cursors go -----

  /** Row e holds the cell. */
  ghost predicate Holds(wide: Wide, doc: seq<Para>, width: nat, e: Place, m: Mark)
    requires width >= 2
  {
    && IsPlace(wide, doc, width, e) && e.para == m.para
    && RowHolds(wide, doc[e.para].text, width, e.row, m.offset)
  }

  /** Rows that hold cells are in the order of the cells. */
  lemma HeldInFront(wide: Wide, doc: seq<Para>, width: nat, e: Place, m: Mark, b: Place)
    requires width >= 2 && Holds(wide, doc, width, e, m) && IsPlace(wide, doc, width, b)
    ensures m.para < b.para || (m.para == b.para && m.offset < OffsetOf(wide, doc, width, b)) <==>
            Index(wide, doc, width, e) < Index(wide, doc, width, b)
  {
    IndexOrders(wide, doc, width, e, b);
    if e.para == b.para {
      if b.row < e.row {
        StartsIncrease(wide, doc[e.para].text, width, b.row, e.row);
      } else if e.row < b.row {
        if e.row + 1 < b.row {
          StartsIncrease(wide, doc[e.para].text, width, e.row + 1, b.row);
        }
      }
    }
  }

  lemma HeldOnce(wide: Wide, doc: seq<Para>, width: nat, e: Place, e2: Place, m: Mark)
    requires width >= 2 && Holds(wide, doc, width, e, m) && Holds(wide, doc, width, e2, m)
    ensures e == e2
  {
    RowHoldsOnce(wide, doc[e.para].text, width, e.row, e2.row, m.offset);
  }

  /** translate_screen_position for a cell of the text that is held by row e. */
  method Locate(wide: Wide, st: Store, it: Pos, h: Ptr, x0: int, y0: int, width: nat, ghost v: View, ghost b: Place,
                ghost m: Mark, ghost e: Place)
    returns (x: int, y: int)
    requires width >= 2 && ListsOk(st, v.order, v.lists) && At(wide, st.line, v.order, width, it, b)
    requires Names(st.hs, v.order, v.lists, h, m.para, m.offset) && Holds(wide, Doc(st.line, v.order), width, e, m)
    ensures var doc := Doc(st.line, v.order);
      var d := Index(wide, doc, width, e) - Index(wide, doc, width, b);
      if d >= 0 then y == d && x == m.offset - OffsetOf(wide, doc, width, e) else y >= 0
    ensures x0 >= 0 ==> 0 <= x < width
  {
    ghost var doc := Doc(st.line, v.order);
    HeldInFront(wide, doc, width, e, m, b);
    var target := Pos(st.hs.node[h].line, st.hs.node[h].offset);
    ghost var c;
    x, y, c := Translate(wide, st.line, it, target, x0, y0, width, v.order, st.nextSeqno, b, m.para);
    if Index(wide, doc, width, e) >= Index(wide, doc, width, b) {
      HeldOnce(wide, doc, width, e, c, m);
    }
  }

  /** Both cursors are translated; if the one in use would fall off the bottom of the screen, the
      screen starts as many rows further down. */
  method SettleCursors(wide: Wide, st: Store, it0: Pos, cx: int, cy: nat, sx: nat, sy: int, width: nat, height: nat,
                       an: Anchors, ghost top: Ptr, ghost v: View, ghost b: Place, ghost first: Mark,
                       ghost cursor: Mark, ghost saved: Mark, ghost a: Place, ghost e: Place)
    returns (it: Pos, x: int, y: int, x2: int, y2: int, ghost t: Place)
    requires width >= 2 && height > 0 && ListsOk(st, v.order, v.lists) && At(wide, st.line, v.order, width, it0, b)
    requires Anchored(st.hs, v.order, v.lists, top, an, first, cursor, saved)
    requires Holds(wide, Doc(st.line, v.order), width, a, cursor) && Holds(wide, Doc(st.line, v.order), width, e, saved)
    requires Index(wide, Doc(st.line, v.order), width, a) == Index(wide, Doc(st.line, v.order), width, b) + cy
    ensures At(wide, st.line, v.order, width, it, t)
    ensures var doc := Doc(st.line, v.order);
      && y == (if cy < height then cy else height - 1)
      && Index(wide, doc, width, a) == Index(wide, doc, width, t) + y
      && x == cursor.offset - OffsetOf(wide, doc, width, a)
      && 0 <= y2 < height && 0 <= x2 < width
      && var d := Index(wide, doc, width, e) - Index(wide, doc, width, t);
         (0 <= d < height ==> y2 == d && x2 == saved.offset - OffsetOf(wide, doc, width, e))
  {
    ghost var doc := Doc(st.line, v.order);
    it, t := it0, b;
    x2, y2 := Locate(wide, st, it, an.saved, sx, sy, width, v, b, saved, e);
    x, y := Locate(wide, st, it, an.cursor, cx, cy, width, v, b, cursor, a);
    IndexOrders(wide, doc, width, a, b);
    if y >= height {
      var delta := y - (height - 1);
      y := y - delta;
      y2 := if y2 - delta > 0 then y2 - delta else 0;
      var rest;
      it, rest, t := ShiftN(wide, st.line, it, delta, width, v.order, b);
    }
    y2 := if y2 < height - 1 then y2 else height - 1;
  }

  // ----- The new rows -----

  /** The first slots show the rows. */
  ghost predicate SlotsShow(spans: seq<Span>, rows: seq<Row>, order: seq<Ptr>) {
    && |rows| <= |spans|
    && forall j :: 0 <= j < |rows| ==>
         rows[j].para < |order| && spans[j] == Span(order[rows[j].para], rows[j].offset, rows[j].width)
  }

  /** The span loop of resize_main_screen: from it on, one row after the other, until the screen is
      full or the document ends. */
  method Layout(wide: Wide, line: Heap, it0: Pos, spans0: seq<Span>, width: nat, ghost order: seq<Ptr>, ghost t: Place)
    returns (spans: seq<Span>, y: nat, ghost rows: seq<Row>, ghost places: seq<Place>)
    requires width >= 2 && LinksOk(line, order) && At(wide, line, order, width, it0, t) && |spans0| > 0
    ensures |spans| == |spans0| && 0 < y == |rows| <= |spans| && SlotsShow(spans, rows, order)
    ensures Wrapped(wide, Doc(line, order), width, rows, places, Index(wide, Doc(line, order), width, t))
    ensures y < |spans| ==> Index(wide, Doc(line, order), width, t) + y == RowTotal(wide, Doc(line, order), width)
  {
    ghost var doc, i0 := Doc(line, order), Index(wide, Doc(line, order), width, t);
    spans, y, rows, places := spans0, 0, [], [];
    var it, ended := it0, false;
    ghost var a := t;
    while y < |spans0| && !ended
      invariant |spans| == |spans0| && y == |rows| <= |spans| && SlotsShow(spans, rows, order)
      invariant Wrapped(wide, doc, width, rows, places, i0) && At(wide, line, order, width, it, a)
      invariant !ended ==> Index(wide, doc, width, a) == i0 + y
      invariant ended ==> y > 0 && i0 + y == RowTotal(wide, doc, width)
      decreases |spans0| - y
    {
      assert order[a.para] in line && line[order[a.para]].para == doc[a.para];
      var end := Advance(wide, line[it.line].para.text, it.offset, width);
      RowOfFits(wide, doc, width, a);
      ghost var r := RowOf(wide, doc, width, a);
      assert end == r.offset + r.width;
      var w := end - it.offset;
      spans := spans[y := Span(it.line, it.offset, w)];
      ghost var rows1, places1 := rows, places;
      rows, places := rows + [r], places + [a];
      OneRowMore(wide, doc, width, rows1, places1, i0, r, a);
      y := y + 1;
      it, ended, a := SpanShift(wide, line, it, width, order, a);
    }
  }

  lemma OneRowMore(wide: Wide, doc: seq<Para>, width: nat, rows: seq<Row>, places: seq<Place>, i0: nat, r: Row,
                   a: Place)
    requires Wrapped(wide, doc, width, rows, places, i0) && IsPlace(wide, doc, width, a)
    requires r == RowOf(wide, doc, width, a) && Index(wide, doc, width, a) == i0 + |rows|
    ensures Wrapped(wide, doc, width, rows + [r], places + [a], i0)
  {
    var rows_, places_ := rows + [r], places + [a];
    forall j | 0 <= j < |rows_|
      ensures WrappedAt(wide, doc, width, rows_, places_, i0, j)
    {
      if j < |rows| {
        assert WrappedAt(wide, doc, width, rows, places, i0, j);
      }
    }
  }

  // ----- The end of the document -----

  lemma LaidOut(wide: Wide, st: Store, order: seq<Ptr>, lists: map<Ptr, seq<Ptr>>, width: nat, rows: seq<Row>,
                places: seq<Place>, i0: nat)
    requires ListsOk(st, order, lists) && SlotsShow(st.spans, rows, order) && |st.spans| == |rows|
    requires Wrapped(wide, Doc(st.line, order), width, rows, places, i0)
    ensures Stores.Valid(st, View(order, lists, rows))
  {
    WrappedChained(wide, Doc(st.line, order), width, rows, places, i0);
    ChainedSorted(rows);
    forall j | 0 <= j < |st.spans|
      ensures SpanAt(st.spans, rows, order, j)
    {
      assert st.spans[j] == Span(order[rows[j].para], rows[j].offset, rows[j].width);
    }
  }

  /** Cutting behind the last row moves no row. */
  lemma NoRowBehind(rows: seq<Row>)
    requires Chained(rows) && |rows| > 0 && rows[|rows| - 1].width > 0
    ensures var r := rows[|rows| - 1]; SplitRows(rows, r.para, r.offset + r.width) == rows
  {
    var last := |rows| - 1;
    var rows_ := SplitRows(rows, rows[last].para, rows[last].offset + rows[last].width);
    forall j | 0 <= j < |rows|
      ensures rows_[j] == rows[j]
    {
      if j < last {
        RowsInOrder(rows, j, last);
      }
    }
  }

  /** A handle that line_handle_remove can take: registered, or pointing nowhere. */
  ghost predicate Loose(hs: Handles.Memory, lists: map<Ptr, seq<Ptr>>, h: Ptr) {
    h in hs.node && (hs.node[h].line == NULL || Handles.Registered(hs, lists, h))
  }

  ghost predicate StackLoose(hs: Handles.Memory, lists: map<Ptr, seq<Ptr>>, an: Anchors) {
    Loose(hs, lists, an.first) && Loose(hs, lists, an.cursor) && Loose(hs, lists, an.saved)
  }

  ghost predicate StackRegistered(hs: Handles.Memory, lists: map<Ptr, seq<Ptr>>, an: Anchors) {
    && Handles.Registered(hs, lists, an.first) && Handles.Registered(hs, lists, an.cursor)
    && Handles.Registered(hs, lists, an.saved)
  }

  /** Splitting a line behind its start leaves the handle of the top of the history in place. */
  lemma HandlesBehindCut(hs0: Handles.Memory, v0: View, hs: Handles.Memory, v: View, src: Ptr, tail: Ptr, cut: nat,
                         top: Ptr, an: Anchors)
    requires TopOk(hs0, v0, top) && StackRegistered(hs0, v0.lists, an) && cut > 0
    requires Handles.Moved(hs0, v0.lists, hs, v.lists, src, tail, cut, 0 - cut)
    requires |v.order| > 0 && v.order[0] == v0.order[0]
    ensures TopOk(hs, v, top) && StackRegistered(hs, v.lists, an)
  {
  }

  lemma LastRow(wide: Wide, doc: seq<Para>, width: nat, rows: seq<Row>, places: seq<Place>, i0: nat)
    requires Wrapped(wide, doc, width, rows, places, i0) && |rows| > 0
    ensures var r := rows[|rows| - 1];
      && RowFits(r, doc, width)
      && (r.offset + r.width != |doc[r.para].text| ==>
            r.width > 0 && SplitRows(rows, r.para, r.offset + r.width) == rows)
  {
    var last := |rows| - 1;
    WrappedChained(wide, doc, width, rows, places, i0);
    assert WrappedAt(wide, doc, width, rows, places, i0, last);
    RowOfFits(wide, doc, width, places[last]);
    if rows[last].width > 0 {
      NoRowBehind(rows);
    }
  }

  lemma CutIsHead(doc: seq<Para>, r: Row, doc2: seq<Para>)
    requires r.para < |doc| && r.offset + r.width <= |doc[r.para].text|
    requires if r.offset + r.width == |doc[r.para].text| then doc2 == doc
             else doc2 == SplitDoc(doc, r.para, r.offset + r.width)
    ensures r.para < |doc2| && CutBehind(doc, r, doc2[..r.para + 1])
  {
  }

  /** The last visible row ends its line: what is behind it in the line is split off. */
  method SplitBelow(wide: Wide, st0: Store, ghost top: Ptr, ghost an: Anchors, ghost v0: View, ghost width: nat,
                    ghost places: seq<Place>, ghost i0: nat, ghost r: Row)
    returns (st: Store, ghost v: View)
    requires Stores.Valid(st0, v0) && |st0.spans| == |v0.rows| > 0 && TopOk(st0.hs, v0, top)
    requires Wrapped(wide, Doc(st0.line, v0.order), width, v0.rows, places, i0) && r == v0.rows[|v0.rows| - 1]
    requires StackRegistered(st0.hs, v0.lists, an)
    ensures Stores.Valid(st, v) && |st.spans| == |v.rows| && v.rows == v0.rows
    ensures TopOk(st.hs, v, top) && StackRegistered(st.hs, v.lists, an)
    ensures r.para < |v.order| && CutBehind(Doc(st0.line, v0.order), r, Doc(st.line, v.order)[..r.para + 1])
  {
    ghost var doc := Doc(st0.line, v0.order);
    var last := st0.spans[|st0.spans| - 1];
    SpansInLists(st0, v0, |v0.rows| - 1);
    LastRow(wide, doc, width, v0.rows, places, i0);
    assert SpanAt(st0.spans, v0.rows, v0.order, |v0.rows| - 1);
    var cut := last.offset + last.width;
    if |st0.line[last.line].para.text| != cut {
      st, v := SplitTail(st0, last.line, cut, top, an, v0, r.para);
    } else {
      st, v := st0, v0;
    }
    CutIsHead(doc, r, Doc(st.line, v.order));
  }

  /** The split itself, behind the start of a line. */
  method SplitTail(st0: Store, src: Ptr, cut: nat, ghost top: Ptr, ghost an: Anchors, ghost v0: View, ghost k: nat)
    returns (st: Store, ghost v: View)
    requires Stores.Valid(st0, v0) && TopOk(st0.hs, v0, top) && StackRegistered(st0.hs, v0.lists, an)
    requires k < |v0.order| && v0.order[k] == src && src in st0.line && 0 < cut <= |st0.line[src].para.text|
    requires SplitRows(v0.rows, k, cut) == v0.rows
    ensures Stores.Valid(st, v) && |st.spans| == |st0.spans| && v.rows == v0.rows && |v.order| == |v0.order| + 1
    ensures TopOk(st.hs, v, top) && StackRegistered(st.hs, v.lists, an)
    ensures cut <= |Doc(st0.line, v0.order)[k].text|
    ensures Doc(st.line, v.order) == SplitDoc(Doc(st0.line, v0.order), k, cut)
  {
    var tail;
    st, tail, v := SplitLine(st0, src, cut, v0, k);
    assert v.order[0] == v0.order[0];
    HandlesBehindCut(st0.hs, v0, st.hs, v, src, tail, cut, top, an);
  }

  /** Lines that are left keep their handles; the handles of the others point nowhere. */
  lemma HandlesSpared(hs0: Handles.Memory, v0: View, hs: Handles.Memory, v: View, top: Ptr, an: Anchors)
    requires TopOk(hs0, v0, top) && StackRegistered(hs0, v0.lists, an)
    requires Handles.Spared(hs0, v0.lists, hs, v.lists)
    requires |v.order| > 0 && v.order[0] == v0.order[0] && v.order[0] in v.lists
    ensures TopOk(hs, v, top) && StackLoose(hs, v.lists, an)
  {
  }

  lemma FewerLines(spans: seq<Span>, rows: seq<Row>, order: seq<Ptr>, k: nat)
    requires SpansOk(spans, rows, order) && |spans| == |rows| && k <= |order|
    requires forall j :: 0 <= j < |rows| ==> rows[j].para < k
    ensures SpansOk(spans, rows, order[..k])
  {
    var order_ := order[..k];
    forall j | 0 <= j < |spans|
      ensures SpanAt(spans, rows, order_, j)
    {
      assert SpanAt(spans, rows, order, j);
    }
  }

  /** The lines below the screen are freed. */
  method FreeBelow(st0: Store, ghost top: Ptr, ghost an: Anchors, ghost v0: View, ghost r: Row)
    returns (st: Store, ghost v: View)
    requires Stores.Valid(st0, v0) && |st0.spans| == |v0.rows| > 0 && TopOk(st0.hs, v0, top)
    requires StackRegistered(st0.hs, v0.lists, an)
    requires Chained(v0.rows) && r == v0.rows[|v0.rows| - 1] && r.para < |v0.order|
    ensures Stores.Valid(st, v) && |st.spans| == |v.rows| && v.rows == v0.rows
    ensures TopOk(st.hs, v, top) && StackLoose(st.hs, v.lists, an)
    ensures Doc(st.line, v.order) == Doc(st0.line, v0.order)[..r.para + 1]
  {
    var last := st0.spans[|st0.spans| - 1];
    ghost var k := r.para + 1;
    SpansInLists(st0, v0, |v0.rows| - 1);
    assert LinkedAt(st0.line, v0.order, r.para);
    ghost var lists;
    st, lists := FreeTail(st0, st0.line[last.line].next, v0.order, v0.lists, k);
    v := View(v0.order[..k], lists, v0.rows);
    forall j | 0 <= j < |v0.rows|
      ensures v0.rows[j].para < k
    {
      if j < |v0.rows| - 1 {
        RowsInOrder(v0.rows, j, |v0.rows| - 1);
      }
    }
    FewerLines(st.spans, v0.rows, v0.order, k);
    assert v.order[0] in v.order;
    HandlesSpared(st0.hs, v0, st.hs, v, top, an);
  }

  /** A full screen: the document ends behind its last row. */
  method CutOff(wide: Wide, st0: Store, ghost top: Ptr, ghost an: Anchors, ghost v0: View, ghost width: nat,
                ghost places: seq<Place>, ghost i0: nat)
    returns (st: Store, ghost v: View)
    requires ListsOk(st0, v0.order, v0.lists) && |st0.spans| == |v0.rows| > 0 && SlotsShow(st0.spans, v0.rows, v0.order)
    requires Wrapped(wide, Doc(st0.line, v0.order), width, v0.rows, places, i0)
    requires TopOk(st0.hs, v0, top) && StackRegistered(st0.hs, v0.lists, an)
    ensures SpansFit(st, v, width) && v.rows == v0.rows && TopOk(st.hs, v, top) && StackLoose(st.hs, v.lists, an)
    ensures Wrapped(wide, Doc(st.line, v.order), width, v.rows, places, i0)
    ensures CutBehind(Doc(st0.line, v0.order), v0.rows[|v0.rows| - 1], Doc(st.line, v.order))
  {
    ghost var r, doc := v0.rows[|v0.rows| - 1], Doc(st0.line, v0.order);
    LaidOut(wide, st0, v0.order, v0.lists, width, v0.rows, places, i0);
    WrappedChained(wide, doc, width, v0.rows, places, i0);
    st, v := SplitBelow(wide, st0, top, an, v0, width, places, i0, r);
    st, v := FreeBelow(st, top, an, v, r);
    WrappedCut(wide, doc, Doc(st.line, v.order), width, v.rows, places, i0);
    WrappedChained(wide, Doc(st.line, v.order), width, v.rows, places, i0);
  }

  /** The last row of the document is in its last paragraph. */
  lemma LastPlace(wide: Wide, doc: seq<Para>, width: nat, a: Place)
    requires width >= 2 && IsPlace(wide, doc, width, a) && Index(wide, doc, width, a) + 1 == RowTotal(wide, doc, width)
    ensures a.para == |doc| - 1
  {
    var z := Place(|doc| - 1, RowCount(wide, doc[|doc| - 1].text, width) - 1);
    IndexOrders(wide, doc, width, a, z);
  }

  lemma FilledSpans(spans0: seq<Span>, spans: seq<Span>, rows: seq<Row>, order: seq<Ptr>, brk: Ptr, n: nat)
    requires SlotsShow(spans0, rows, order) && |spans| == |spans0| == |rows| + n && NULL < brk
    requires forall j :: 0 <= j < |spans| ==>
      spans[j] == if |rows| <= j < |rows| + n then Span(brk + (j - |rows|), 0, 0) else spans0[j]
    ensures SlotsShow(spans, rows + BlankRowsFrom(|order|, n), Splice(order, |order|, NewLines(brk, n)))
  {
    var rows_, order_ := rows + BlankRowsFrom(|order|, n), Splice(order, |order|, NewLines(brk, n));
    forall j | 0 <= j < |rows_|
      ensures rows_[j].para < |order_| && spans[j] == Span(order_[rows_[j].para], rows_[j].offset, rows_[j].width)
    {
      if j < |rows| {
        assert spans0[j] == Span(order[rows[j].para], rows[j].offset, rows[j].width);
      }
    }
  }

  /** Handles on lines that were there stay registered when lines are added. */
  lemma HandlesBesideNew(hs0: Handles.Memory, lists: map<Ptr, seq<Ptr>>, hs: Handles.Memory, brk: Ptr, n: nat,
                         an: Anchors)
    requires StackRegistered(hs0, lists, an) && hs.node == hs0.node && forall p :: p in lists ==> p < brk
    ensures StackLoose(hs, WithNewLines(lists, brk, n), an)
  {
  }

  /** create_lines_range behind the last line, shown from slot y on. */
  method AppendBlanks(st0: Store, y: nat, ghost rows: seq<Row>, ghost order0: seq<Ptr>,
                      ghost lists0: map<Ptr, seq<Ptr>>, ghost n: nat)
    returns (st: Store, ghost order: seq<Ptr>, ghost lists: map<Ptr, seq<Ptr>>)
    requires ListsOk(st0, order0, lists0) && 0 < y == |rows| < |st0.spans| == y + n
    requires SlotsShow(st0.spans, rows, order0)
    requires rows[y - 1].para == |order0| - 1
    ensures ListsOk(st, order, lists) && st.hs.node == st0.hs.node && |st.spans| == |st0.spans|
    ensures order == Splice(order0, |order0|, NewLines(st0.brk, n)) && lists == WithNewLines(lists0, st0.brk, n)
    ensures Doc(st.line, order) == Doc(st0.line, order0) + Blanks(DEFAULT_ATTR, n)
    ensures SlotsShow(st.spans, rows + BlankRowsFrom(|order0|, n), order)
  {
    ghost var k := |order0|;
    Uncut(st0.line, order0, {k});
    order := Splice(order0, k, NewLines(st0.brk, n));
    st, lists := InsertLines(st0, st0.spans[y - 1].line, NULL, y, DEFAULT_ATTR, |st0.spans| - y, order0, lists0, k);
    assert Splice(Doc(st0.line, order0), k, Blanks(DEFAULT_ATTR, n)) == Doc(st0.line, order0) + Blanks(DEFAULT_ATTR, n);
    FilledSpans(st0.spans, st.spans, rows, order0, st0.brk, n);
  }

  /** A screen that is not full: blank lines behind the document fill it. */
  method FillScreen(wide: Wide, st0: Store, y: nat, ghost top: Ptr, ghost an: Anchors, ghost v0: View,
                    ghost width: nat, ghost places: seq<Place>, ghost i0: nat, ghost n: nat)
    returns (st: Store, ghost v: View)
    requires ListsOk(st0, v0.order, v0.lists) && 0 < y == |v0.rows| < |st0.spans| == y + n
    requires SlotsShow(st0.spans, v0.rows, v0.order)
    requires Wrapped(wide, Doc(st0.line, v0.order), width, v0.rows, places, i0)
    requires i0 + y == RowTotal(wide, Doc(st0.line, v0.order), width)
    requires TopOk(st0.hs, v0, top) && StackRegistered(st0.hs, v0.lists, an)
    ensures Stores.Valid(st, v) && |st.spans| == |v.rows| == |st0.spans|
    ensures TopOk(st.hs, v, top) && StackLoose(st.hs, v.lists, an)
    ensures Doc(st.line, v.order) == Doc(st0.line, v0.order) + Blanks(DEFAULT_ATTR, n)
    ensures v.rows == v0.rows + BlankRowsFrom(|v0.order|, n)
    ensures Wrapped(wide, Doc(st.line, v.order), width, v.rows, places + BlankPlaces(|v0.order|, n), i0)
  {
    ghost var doc, k := Doc(st0.line, v0.order), |v0.order|;
    assert WrappedAt(wide, doc, width, v0.rows, places, i0, y - 1);
    LastPlace(wide, doc, width, places[y - 1]);
    ghost var order, lists;
    st, order, lists := AppendBlanks(st0, y, v0.rows, v0.order, v0.lists, n);
    v := View(order, lists, v0.rows + BlankRowsFrom(k, n));
    WrappedMore(wide, doc, width, v0.rows, places, i0, DEFAULT_ATTR, n);
    LaidOut(wide, st, order, lists, width, v.rows, places + BlankPlaces(k, n), i0);
    assert v0.order[0] in v0.order;
    History.TopKept(st0.hs, st.hs, v0, v, top, st0.brk, k, n);
    HandlesBesideNew(st0.hs, v0.lists, st.hs, st0.brk, n, an);
  }

  // ----- The whole of it -----

  /** The screen shows the document from row i0 on, each row as full as the document allows, and ends
      with it: what was behind the screen is gone, or blank lines fill it up. */
  ghost predicate LaidFrom(wide: Wide, doc0: seq<Para>, width: nat, i0: nat, doc: seq<Para>, rows: seq<Row>,
                           places: seq<Place>) {
    && |rows| > 0 && Wrapped(wide, doc, width, rows, places, i0) && RowsFilled(wide, doc0, width, rows)
    && if i0 + |rows| <= RowTotal(wide, doc0, width) then CutBehind(doc0, rows[|rows| - 1], doc)
       else doc == doc0 + Blanks(DEFAULT_ATTR, i0 + |rows| - RowTotal(wide, doc0, width))
  }

  lemma RowsWithin(wide: Wide, doc: seq<Para>, width: nat, rows: seq<Row>, places: seq<Place>, i0: nat)
    requires Wrapped(wide, doc, width, rows, places, i0) && |rows| > 0
    ensures i0 + |rows| <= RowTotal(wide, doc, width)
  {
    var last := |rows| - 1;
    assert WrappedAt(wide, doc, width, rows, places, i0, last);
    IndexOrders(wide, doc, width, places[last], places[last]);
  }

  /** The row of the cursor is on the screen, and the cursor is on its cell. */
  lemma CursorShown(wide: Wide, doc: seq<Para>, width: nat, rows: seq<Row>, places: seq<Place>, i0: nat, a: Place,
                    m: Mark, y: nat)
    requires Wrapped(wide, doc, width, rows, places, i0) && Holds(wide, doc, width, a, m) && y < |rows|
    requires Index(wide, doc, width, a) == i0 + y
    ensures rows[y].para == m.para && rows[y].offset == OffsetOf(wide, doc, width, a)
    ensures rows[y].offset <= m.offset < rows[y].offset + rows[y].width
  {
    assert WrappedAt(wide, doc, width, rows, places, i0, y);
    IndexOrders(wide, doc, width, a, places[y]);
    RowOfFits(wide, doc, width, a);
  }

  lemma FilledBelow(wide: Wide, doc: seq<Para>, width: nat, rows: seq<Row>, places: seq<Place>, i0: nat, n: nat)
    requires Wrapped(wide, doc + Blanks(DEFAULT_ATTR, n), width, rows, places, i0)
    ensures RowsFilled(wide, doc, width, rows)
  {
    WrappedFilled(wide, doc + Blanks(DEFAULT_ATTR, n), width, rows, places, i0);
    forall j | 0 <= j < |rows|
      ensures RowFilled(wide, doc, width, rows[j])
    {
      assert RowFilled(wide, doc + Blanks(DEFAULT_ATTR, n), width, rows[j]);
    }
    forall j | 0 < j < |rows| && rows[j].para != rows[j - 1].para
      ensures EndsText(doc, rows[j - 1])
    {
      assert EndsText(doc + Blanks(DEFAULT_ATTR, n), rows[j - 1]);
    }
  }

  method LayOutScreen(wide: Wide, st0: Store, it: Pos, width: nat, ghost top: Ptr, ghost an: Anchors, ghost v0: View,
                      ghost t: Place)
    returns (st: Store, ghost v: View, ghost places: seq<Place>, ghost rows1: seq<Row>, ghost places1: seq<Place>)
    requires width >= 2 && ListsOk(st0, v0.order, v0.lists) && At(wide, st0.line, v0.order, width, it, t)
    requires |st0.spans| > 0
    requires TopOk(st0.hs, v0, top) && StackRegistered(st0.hs, v0.lists, an)
    ensures SpansFit(st, v, width) && |st.spans| == |st0.spans| && TopOk(st.hs, v, top)
    ensures StackLoose(st.hs, v.lists, an)
    ensures LaidFrom(wide, Doc(st0.line, v0.order), width, Index(wide, Doc(st0.line, v0.order), width, t),
                     Doc(st.line, v.order), v.rows, places)
    ensures Wrapped(wide, Doc(st0.line, v0.order), width, rows1, places1,
                    Index(wide, Doc(st0.line, v0.order), width, t))
    ensures 0 < |rows1| <= |v.rows| && forall j :: 0 <= j < |rows1| ==> v.rows[j] == rows1[j]
    ensures |rows1| < |v.rows| ==>
      Index(wide, Doc(st0.line, v0.order), width, t) + |rows1| == RowTotal(wide, Doc(st0.line, v0.order), width)
  {
    ghost var doc := Doc(st0.line, v0.order);
    ghost var i0 := Index(wide, doc, width, t);
    var spans, y;
    spans, y, rows1, places1 := Layout(wide, st0.line, it, st0.spans, width, v0.order, t);
    RowsWithin(wide, doc, width, rows1, places1, i0);
    var st1 := st0.(spans := spans);
    ghost var v1 := v0.(rows := rows1);
    if y >= |spans| {
      WrappedFilled(wide, doc, width, rows1, places1, i0);
      st, v := CutOff(wide, st1, top, an, v1, width, places1, i0);
      places := places1;
    } else {
      ghost var n: nat := |spans| - y;
      st, v := FillScreen(wide, st1, y, top, an, v1, width, places1, i0, n);
      places := places1 + BlankPlaces(|v0.order|, n);
      WrappedChained(wide, Doc(st.line, v.order), width, v.rows, places, i0);
      FilledBelow(wide, doc, width, v.rows, places, i0, n);
    }
  }

  /** line_handle_remove for a handle on the stack: no other handle changes. */
  method RemoveLoose(hs0: Handles.Memory, h: Ptr, ghost lists0: map<Ptr, seq<Ptr>>)
    returns (hs: Handles.Memory, ghost lists: map<Ptr, seq<Ptr>>)
    requires Handles.Ok(hs0, lists0) && Loose(hs0, lists0, h) && NULL !in lists0
    ensures Handles.Ok(hs, lists) && lists.Keys == lists0.Keys && Handles.SamePlaces(hs0, hs)
    ensures forall x :: x != h && Handles.Registered(hs0, lists0, x) ==> Handles.Registered(hs, lists, x)
    ensures forall x :: x != h && Loose(hs0, lists0, x) ==> Loose(hs, lists, x)
  {
    hs := Handles.Remove(hs0, h, lists0);
    ghost var l: Ptr := hs0.node[h].line;
    lists := if l == NULL then lists0 else lists0[l := Drop(lists0[l], IndexOf(lists0[l], h))];
    forall x | x != h && Handles.Registered(hs0, lists0, x)
      ensures Handles.Registered(hs, lists, x)
    {
      assert Handles.SamePlace(hs0, hs, x);
      if l != NULL {
        assert Handles.ListOk(hs0, lists0[l], l);
        InDrop(lists0[l], IndexOf(lists0[l], h), x);
      }
    }
    forall x | x != h && Loose(hs0, lists0, x)
      ensures Loose(hs, lists, x)
    {
      assert Handles.SamePlace(hs0, hs, x);
    }
  }

  /** The stack handles are taken off their lists. */
  method RemoveAnchors(st0: Store, an: Anchors, ghost top: Ptr, ghost v0: View) returns (st: Store, ghost v: View)
    requires Stores.Valid(st0, v0) && TopOk(st0.hs, v0, top) && StackLoose(st0.hs, v0.lists, an)
    requires top != an.first && top != an.cursor && top != an.saved
    requires an.first != an.cursor && an.first != an.saved && an.cursor != an.saved
    ensures Stores.Valid(st, v) && st == st0.(hs := st.hs) && v == v0.(lists := v.lists) && TopOk(st.hs, v, top)
  {
    var hs1;
    ghost var lists1;
    hs1, lists1 := RemoveLoose(st0.hs, an.cursor, v0.lists);
    var hs2;
    ghost var lists2;
    hs2, lists2 := RemoveLoose(hs1, an.saved, lists1);
    var hs3;
    ghost var lists3;
    hs3, lists3 := RemoveLoose(hs2, an.first, lists2);
    assert Handles.SamePlace(st0.hs, hs1, top) && Handles.SamePlace(hs1, hs2, top) && Handles.SamePlace(hs2, hs3, top);
    st := st0.(hs := hs3);
    v := v0.(lists := lists3);
  }

  /** The first half of resize_main_screen, up to the new cursor positions. */
  method Rewrap(wide: Wide, st0: Store, width: nat, height: nat, cx: nat, cy: nat, sx: nat, sy: nat, top: Ptr,
                an: Anchors, ghost v0: View, ghost first: Mark, ghost cursor: Mark, ghost saved: Mark)
    returns (st: Store, it: Pos, n: nat, x: int, y: int, x2: int, y2: int, ghost v: View, ghost t: Place,
             ghost a: Place, ghost e: Place)
    requires width >= 2 && height > 0 && ListsOk(st0, v0.order, v0.lists) && |st0.spans| == height && |v0.order| > 0
    requires Anchored(st0.hs, v0.order, v0.lists, top, an, first, cursor, saved)
    requires cursor.offset < |Doc(st0.line, v0.order)[cursor.para].text|
    requires saved.offset < |Doc(st0.line, v0.order)[saved.para].text|
    ensures ListsOk(st, v.order, v.lists) && |st.spans| == height
    ensures Doc(st.line, v.order) == WithBlanks(Doc(st0.line, v0.order), n)
    ensures Anchored(st.hs, v.order, v.lists, top, an, Lowered(first, n), Lowered(cursor, n), Lowered(saved, n))
    ensures At(wide, st.line, v.order, width, it, t) && y == (if cy < height then cy else height - 1)
    ensures 0 <= y2 < height && 0 <= x2 < width
    ensures Holds(wide, Doc(st.line, v.order), width, a, Lowered(cursor, n))
    ensures Holds(wide, Doc(st.line, v.order), width, e, Lowered(saved, n))
    ensures Index(wide, Doc(st.line, v.order), width, a) == Index(wide, Doc(st.line, v.order), width, t) + y
    ensures x == cursor.offset - OffsetOf(wide, Doc(st.line, v.order), width, a)
    ensures n > 0 ==> Index(wide, Doc(st.line, v.order), width, a) == cy
    ensures var d := Index(wide, Doc(st.line, v.order), width, e) - Index(wide, Doc(st.line, v.order), width, t);
      0 <= d < height ==> y2 == d && x2 == saved.offset - OffsetOf(wide, Doc(st.line, v.order), width, e)
  {
    ghost var b;
    st, it, n, v, a, b := FindTop(wide, st0, cy, width, top, an, v0, first, cursor, saved);
    ghost var doc := Doc(st.line, v.order);
    assert doc[n + saved.para] == Doc(st0.line, v0.order)[saved.para];
    e := Holder(wide, doc, width, Place(saved.para + n, 0), saved.para + n, saved.offset);
    it, x, y, x2, y2, t := SettleCursors(wide, st, it, cx, cy, sx, sy, width, height, an, top, v, b,
                                         Lowered(first, n), Lowered(cursor, n), Lowered(saved, n), a, e);
  }

  predicate InRow(r: Row, m: Mark) { r.para == m.para && r.offset <= m.offset < r.offset + r.width }

  /** A saved cursor whose cell is on the screen is on that cell. */
  ghost predicate OnItsCell(rows: seq<Row>, m: Mark, x: int, y: int) {
    forall j :: 0 <= j < |rows| && InRow(rows[j], m) ==> y == j && x == m.offset - rows[j].offset
  }

  lemma SavedShown(wide: Wide, doc: seq<Para>, width: nat, rows1: seq<Row>, places1: seq<Place>, i0: nat,
                   rows: seq<Row>, e: Place, m: Mark, x: int, y: int, doc2: seq<Para>, places: seq<Place>)
    requires Wrapped(wide, doc, width, rows1, places1, i0) && Holds(wide, doc, width, e, m)
    requires |rows1| <= |rows| && forall j :: 0 <= j < |rows1| ==> rows[j] == rows1[j]
    requires |rows1| < |rows| ==> i0 + |rows1| == RowTotal(wide, doc, width)
    requires Wrapped(wide, doc2, width, rows, places, i0) && LaidFrom(wide, doc, width, i0, doc2, rows, places)
    requires var d := Index(wide, doc, width, e) - i0;
      0 <= d < |rows| ==> y == d && x == m.offset - OffsetOf(wide, doc, width, e)
    ensures OnItsCell(rows, m, x, y)
  {
    forall j | 0 <= j < |rows| && InRow(rows[j], m)
      ensures y == j && x == m.offset - rows[j].offset
    {
      if j < |rows1| {
        assert WrappedAt(wide, doc, width, rows1, places1, i0, j);
        RowOfFits(wide, doc, width, places1[j]);
        HeldOnce(wide, doc, width, places1[j], e, m);
      } else {
        BlankRowShown(wide, doc, width, doc2, rows, places, i0, j);
      }
    }
  }

  /** Rows behind the end of the document are blank. */
  lemma BlankRowShown(wide: Wide, doc: seq<Para>, width: nat, doc2: seq<Para>, rows: seq<Row>, places: seq<Place>,
                      i0: nat, j: nat)
    requires LaidFrom(wide, doc, width, i0, doc2, rows, places) && j < |rows| && i0 + j >= RowTotal(wide, doc, width)
    ensures rows[j].width == 0
  {
    var attr, n := DEFAULT_ATTR, i0 + |rows| - RowTotal(wide, doc, width);
    assert WrappedAt(wide, doc2, width, rows, places, i0, j);
    BlanksBehind(wide, doc, width, attr, n, 0);
    if places[j].para < |doc| {
      RowsBeforeGrows(wide, doc2, width, places[j].para, |doc|);
    } else {
      assert doc2[places[j].para] == Blank(attr);
    }
  }

  /** The screen shows a document, with n blank lines in front, wrapped from row i0 on. The cursor is
      on its cell, in row cy or the last one; so is the saved cursor if its cell is shown. */
  ghost predicate Drawn(wide: Wide, doc0: seq<Para>, width: nat, cy: nat, cursor: Mark, saved: Mark, n: nat, i0: nat,
                        doc: seq<Para>, rows: seq<Row>, places: seq<Place>, x: int, y: int, x2: int, y2: int) {
    && LaidFrom(wide, WithBlanks(doc0, n), width, i0, doc, rows, places)
    && y == (if cy < |rows| then cy else |rows| - 1) && (n > 0 ==> i0 + y == cy)
    && rows[y].para == cursor.para + n && rows[y].offset + x == cursor.offset && 0 <= x < rows[y].width <= width
    && 0 <= y2 < |rows| && 0 <= x2 < width && OnItsCell(rows, Lowered(saved, n), x2, y2)
  }

  /** What resize_main_screen does to the text and the cursors: the lines of both cursors are filled
      up to them, n blank lines go in front (only if the history has too few rows to keep the cursor
      in its screen row), and the screen shows the result at the new width. */
  ghost predicate Rewrapped(wide: Wide, doc0: seq<Para>, rows0: seq<Row>, cx: nat, cy: nat, sx: nat, sy: nat,
                            width: nat, n: nat, i0: nat, doc: seq<Para>, rows: seq<Row>, places: seq<Place>, x: int,
                            y: int, x2: int, y2: int)
    requires cy < |rows0| && sy < |rows0| && rows0[cy].para < |doc0| && rows0[sy].para < |doc0|
  {
    var mc, ms := MarkAt(rows0, cx, cy), MarkAt(rows0, sx, sy);
    Drawn(wide, FilledUp(FilledUp(doc0, mc), ms), width, cy, mc, ms, n, i0, doc, rows, places, x, y, x2, y2)
  }

  /** The screen starts with row t; row a holds the cursor's cell, y rows further down; row e holds the
      saved cursor's, and if it is on a screen of some height that cursor is there. */
  ghost predicate Settled(wide: Wide, doc: seq<Para>, width: nat, height: nat, t: Place, a: Place, e: Place,
                          cursor: Mark, saved: Mark, y: int, x2: int, y2: int)
  {
    && width >= 2 && t.para < |doc| && Holds(wide, doc, width, a, cursor) && Holds(wide, doc, width, e, saved)
    && 0 <= y < height && Index(wide, doc, width, a) == Index(wide, doc, width, t) + y
    && var d := Index(wide, doc, width, e) - Index(wide, doc, width, t);
       (0 <= d < height ==> y2 == d && x2 == saved.offset - OffsetOf(wide, doc, width, e))
  }

  lemma TopRow(wide: Wide, doc: seq<Para>, width: nat, rows: seq<Row>, places: seq<Place>, i0: nat, t: Place)
    requires Wrapped(wide, doc, width, rows, places, i0) && |rows| > 0
    requires width >= 2 && IsPlace(wide, doc, width, t) && Index(wide, doc, width, t) == i0
    ensures rows[0].para == t.para
  {
    assert WrappedAt(wide, doc, width, rows, places, i0, 0);
    IndexOrders(wide, doc, width, places[0], t);
  }

  /** The second half of resize_main_screen: the rows are laid out, which shows both cursors where they should be. */
  method Redraw(wide: Wide, st0: Store, it: Pos, width: nat, ghost top: Ptr, an: Anchors, ghost v0: View,
                ghost t: Place, ghost first: Mark, ghost cursor: Mark, ghost saved: Mark, ghost a: Place,
                ghost e: Place, ghost y: nat, ghost x2: int, ghost y2: int, ghost i0: nat)
    returns (st: Store, ghost v: View, ghost places: seq<Place>)
    requires width >= 2 && ListsOk(st0, v0.order, v0.lists) && At(wide, st0.line, v0.order, width, it, t)
    requires Anchored(st0.hs, v0.order, v0.lists, top, an, first, cursor, saved)
    requires an.first != an.cursor && an.first != an.saved && an.cursor != an.saved
    requires Settled(wide, Doc(st0.line, v0.order), width, |st0.spans|, t, a, e, cursor, saved, y, x2, y2)
    requires i0 == Index(wide, Doc(st0.line, v0.order), width, t)
    ensures ScreenOk(st, v, width, top) && |st.spans| == |v.rows| == |st0.spans|
    ensures LaidFrom(wide, Doc(st0.line, v0.order), width, i0, Doc(st.line, v.order), v.rows, places)
    ensures v.rows[y].para == cursor.para && v.rows[y].offset == OffsetOf(wide, Doc(st0.line, v0.order), width, a)
    ensures v.rows[y].offset <= cursor.offset < v.rows[y].offset + v.rows[y].width
    ensures OnItsCell(v.rows, saved, x2, y2) && v.rows[0].para == t.para
  {
    ghost var doc := Doc(st0.line, v0.order);
    ghost var rows1, places1;
    st, v, places, rows1, places1 := LayOutScreen(wide, st0, it, width, top, an, v0, t);
    IndexOrders(wide, doc, width, a, a);
    TopRow(wide, doc, width, rows1, places1, i0, t);
    CursorShown(wide, doc, width, rows1, places1, i0, a, cursor, y);
    SavedShown(wide, doc, width, rows1, places1, i0, v.rows, e, saved, x2, y2, Doc(st.line, v.order), places);
    st, v := RemoveAnchors(st, an, top, v);
  }

  /** How many lines the top of the screen moves down by; moving up is not counted. */
  function Risen(top0: nat, top: nat): nat {
    if top0 < top then top - top0 else 0
  }

  /** The lines between the old and the new top of the screen are counted. */
  method CountPushed(wide: Wide, st: Store, it: Pos, ghost width: nat, an: Anchors, ghost v: View, ghost t: Place,
                     ghost first: Mark)
    returns (pushed: int)
    requires width >= 2 && ListsOk(st, v.order, v.lists) && At(wide, st.line, v.order, width, it, t)
    requires Names(st.hs, v.order, v.lists, an.first, first.para, first.offset)
    ensures pushed == Risen(first.para, t.para)
  {
    pushed := History.PushHistory(st.line, st.hs.node[an.first].line, it.line, v.order, st.nextSeqno, first.para,
                                  t.para);
  }

  /** resize_main_screen once the lines of both cursors reach to them. */
  method RedrawAt(wide: Wide, st0: Store, width: nat, height: nat, cx: nat, cy: nat, sx: nat, sy: nat, top: Ptr,
                  an: Anchors, ghost v0: View, ghost first: Mark, ghost cursor: Mark, ghost saved: Mark)
    returns (st: Store, n: nat, x: int, y: int, x2: int, y2: int, pushed: int, ghost v: View, ghost i0: nat,
             ghost places: seq<Place>)
    requires width >= 2 && height > 0 && ListsOk(st0, v0.order, v0.lists) && |st0.spans| == height && |v0.order| > 0
    requires Anchored(st0.hs, v0.order, v0.lists, top, an, first, cursor, saved)
    requires an.first != an.cursor && an.first != an.saved && an.cursor != an.saved
    requires cursor.offset < |Doc(st0.line, v0.order)[cursor.para].text|
    requires saved.offset < |Doc(st0.line, v0.order)[saved.para].text|
    ensures ScreenOk(st, v, width, top) && |st.spans| == |v.rows| == height
    ensures Drawn(wide, Doc(st0.line, v0.order), width, cy, cursor, saved, n, i0, Doc(st.line, v.order), v.rows, places,
                  x, y, x2, y2)
    ensures pushed == n + Risen(first.para + n, v.rows[0].para)
  {
    var it;
    ghost var t, a, e;
    st, it, n, x, y, x2, y2, v, t, a, e := Rewrap(wide, st0, width, height, cx, cy, sx, sy, top, an, v0, first, cursor,
                                                  saved);
    pushed := CountPushed(wide, st, it, width, an, v, t, Lowered(first, n));
    pushed := pushed + n;
    st, v, i0, places := Finish(wide, st, it, width, cy, top, an, v, Doc(st0.line, v0.order), n, first, cursor, saved,
                                x, y, x2, y2, t, a, e);
  }

  /** Its second half. */
  method Finish(wide: Wide, st0: Store, it: Pos, width: nat, ghost cy: nat, ghost top: Ptr, an: Anchors,
                ghost v0: View, ghost doc0: seq<Para>, ghost n: nat, ghost first: Mark, ghost cursor: Mark,
                ghost saved: Mark, ghost x: int, ghost y: int, ghost x2: int, ghost y2: int, ghost t: Place,
                ghost a: Place, ghost e: Place)
    returns (st: Store, ghost v: View, ghost i0: nat, ghost places: seq<Place>)
    requires width >= 2 && ListsOk(st0, v0.order, v0.lists) && At(wide, st0.line, v0.order, width, it, t)
    requires |st0.spans| > 0
    requires Doc(st0.line, v0.order) == WithBlanks(doc0, n)
    requires Anchored(st0.hs, v0.order, v0.lists, top, an, Lowered(first, n), Lowered(cursor, n), Lowered(saved, n))
    requires an.first != an.cursor && an.first != an.saved && an.cursor != an.saved
    requires y == (if cy < |st0.spans| then cy else |st0.spans| - 1) && 0 <= y2 < |st0.spans| && 0 <= x2 < width
    requires Settled(wide, WithBlanks(doc0, n), width, |st0.spans|, t, a, e, Lowered(cursor, n), Lowered(saved, n),
                     y, x2, y2)
    requires x == cursor.offset - OffsetOf(wide, WithBlanks(doc0, n), width, a)
    requires n > 0 ==> Index(wide, WithBlanks(doc0, n), width, a) == cy
    ensures ScreenOk(st, v, width, top) && |st.spans| == |v.rows| == |st0.spans|
    ensures Drawn(wide, doc0, width, cy, cursor, saved, n, i0, Doc(st.line, v.order), v.rows, places, x, y, x2, y2)
    ensures v.rows[0].para == t.para
  {
    i0 := Index(wide, WithBlanks(doc0, n), width, t);
    st, v, places := Redraw(wide, st0, it, width, top, an, v0, t, Lowered(first, n), Lowered(cursor, n),
                            Lowered(saved, n), a, e, y, x2, y2, i0);
    CursorDrawn(wide, doc0, WithBlanks(doc0, n), width, cy, cursor, saved, n, i0, Doc(st.line, v.order), v.rows,
                places, x, y, x2, y2, a);
  }

  lemma CursorDrawn(wide: Wide, doc0: seq<Para>, doc1: seq<Para>, width: nat, cy: nat, cursor: Mark, saved: Mark,
                    n: nat, i0: nat, doc: seq<Para>, rows: seq<Row>, places: seq<Place>, x: int, y: int, x2: int,
                    y2: int, a: Place)
    requires doc1 == WithBlanks(doc0, n) && LaidFrom(wide, doc1, width, i0, doc, rows, places)
    requires Holds(wide, doc1, width, a, Lowered(cursor, n))
    requires y == (if cy < |rows| then cy else |rows| - 1) && (n > 0 ==> i0 + y == cy)
    requires x == cursor.offset - OffsetOf(wide, doc1, width, a)
    requires rows[y].para == cursor.para + n && rows[y].offset == OffsetOf(wide, doc1, width, a)
    requires rows[y].offset <= cursor.offset < rows[y].offset + rows[y].width
    requires 0 <= y2 < |rows| && 0 <= x2 < width && OnItsCell(rows, Lowered(saved, n), x2, y2)
    ensures Drawn(wide, doc0, width, cy, cursor, saved, n, i0, doc, rows, places, x, y, x2, y2)
  {
    assert WrappedAt(wide, doc, width, rows, places, i0, y);
    RowOfFits(wide, doc, width, places[y]);
  }

  /** resize_main_screen, for a cursor that is not pending and a history below its limit. */
  method ResizeMainScreen(wide: Wide, st0: Store, width: nat, height: nat, cx: nat, cy: nat, sx: nat, sy: nat,
                          moved1: bool, moved2: bool, top: Ptr, an: Anchors, ghost v0: View, ghost width0: nat)
    returns (st: Store, n: nat, x: int, y: int, x2: int, y2: int, pushed: int, ghost v: View, ghost i0: nat,
             ghost places: seq<Place>)
    requires width >= 2 && height > 0 && ScreenOk(st0, v0, width0, top) && cy < |v0.rows| && sy < |v0.rows|
    requires an.FreshIn(st0.hs)
    ensures ScreenOk(st, v, width, top) && |st.spans| == height
    ensures v0.rows[cy].para < |v0.order| && v0.rows[sy].para < |v0.order|
    ensures Rewrapped(wide, Doc(st0.line, v0.order), v0.rows, cx, cy, sx, sy, width, n, i0, Doc(st.line, v.order),
                      v.rows, places, x, y, x2, y2)
    ensures RowsFilled(wide, Doc(st.line, v.order), width, v.rows)
    ensures pushed == n + Risen(v0.rows[0].para + n, v.rows[0].para)
  {
    ghost var m0, mc, ms := MarkAt(v0.rows, 0, 0), MarkAt(v0.rows, cx, cy), MarkAt(v0.rows, sx, sy);
    st, v := Prepare(st0, cx, cy, sx, sy, moved1, moved2, top, an, v0, width0);
    st := SizeSpans(st, height, v);
    st, n, x, y, x2, y2, pushed, v, i0, places := RedrawAt(wide, st, width, height, cx, cy, sx, sy, top, an, v, m0, mc,
                                                           ms);
    WrappedFilled(wide, Doc(st.line, v.order), width, v.rows, places, i0);
  }

  // ----- The first time -----

  lemma FirstRows(spans: seq<Span>, order: seq<Ptr>, rows: seq<Row>, doc: seq<Para>, brk: Ptr, height: nat, width: nat)
    requires height > 0 && order == NewLines(brk, height) && rows == BlankRowsFrom(0, height)
    requires doc == Blanks(DEFAULT_ATTR, height)
    requires |spans| == height && forall j :: 0 <= j < height ==> spans[j] == Span(brk + j, 0, 0)
    ensures SpansOk(spans, rows, order) && RowsOk(rows, doc, width)
  {
    forall j | 0 <= j < height
      ensures SpanAt(spans, rows, order, j)
    {
    }
    forall i, j | 0 <= i < j < height
      ensures RowLe(rows, i, j)
    {
    }
    forall j | 0 < j < height
      ensures Follows(rows, j)
    {
    }
    forall j | 0 <= j < height
      ensures RowFits(rows[j], doc, width)
    {
    }
  }

  lemma OnlyNew<T>(xs: seq<T>)
    ensures Splice([], 0, xs) == xs
  {
  }

  /** create_lines_range where there is no line yet. */
  method FirstLines(height: nat) returns (st: Store, ghost order: seq<Ptr>, ghost lists: map<Ptr, seq<Ptr>>)
    requires height > 0
    ensures ListsOk(st, order, lists) && order == NewLines(1, height) && st.hs.node == map[] && |st.spans| == height
    ensures Doc(st.line, order) == Blanks(DEFAULT_ATTR, height)
    ensures forall j :: 0 <= j < height ==> st.spans[j] == Span(1 + j, 0, 0)
  {
    ghost var none: seq<Ptr>, noLists: map<Ptr, seq<Ptr>> := [], map[];
    st := Store(map[], Handles.Memory(map[], map[]), seq(height, _ => Span(NULL, 0, 0)), 0, 1);
    OnlyNew(NewLines(1, height));
    OnlyNew(Blanks(DEFAULT_ATTR, height));
    assert Doc(st.line, none) == [];
    order := Splice(none, 0, NewLines(1, height));
    st, lists := InsertLines(st, NULL, NULL, 0, DEFAULT_ATTR, height, none, noLists, 0);
  }

  /** resize_main_screen for a screen that has no lines yet. */
  method FirstScreen(height: nat, top: Ptr, ghost width: nat) returns (st: Store, ghost v: View)
    requires height > 0 && top != NULL
    ensures ScreenOk(st, v, width, top) && |st.spans| == height
    ensures Doc(st.line, v.order) == Blanks(DEFAULT_ATTR, height) && v.rows == BlankRowsFrom(0, height)
  {
    ghost var order, lists;
    st, order, lists := FirstLines(height);
    assert order[0] == 1 && 1 in order;
    var hs;
    hs, lists := Handles.AddNew(st.hs, top, 1, 0, lists);
    st := st.(hs := hs);
    v := View(order, lists, BlankRowsFrom(0, height));
    FirstRows(st.spans, order, v.rows, Doc(st.line, order), 1, height, width);
  }
}
