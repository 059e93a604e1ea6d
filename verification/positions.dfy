/** Positions in the list of lines that move by rows (line_span_shift, line_shift_n in line.h,
    translate_screen_position in screen.c). */
module Positions {
  import opened Cells
  import opened Reflow
  import opened Sequences
  import opened Stores

  /** The line and offset of struct line_span. */
  datatype Pos = Pos(line: Ptr, offset: nat)

  /** The position is the start of row a of the document. */
  ghost predicate At(wide: Wide, line: Heap, order: seq<Ptr>, width: nat, pos: Pos, a: Place)
    requires width >= 2 && Covers(line, order)
  {
    && IsPlace(wide, Doc(line, order), width, a)
    && pos == Pos(order[a.para], OffsetOf(wide, Doc(line, order), width, a))
  }

  /** line_span_shift: to the next row, unless this is the last one of the document. */
  method SpanShift(wide: Wide, line: Heap, pos0: Pos, width: nat, ghost order: seq<Ptr>, ghost a: Place)
    returns (pos: Pos, ended: bool, ghost b: Place)
    requires width >= 2 && LinksOk(line, order) && At(wide, line, order, width, pos0, a) && pos0.line in line
    ensures At(wide, line, order, width, pos, b)
    ensures Index(wide, Doc(line, order), width, b) ==
      Index(wide, Doc(line, order), width, a) + (if ended then 0 else 1)
    ensures ended <==> Index(wide, Doc(line, order), width, a) + 1 == RowTotal(wide, Doc(line, order), width)
    ensures b == if ended then a else if b.para == a.para then Place(a.para, a.row + 1) else Place(a.para + 1, 0)
  {
    pos, b, ended := pos0, a, false;
    ghost var doc := Doc(line, order);
    assert LinkedAt(line, order, a.para);
    var text := line[pos.line].para.text;
    assert text == doc[a.para].text;
    NextRow(wide, text, width, a.row);
    var offset := Advance(wide, text, pos.offset, width);
    if offset >= |text| {
      var next := line[pos.line].next;
      if next != NULL {
        pos, b := Pos(next, 0), Place(a.para + 1, 0);
      } else {
        ended := true;
      }
    } else {
      pos, b := Pos(pos.line, offset), Place(a.para, a.row + 1);
    }
    IndexOrders(wide, doc, width, a, b);
    if !ended {
      IndexOrders(wide, doc, width, b, b);
    }
  }

  /** The backward half of line_shift_n: to the start of a paragraph at or in front of the target,
      or of the document; the rest of the amount is what is missing from there. */
  method ShiftBackward(wide: Wide, line: Heap, pos0: Pos, amount0: int, width: nat, ghost order: seq<Ptr>,
                       ghost a: Place)
    returns (pos: Pos, amount: int, ghost b: Place)
    requires width >= 2 && LinksOk(line, order) && At(wide, line, order, width, pos0, a) && amount0 < 0
    ensures At(wide, line, order, width, pos, b)
    ensures Index(wide, Doc(line, order), width, b) + amount == Index(wide, Doc(line, order), width, a) + amount0
    ensures amount < 0 ==> Index(wide, Doc(line, order), width, b) == 0
    ensures Index(wide, Doc(line, order), width, a) + amount0 < RowTotal(wide, Doc(line, order), width)
  {
    ghost var doc := Doc(line, order);
    assert LinkedAt(line, order, a.para);
    var text := line[pos0.line].para.text;
    assert text == doc[a.para].text;
    RowsBehind(wide, text, width, a.row);
    IndexOrders(wide, doc, width, a, a);
    var all := LineSegments(wide, text, 0, width);
    var behind := LineSegments(wide, text, pos0.offset, width);
    amount := amount0 + all - behind;
    pos, b := Pos(pos0.line, 0), Place(a.para, 0);
    while amount < 0
      invariant b.row == 0 && At(wide, line, order, width, pos, b)
      invariant Index(wide, doc, width, b) + amount == Index(wide, doc, width, a) + amount0
      decreases b.para
    {
      assert LinkedAt(line, order, b.para);
      if line[pos.line].prev == NULL {
        break;
      }
      pos, b := pos.(line := line[pos.line].prev), Place(b.para - 1, 0);
      assert LinkedAt(line, order, b.para);
      var rows := LineSegments(wide, line[pos.line].para.text, 0, width);
      assert line[pos.line].para == doc[b.para];
      amount := amount + rows;
    }
  }

  /** line_shift_n moves by rows, within the document. */
  method ShiftN(wide: Wide, line: Heap, pos0: Pos, amount0: int, width: nat, ghost order: seq<Ptr>, ghost a: Place)
    returns (pos: Pos, rest: int, ghost b: Place)
    requires width >= 2 && LinksOk(line, order) && At(wide, line, order, width, pos0, a)
    ensures At(wide, line, order, width, pos, b)
    ensures Shifted(wide, Doc(line, order), width, a, amount0, b, rest)
  {
    ghost var doc := Doc(line, order);
    pos, rest, b := pos0, amount0, a;
    if rest < 0 {
      pos, rest, b := ShiftBackward(wide, line, pos, rest, width, order, a);
    }
    IndexOrders(wide, doc, width, b, b);
    if rest > 0 {
      while rest != 0
        invariant rest >= 0 && At(wide, line, order, width, pos, b)
        invariant Index(wide, doc, width, b) + rest == Index(wide, doc, width, a) + amount0
        invariant Index(wide, doc, width, b) < RowTotal(wide, doc, width)
        decreases rest
      {
        var next, ended;
        ghost var c;
        assert order[b.para] in line;
        next, ended, c := SpanShift(wide, line, pos, width, order, b);
        if ended {
          break;
        }
        pos, b := next, c;
        IndexOrders(wide, doc, width, b, b);
        rest := rest - 1;
      }
    }
  }

  /** line_span_cmp: -1, 0 or 1 as a lies in front of, at, or behind b. */
  function SpanCmp(line: Heap, a: Pos, b: Pos): (c: int)
    requires a.line in line && b.line in line
  {
    if a.line != b.line then
      (if line[a.line].seqno < line[b.line].seqno then -1 else if line[a.line].seqno > line[b.line].seqno then 1 else 0)
    else if a.offset < b.offset then -1 else if a.offset > b.offset then 1 else 0
  }

  /** Comparing labels compares places in the document. */
  lemma SpanCmpIsDocumentOrder(line: Heap, order: seq<Ptr>, nextSeqno: nat, i: nat, x: nat, j: nat, y: nat)
    requires LabelsOk(line, order, nextSeqno) && Distinct(order) && i < |order| && j < |order|
    ensures order[i] in line && order[j] in line
    ensures var c := SpanCmp(line, Pos(order[i], x), Pos(order[j], y));
      && (c < 0 <==> i < j || (i == j && x < y)) && (c == 0 <==> i == j && x == y)
      && (c > 0 <==> j < i || (i == j && y < x))
  {
    OnlyAt(order, i);
    assert order[i] in line && order[j] in line;
    LabelOrder(line, order, nextSeqno, i, j);
  }

  /** translate_screen_position, for a cursor that is not pending: the cursor at cell target gets
      the row, counted from first, that holds the cell, and its column there. A cell in front of
      first leaves the cursor where it is, within bounds; behind the text there is no row. */
  method Translate(wide: Wide, line: Heap, first: Pos, target: Pos, x0: int, y0: int, width: nat,
                   ghost order: seq<Ptr>, ghost nextSeqno: nat, ghost a: Place, ghost k: nat)
    returns (x: int, y: int, ghost b: Place)
    requires width >= 2 && LinksOk(line, order) && LabelsOk(line, order, nextSeqno)
    requires At(wide, line, order, width, first, a) && k < |order| && target.line == order[k]
    ensures var doc := Doc(line, order);
      var before := k < a.para || (k == a.para && target.offset < first.offset);
      if before then
        y == (if y0 < 0 then 0 else y0) && x == (if x0 < width - 1 then x0 else width - 1)
      else if target.offset >= |doc[k].text| then
        y == -1 && x == x0
      else
        && IsPlace(wide, doc, width, b) && b.para == k && RowHolds(wide, doc[k].text, width, b.row, target.offset)
        && y == Index(wide, doc, width, b) - Index(wide, doc, width, a) >= 0
        && x == target.offset - OffsetOf(wide, doc, width, b)
  {
    ghost var doc := Doc(line, order);
    x, y, b := x0, y0, a;
    SpanCmpIsDocumentOrder(line, order, nextSeqno, a.para, first.offset, k, target.offset);
    if SpanCmp(line, first, target) > 0 {
      y := if y0 < 0 then 0 else y0;
      x := if x0 < width - 1 then x0 else width - 1;
      return;
    }
    ghost var h := a;
    if target.offset < |doc[k].text| {
      h := Holder(wide, doc, width, a, k, target.offset);
    }
    IndexOrders(wide, doc, width, h, a);
    y := -1;
    var it, i, ended := first, 0, false;
    while !ended
      invariant At(wide, line, order, width, it, b)
      invariant !ended ==> i == Index(wide, doc, width, b) - Index(wide, doc, width, a)
      invariant !ended && target.offset < |doc[k].text| ==> Index(wide, doc, width, b) <= Index(wide, doc, width, h)
      invariant !ended || target.offset >= |doc[k].text|
      invariant y == -1 && x == x0
      decreases RowTotal(wide, doc, width) - Index(wide, doc, width, b), !ended
    {
      OnlyAt(order, k);
      assert order[b.para] in line && line[order[b.para]].para == doc[b.para];
      var next := Advance(wide, line[it.line].para.text, it.offset, width);
      if it.line == target.line && it.offset <= target.offset && next > target.offset {
        x := if target.offset - it.offset < width - 1 then target.offset - it.offset else width - 1;
        y := i;
        return;
      }
      assert target.offset < |doc[k].text| ==> b != h;
      IndexOrders(wide, doc, width, b, h);
      i := i + 1;
      ghost var b0 := b;
      it, ended, b := SpanShift(wide, line, it, width, order, b0);
    }
  }

  /** The row that holds a cell not in front of row a. */
  lemma Holder(wide: Wide, doc: seq<Para>, width: nat, a: Place, k: nat, x: nat) returns (h: Place)
    requires width >= 2 && IsPlace(wide, doc, width, a) && k < |doc| && x < |doc[k].text|
    requires a.para < k || (a.para == k && OffsetOf(wide, doc, width, a) <= x)
    ensures IsPlace(wide, doc, width, h) && h.para == k && RowHolds(wide, doc[k].text, width, h.row, x)
    ensures Index(wide, doc, width, a) <= Index(wide, doc, width, h)
  {
    var row := RowHoldsSome(wide, doc[k].text, width, if a.para == k then a.row else 0, x);
    h := Place(k, row);
    IndexOrders(wide, doc, width, h, a);
  }
}
