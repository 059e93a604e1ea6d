/** Wrapping paragraphs into rows, and positions that move from row to row (line.h). A row starts
    where the row before it ends; a character that is two cells wide does not start in the last
    column. Which characters are wide is a parameter. */
module Reflow {
  import opened Cells

  type Wide = nat -> bool

  /** line_advance_width: where the row that starts at offset ends. */
  function Advance(wide: Wide, text: seq<Glyph>, offset: nat, width: nat): (r: nat)
    requires width >= 2
    ensures r <= |text| && (offset < |text| ==> offset < r <= offset + width)
  {
    var o := offset + width;
    var end := if o - 1 < |text| && wide(text[o - 1].ch) then o - 1 else o;
    if end <= |text| then end else |text|
  }

  /** A row of cells from offset to end that takes as many as it can: it stops short of the width only
      at the end of the text, or by one cell in front of a wide character, which it would cut. */
  predicate Filled(wide: Wide, text: seq<Glyph>, offset: nat, end: nat, width: nat) {
    && offset <= end <= |text| && end - offset <= width
    && (end < |text| ==> end - offset == width || (end - offset == width - 1 && wide(text[end].ch)))
    && (end - offset == width > 0 ==> !wide(text[end - 1].ch))
  }

  /** Rows end where they are filled, and nowhere else. */
  lemma RowEnd(wide: Wide, text: seq<Glyph>, offset: nat, end: nat, width: nat)
    requires width >= 2 && offset <= |text|
    ensures end == Advance(wide, text, offset, width) <==> Filled(wide, text, offset, end, width)
  {
  }

  /** A layout of the text from offset on: the ends of filled rows, one behind the other, up to the end. */
  ghost predicate IsLayout(wide: Wide, text: seq<Glyph>, offset: nat, width: nat, ends: seq<nat>)
    decreases |ends|
  {
    if ends == [] then offset >= |text|
    else
      && offset < |text| && Filled(wide, text, offset, ends[0], width)
      && IsLayout(wide, text, ends[0], width, ends[1..])
  }

  /** The number of rows from offset to the end of a paragraph. */
  function RowsFrom(wide: Wide, text: seq<Glyph>, offset: nat, width: nat): (n: nat)
    requires width >= 2
    decreases |text| - offset
  {
    if offset >= |text| then 0 else 1 + RowsFrom(wide, text, Advance(wide, text, offset, width), width)
  }

  /** A layout has as many rows as are counted. */
  lemma {:induction false} LayoutCounted(wide: Wide, text: seq<Glyph>, offset: nat, width: nat, ends: seq<nat>)
    requires width >= 2 && IsLayout(wide, text, offset, width, ends)
    ensures |ends| == RowsFrom(wide, text, offset, width)
    decreases |ends|
  {
    if ends != [] {
      RowEnd(wide, text, offset, ends[0], width);
      LayoutCounted(wide, text, ends[0], width, ends[1..]);
    }
  }

  /** There is one. */
  lemma {:induction false} HasLayout(wide: Wide, text: seq<Glyph>, offset: nat, width: nat) returns (ends: seq<nat>)
    requires width >= 2
    ensures IsLayout(wide, text, offset, width, ends)
    decreases |text| - offset
  {
    ends := [];
    if offset < |text| {
      var end := Advance(wide, text, offset, width);
      RowEnd(wide, text, offset, end, width);
      var rest := HasLayout(wide, text, end, width);
      ends := [end] + rest;
    }
  }

  /** The number of rows of a paragraph; an empty one has one row. */
  function RowCount(wide: Wide, text: seq<Glyph>, width: nat): (n: nat)
    requires width >= 2
    ensures n > 0
  {
    if text == [] then 1 else RowsFrom(wide, text, 0, width)
  }

  /** line_segments: the loop counts the rows. */
  method LineSegments(wide: Wide, text: seq<Glyph>, offset0: nat, width: nat) returns (n: nat)
    requires width >= 2
    ensures n == if text == [] && offset0 == 0 then 1 else RowsFrom(wide, text, offset0, width)
    ensures forall ends :: IsLayout(wide, text, offset0, width, ends) ==>
      n == if text == [] && offset0 == 0 then 1 else |ends|
  {
    forall ends | IsLayout(wide, text, offset0, width, ends)
      ensures |ends| == RowsFrom(wide, text, offset0, width)
    {
      LayoutCounted(wide, text, offset0, width, ends);
    }
    if |text| == 0 && offset0 == 0 {
      return 1;
    }
    var offset := offset0;
    n := 0;
    while offset < |text|
      invariant n + RowsFrom(wide, text, offset, width) == RowsFrom(wide, text, offset0, width)
      decreases |text| - offset
    {
      n := n + 1;
      offset := Advance(wide, text, offset, width);
    }
  }

  /** Where row i of a paragraph starts. */
  function Start(wide: Wide, text: seq<Glyph>, width: nat, i: nat): (offset: nat)
    requires width >= 2
    ensures offset <= |text|
  {
    if i == 0 then 0 else Advance(wide, text, Start(wide, text, width, i - 1), width)
  }

  /** The rows of a paragraph start where those of its layout do. */
  lemma {:induction false} LayoutStarts(wide: Wide, text: seq<Glyph>, width: nat, ends: seq<nat>, i: nat)
    requires width >= 2 && IsLayout(wide, text, 0, width, ends) && i <= |ends|
    ensures Start(wide, text, width, i) == if i == 0 then 0 else ends[i - 1]
    ensures IsLayout(wide, text, Start(wide, text, width, i), width, ends[i..])
  {
    if i > 0 {
      LayoutStarts(wide, text, width, ends, i - 1);
      RowEnd(wide, text, Start(wide, text, width, i - 1), ends[i - 1], width);
      assert ends[i - 1..][1..] == ends[i..] && ends[i - 1..][0] == ends[i - 1];
    }
  }

  /** Behind the start of row i there are i rows less. */
  lemma {:induction false} RowsBehind(wide: Wide, text: seq<Glyph>, width: nat, i: nat)
    requires width >= 2 && i < RowCount(wide, text, width)
    ensures text != [] ==> RowsFrom(wide, text, Start(wide, text, width, i), width) == RowCount(wide, text, width) - i
  {
    if i > 0 {
      RowsBehind(wide, text, width, i - 1);
    }
  }

  /** Row starts increase. */
  lemma {:induction false} StartsIncrease(wide: Wide, text: seq<Glyph>, width: nat, i: nat, j: nat)
    requires width >= 2 && i < j < RowCount(wide, text, width)
    ensures Start(wide, text, width, i) < Start(wide, text, width, j)
    decreases j
  {
    RowsBehind(wide, text, width, j - 1);
    if i < j - 1 {
      StartsIncrease(wide, text, width, i, j - 1);
    }
  }

  /** A row of a document: row number row of paragraph para. */
  datatype Place = Place(para: nat, row: nat)

  ghost predicate IsPlace(wide: Wide, doc: seq<Para>, width: nat, a: Place)
    requires width >= 2
  {
    a.para < |doc| && a.row < RowCount(wide, doc[a.para].text, width)
  }

  /** The offset a row starts at. */
  function OffsetOf(wide: Wide, doc: seq<Para>, width: nat, a: Place): nat
    requires width >= 2 && a.para < |doc|
  {
    Start(wide, doc[a.para].text, width, a.row)
  }

  /** The number of rows in front of paragraph k. */
  ghost function RowsBefore(wide: Wide, doc: seq<Para>, width: nat, k: nat): (n: nat)
    requires width >= 2 && k <= |doc|
  {
    if k == 0 then 0 else RowsBefore(wide, doc, width, k - 1) + RowCount(wide, doc[k - 1].text, width)
  }

  /** The index of a row among all rows of the document. */
  ghost function Index(wide: Wide, doc: seq<Para>, width: nat, a: Place): (n: nat)
    requires width >= 2 && a.para < |doc|
  {
    RowsBefore(wide, doc, width, a.para) + a.row
  }

  ghost function RowTotal(wide: Wide, doc: seq<Para>, width: nat): (n: nat)
    requires width >= 2
  {
    RowsBefore(wide, doc, width, |doc|)
  }

  lemma {:induction false} RowsBeforeGrows(wide: Wide, doc: seq<Para>, width: nat, j: nat, k: nat)
    requires width >= 2 && j < k <= |doc|
    ensures RowsBefore(wide, doc, width, j) + RowCount(wide, doc[j].text, width) <= RowsBefore(wide, doc, width, k)
    decreases k
  {
    if j < k - 1 {
      RowsBeforeGrows(wide, doc, width, j, k - 1);
    }
  }

  /** Indices order the rows, and name each row once. */
  lemma IndexOrders(wide: Wide, doc: seq<Para>, width: nat, a: Place, b: Place)
    requires width >= 2 && IsPlace(wide, doc, width, a) && IsPlace(wide, doc, width, b)
    ensures Index(wide, doc, width, a) < RowTotal(wide, doc, width)
    ensures Index(wide, doc, width, a) < Index(wide, doc, width, b) <==>
            a.para < b.para || (a.para == b.para && a.row < b.row)
    ensures Index(wide, doc, width, a) == Index(wide, doc, width, b) <==> a == b
  {
    RowsBeforeGrows(wide, doc, width, a.para, |doc|);
    if a.para < b.para {
      RowsBeforeGrows(wide, doc, width, a.para, b.para);
    } else if b.para < a.para {
      RowsBeforeGrows(wide, doc, width, b.para, a.para);
    }
  }

  function Clamp(i: int, n: nat): (r: nat)
    requires n > 0
  {
    if i < 0 then 0 else if i >= n then n - 1 else i
  }

  /** What line_shift_n promises: from row a the amount moves to row b, and rest is left over
      because the document ends there. */
  ghost predicate Shifted(wide: Wide, doc: seq<Para>, width: nat, a: Place, amount: int, b: Place, rest: int)
    requires width >= 2
  {
    && IsPlace(wide, doc, width, a) && IsPlace(wide, doc, width, b) && RowTotal(wide, doc, width) > 0
    && Index(wide, doc, width, b) == Clamp(Index(wide, doc, width, a) + amount, RowTotal(wide, doc, width))
    && rest == Index(wide, doc, width, a) + amount - Index(wide, doc, width, b)
  }

  /** Shifting is a function of the row and the amount. */
  lemma ShiftDetermined(wide: Wide, doc: seq<Para>, width: nat, a: Place, n: int, b: Place, r: int, b2: Place, r2: int)
    requires width >= 2 && Shifted(wide, doc, width, a, n, b, r) && Shifted(wide, doc, width, a, n, b2, r2)
    ensures b == b2 && r == r2
  {
    IndexOrders(wide, doc, width, b, b2);
  }

  /** Unclamped shifts compose. */
  lemma ShiftsCompose(wide: Wide, doc: seq<Para>, width: nat, a: Place, n: int, b: Place, m: int, c: Place, rest: int)
    requires width >= 2 && Shifted(wide, doc, width, a, n, b, 0)
    requires Shifted(wide, doc, width, b, m, c, rest)
    ensures Shifted(wide, doc, width, a, n + m, c, rest)
  {
  }

  /** Shifting by n and then by -n returns to the same row, exactly if the first shift was not
      clamped or the second was clamped to where the first began. */
  lemma ShiftBack(wide: Wide, doc: seq<Para>, width: nat, a: Place, n: int, b: Place, rest: int, c: Place, rest2: int)
    requires width >= 2 && Shifted(wide, doc, width, a, n, b, rest) && Shifted(wide, doc, width, b, 0 - n, c, rest2)
    ensures var i := Index(wide, doc, width, a);
      c == a <==> rest == 0 || (rest > 0 && i == 0) || (rest < 0 && i == RowTotal(wide, doc, width) - 1)
    ensures rest == 0 ==> rest2 == 0
  {
    IndexOrders(wide, doc, width, a, c);
  }

  /** The row behind row i of a paragraph. */
  lemma NextRow(wide: Wide, text: seq<Glyph>, width: nat, i: nat)
    requires width >= 2 && i < RowCount(wide, text, width)
    ensures Advance(wide, text, Start(wide, text, width, i), width) >= |text| <==> i + 1 == RowCount(wide, text, width)
    ensures Start(wide, text, width, i) < |text| || text == []
  {
    RowsBehind(wide, text, width, i);
  }

  /** A row and the cells it shows. */
  ghost predicate RowHolds(wide: Wide, text: seq<Glyph>, width: nat, i: nat, x: nat)
    requires width >= 2
  {
    Start(wide, text, width, i) <= x < Advance(wide, text, Start(wide, text, width, i), width)
  }

  /** Each cell is in exactly one row. */
  lemma {:induction false} RowHoldsOnce(wide: Wide, text: seq<Glyph>, width: nat, i: nat, j: nat, x: nat)
    requires width >= 2 && i < RowCount(wide, text, width) && j < RowCount(wide, text, width)
    requires RowHolds(wide, text, width, i, x) && RowHolds(wide, text, width, j, x)
    ensures i == j
  {
    if i < j {
      if i + 1 < j {
        StartsIncrease(wide, text, width, i + 1, j);
      }
    } else if j < i {
      if j + 1 < i {
        StartsIncrease(wide, text, width, j + 1, i);
      }
    }
  }

  /** round_offset_to_width: the start of the row that holds a cell. */
  method RoundOffset(wide: Wide, text: seq<Glyph>, to: nat, width: nat) returns (offset: nat, ghost row: nat)
    requires width >= 2 && to < |text|
    ensures row < RowCount(wide, text, width) && offset == Start(wide, text, width, row)
    ensures RowHolds(wide, text, width, row, to)
  {
    offset, row := 0, 0;
    while true
      invariant row < RowCount(wide, text, width) && offset == Start(wide, text, width, row) && offset <= to
      decreases |text| - offset
    {
      RowsBehind(wide, text, width, row);
      var next := Advance(wide, text, offset, width);
      if next > to {
        break;
      }
      offset := next;
      row := row + 1;
      if offset >= |text| {
        break;
      }
    }
  }

  /** Each cell is in some row. */
  lemma {:induction false} RowHoldsSome(wide: Wide, text: seq<Glyph>, width: nat, i: nat, x: nat) returns (row: nat)
    requires width >= 2 && i < RowCount(wide, text, width) && Start(wide, text, width, i) <= x < |text|
    ensures i <= row < RowCount(wide, text, width) && RowHolds(wide, text, width, row, x)
    decreases RowCount(wide, text, width) - i
  {
    NextRow(wide, text, width, i);
    if RowHolds(wide, text, width, i, x) {
      row := i;
    } else {
      row := RowHoldsSome(wide, text, width, i + 1, x);
    }
  }

  /** The row behind a row of the document. */
  lemma NextPlace(wide: Wide, doc: seq<Para>, width: nat, a: Place, b: Place)
    requires width >= 2 && IsPlace(wide, doc, width, a) && IsPlace(wide, doc, width, b)
    requires Index(wide, doc, width, b) == Index(wide, doc, width, a) + 1
    ensures b ==
      if a.row + 1 < RowCount(wide, doc[a.para].text, width) then Place(a.para, a.row + 1) else Place(a.para + 1, 0)
  {
    IndexOrders(wide, doc, width, a, b);
    if a.row + 1 < RowCount(wide, doc[a.para].text, width) {
      IndexOrders(wide, doc, width, b, Place(a.para, a.row + 1));
    } else {
      IndexOrders(wide, doc, width, b, Place(a.para + 1, 0));
    }
  }

  // ----- A paragraph cut off behind one of its rows -----

  lemma CutAdvance(wide: Wide, text: seq<Glyph>, width: nat, offset: nat, e: nat)
    requires width >= 2 && offset < |text| && Advance(wide, text, offset, width) <= e <= |text|
    ensures Advance(wide, text[..e], offset, width) == Advance(wide, text, offset, width)
  {
  }

  lemma {:induction false} CutStarts(wide: Wide, text: seq<Glyph>, width: nat, j: nat, e: nat)
    requires width >= 2 && text != [] && j < RowCount(wide, text, width)
    requires Advance(wide, text, Start(wide, text, width, j), width) <= e <= |text|
    ensures Start(wide, text[..e], width, j) == Start(wide, text, width, j)
    ensures Advance(wide, text[..e], Start(wide, text, width, j), width) ==
      Advance(wide, text, Start(wide, text, width, j), width)
    decreases j
  {
    NextRow(wide, text, width, j);
    CutAdvance(wide, text, width, Start(wide, text, width, j), e);
    if j > 0 {
      CutStarts(wide, text, width, j - 1, e);
    }
  }

  /** One of its rows. */
  lemma CutOneRow(wide: Wide, text: seq<Glyph>, width: nat, s: nat, e: nat, n: nat)
    requires width >= 2 && s < |text| && Advance(wide, text, s, width) <= e <= |text|
    requires RowsFrom(wide, text[..e], Advance(wide, text, s, width), width) == n
    ensures RowsFrom(wide, text[..e], s, width) == n + 1
  {
    CutAdvance(wide, text, width, s, e);
  }

  lemma NoRowsBehind(wide: Wide, text: seq<Glyph>, width: nat)
    requires width >= 2
    ensures RowsFrom(wide, text, |text|, width) == 0
  {
  }

  /** It keeps the rows up to the cut, here counted from row j. */
  lemma {:induction false} CutRows(wide: Wide, text: seq<Glyph>, width: nat, i: nat, j: nat)
    requires width >= 2 && i < RowCount(wide, text, width) && text != [] && j <= i
    ensures var e := Advance(wide, text, Start(wide, text, width, i), width);
      e > 0 && RowsFrom(wide, text[..e], Start(wide, text, width, j), width) == i + 1 - j
    decreases i - j
  {
    var s, e := Start(wide, text, width, j), Advance(wide, text, Start(wide, text, width, i), width);
    NextRow(wide, text, width, j);
    if j < i {
      StartsIncrease(wide, text, width, j, i);
      if j + 1 < i {
        StartsIncrease(wide, text, width, j + 1, i);
      }
      CutRows(wide, text, width, i, j + 1);
      assert Start(wide, text, width, j + 1) == Advance(wide, text, s, width);
      CutOneRow(wide, text, width, s, e, i - j);
    } else {
      NoRowsBehind(wide, text[..e], width);
      CutOneRow(wide, text, width, s, e, 0);
    }
  }

  /** A paragraph cut off behind row i has the rows up to that one, unchanged. */
  lemma CutRow(wide: Wide, text: seq<Glyph>, width: nat, i: nat, j: nat)
    requires width >= 2 && i < RowCount(wide, text, width) && j <= i
    ensures var cut := text[..Advance(wide, text, Start(wide, text, width, i), width)];
      && RowCount(wide, cut, width) == i + 1
      && Start(wide, cut, width, j) == Start(wide, text, width, j)
      && Advance(wide, cut, Start(wide, text, width, j), width) ==
        Advance(wide, text, Start(wide, text, width, j), width)
  {
    if text != [] {
      var e := Advance(wide, text, Start(wide, text, width, i), width);
      CutRows(wide, text, width, i, 0);
      NextRow(wide, text, width, i);
      if j < i {
        NextRow(wide, text, width, j);
        StartsIncrease(wide, text, width, j, i);
        if j + 1 < i {
          StartsIncrease(wide, text, width, j + 1, i);
        }
      }
      CutStarts(wide, text, width, j, e);
    }
  }
}
