/** Screen rows that are exactly the wrapping of the document, row by row. */
module Wrapping {
  import opened Cells
  import opened Ranges
  import opened Reflow
  import opened ScreenRows
  import opened Sequences
  import opened Stores

  /** The span of a row of the document. */
  function RowOf(wide: Wide, doc: seq<Para>, width: nat, a: Place): Row
    requires width >= 2 && a.para < |doc|
  {
    var offset := OffsetOf(wide, doc, width, a);
    var end := Advance(wide, doc[a.para].text, offset, width);
    Row(a.para, offset, if end <= offset then 0 else end - offset)
  }

  ghost predicate WrappedAt(wide: Wide, doc: seq<Para>, width: nat, rows: seq<Row>, places: seq<Place>, i0: nat, j: nat)
    requires width >= 2 && j < |rows| == |places|
  {
    && IsPlace(wide, doc, width, places[j]) && Index(wide, doc, width, places[j]) == i0 + j
    && rows[j] == RowOf(wide, doc, width, places[j])
  }

  /** The rows are consecutive rows of the document, from row i0 on. */
  ghost predicate Wrapped(wide: Wide, doc: seq<Para>, width: nat, rows: seq<Row>, places: seq<Place>, i0: nat) {
    && width >= 2 && |places| == |rows|
    && forall j {:trigger WrappedAt(wide, doc, width, rows, places, i0, j)} :: 0 <= j < |rows| ==>
         WrappedAt(wide, doc, width, rows, places, i0, j)
  }

  lemma RowOfFits(wide: Wide, doc: seq<Para>, width: nat, a: Place)
    requires width >= 2 && IsPlace(wide, doc, width, a)
    ensures var r := RowOf(wide, doc, width, a);
      && RowFits(r, doc, width) && (doc[a.para].text != [] ==> r.width > 0)
      && r.offset + r.width == Advance(wide, doc[a.para].text, OffsetOf(wide, doc, width, a), width)
  {
    NextRow(wide, doc[a.para].text, width, a.row);
  }

  /** Wrapped rows fit and follow each other. */
  lemma WrappedChained(wide: Wide, doc: seq<Para>, width: nat, rows: seq<Row>, places: seq<Place>, i0: nat)
    requires Wrapped(wide, doc, width, rows, places, i0)
    ensures Chained(rows) && forall j :: 0 <= j < |rows| ==> RowFits(rows[j], doc, width)
  {
    forall j | 0 <= j < |rows|
      ensures RowFits(rows[j], doc, width)
    {
      assert WrappedAt(wide, doc, width, rows, places, i0, j);
      RowOfFits(wide, doc, width, places[j]);
    }
    forall j | 0 < j < |rows|
      ensures Follows(rows, j)
    {
      assert WrappedAt(wide, doc, width, rows, places, i0, j) && WrappedAt(wide, doc, width, rows, places, i0, j - 1);
      var a := places[j - 1];
      NextPlace(wide, doc, width, a, places[j]);
      NextRow(wide, doc[a.para].text, width, a.row);
      RowOfFits(wide, doc, width, a);
    }
  }

  /** A row takes as many cells of its line as it can. */
  ghost predicate RowFilled(wide: Wide, doc: seq<Para>, width: nat, r: Row) {
    r.para < |doc| ==> Filled(wide, doc[r.para].text, r.offset, r.offset + r.width, width)
  }

  /** All rows do, and a row in front of another line's ends its own: no text is skipped. */
  ghost predicate RowsFilled(wide: Wide, doc: seq<Para>, width: nat, rows: seq<Row>) {
    && (forall j :: 0 <= j < |rows| ==> RowFilled(wide, doc, width, rows[j]))
    && (forall j :: 0 < j < |rows| && rows[j].para != rows[j - 1].para ==> EndsText(doc, rows[j - 1]))
  }

  ghost predicate EndsText(doc: seq<Para>, r: Row) {
    r.para < |doc| ==> r.offset + r.width == |doc[r.para].text|
  }

  lemma WrappedFilled(wide: Wide, doc: seq<Para>, width: nat, rows: seq<Row>, places: seq<Place>, i0: nat)
    requires Wrapped(wide, doc, width, rows, places, i0)
    ensures RowsFilled(wide, doc, width, rows)
  {
    forall j | 0 <= j < |rows|
      ensures RowFilled(wide, doc, width, rows[j])
    {
      assert WrappedAt(wide, doc, width, rows, places, i0, j);
      var text, offset := doc[places[j].para].text, OffsetOf(wide, doc, width, places[j]);
      RowOfFits(wide, doc, width, places[j]);
      RowEnd(wide, text, offset, Advance(wide, text, offset, width), width);
    }
    forall j | 0 < j < |rows| && rows[j].para != rows[j - 1].para
      ensures EndsText(doc, rows[j - 1])
    {
      assert WrappedAt(wide, doc, width, rows, places, i0, j) && WrappedAt(wide, doc, width, rows, places, i0, j - 1);
      var a := places[j - 1];
      NextPlace(wide, doc, width, a, places[j]);
      NextRow(wide, doc[a.para].text, width, a.row);
      RowOfFits(wide, doc, width, a);
    }
  }

  lemma {:induction false} SameBefore(wide: Wide, doc: seq<Para>, doc2: seq<Para>, width: nat, k: nat)
    requires width >= 2 && k <= |doc| && k <= |doc2| && forall i :: 0 <= i < k ==> doc2[i].text == doc[i].text
    ensures RowsBefore(wide, doc2, width, k) == RowsBefore(wide, doc, width, k)
  {
    if k > 0 {
      SameBefore(wide, doc, doc2, width, k - 1);
    }
  }

  /** The document cut off behind a row, whose line does not go on in the next one if it was cut there. */
  ghost predicate CutBehind(doc: seq<Para>, r: Row, doc2: seq<Para>) {
    && r.para < |doc| && r.offset + r.width <= |doc[r.para].text| && |doc2| == r.para + 1
    && (forall i :: 0 <= i < r.para ==> doc2[i] == doc[i])
    && doc2[r.para].text == doc[r.para].text[..r.offset + r.width] && doc2[r.para].pad == doc[r.para].pad
    && doc2[r.para].wrapped == (doc[r.para].wrapped && r.offset + r.width == |doc[r.para].text|)
  }

  /** Cutting the document off behind the last row leaves the rows as they are. */
  lemma WrappedCut(wide: Wide, doc: seq<Para>, doc2: seq<Para>, width: nat, rows: seq<Row>, places: seq<Place>, i0: nat)
    requires Wrapped(wide, doc, width, rows, places, i0) && |rows| > 0 && CutBehind(doc, rows[|rows| - 1], doc2)
    ensures Wrapped(wide, doc2, width, rows, places, i0)
  {
    var last := |rows| - 1;
    forall j | 0 <= j < |rows|
      ensures WrappedAt(wide, doc2, width, rows, places, i0, j)
    {
      assert WrappedAt(wide, doc, width, rows, places, i0, j) && WrappedAt(wide, doc, width, rows, places, i0, last);
      IndexOrders(wide, doc, width, places[j], places[last]);
      CutPlace(wide, doc, doc2, width, places[j], places[last]);
    }
  }

  lemma CutPlace(wide: Wide, doc: seq<Para>, doc2: seq<Para>, width: nat, a: Place, z: Place)
    requires width >= 2 && IsPlace(wide, doc, width, a) && IsPlace(wide, doc, width, z)
    requires a.para < z.para || (a.para == z.para && a.row <= z.row)
    requires CutBehind(doc, RowOf(wide, doc, width, z), doc2)
    ensures IsPlace(wide, doc2, width, a) && Index(wide, doc2, width, a) == Index(wide, doc, width, a)
    ensures RowOf(wide, doc2, width, a) == RowOf(wide, doc, width, a)
  {
    SameBefore(wide, doc, doc2, width, a.para);
    RowOfFits(wide, doc, width, z);
    if a.para == z.para {
      var text := doc[a.para].text;
      var cut := text[..Advance(wide, text, Start(wide, text, width, z.row), width)];
      assert doc2[a.para].text == cut;
      assert
        && RowCount(wide, cut, width) == z.row + 1
        && Start(wide, cut, width, a.row) == Start(wide, text, width, a.row)
        && Advance(wide, cut, Start(wide, text, width, a.row), width) ==
          Advance(wide, text, Start(wide, text, width, a.row), width) by {
        CutRow(wide, text, width, z.row, a.row);
      }
    } else {
      assert doc2[a.para] == doc[a.para];
    }
  }

  /** Blank lines behind the document, one row each. */
  ghost function BlankRowsFrom(k: nat, n: nat): (r: seq<Row>)
    ensures |r| == n
  {
    seq(n, i requires 0 <= i < n => Row(k + i, 0, 0))
  }

  ghost function BlankPlaces(k: nat, n: nat): (r: seq<Place>)
    ensures |r| == n
  {
    seq(n, i requires 0 <= i < n => Place(k + i, 0))
  }

  /** If the rows reach to the end of the document, blank lines behind it continue them. */
  lemma WrappedMore(wide: Wide, doc: seq<Para>, width: nat, rows: seq<Row>, places: seq<Place>, i0: nat, attr: Attr,
                    n: nat)
    requires Wrapped(wide, doc, width, rows, places, i0) && i0 + |rows| == RowTotal(wide, doc, width)
    ensures Wrapped(wide, doc + Blanks(attr, n), width, rows + BlankRowsFrom(|doc|, n), places + BlankPlaces(|doc|, n),
                    i0)
  {
    var doc2, rows2, places2 := doc + Blanks(attr, n), rows + BlankRowsFrom(|doc|, n), places + BlankPlaces(|doc|, n);
    forall j | 0 <= j < |rows2|
      ensures WrappedAt(wide, doc2, width, rows2, places2, i0, j)
    {
      if j < |rows| {
        assert WrappedAt(wide, doc, width, rows, places, i0, j);
        SameBefore(wide, doc, doc2, width, places[j].para);
      } else {
        BlanksBehind(wide, doc, width, attr, n, j - |rows|);
        assert doc2[|doc| + (j - |rows|)] == Blank(attr);
        assert places2[j] == Place(|doc| + (j - |rows|), 0);
      }
    }
  }

  lemma {:induction false} BlanksBehind(wide: Wide, doc: seq<Para>, width: nat, attr: Attr, n: nat, i: nat)
    requires width >= 2 && i <= n
    ensures RowsBefore(wide, doc + Blanks(attr, n), width, |doc| + i) == RowTotal(wide, doc, width) + i
    decreases i
  {
    if i == 0 {
      SameBefore(wide, doc, doc + Blanks(attr, n), width, |doc|);
    } else {
      BlanksBehind(wide, doc, width, attr, n, i - 1);
      assert (doc + Blanks(attr, n))[|doc| + i - 1] == Blank(attr);
    }
  }
}
