/** Screen rows as values: what validate_main_screen and the scrolling code rely on, and what
    splitting, clearing and rotating do to the rows (screen.c). */
module ScreenRows {
  import opened Cells
  import opened Lines
  import opened Rotation
  import opened Sequences
  import opened Stores

  /** What a row shows: its cells, and the attribute behind them. */
  datatype Shown = Shown(text: seq<Glyph>, pad: Attr)

  ghost predicate RowFits(r: Row, doc: seq<Para>, width: nat) {
    r.para < |doc| && r.width <= width && r.offset + r.width <= |doc[r.para].text|
  }

  function Show(doc: seq<Para>, r: Row): Shown
    requires r.para < |doc| && r.offset + r.width <= |doc[r.para].text|
  {
    Shown(doc[r.para].text[r.offset..r.offset + r.width], doc[r.para].pad)
  }

  /** Row j continues the paragraph of the row above, or starts the next one. */
  ghost predicate Follows(rows: seq<Row>, j: nat)
    requires 0 < j < |rows|
  {
    if rows[j].para == rows[j - 1].para
    then rows[j].offset == rows[j - 1].offset + rows[j - 1].width && rows[j - 1].width > 0
    else rows[j].para == rows[j - 1].para + 1 && rows[j].offset == 0
  }

  ghost predicate Chained(rows: seq<Row>) {
    forall j {:trigger Follows(rows, j)} :: 0 < j < |rows| ==> Follows(rows, j)
  }

  /** The screen shows the end of the document: rows fit, follow each other, and end in the last line. */
  ghost predicate RowsOk(rows: seq<Row>, doc: seq<Para>, width: nat) {
    && |rows| > 0 && (forall j :: 0 <= j < |rows| ==> RowFits(rows[j], doc, width))
    && Chained(rows) && rows[|rows| - 1].para == |doc| - 1
  }

  lemma {:induction false} RowsInOrder(rows: seq<Row>, i: nat, j: nat)
    requires Chained(rows) && i < j < |rows|
    ensures rows[i].para <= rows[j].para <= rows[i].para + (j - i)
    ensures rows[i].para == rows[j].para ==> rows[i].offset + rows[i].width <= rows[j].offset && rows[i].width > 0
    decreases j
  {
    assert Follows(rows, j);
    if i < j - 1 {
      RowsInOrder(rows, i, j - 1);
    }
  }

  lemma ChainedSorted(rows: seq<Row>)
    requires Chained(rows)
    ensures RowsSorted(rows)
  {
    forall i, j | 0 <= i <= j < |rows|
      ensures RowLe(rows, i, j)
    {
      if i < j {
        RowsInOrder(rows, i, j);
      }
    }
  }

  /** The text of all paragraphs in a row. */
  ghost function Flat(doc: seq<Para>): (r: seq<Glyph>) {
    if doc == [] then [] else Flat(doc[..|doc| - 1]) + doc[|doc| - 1].text
  }

  /** The text in front of the screen. */
  ghost function Hidden(rows: seq<Row>, doc: seq<Para>): seq<Glyph>
    requires |rows| > 0 && rows[0].para < |doc| && rows[0].offset <= |doc[rows[0].para].text|
  {
    Flat(doc[..rows[0].para]) + doc[rows[0].para].text[..rows[0].offset]
  }

  /** Row j shows the given cells. */
  ghost predicate Shows(rows: seq<Row>, doc: seq<Para>, width: nat, j: nat, s: Shown)
    requires j < |rows|
  {
    RowFits(rows[j], doc, width) && Show(doc, rows[j]) == s
  }

  /** Row j shows what row i showed. */
  ghost predicate ShowsAs(rows0: seq<Row>, doc0: seq<Para>, i: nat, rows: seq<Row>, doc: seq<Para>, j: nat, width: nat)
    requires i < |rows0| && j < |rows|
  {
    RowFits(rows0[i], doc0, width) && Shows(rows, doc, width, j, Show(doc0, rows0[i]))
  }

  /** The text in front of the screen is the same. */
  ghost predicate SameHidden(rows0: seq<Row>, doc0: seq<Para>, rows: seq<Row>, doc: seq<Para>, width: nat) {
    && |rows0| > 0 && |rows| > 0 && RowFits(rows0[0], doc0, width) && RowFits(rows[0], doc, width)
    && Hidden(rows, doc) == Hidden(rows0, doc0)
  }

  /** There is no text in front of the screen, not even an empty line. */
  predicate AtTop(rows: seq<Row>) {
    |rows| > 0 && rows[0].para == 0 && rows[0].offset == 0
  }

  /** A row that started a line still does, and the screen starts with the first line if it did. */
  ghost predicate KeepStarts(rows0: seq<Row>, rows: seq<Row>) {
    && |rows| == |rows0| && (AtTop(rows0) <==> AtTop(rows))
    && forall j :: 0 <= j < |rows0| && rows0[j].offset == 0 ==> rows[j].offset == 0
  }

  /** A change that moves no row: all rows show what they showed, and no text is lost, be it in
      front of the screen or anywhere. */
  ghost predicate SameScreen(rows0: seq<Row>, doc0: seq<Para>, rows: seq<Row>, doc: seq<Para>, width: nat) {
    && KeepStarts(rows0, rows) && SameHidden(rows0, doc0, rows, doc, width) && Flat(doc) == Flat(doc0)
    && forall j :: 0 <= j < |rows| ==> ShowsAs(rows0, doc0, j, rows, doc, j, width)
  }

  // ----- Splitting at the start of a row -----

  lemma SplitText(text: seq<Glyph>, cut: nat, offset: nat, width: nat)
    requires offset + width <= |text| && cut <= |text| && (offset >= cut || offset + width <= cut)
    ensures if offset >= cut then text[cut..][offset - cut..offset - cut + width] == text[offset..offset + width]
            else text[..cut][offset..offset + width] == text[offset..offset + width]
  {
    assert text[cut..|text|] == text[cut..] && text[0..cut] == text[..cut];
    if offset >= cut {
      SliceOfSlice(text, cut, |text|, offset - cut, offset - cut + width);
    } else {
      SliceOfSlice(text, 0, cut, offset, offset + width);
    }
  }

  /** A row that does not cross the cut. */
  lemma SplitRowShows(r: Row, doc: seq<Para>, width: nat, k: nat, cut: nat)
    requires RowFits(r, doc, width) && k < |doc| && cut <= |doc[k].text|
    requires r.para == k ==> r.offset >= cut || r.offset + r.width <= cut
    ensures var doc_, r_ := SplitDoc(doc, k, cut), SplitRow(r, k, cut);
      RowFits(r_, doc_, width) && Show(doc_, r_) == Show(doc, r)
  {
    if r.para == k {
      SplitText(doc[k].text, cut, r.offset, r.width);
    }
  }

  lemma SplitRowFits(rows: seq<Row>, doc: seq<Para>, width: nat, z: nat, j: nat)
    requires RowsOk(rows, doc, width) && z < |rows| && rows[z].offset > 0 && j < |rows|
    ensures var k, cut := rows[z].para, rows[z].offset;
      var doc_, r := SplitDoc(doc, k, cut), SplitRow(rows[j], k, cut);
      RowFits(r, doc_, width) && Show(doc_, r) == Show(doc, rows[j])
  {
    assert RowFits(rows[z], doc, width) && RowFits(rows[j], doc, width);
    if j < z {
      RowsInOrder(rows, j, z);
    } else if z < j {
      RowsInOrder(rows, z, j);
    }
    SplitRowShows(rows[j], doc, width, rows[z].para, rows[z].offset);
  }

  /** Splitting a paragraph where a row starts changes neither the rows nor what they show. */
  lemma SplitKeepsRows(rows: seq<Row>, doc: seq<Para>, width: nat, z: nat)
    requires RowsOk(rows, doc, width) && z < |rows| && rows[z].offset > 0
    ensures rows[z].para < |doc| && rows[z].offset <= |doc[rows[z].para].text|
    ensures var k, cut := rows[z].para, rows[z].offset;
      var rows_, doc_ := SplitRows(rows, k, cut), SplitDoc(doc, k, cut);
      RowsOk(rows_, doc_, width) && SameScreen(rows, doc, rows_, doc_, width)
  {
    var k, cut := rows[z].para, rows[z].offset;
    assert RowFits(rows[z], doc, width);
    var rows_, doc_ := SplitRows(rows, k, cut), SplitDoc(doc, k, cut);
    forall j | 0 <= j < |rows|
      ensures RowFits(rows_[j], doc_, width) && ShowsAs(rows, doc, j, rows_, doc_, j, width)
    {
      assert RowFits(rows[j], doc, width);
      SplitRowFits(rows, doc, width, z, j);
    }
    forall j | 0 < j < |rows|
      ensures Follows(rows_, j)
    {
      SplitFollows(rows, z, j);
    }
    if z < |rows| - 1 {
      RowsInOrder(rows, z, |rows| - 1);
    }
    assert ShowsAs(rows, doc, 0, rows_, doc_, 0, width);
    if z > 0 {
      RowsInOrder(rows, 0, z);
    }
    SplitKeepsFlat(doc, k, cut);
    SplitKeepsHidden(rows, doc, width, z);
  }

  lemma {:induction false} SplitKeepsFlat(doc: seq<Para>, k: nat, cut: nat)
    requires k < |doc| && cut <= |doc[k].text|
    ensures Flat(SplitDoc(doc, k, cut)) == Flat(doc)
  {
    var d := SplitDoc(doc, k, cut);
    if k == |doc| - 1 {
      assert d[..|d| - 1] == doc[..k] + [Head(doc[k], cut)];
      assert d[..|d| - 1][..k] == doc[..k];
      assert doc[k].text == doc[k].text[..cut] + doc[k].text[cut..];
    } else {
      SplitKeepsFlat(doc[..|doc| - 1], k, cut);
      assert d[..|d| - 1] == SplitDoc(doc[..|doc| - 1], k, cut);
    }
  }

  lemma SplitKeepsHidden(rows: seq<Row>, doc: seq<Para>, width: nat, z: nat)
    requires RowsOk(rows, doc, width) && z < |rows| && rows[z].offset > 0
    requires rows[z].para < |doc| && rows[z].offset <= |doc[rows[z].para].text|
    requires var k, cut := rows[z].para, rows[z].offset;
      RowFits(SplitRow(rows[0], k, cut), SplitDoc(doc, k, cut), width)
    ensures RowFits(rows[0], doc, width)
    ensures var k, cut := rows[z].para, rows[z].offset;
      var rows_, doc_ := SplitRows(rows, k, cut), SplitDoc(doc, k, cut);
      RowFits(rows_[0], doc_, width) && Hidden(rows_, doc_) == Hidden(rows, doc)
  {
    var k, cut := rows[z].para, rows[z].offset;
    var rows_, doc_ := SplitRows(rows, k, cut), SplitDoc(doc, k, cut);
    assert RowFits(rows[0], doc, width);
    if z == 0 {
      assert doc_[..k + 1][..k] == doc[..k];
      assert Flat(doc_[..k + 1]) == Flat(doc[..k]) + doc[k].text[..cut];
    } else {
      RowsInOrder(rows, 0, z);
      assert doc_[..rows[0].para] == doc[..rows[0].para];
    }
  }

  lemma SplitFollows(rows: seq<Row>, z: nat, j: nat)
    requires Chained(rows) && 0 < j < |rows| && z < |rows| && rows[z].offset > 0
    ensures Follows(SplitRows(rows, rows[z].para, rows[z].offset), j)
  {
    assert Follows(rows, j);
    if j < z {
      RowsInOrder(rows, j - 1, z);
      RowsInOrder(rows, j, z);
    } else if z < j {
      if z < j - 1 {
        RowsInOrder(rows, z, j - 1);
      }
      RowsInOrder(rows, z, j);
    }
  }

  /** Row y is the last one of its line on the screen. */
  predicate EndsLine(rows: seq<Row>, y: nat) {
    y + 1 < |rows| ==> rows[y + 1].offset == 0
  }

  lemma EndsLineAbove(rows: seq<Row>, y: nat, z: nat)
    requires EndsLine(rows, y) && z == y + 1
    ensures z < |rows| ==> rows[z].offset == 0
  {
  }

  // ----- Clearing a row that has its line to itself -----

  /** No other row is of the line of row y. */
  lemma AloneInLine(rows: seq<Row>, y: nat, j: nat)
    requires Chained(rows) && y < |rows| && j < |rows| && j != y && rows[y].offset == 0
    requires y + 1 < |rows| ==> rows[y + 1].offset == 0
    ensures rows[j].para != rows[y].para
  {
    if j < y {
      RowsInOrder(rows, j, y);
    } else {
      RowsInOrder(rows, y, y + 1);
      if y + 1 < j {
        RowsInOrder(rows, y + 1, j);
      }
    }
  }

  /** Clearing such a row with its line leaves all other rows and the text in front of the screen alone. */
  lemma ClearKeepsRows(rows: seq<Row>, doc: seq<Para>, width: nat, y: nat, para: Para)
    requires RowsOk(rows, doc, width) && y < |rows| && rows[y].offset == 0 && para.text == []
    requires y + 1 < |rows| ==> rows[y + 1].offset == 0
    ensures rows[y].para < |doc|
    ensures var rows_, doc_ := rows[y := Row(rows[y].para, 0, 0)], doc[rows[y].para := para];
      && RowsOk(rows_, doc_, width) && SameHidden(rows, doc, rows_, doc_, width) && KeepStarts(rows, rows_)
      && (forall j :: 0 <= j < |rows| && j != y ==> ShowsAs(rows, doc, j, rows_, doc_, j, width))
      && Shows(rows_, doc_, width, y, Shown([], para.pad))
  {
    assert RowFits(rows[y], doc, width) && RowFits(rows[0], doc, width);
    var k := rows[y].para;
    var rows_, doc_ := rows[y := Row(k, 0, 0)], doc[k := para];
    forall j | 0 <= j < |rows|
      ensures RowFits(rows_[j], doc_, width) && (j != y ==> ShowsAs(rows, doc, j, rows_, doc_, j, width))
    {
      assert RowFits(rows[j], doc, width);
      if j != y {
        AloneInLine(rows, y, j);
      }
    }
    forall j | 0 < j < |rows|
      ensures Follows(rows_, j)
    {
      assert Follows(rows, j);
      if j == y {
        AloneInLine(rows, y, j - 1);
      } else if j - 1 == y {
        AloneInLine(rows, y, j);
      }
    }
    if 0 < y {
      RowsInOrder(rows, 0, y);
    }
    assert doc_[..rows[0].para] == doc[..rows[0].para];
  }

  /** Rows from ys to i - 1 are blank lines, row i starts a line, all else shows what it did. */
  ghost predicate ErasedTo(rows0: seq<Row>, doc0: seq<Para>, rows: seq<Row>, doc: seq<Para>, width: nat, attr: Attr,
                           ys: nat, i: nat) {
    && KeepStarts(rows0, rows) && SameHidden(rows0, doc0, rows, doc, width)
    && (forall j :: ys <= j <= i && j < |rows| ==> rows[j].offset == 0)
    && (forall j :: ys <= j < i && j < |rows| ==> Shows(rows, doc, width, j, Shown([], attr)))
    && (forall j :: 0 <= j < |rows| && !(ys <= j < i) ==> ShowsAs(rows0, doc0, j, rows, doc, j, width))
  }

  lemma ErasedStep(rows0: seq<Row>, doc0: seq<Para>, rows1: seq<Row>, doc1: seq<Para>, rows2: seq<Row>,
                   doc2: seq<Para>, width: nat, ys: nat, i: nat, para: Para)
    requires ErasedTo(rows0, doc0, rows1, doc1, width, para.pad, ys, i) && ys <= i < |rows1|
    requires SameScreen(rows1, doc1, rows2, doc2, width) && RowsOk(rows2, doc2, width) && rows2[i].para < |doc2|
    requires (i + 1 < |rows2| ==> rows2[i + 1].offset == 0) && para.text == []
    ensures var rows, doc := rows2[i := Row(rows2[i].para, 0, 0)], doc2[rows2[i].para := para];
      ErasedTo(rows0, doc0, rows, doc, width, para.pad, ys, i + 1) && RowsOk(rows, doc, width)
  {
    ClearKeepsRows(rows2, doc2, width, i, para);
    var rows, doc := rows2[i := Row(rows2[i].para, 0, 0)], doc2[rows2[i].para := para];
    forall j | 0 <= j < |rows| && j != i
      ensures if ys <= j < i then Shows(rows, doc, width, j, Shown([], para.pad))
              else ShowsAs(rows0, doc0, j, rows, doc, j, width)
    {
      assert ShowsAs(rows1, doc1, j, rows2, doc2, j, width) && ShowsAs(rows2, doc2, j, rows, doc, j, width);
      assert if ys <= j < i then Shows(rows1, doc1, width, j, Shown([], para.pad))
             else ShowsAs(rows0, doc0, j, rows1, doc1, j, width);
    }
  }

  // ----- Two runs of rows change places with their lines -----

  /** The new position of line p when the lines from a to b and from b to c change places. */
  function NewPosition(a: nat, b: nat, c: nat, p: nat): (q: nat)
    requires a <= b <= c
  {
    Origin(a, a + (c - b), c, p)
  }

  ghost function RotRows(rows: seq<Row>, top: nat, mid: nat, bottom: nat, a: nat, b: nat, c: nat): (r: seq<Row>)
    requires top <= mid <= bottom <= |rows| && a <= b <= c
    ensures |r| == |rows|
  {
    seq(|rows|, j requires 0 <= j < |rows| =>
      var r := rows[Origin(top, mid, bottom, j)]; r.(para := NewPosition(a, b, c, r.para)))
  }

  /** Two runs of rows have changed places; the text in front of the screen is the same. */
  ghost predicate Rearranged(rows0: seq<Row>, doc0: seq<Para>, rows: seq<Row>, doc: seq<Para>, width: nat, top: nat,
                             mid: nat, bottom: nat) {
    && |rows| == |rows0| && top <= mid <= bottom <= |rows| && SameHidden(rows0, doc0, rows, doc, width)
    && forall j :: 0 <= j < |rows| ==> RearrangedRow(rows0, doc0, rows, doc, width, top, mid, bottom, j)
  }

  ghost predicate RearrangedRow(rows0: seq<Row>, doc0: seq<Para>, rows: seq<Row>, doc: seq<Para>, width: nat,
                                top: nat, mid: nat, bottom: nat, j: nat)
    requires j < |rows| == |rows0| && top <= mid <= bottom <= |rows|
  {
    ShowsAs(rows0, doc0, Origin(top, mid, bottom, j), rows, doc, j, width)
  }

  lemma StartsAbove(rows: seq<Row>, j: nat, z: nat)
    requires Chained(rows) && j < z < |rows| && rows[z].offset == 0
    ensures rows[j].para < rows[z].para
  {
    RowsInOrder(rows, j, z);
  }

  /** The runs of rows are runs of lines. */
  lemma RunOf(rows: seq<Row>, top: nat, mid: nat, bottom: nat, j: nat)
    requires Chained(rows) && top < mid < bottom <= |rows| && j < |rows|
    requires rows[top].offset == 0 && rows[mid].offset == 0 && (bottom < |rows| ==> rows[bottom].offset == 0)
    ensures var a, b, c := rows[top].para, rows[mid].para, rows[bottom - 1].para + 1;
      && a < b < c && (j < top <==> rows[j].para < a)
      && (j < mid <==> rows[j].para < b) && (j < bottom <==> rows[j].para < c)
  {
    StartsAbove(rows, top, mid);
    if mid < bottom - 1 {
      RowsInOrder(rows, mid, bottom - 1);
    }
    if bottom < |rows| {
      StartsAbove(rows, bottom - 1, bottom);
    }
    forall z | z in {top, mid, bottom} && z < |rows|
      ensures j < z <==> rows[j].para < rows[z].para
    {
      if j < z {
        StartsAbove(rows, j, z);
      } else if z < j {
        RowsInOrder(rows, z, j);
      }
    }
    if bottom < |rows| {
      assert Follows(rows, bottom);
    } else if j < bottom - 1 {
      RowsInOrder(rows, j, bottom - 1);
    }
  }

  /** Exchanging two runs of whole lines: each row shows what the row it comes from showed, and the
      text in front of the screen is the same. */
  lemma RotateKeepsRows(rows: seq<Row>, doc: seq<Para>, width: nat, top: nat, mid: nat, bottom: nat)
    requires RowsOk(rows, doc, width) && top < mid < bottom <= |rows|
    requires rows[top].offset == 0 && rows[mid].offset == 0 && (bottom < |rows| ==> rows[bottom].offset == 0)
    ensures var a, b, c := rows[top].para, rows[mid].para, rows[bottom - 1].para + 1;
      && a < b < c <= |doc|
      && var rows_, doc_ := RotRows(rows, top, mid, bottom, a, b, c), Rotated(doc, a, b, c);
         RowsOk(rows_, doc_, width) && Rearranged(rows, doc, rows_, doc_, width, top, mid, bottom)
  {
    var a, b, c := rows[top].para, rows[mid].para, rows[bottom - 1].para + 1;
    RotatedShows(rows, doc, width, top, mid, bottom, 0);
    RotatedTo(rows, doc, RotRows(rows, top, mid, bottom, a, b, c), Rotated(doc, a, b, c), width, top, mid, bottom, a, b,
              c);
  }

  /** The same for a screen that is given. */
  lemma RotatedTo(rows: seq<Row>, doc: seq<Para>, rows_: seq<Row>, doc_: seq<Para>, width: nat, top: nat, mid: nat,
                  bottom: nat, a: nat, b: nat, c: nat)
    requires RowsOk(rows, doc, width) && top < mid < bottom <= |rows| && a < b < c <= |doc|
    requires rows[top].offset == 0 && rows[mid].offset == 0 && (bottom < |rows| ==> rows[bottom].offset == 0)
    requires a == rows[top].para && b == rows[mid].para && c == rows[bottom - 1].para + 1
    requires rows_ == RotRows(rows, top, mid, bottom, a, b, c) && doc_ == Rotated(doc, a, b, c)
    ensures RowsOk(rows_, doc_, width) && Rearranged(rows, doc, rows_, doc_, width, top, mid, bottom)
  {
    RotatedAll(rows, doc, rows_, doc_, width, top, mid, bottom, a, b, c);
    RotatedChain(rows, rows_, top, mid, bottom);
    assert RearrangedRow(rows, doc, rows_, doc_, width, top, mid, bottom, 0);
    RotatedEnds(rows, doc, rows_, doc_, width, top, mid, bottom, a, b, c);
  }

  lemma RotatedChain(rows: seq<Row>, rows_: seq<Row>, top: nat, mid: nat, bottom: nat)
    requires Chained(rows) && top < mid < bottom <= |rows|
    requires rows[top].offset == 0 && rows[mid].offset == 0 && (bottom < |rows| ==> rows[bottom].offset == 0)
    requires rows[top].para <= rows[mid].para <= rows[bottom - 1].para + 1
    requires rows_ == RotRows(rows, top, mid, bottom, rows[top].para, rows[mid].para, rows[bottom - 1].para + 1)
    ensures Chained(rows_)
  {
    forall j {:trigger Follows(rows_, j)} | 0 < j < |rows_|
      ensures Follows(rows_, j)
    {
      RotatedFollows(rows, top, mid, bottom, j);
    }
  }

  lemma RotatedAll(rows: seq<Row>, doc: seq<Para>, rows_: seq<Row>, doc_: seq<Para>, width: nat, top: nat, mid: nat,
                   bottom: nat, a: nat, b: nat, c: nat)
    requires RowsOk(rows, doc, width) && top < mid < bottom <= |rows| && a < b < c <= |doc|
    requires rows[top].offset == 0 && rows[mid].offset == 0 && (bottom < |rows| ==> rows[bottom].offset == 0)
    requires a == rows[top].para && b == rows[mid].para && c == rows[bottom - 1].para + 1
    requires rows_ == RotRows(rows, top, mid, bottom, a, b, c) && doc_ == Rotated(doc, a, b, c)
    ensures forall j :: 0 <= j < |rows_| ==> RowFits(rows_[j], doc_, width)
    ensures forall j :: 0 <= j < |rows_| ==> RearrangedRow(rows, doc, rows_, doc_, width, top, mid, bottom, j)
  {
    forall j | 0 <= j < |rows_|
      ensures RowFits(rows_[j], doc_, width)
      ensures RearrangedRow(rows, doc, rows_, doc_, width, top, mid, bottom, j)
    {
      RotatedShows(rows, doc, width, top, mid, bottom, j);
    }
  }

  /** Exchanging a run with an empty one changes nothing. */
  lemma NothingRearranged(rows: seq<Row>, doc: seq<Para>, width: nat, top: nat, mid: nat, bottom: nat)
    requires RowsOk(rows, doc, width) && top <= mid <= bottom <= |rows| && (top == mid || mid == bottom)
    ensures Rearranged(rows, doc, rows, doc, width, top, mid, bottom)
  {
    forall j | 0 <= j < |rows|
      ensures RearrangedRow(rows, doc, rows, doc, width, top, mid, bottom, j)
    {
      assert RowFits(rows[j], doc, width);
    }
  }

  lemma RotatedShows(rows: seq<Row>, doc: seq<Para>, width: nat, top: nat, mid: nat, bottom: nat, j: nat)
    requires RowsOk(rows, doc, width) && top < mid < bottom <= |rows| && j < |rows|
    requires rows[top].offset == 0 && rows[mid].offset == 0 && (bottom < |rows| ==> rows[bottom].offset == 0)
    ensures var a, b, c := rows[top].para, rows[mid].para, rows[bottom - 1].para + 1;
      && a < b < c <= |doc|
      && ShowsAs(rows, doc, Origin(top, mid, bottom, j), RotRows(rows, top, mid, bottom, a, b, c),
                 Rotated(doc, a, b, c), j, width)
  {
    var i := Origin(top, mid, bottom, j);
    RunOf(rows, top, mid, bottom, i);
    assert RowFits(rows[i], doc, width) && RowFits(rows[bottom - 1], doc, width);
  }

  lemma RotatedEnds(rows: seq<Row>, doc: seq<Para>, rows_: seq<Row>, doc_: seq<Para>, width: nat, top: nat, mid: nat,
                    bottom: nat, a: nat, b: nat, c: nat)
    requires RowsOk(rows, doc, width) && top < mid < bottom <= |rows| && a < b < c <= |doc|
    requires rows[top].offset == 0 && rows[mid].offset == 0 && (bottom < |rows| ==> rows[bottom].offset == 0)
    requires a == rows[top].para && b == rows[mid].para && c == rows[bottom - 1].para + 1
    requires rows_ == RotRows(rows, top, mid, bottom, a, b, c) && doc_ == Rotated(doc, a, b, c)
    requires RowFits(rows_[0], doc_, width)
    ensures rows_[|rows_| - 1].para == |doc_| - 1 && SameHidden(rows, doc, rows_, doc_, width)
  {
    RunOf(rows, top, mid, bottom, |rows| - 1);
    RunOf(rows, top, mid, bottom, mid - 1);
    assert Follows(rows, mid);
    RunOf(rows, top, mid, bottom, 0);
    assert RowFits(rows[0], doc, width);
    assert doc_[..a] == doc[..a];
    assert top > 0 ==> doc_[..rows[0].para] == doc[..rows[0].para] && doc_[rows[0].para] == doc[rows[0].para];
  }

  lemma RotatedFollows(rows: seq<Row>, top: nat, mid: nat, bottom: nat, j: nat)
    requires Chained(rows) && top < mid < bottom <= |rows| && 0 < j < |rows|
    requires rows[top].offset == 0 && rows[mid].offset == 0 && (bottom < |rows| ==> rows[bottom].offset == 0)
    requires rows[top].para <= rows[mid].para <= rows[bottom - 1].para + 1
    ensures Follows(RotRows(rows, top, mid, bottom, rows[top].para, rows[mid].para, rows[bottom - 1].para + 1), j)
  {
    var i, i1 := Origin(top, mid, bottom, j), Origin(top, mid, bottom, j - 1);
    RunOf(rows, top, mid, bottom, i);
    RunOf(rows, top, mid, bottom, i1);
    if i > 0 {
      assert Follows(rows, i);
    }
    assert Follows(rows, mid);
    if top > 0 {
      assert Follows(rows, top);
    }
  }

  // ----- Scrolling -----

  /** Scrolling the region by n rows, up if n > 0: rows in the region show what the row n further
      down showed, or nothing if that is outside the region; all else is the same. */
  ghost predicate Scrolled(rows0: seq<Row>, doc0: seq<Para>, rows: seq<Row>, doc: seq<Para>, width: nat, attr: Attr,
                           top: nat, bottom: nat, n: int) {
    && |rows| == |rows0| && SameHidden(rows0, doc0, rows, doc, width)
    && forall j :: 0 <= j < |rows| ==> ScrolledRow(rows0, doc0, rows, doc, width, attr, top, bottom, n, j)
  }

  ghost predicate ScrolledRow(rows0: seq<Row>, doc0: seq<Para>, rows: seq<Row>, doc: seq<Para>, width: nat,
                              attr: Attr, top: nat, bottom: nat, n: int, j: nat)
    requires j < |rows| == |rows0|
  {
    if !(top <= j < bottom) then ShowsAs(rows0, doc0, j, rows, doc, j, width)
    else if top <= j + n < bottom && j + n < |rows0| then ShowsAs(rows0, doc0, j + n, rows, doc, j, width)
    else Shows(rows, doc, width, j, Shown([], attr))
  }

  /** Blanking the rows that leave the region and exchanging them with the rest scrolls it. */
  lemma EraseAndRotate(rows0: seq<Row>, doc0: seq<Para>, rows1: seq<Row>, doc1: seq<Para>, rows2: seq<Row>,
                       doc2: seq<Para>, rows: seq<Row>, doc: seq<Para>, width: nat, attr: Attr, top: nat, mid: nat,
                       bottom: nat, ys: nat, ye: nat, n: int)
    requires SameScreen(rows0, doc0, rows1, doc1, width)
    requires if n >= 0 then ys == top && ye == mid == top + n else ys == mid == bottom + n && ye == bottom
    requires ErasedTo(rows1, doc1, rows2, doc2, width, attr, ys, ye)
    requires Rearranged(rows2, doc2, rows, doc, width, top, mid, bottom)
    ensures Scrolled(rows0, doc0, rows, doc, width, attr, top, bottom, n)
  {
    forall j | 0 <= j < |rows|
      ensures ScrolledRow(rows0, doc0, rows, doc, width, attr, top, bottom, n, j)
    {
      var i := Origin(top, mid, bottom, j);
      assert RearrangedRow(rows2, doc2, rows, doc, width, top, mid, bottom, j);
      assert ShowsAs(rows2, doc2, i, rows, doc, j, width) && ShowsAs(rows0, doc0, i, rows1, doc1, i, width);
      if ys <= i < ye {
        assert Shows(rows2, doc2, width, i, Shown([], attr));
      } else {
        assert ShowsAs(rows1, doc1, i, rows2, doc2, i, width);
      }
    }
  }

  lemma NotScrolled(rows0: seq<Row>, doc0: seq<Para>, rows: seq<Row>, doc: seq<Para>, width: nat, attr: Attr,
                    top: nat, bottom: nat)
    requires SameScreen(rows0, doc0, rows, doc, width)
    ensures Scrolled(rows0, doc0, rows, doc, width, attr, top, bottom, 0)
  {
    forall j | 0 <= j < |rows|
      ensures ScrolledRow(rows0, doc0, rows, doc, width, attr, top, bottom, 0, j)
    {
      assert ShowsAs(rows0, doc0, j, rows, doc, j, width);
    }
  }

  lemma SameScreenAgain(rows0: seq<Row>, doc0: seq<Para>, rows1: seq<Row>, doc1: seq<Para>, rows: seq<Row>,
                        doc: seq<Para>, width: nat)
    requires SameScreen(rows0, doc0, rows1, doc1, width) && SameScreen(rows1, doc1, rows, doc, width)
    ensures SameScreen(rows0, doc0, rows, doc, width)
  {
    forall j | 0 <= j < |rows|
      ensures ShowsAs(rows0, doc0, j, rows, doc, j, width)
    {
      assert ShowsAs(rows0, doc0, j, rows1, doc1, j, width) && ShowsAs(rows1, doc1, j, rows, doc, j, width);
    }
  }
}
