/** The main screen as an object: its storage, its width and its cursors (struct screen in screen.h). */
module MainScreen {
  import opened Cells
  import opened Reflow
  import opened Resize
  import opened ScreenRows
  import opened Scrolling
  import opened Stores
  import opened Wrapping
  import History
  import Ranges

  /** struct cursor: column and row. */
  datatype Cursor = Cursor(x: nat, y: nat)

  class Screen {
    var st: Store
    var width: nat
    var c: Cursor
    var savedC: Cursor
    var sbLimit: int
    const top: Ptr
    ghost var v: View

    ghost predicate Valid()
      reads this
    {
      && ScreenOk(st, v, width, top) && width >= 2
      && c.x < width && c.y < |st.spans| && savedC.x < width && savedC.y < |st.spans|
    }

    /** A new screen: blank lines, from resize_main_screen for a screen without lines. */
    constructor (newWidth: nat, height: nat, topHandle: Ptr)
      requires newWidth >= 2 && height > 0 && topHandle != NULL
      ensures Valid() && width == newWidth && |st.spans| == height && c == savedC == Cursor(0, 0) && sbLimit == 0
      ensures Document() == Ranges.Blanks(DEFAULT_ATTR, height)
    {
      var first;
      ghost var view;
      first, view := FirstScreen(height, topHandle, newWidth);
      st, v, top, width, c, savedC, sbLimit := first, view, topHandle, newWidth, Cursor(0, 0), Cursor(0, 0), 0;
    }

    ghost function Document(): seq<Para>
      requires Covers(st.line, v.order)
      reads this
    {
      Doc(st.line, v.order)
    }

    /** screen_erase_fast: the rows become blank lines, the others show what they did. */
    method EraseFast(ys: nat, ye: nat, attr: Attr)
      requires Valid() && ys <= ye <= |st.spans| && ys < |st.spans|
      modifies this`st, this`v
      ensures Valid()
      ensures ErasedTo(old(v.rows), old(Document()), v.rows, Document(), width, attr, ys, ye)
    {
      st, v := Scrolling.EraseFast(st, ys, ye, attr, width, top, v);
    }

    /** screen_scroll_fast on the main screen. With history, rows that leave at the top are pushed
        into it and no text is lost, provided that no pushed line is undercounted and the history is
        below its limit (see module History). */
    method ScrollFast(topRow: nat, bottom: nat, amount: int, save: bool, attr: Attr)
      returns (n: int, ghost rows1: seq<Row>, ghost doc1: seq<Para>)
      requires Valid() && topRow < bottom <= |st.spans|
      modifies this`st, this`v, this`sbLimit
      ensures Valid()
      ensures n ==
        if amount > bottom - topRow then bottom - topRow
        else if amount < topRow - bottom then topRow - bottom
        else amount
      ensures save && topRow == 0 && amount > 0 ==>
        && SameScreen(old(v.rows), old(Document()), rows1, doc1, width)
        && n >= 0 && History.ScrolledUp(rows1, doc1, v.rows, Document(), width, attr, bottom, n)
        && Flat(Document()) == Flat(old(Document()))
        && |rows1| > 0 && sbLimit - old(sbLimit) == v.rows[0].para - rows1[0].para
      ensures !(save && topRow == 0 && amount > 0) ==>
        && Scrolled(old(v.rows), old(Document()), v.rows, Document(), width, attr, topRow, bottom, n)
        && sbLimit == old(sbLimit)
    {
      rows1, doc1 := v.rows, Document();
      var next, pushed := st, 0;
      ghost var view := v;
      if save && topRow == 0 && amount > 0 {
        n := if amount < bottom then amount else bottom;
        next, pushed, view, rows1, doc1 := History.ScrollIntoHistory(st, bottom, amount, attr, width, top, v);
      } else if save && topRow == 0 && amount == 0 {
        n := 0;
        next, view := SplitAfter(st, bottom - 1, width, top, v);
        NotScrolled(rows1, doc1, view.rows, Doc(next.line, view.order), width, attr, topRow, bottom);
      } else {
        next, n, view := ScrollRegion(st, topRow, bottom, amount, attr, width, top, v);
      }
      Update(next, pushed, view);
    }

    /** The new state after scrolling. */
    method Update(next: Store, pushed: int, ghost view: View)
      modifies this`st, this`v, this`sbLimit
      ensures st == next && sbLimit == old(sbLimit) + pushed && v == view
    {
      st, v, sbLimit := next, view, sbLimit + pushed;
    }

    /** resize_main_screen and the new size, for cursors that are not pending and under the same
        assumptions: see Rewrapped for what becomes of text and cursors. */
    method Resize(wide: Wide, newWidth: nat, height: nat, moved1: bool, moved2: bool, an: Anchors)
      returns (ghost n: nat, ghost i0: nat, ghost places: seq<Place>)
      requires Valid() && newWidth >= 2 && height > 0 && an.FreshIn(st.hs)
      modifies this
      ensures Valid() && width == newWidth && |st.spans| == height
      ensures old(v.rows)[old(c).y].para < |old(v.order)| && old(v.rows)[old(savedC).y].para < |old(v.order)|
      ensures Rewrapped(wide, old(Document()), old(v.rows), old(c).x, old(c).y, old(savedC).x, old(savedC).y, newWidth,
                        n, i0, Document(), v.rows, places, c.x, c.y, savedC.x, savedC.y)
      ensures RowsFilled(wide, Document(), width, v.rows)
      ensures sbLimit == old(sbLimit) + n + Risen(old(v.rows)[0].para + n, v.rows[0].para)
    {
      var next, blanks, x, y, x2, y2, pushed;
      ghost var view;
      next, blanks, x, y, x2, y2, pushed, view, i0, places :=
        ResizeMainScreen(wide, st, newWidth, height, c.x, c.y, savedC.x, savedC.y, moved1, moved2, top, an, v, width);
      n := blanks;
      Assign(next, newWidth, Cursor(x, y), Cursor(x2, y2), pushed, view);
    }

    /** The new state after a resize. */
    method Assign(next: Store, newWidth: nat, cursor: Cursor, saved: Cursor, pushed: int, ghost view: View)
      modifies this
      ensures st == next && width == newWidth && c == cursor && savedC == saved && sbLimit == old(sbLimit) + pushed
      ensures v == view
    {
      st, v, width, c, savedC, sbLimit := next, view, newWidth, cursor, saved, sbLimit + pushed;
    }
  }
}
