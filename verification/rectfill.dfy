/** Filling a rectangle of an image four pixels at a time (image_draw_rect, draw_mask and draw_bulk
    in image.c; intersect_with in util.h), and the scalar loop it stands for. */
module RectFill {
  /** Rectangles may hang over every edge of the image. */
  datatype Rect = Rect(x: int, y: int, width: int, height: int)

  /** shared: the image lives in shared memory; otherwise its rows are sent with their padding. */
  datatype Image = Image(width: nat, height: nat, shared: bool)

  /** Rows take a multiple of four pixels. */
  function Stride(width: nat): (r: nat)
    ensures r % 4 == 0 && width <= r < width + 4
  {
    (width + 3) / 4 * 4
  }

  function Max(a: int, b: int): int { if a > b then a else b }
  function Min(a: int, b: int): int { if a < b then a else b }

  predicate Inside(r: Rect, col: int, row: int) {
    r.x <= col < r.x + r.width && r.y <= row < r.y + r.height
  }

  /** intersect_with: what both rectangles have in common, unless that is nothing. */
  function Intersect(a: Rect, b: Rect): (r: (Rect, bool))
    ensures forall col, row :: (r.1 && Inside(r.0, col, row)) <==> Inside(a, col, row) && Inside(b, col, row)
    ensures r.1 ==> r.0.width > 0 && r.0.height > 0
  {
    var x, y := Max(a.x, b.x), Max(a.y, b.y);
    var x1, y1 := Min(a.x + a.width, b.x + b.width), Min(a.y + a.height, b.y + b.height);
    if x1 <= x || y1 <= y then (Rect(0, 0, 0, 0), false) else (Rect(x, y, x1 - x, y1 - y), true)
  }

  /** What is painted: the part inside the image, up to the end of the row if it touches the right
      edge of an image whose padding is sent along. */
  function Painted(im: Image, rect: Rect): (r: (Rect, bool)) {
    var (c, some) := Intersect(rect, Rect(0, 0, im.width, im.height));
    if some && !im.shared && c.x + c.width == im.width
    then (c.(width := c.width + (Stride(im.width) - im.width)), true)
    else (c, some)
  }

  // ----- Pixels -----

  function Filled(d: seq<nat>, at: int, n: int, fg: nat): (r: seq<nat>)
    ensures |r| == |d|
  {
    seq(|d|, j requires 0 <= j < |d| => if at <= j < at + n then fg else d[j])
  }

  lemma FilledTwice(d: seq<nat>, at: int, n: int, m: int, fg: nat)
    requires n >= 0 && m >= 0
    ensures Filled(Filled(d, at, n, fg), at + n, m, fg) == Filled(d, at, n + m, fg)
  {
  }

  lemma FilledNone(d: seq<nat>, at: int, fg: nat)
    ensures Filled(d, at, 0, fg) == d
  {
  }

  /** Rows of stride pixels, of which a rectangle is painted. */
  predicate Covers(stride: nat, r: Rect, j: nat)
    requires stride > 0
  {
    Inside(r, j % stride, j / stride)
  }

  function FilledRect(d: seq<nat>, stride: nat, r: Rect, fg: nat): (s: seq<nat>)
    requires stride > 0
    ensures |s| == |d|
  {
    seq(|d|, j requires 0 <= j < |d| => if Covers(stride, r, j) then fg else d[j])
  }

  lemma DivMod(stride: nat, row: nat, col: nat)
    requires col < stride
    ensures (row * stride + col) / stride == row && (row * stride + col) % stride == col
  {
    var j := row * stride + col;
    var q := j / stride;
    assert j == q * stride + j % stride;
    assert q < row ==> (q + 1) * stride <= row * stride;
    assert q > row ==> (row + 1) * stride <= q * stride;
  }

  /** The pixels of one row. */
  lemma InRow(stride: nat, row: nat, x: nat, w: nat, j: nat)
    requires stride > 0 && x + w <= stride
    ensures row * stride + x <= j < row * stride + x + w <==> j / stride == row && x <= j % stride < x + w
  {
    if row * stride + x <= j < row * stride + x + w {
      DivMod(stride, row, j - row * stride);
    }
    assert j == j / stride * stride + j % stride;
  }

  /** One row more. */
  lemma RowMore(d: seq<nat>, stride: nat, r: Rect, fg: nat)
    requires stride > 0 && r.x >= 0 && r.y >= 0 && r.width >= 0 && r.height >= 0 && r.x + r.width <= stride
    ensures Filled(FilledRect(d, stride, r, fg), (r.y + r.height) * stride + r.x, r.width, fg)
            == FilledRect(d, stride, r.(height := r.height + 1), fg)
  {
    var row := r.y + r.height;
    var a, b := Filled(FilledRect(d, stride, r, fg), row * stride + r.x, r.width, fg),
                FilledRect(d, stride, r.(height := r.height + 1), fg);
    forall j | 0 <= j < |d|
      ensures a[j] == b[j]
    {
      InRow(stride, row, r.x, r.width, j);
    }
  }

  lemma NoRows(d: seq<nat>, stride: nat, r: Rect, fg: nat)
    requires stride > 0 && r.height == 0
    ensures FilledRect(d, stride, r, fg) == d
  {
  }

  // ----- Four pixels -----

  type Mask = m: seq<bool> | |m| == 4 witness [false, false, false, false]

  /** pmask: the last pixels of a block. */
  function PrefixMask(prefix: nat): Mask { [prefix > 3, prefix > 2, prefix > 1, prefix > 0] }

  /** smask: the first ones. */
  function SuffixMask(suffix: nat): Mask { [suffix > 0, suffix > 1, suffix > 2, suffix > 3] }

  function Both(a: Mask, b: Mask): Mask { [a[0] && b[0], a[1] && b[1], a[2] && b[2], a[3] && b[3]] }

  function Masked(d: seq<nat>, at: nat, m: Mask, fg: nat): (r: seq<nat>)
    ensures |r| == |d|
  {
    seq(|d|, j requires 0 <= j < |d| => if at <= j < at + 4 && m[j - at] then fg else d[j])
  }

  /** draw_mask. Blocks are stored as a whole, so they must be aligned. */
  method DrawMask(data: array<nat>, at: nat, m: Mask, fg: nat)
    requires at % 4 == 0 && at + 4 <= data.Length
    modifies data
    ensures data[..] == Masked(old(data[..]), at, m, fg)
  {
    for k := 0 to 4
      invariant forall j :: 0 <= j < data.Length ==>
        data[j] == if at <= j < at + k && m[j - at] then fg else old(data[j])
    {
      data[at + k] := if m[k] then fg else data[at + k];
    }
  }

  method Store(data: array<nat>, at: int, fg: nat)
    requires at % 4 == 0 && 0 <= at && at + 4 <= data.Length
    modifies data
    ensures data[..] == Filled(old(data[..]), at, 4, fg)
  {
    for k := 0 to 4
      invariant forall j :: 0 <= j < data.Length ==> data[j] == if at <= j < at + k then fg else old(data[j])
    {
      data[at + k] := fg;
    }
  }

  lemma PrefixFills(d: seq<nat>, at: nat, prefix: nat, fg: nat)
    requires prefix < 4
    ensures Masked(d, at, PrefixMask(prefix), fg) == Filled(d, at + 4 - prefix, prefix, fg)
  {
  }

  lemma SuffixFills(d: seq<nat>, at: nat, suffix: nat, fg: nat)
    requires suffix < 4
    ensures Masked(d, at, SuffixMask(suffix), fg) == Filled(d, at, suffix, fg)
  {
  }

  lemma BothFills(d: seq<nat>, at: nat, prefix: nat, suffix: nat, fg: nat)
    requires prefix < 4 && suffix < 4
    ensures Masked(d, at, Both(PrefixMask(prefix), SuffixMask(suffix)), fg)
            == Filled(d, at + 4 - prefix, prefix + suffix - 4, fg)
  {
  }

  /** draw_bulk: the n blocks from block s on, up to limit, four in a round; the first round is
      entered at the case rem, so that it stores only rem blocks unless rem is 0. */
  method DrawBulk(data: array<nat>, rem: nat, dst0: int, limit: int, fg: nat, ghost s: nat, ghost n: nat)
    requires n > 0 && rem == n % 4 && limit == 4 * (s + n) <= data.Length
    requires dst0 == if rem == 0 then 4 * s else 4 * (s + rem - 4)
    modifies data
    ensures data[..] == Filled(old(data[..]), 4 * s, 4 * n, fg)
  {
    ghost var was := data[..];
    ghost var done, q := 0, n / 4;
    assert n == 4 * q + rem;
    var dst, entry, more := dst0, rem, true;
    FilledNone(was, 4 * s, fg);
    while more
      invariant done <= n && (more <==> done < n) && entry < 4
      invariant data[..] == Filled(was, 4 * s, 4 * done, fg)
      invariant n == done + 4 * q + entry
      invariant dst == if entry == 0 then 4 * (s + done) else 4 * (s + entry - 4)
      invariant entry > 0 ==> done == 0
      decreases n - done
    {
      if entry == 0 {
        q := q - 1;
        StoreNext(data, dst, was, s, done, fg);
        done := done + 1;
      }
      if entry == 0 || entry == 3 {
        StoreNext(data, dst + 4, was, s, done, fg);
        done := done + 1;
      }
      if entry == 0 || entry >= 2 {
        StoreNext(data, dst + 8, was, s, done, fg);
        done := done + 1;
      }
      StoreNext(data, dst + 12, was, s, done, fg);
      done := done + 1;
      dst := dst + 16;
      entry := 0;
      more := dst < limit;
    }
  }

  method StoreNext(data: array<nat>, at: int, ghost was: seq<nat>, ghost s: nat, ghost done: nat, fg: nat)
    requires at == 4 * (s + done) && at + 4 <= data.Length
    requires data[..] == Filled(was, 4 * s, 4 * done, fg)
    modifies data
    ensures data[..] == Filled(was, 4 * s, 4 * (done + 1), fg)
  {
    FilledTwice(was, 4 * s, 4 * done, 4, fg);
    Store(data, at, fg);
  }

  // ----- One row -----

  lemma FilledThrice(d: seq<nat>, at: int, k: nat, m: nat, n: nat, fg: nat)
    ensures Filled(Filled(Filled(d, at, k, fg), at + k, m, fg), at + k + m, n, fg) == Filled(d, at, k + m + n, fg)
  {
    FilledTwice(d, at, k, m, fg);
    FilledTwice(d, at, k + m, n, fg);
  }

  /** A row both ends of which are inside a block. */
  method FillRagged(data: array<nat>, y: nat, prefix: nat, suffix: nat, width4: nat, xmax: nat, xrem: nat, xinit: int,
                    fg: nat, ghost s: nat, ghost m: nat)
    requires y == 4 * s && width4 == 4 * m && m > 0 && y + width4 <= data.Length && 0 < prefix < 4 && 0 < suffix < 4
    requires xmax == m - 1 && (m > 1 ==> xrem == (m - 2) % 4 && xinit == if xrem == 0 then 1 else xrem - 3)
    modifies data
    ensures data[..] == Filled(old(data[..]), y + 4 - prefix, width4 - (4 - prefix) - (4 - suffix), fg)
  {
    ghost var was := data[..];
    if width4 > 8 {
      ghost var k := m - 2;
      DrawMask(data, y, PrefixMask(prefix), fg);
      PrefixFills(was, y, prefix, fg);
      DrawBulk(data, xrem, y + 4 * xinit, y + 4 * xmax, fg, s + 1, k);
      DrawMask(data, y + width4 - 4, SuffixMask(suffix), fg);
      FilledThrice(was, y + 4 - prefix, prefix, 4 * k, suffix, fg);
      SuffixFills(Filled(Filled(was, y + 4 - prefix, prefix, fg), y + 4, 4 * k, fg), y + width4 - 4, suffix, fg);
    } else if width4 > 4 {
      DrawMask(data, y, PrefixMask(prefix), fg);
      PrefixFills(was, y, prefix, fg);
      DrawMask(data, y + 4, SuffixMask(suffix), fg);
      SuffixFills(Filled(was, y + 4 - prefix, prefix, fg), y + 4, suffix, fg);
      FilledTwice(was, y + 4 - prefix, prefix, suffix, fg);
    } else {
      DrawMask(data, y, Both(PrefixMask(prefix), SuffixMask(suffix)), fg);
      BothFills(was, y, prefix, suffix, fg);
    }
  }

  /** A row whose right end is inside a block. */
  method FillToSuffix(data: array<nat>, y: nat, suffix: nat, width4: nat, xmax: nat, xrem: nat, xinit: int, fg: nat,
                      ghost s: nat, ghost m: nat)
    requires y == 4 * s && width4 == 4 * m && m > 0 && y + width4 <= data.Length && 0 < suffix < 4
    requires xmax == m - 1 && xrem == (m - 1) % 4 && xinit == if xrem == 0 then 0 else xrem - 4
    modifies data
    ensures data[..] == Filled(old(data[..]), y, width4 - (4 - suffix), fg)
  {
    ghost var was := data[..];
    if width4 > 4 {
      ghost var k := m - 1;
      DrawBulk(data, xrem, y + 4 * xinit, y + 4 * xmax, fg, s, k);
      DrawMask(data, y + width4 - 4, SuffixMask(suffix), fg);
      SuffixFills(Filled(was, y, 4 * k, fg), y + width4 - 4, suffix, fg);
      FilledTwice(was, y, 4 * k, suffix, fg);
    } else {
      DrawMask(data, y, SuffixMask(suffix), fg);
      SuffixFills(was, y, suffix, fg);
    }
  }

  /** A row whose left end is inside a block. */
  method FillFromPrefix(data: array<nat>, y: nat, prefix: nat, width4: nat, xmax: nat, xrem: nat, xinit: int, fg: nat,
                        ghost s: nat, ghost m: nat)
    requires y == 4 * s && width4 == 4 * m && m > 0 && y + width4 <= data.Length && 0 < prefix < 4
    requires xmax == m && xrem == (m - 1) % 4 && xinit == if xrem == 0 then 1 else xrem - 3
    modifies data
    ensures data[..] == Filled(old(data[..]), y + 4 - prefix, width4 - (4 - prefix), fg)
  {
    ghost var was := data[..];
    DrawMask(data, y, PrefixMask(prefix), fg);
    PrefixFills(was, y, prefix, fg);
    if width4 > 4 {
      ghost var k := m - 1;
      DrawBulk(data, xrem, y + 4 * xinit, y + 4 * xmax, fg, s + 1, k);
      FilledTwice(was, y + 4 - prefix, prefix, 4 * k, fg);
    }
  }

  /** The pixels of a row in blocks. */
  lemma RowShape(x: nat, width: nat)
    requires width > 0
    ensures var prefix, suffix, m := (4 - x % 4) % 4, (x + width) % 4, (width + x + 3) / 4 - x / 4;
      && m > 0 && x == 4 * (x / 4) + (if prefix == 0 then 0 else 4 - prefix)
      && width == 4 * m - (if prefix == 0 then 0 else 4 - prefix) - (if suffix == 0 then 0 else 4 - suffix)
  {
  }

  /** The row of a rectangle from pixel x on, whose pixels start at address row. */
  method FillRow(data: array<nat>, row: nat, x: nat, width: nat, fg: nat, ghost b: nat)
    requires width > 0 && row == 4 * b && row + (x + width + 3) / 4 * 4 <= data.Length
    modifies data
    ensures data[..] == Filled(old(data[..]), row + x, width, fg)
  {
    var y := row + x / 4 * 4;
    var prefix, suffix := (4 - x % 4) % 4, (x + width) % 4;
    var width4 := (width + x + 3) / 4 * 4 - x / 4 * 4;
    ghost var s, m := b + x / 4, (width + x + 3) / 4 - x / 4;
    RowShape(x, width);
    assert width4 == 4 * m;
    var xmax: int := (width4 + 3) / 4 - (if suffix != 0 then 1 else 0);
    var head := if prefix != 0 then 1 else 0;
    var xrem := (xmax - head) % 4;
    var xinit := head + (if xrem != 0 then xrem - 4 else 0);
    if suffix != 0 && prefix != 0 {
      FillRagged(data, y, prefix, suffix, width4, xmax, xrem, xinit, fg, s, m);
    } else if suffix != 0 {
      FillToSuffix(data, y, suffix, width4, xmax, xrem, xinit, fg, s, m);
    } else if prefix != 0 {
      FillFromPrefix(data, y, prefix, width4, xmax, xrem, xinit, fg, s, m);
    } else {
      DrawBulk(data, xrem, y + 4 * xinit, y + 4 * xmax, fg, s, m);
    }
  }

  // ----- The rectangle -----

  /** The rectangle lies in the rows of the image. */
  predicate Fits(length: nat, stride: nat, height: nat, r: Rect) {
    && stride > 0 && stride % 4 == 0 && length >= stride * height
    && r.x >= 0 && r.y >= 0 && r.width > 0 && r.height > 0 && r.x + r.width <= stride && r.y + r.height <= height
  }

  /** Where a row is. */
  lemma RowAt(length: nat, stride: nat, height: nat, r: Rect, row: nat, x1: nat)
    requires Fits(length, stride, height, r) && row < height && x1 <= stride
    ensures row * stride == 4 * (row * (stride / 4)) && row * stride + x1 <= length
  {
    var b := stride / 4;
    assert stride == 4 * b;
    assert row * (4 * b) == 4 * (row * b);
    assert (row + 1) * stride <= height * stride;
    assert (row + 1) * stride == row * stride + stride && stride * height == height * stride;
  }

  lemma BlocksInRow(stride: nat, x1: nat)
    requires stride % 4 == 0 && x1 <= stride
    ensures (x1 + 3) / 4 * 4 <= stride
  {
  }

  /** The rows of the rectangle, in blocks. */
  method FillBlocks(data: array<nat>, stride: nat, ghost height: nat, r: Rect, fg: nat)
    requires Fits(data.Length, stride, height, r)
    modifies data
    ensures data[..] == FilledRect(old(data[..]), stride, r, fg)
  {
    ghost var was := data[..];
    NoRows(was, stride, r.(height := 0), fg);
    for j := 0 to r.height
      invariant data[..] == FilledRect(was, stride, r.(height := j), fg)
    {
      var row := r.y + j;
      BlocksInRow(stride, r.x + r.width);
      RowAt(data.Length, stride, height, r, row, (r.x + r.width + 3) / 4 * 4);
      RowMore(was, stride, r.(height := j), fg);
      FillRow(data, row * stride, r.x, r.width, fg, row * (stride / 4));
    }
  }

  /** The same a pixel at a time. */
  method FillPixels(data: array<nat>, stride: nat, ghost height: nat, r: Rect, fg: nat)
    requires Fits(data.Length, stride, height, r)
    modifies data
    ensures data[..] == FilledRect(old(data[..]), stride, r, fg)
  {
    ghost var was := data[..];
    NoRows(was, stride, r.(height := 0), fg);
    for j := 0 to r.height
      invariant data[..] == FilledRect(was, stride, r.(height := j), fg)
    {
      ghost var above := data[..];
      var row := r.y + j;
      var first := row * stride + r.x;
      RowAt(data.Length, stride, height, r, row, r.x + r.width);
      FilledNone(above, first, fg);
      for i := 0 to r.width
        invariant data[..] == Filled(above, first, i, fg)
      {
        OneMore(above, first, i, fg);
        data[first + i] := fg;
      }
      RowMore(was, stride, r.(height := j), fg);
    }
  }

  lemma OneMore(d: seq<nat>, at: nat, n: nat, fg: nat)
    requires at + n < |d|
    ensures Filled(d, at, n, fg)[at + n := fg] == Filled(d, at, n + 1, fg)
  {
  }

  /** What is painted lies in the rows. */
  lemma PaintedFits(im: Image, rect: Rect, length: nat)
    requires length >= Stride(im.width) * im.height && Painted(im, rect).1
    ensures Fits(length, Stride(im.width), im.height, Painted(im, rect).0)
  {
    var c := Intersect(rect, Rect(0, 0, im.width, im.height)).0;
    assert Inside(c, c.x, c.y) && Inside(c, c.x + c.width - 1, c.y + c.height - 1);
  }

  /** image_draw_rect. */
  method DrawRect(im: Image, data: array<nat>, rect: Rect, fg: nat)
    requires data.Length >= Stride(im.width) * im.height
    modifies data
    ensures var (r, some) := Painted(im, rect);
      data[..] == if some then FilledRect(old(data[..]), Stride(im.width), r, fg) else old(data[..])
  {
    var (r, some) := Painted(im, rect);
    if some {
      PaintedFits(im, rect, data.Length);
      FillBlocks(data, Stride(im.width), im.height, r, fg);
    }
  }

  /** A pixel of the image is painted exactly if it is inside the rectangle; a pixel of the padding
      exactly if rows are sent with it and the rectangle covers the last pixel of that row. */
  lemma PixelRule(im: Image, rect: Rect, row: nat, col: nat)
    requires row < im.height && col < Stride(im.width)
    ensures var (r, some) := Painted(im, rect); var j := row * Stride(im.width) + col;
      some && Covers(Stride(im.width), r, j) <==>
      if col < im.width then Inside(rect, col, row) else !im.shared && Inside(rect, im.width - 1, row)
  {
    DivMod(Stride(im.width), row, col);
    var whole := Rect(0, 0, im.width, im.height);
    var (c, some) := Intersect(rect, whole);
    assert (some && Inside(c, col, row)) <==> Inside(rect, col, row) && Inside(whole, col, row);
    if im.width > 0 {
      assert (some && Inside(c, im.width - 1, row)) <==> Inside(rect, im.width - 1, row);
    }
  }
}
