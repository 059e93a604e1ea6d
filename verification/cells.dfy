/** Cells, rendition attributes and what a cell shows (line.h). */
module Cells {

  /** The flag bits of struct attr; a URI is not part of this model. */
  datatype Flags = Flags(bold: bool, italic: bool, faint: bool, underlined: nat,
                         strikethrough: bool, invisible: bool, reverse: bool,
                         blink: bool, guarded: bool)

  const NO_FLAGS := Flags(false, false, false, 0, false, false, false, false, false)

  /** struct attr: background, foreground and underline colours, and the flags. */
  datatype Attr = Attr(bg: nat, fg: nat, ul: nat, flags: Flags)
  {
    /** A table slot with a zero foreground is free, or holds a forwarding mark. */
    predicate Empty() { fg == 0 }
  }

  const SPECIAL_BG := 261
  const SPECIAL_FG := 262

  /** default_attr__: a palette colour is stored as its index plus one. */
  const DEFAULT_ATTR := Attr(SPECIAL_BG + 1, SPECIAL_FG + 1, SPECIAL_BG + 1, NO_FLAGS)

  const FREE_SLOT := Attr(0, 0, 0, NO_FLAGS)

  /** struct cell: a compacted character, the drawn mark and a 12-bit attribute id. */
  datatype Cell = Cell(ch: nat, drawn: bool, attrid: nat)

  /** What a cell shows: its character and its attribute, the drawn mark aside. */
  datatype Glyph = Glyph(ch: nat, attr: Attr)

  /** A paragraph as a value: its glyphs, the attribute behind its end, its wrap mark. */
  datatype Para = Para(text: seq<Glyph>, pad: Attr, wrapped: bool)

  // Attribute ids: 0 is the default attribute, n > 0 is slot n - 1 of the table.

  predicate IdOk(tab: seq<Attr>, id: nat) {
    id == 0 || (id <= |tab| && !tab[id - 1].Empty())
  }

  function Resolve(tab: seq<Attr>, id: nat): Attr
    requires IdOk(tab, id)
  {
    if id == 0 then DEFAULT_ATTR else tab[id - 1]
  }

  predicate IdsOk(tab: seq<Attr>, cells: seq<Cell>) {
    forall i :: 0 <= i < |cells| ==> IdOk(tab, cells[i].attrid)
  }

  function Render(tab: seq<Attr>, cells: seq<Cell>): (text: seq<Glyph>)
    requires IdsOk(tab, cells)
    ensures |text| == |cells|
  {
    seq(|cells|, i requires 0 <= i < |cells| => Glyph(cells[i].ch, Resolve(tab, cells[i].attrid)))
  }
}
