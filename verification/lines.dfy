/** Lines: cells and the attribute table their ids point into (line.h, line.c). */
module Lines {
  import opened Cells
  import opened AttrTable
  import opened Powers
  import opened Sets

  class Line {
    const hash: Hash
    var attrs: seq<Attr>
    var cell: seq<Cell>
    var caps: nat
    var padAttrid: nat
    var wrapped: bool

    /** create_line: an empty line whose padding has the given attribute. */
    constructor (hash: Hash, attr: Attr, caps: nat)
      requires !attr.Empty()
      ensures TextOk() && cell == [] && Pad() == attr && !wrapped
      ensures this.hash == hash && this.caps == caps
      ensures Stored(attrs) <= if attr == DEFAULT_ATTR then {} else {attr}
    {
      this.hash, this.caps := hash, caps;
      attrs, cell, padAttrid, wrapped := [], [], 0, false;
      new;
      assert Stored(attrs) == {};
      var id := AllocAttr(attr);
      padAttrid := id;
    }

    /** The table is absent (empty) or well formed and below the ceiling, and all ids resolve. */
    ghost predicate TextOk()
      reads this`attrs, this`cell, this`padAttrid, this`caps
    {
      && (attrs != [] ==> TableOk(hash, attrs) && |attrs| < ATTRID_MAX)
      && IdsOk(attrs, cell) && IdOk(attrs, padAttrid) && |cell| <= caps
    }

    ghost function Text(): (text: seq<Glyph>)
      requires TextOk()
      reads this`attrs, this`cell, this`padAttrid, this`caps
      ensures |text| == |cell|
    {
      Render(attrs, cell)
    }

    ghost function Pad(): Attr
      requires TextOk()
      reads this`attrs, this`cell, this`padAttrid, this`caps
    {
      Resolve(attrs, padAttrid)
    }

    /** The paragraph the line holds. */
    ghost function Value(): Para
      requires TextOk()
      reads this`attrs, this`cell, this`padAttrid, this`caps, this`wrapped
    {
      Para(Text(), Pad(), wrapped)
    }

    /** attr_at: the attribute of cell x, or the padding behind the last cell. */
    function AttrAt(x: nat): (a: Attr)
      requires TextOk()
      reads this`attrs, this`cell, this`padAttrid, this`caps
      ensures a == if x < |cell| then Text()[x].attr else Pad()
    {
      var id := if x >= |cell| then padAttrid else cell[x].attrid;
      if id == 0 then DEFAULT_ATTR else attrs[id - 1]
    }

    /** The ids in use: those of the cells and of the padding, the default id aside. */
    ghost function UsedIds(): set<nat>
      reads this`cell, this`padAttrid
    {
      IdsIn(cell) + (if padAttrid == 0 then {} else {padAttrid})
    }

    /** The cells' part of move_attrtab. */
    method MoveCells(dst0: seq<Attr>, src0: seq<Attr>)
      returns (dst: seq<Attr>, src: seq<Attr>, ghost moved: set<nat>)
      requires Moving(hash, src0, src0, dst0, {}) && |dst0| < ATTRID_MAX && IdsOk(src0, cell)
      modifies this`cell
      ensures Moving(hash, src0, src, dst, moved) && |dst| == |dst0| && moved == IdsIn(old(cell))
      ensures Renumbered(old(cell), cell, src, moved, |cell|)
    {
      dst, src, moved := dst0, src0, {};
      ghost var cells0 := cell;
      for i := 0 to |cell|
        invariant Moving(hash, src0, src, dst, moved) && |dst| == |dst0|
        invariant moved <= IdsIn(cells0) && Renumbered(cells0, cell, src, moved, i)
      {
        var oldId := cell[i].attrid;
        if oldId != 0 {
          var newId;
          ghost var src1, cells1 := src, cell;
          newId, dst, src := MoveOneAttr(hash, dst, src, oldId, src0, moved);
          cell := cell[i := cell[i].(attrid := newId % ATTRID_MAX)];
          OneMoreCell(cells0, cells1, cell, src1, src, moved, oldId, i);
          moved := moved + {oldId};
        }
      }
    }

    /** Its loop and the padding. */
    method Renumber(dst0: seq<Attr>) returns (dst: seq<Attr>, ghost src: seq<Attr>, ghost moved: set<nat>)
      requires Moving(hash, attrs, attrs, dst0, {}) && |dst0| < ATTRID_MAX && IdsOk(attrs, cell)
      requires IdOk(attrs, padAttrid)
      modifies this`cell, this`padAttrid
      ensures Moving(hash, attrs, src, dst, moved) && |dst| == |dst0| && moved == old(UsedIds())
      ensures Renumbered(old(cell), cell, src, moved, |cell|)
      ensures old(padAttrid) <= |src| && padAttrid == Forward(src, old(padAttrid))
    {
      ghost var cells0 := cell;
      var src1, newId;
      dst, src1, moved := MoveCells(dst0, attrs);
      newId, dst, src1, moved := MovePad(hash, dst, src1, padAttrid, attrs, moved, cells0, cell);
      padAttrid := newId;
      src := src1;
    }

    /** move_attrtab: renumber all ids by copying every used slot into dst once. */
    method MoveAttrtab(dst0: seq<Attr>)
      requires TextOk() && attrs != [] && TableOk(hash, dst0) && |dst0| < ATTRID_MAX
      requires forall k :: 0 <= k < |dst0| ==> dst0[k].Empty()
      modifies this`attrs, this`cell, this`padAttrid
      ensures TextOk() && |attrs| == |dst0| && |cell| == old(|cell|)
      ensures Stored(attrs) <= Stored(old(attrs))
      ensures Text() == old(Text()) && Pad() == old(Pad()) <==> |old(UsedIds())| <= |dst0|
    {
      ghost var cells0, pad0, orig := cell, padAttrid, attrs;
      var dst;
      ghost var src, moved;
      dst, src, moved := Renumber(dst0);
      attrs := dst;
      MovedText(hash, orig, src, dst, moved, cells0, cell, pad0, padAttrid);
      CopiedStored(orig, src, dst, moved);
    }

    /** optimize_attributes: rebuild the table with just the attributes in use. */
    method OptimizeAttributes()
      requires TextOk()
      modifies this`attrs, this`cell, this`padAttrid
      ensures TextOk() && Text() == old(Text()) && Pad() == old(Pad())
              <==> !Undercounted(|old(attrs)|, old(UsedIds()))
    {
      if attrs == [] {
        return;
      }
      var cnt := CountUsed();
      if cnt > 0 {
        CountedRoom(|attrs|, UsedIds(), cnt);
        CeilBelow(cnt, |attrs|);
        Rebuild(CeilPowerOfTwo(cnt));
      } else {
        NoneCounted(attrs, cell, padAttrid, UsedIds());
        attrs := [];
      }
    }

    /** optimize_line: the line also gives up the room behind its cells. */
    method OptimizeLine()
      requires TextOk()
      modifies this`attrs, this`cell, this`padAttrid, this`caps
      ensures caps == if old(|cell|) < old(caps) then old(|cell|) else old(caps)
      ensures TextOk() && Text() == old(Text()) && Pad() == old(Pad())
              <==> !Undercounted(|old(attrs)|, old(UsedIds()))
    {
      if |cell| < caps {
        caps := |cell|;
      }
      OptimizeAttributes();
    }

    /** A new, empty table takes over. */
    method Rebuild(caps: nat)
      requires TextOk() && attrs != [] && IsPowerOfTwo(caps) && caps < ATTRID_MAX
      modifies this`attrs, this`cell, this`padAttrid
      ensures TextOk() && |attrs| == caps && |cell| == old(|cell|) && Stored(attrs) <= Stored(old(attrs))
      ensures Text() == old(Text()) && Pad() == old(Pad()) <==> |old(UsedIds())| <= caps
    {
      var dst := seq(caps, _ => FREE_SLOT);
      FreeTableOk(hash, dst);
      MoveAttrtab(dst);
    }

    /** The marking loop of optimize_attributes; the bitmap is a set of ids. */
    method MarkUsed() returns (used: set<nat>)
      ensures used - {0} == UsedIds()
    {
      used := {padAttrid};
      for i := 0 to |cell|
        invariant padAttrid in used && used <= UsedIds() + {0}
        invariant forall p :: 0 <= p < i ==> cell[p].attrid in used
      {
        used := used + {cell[i].attrid};
      }
    }

    /** The loop that counts the bits set. */
    method CountUsed() returns (cnt: nat)
      requires IsPowerOfTwo(|attrs|) && IdsOk(attrs, cell) && IdOk(attrs, padAttrid)
      ensures |UsedIds()| == cnt + (if |attrs| >= WORD_BITS && |attrs| in UsedIds() then 1 else 0)
      ensures cnt <= |attrs|
    {
      var used := MarkUsed();
      var counted := set id | id in used && 0 < id < CoveredBits(|attrs|);
      cnt := |counted|;
      CoveredBitsAre(|attrs|);
      CountedIds(|attrs|, used, UsedIds(), counted);
    }

    /** One insertion into the line's own table; 0 means the table is full without attr. */
    method InsertHere(attr: Attr) returns (id: nat)
      requires TextOk() && attrs != [] && !attr.Empty() && attr != DEFAULT_ATTR
      modifies this`attrs
      ensures TextOk() && attrs != [] && Text() == old(Text()) && Pad() == old(Pad())
      ensures id == 0 <==> attr !in old(attrs) && Full(old(attrs))
      ensures id == 0 ==> attrs == old(attrs)
      ensures id > 0 ==> IdOk(attrs, id) && Resolve(attrs, id) == attr
      ensures Stored(attrs) <= Stored(old(attrs)) + {attr} && |attrs| == |old(attrs)|
    {
      ghost var tab := attrs;
      id, attrs := InsertAttr(hash, attrs, attr, hash(attr));
      if id > 0 {
        SlotTaken(tab, id - 1, attr, cell, padAttrid);
      }
    }

    /** alloc_attr: an id for attr; a full table is replaced by one of twice its capacity, at least four. */
    method AllocAttr(attr: Attr) returns (id: nat)
      requires TextOk() && !attr.Empty()
      requires attr == DEFAULT_ATTR || |Stored(attrs) + {attr}| <= MAX_STORED
      modifies this`attrs, this`cell, this`padAttrid
      ensures TextOk() && Text() == old(Text()) && Pad() == old(Pad())
      ensures IdOk(attrs, id) && Resolve(attrs, id) == attr
      ensures Stored(attrs) <= Stored(old(attrs)) + (if attr == DEFAULT_ATTR then {} else {attr})
      ensures |attrs| ==
        if attr == DEFAULT_ATTR then |old(attrs)|
        else if old(attrs) == [] then 4
        else if attr !in old(attrs) && Full(old(attrs)) then if |old(attrs)| < 2 then 4 else 2 * |old(attrs)|
        else |old(attrs)|
    {
      if attr == DEFAULT_ATTR {
        return 0;
      }
      if attrs == [] {
        attrs := seq(INIT_CAP, _ => FREE_SLOT);
        FreeTableOk(hash, attrs);
        assert attrs[0].Empty();
      }
      id := InsertHere(attr);
      if id == 0 {
        Grow(attr);
        id := InsertHere(attr);
      }
    }

    /** The growing step of alloc_attr, taken when the table is full without attr. */
    method Grow(ghost attr: Attr)
      requires TextOk() && attrs != [] && Full(attrs) && attr !in attrs && !attr.Empty()
      requires |Stored(attrs) + {attr}| <= MAX_STORED
      modifies this`attrs, this`cell, this`padAttrid
      ensures TextOk() && Text() == old(Text()) && Pad() == old(Pad())
      ensures |attrs| == (if |old(attrs)| < 2 then 4 else 2 * |old(attrs)|) && !Full(attrs)
      ensures Stored(attrs) <= Stored(old(attrs))
    {
      GrowFits(attrs, attr, UsedIds());
      ghost var stored := Stored(attrs);
      Rebuild(CapsStep(|attrs|));
      if Full(attrs) {
        StoredSize(attrs);
        SubsetSize(Stored(attrs), stored);
      }
    }

    /** The clearing of the cells copy_line adds at the end. */
    method Extend(n: nat)
      requires TextOk() && |cell| + n <= caps
      modifies this`cell
      ensures TextOk() && Text() == old(Text()) + seq(n, _ => Glyph(0, DEFAULT_ATTR)) && Pad() == old(Pad())
    {
      cell := cell + seq(n, _ => BLANK);
    }

    method CopyWithin(dx: nat, sx: nat, len: nat)
      requires TextOk() && sx + len <= |cell| && dx + len <= caps
      modifies this`cell
      ensures TextOk() && Text() == Overlay(old(Text()), dx, old(Text())[sx..sx + len]) && Pad() == old(Pad())
    {
      var taken := Undrawn(cell[sx..sx + len]);
      assert Render(attrs, taken) == Text()[sx..sx + len];
      if dx > |cell| {
        OverlayExtended(Text(), dx - |cell|, dx, Text()[sx..sx + len]);
        Extend(dx - |cell|);
      }
      MoveIn(dx, taken);
    }

    /** The memmove of copy_line. */
    method MoveIn(dx: nat, taken: seq<Cell>)
      requires TextOk() && IdsOk(attrs, taken) && dx <= |cell| && dx + |taken| <= caps
      modifies this`cell
      ensures TextOk() && Text() == Overlay(old(Text()), dx, Render(attrs, taken)) && Pad() == old(Pad())
    {
      cell := cell[..dx] + taken + (if dx + |taken| < |cell| then cell[dx + |taken|..] else []);
    }

    /** What a cell shows. */
    method ReadCell(x: nat) returns (ch: nat, attr: Attr)
      requires TextOk() && x < |cell|
      ensures Text()[x] == Glyph(ch, attr) && !attr.Empty() && (attr == DEFAULT_ATTR || attr in Stored(attrs))
    {
      var c := cell[x];
      ch, attr := c.ch, if c.attrid == 0 then DEFAULT_ATTR else attrs[c.attrid - 1];
    }

    /** The source's end of split_line. */
    method Truncate(offset: nat)
      requires TextOk() && offset <= |cell|
      modifies this`cell, this`wrapped, this`caps
      ensures TextOk() && Value() == Head(old(Value()), offset) && caps == offset
    {
      cell := cell[..offset];
      wrapped := false;
      caps := offset;
    }

    /** One step of copy_line's loop: cell x becomes an undrawn copy of a cell showing (ch, attr). */
    method PutCopy(x: nat, ch: nat, attr: Attr)
      requires TextOk() && x < |cell| && !attr.Empty()
      requires attr == DEFAULT_ATTR || |Stored(attrs) + {attr}| <= MAX_STORED
      modifies this`attrs, this`cell, this`padAttrid
      ensures TextOk() && Text() == old(Text())[x := Glyph(ch, attr)] && Pad() == old(Pad())
      ensures Stored(attrs) <= Stored(old(attrs)) + (if attr == DEFAULT_ATTR then {} else {attr})
      ensures !cell[x].drawn
    {
      var id := AllocAttr(attr);
      ghost var text := Text();
      cell := cell[x := Cell(ch, false, id)];
      assert Text() == text[x := Glyph(ch, attr)];
    }
  }

  ghost function IdsIn(cells: seq<Cell>): set<nat> {
    set c | c in cells && c.attrid != 0 :: c.attrid
  }

  lemma {:induction false} WholeWords(n: nat)
    requires IsPowerOfTwo(n)
    ensures n >= WORD_BITS ==> n % WORD_BITS == 0
  {
    if n > WORD_BITS {
      WholeWords(n / 2);
      assert IsPowerOfTwo(WORD_BITS);
      PowersBelow(WORD_BITS, n);
    }
  }

  /** The bits of the whole words that cover a capacity. */
  function CoveredBits(caps: nat): nat { (caps + WORD_BITS - 1) / WORD_BITS * WORD_BITS }

  lemma CoveredBitsAre(caps: nat)
    requires IsPowerOfTwo(caps)
    ensures CoveredBits(caps) == if caps >= WORD_BITS then caps else WORD_BITS
  {
    WholeWords(caps);
  }

  /** What the counting loop sees: all used ids, except an id equal to a capacity of whole words. */
  lemma CountedIds(caps: nat, used: set<nat>, ids: set<nat>, counted: set<nat>)
    requires used - {0} == ids && forall id :: id in ids ==> 1 <= id <= caps
    requires counted == set id | id in used && 0 < id < if caps >= WORD_BITS then caps else WORD_BITS
    ensures |ids| == |counted| + (if caps >= WORD_BITS && caps in ids then 1 else 0)
    ensures |counted| <= caps
  {
    if caps >= WORD_BITS && caps in ids {
      assert ids == counted + {caps};
    } else {
      assert ids == counted;
    }
    SubsetSize(counted, UpTo(caps + 1) - {0});
  }

  lemma CeilBelow(cnt: nat, caps: nat)
    requires IsPowerOfTwo(caps) && 0 < cnt <= caps
    ensures CeilPowerOfTwo(cnt) <= caps
  {
    if caps < CeilPowerOfTwo(cnt) {
      PowersBelow(caps, CeilPowerOfTwo(cnt));
    }
  }

  /** A table built for the counted ids has room for the used ones, unless they were undercounted. */
  lemma CountedRoom(caps: nat, ids: set<nat>, cnt: nat)
    requires cnt > 0 && |ids| == cnt + (if caps >= WORD_BITS && caps in ids then 1 else 0)
    ensures |ids| <= CeilPowerOfTwo(cnt) <==> !Undercounted(caps, ids)
  {
    CeilIsExact(cnt);
  }

  /** With no id counted the table is dropped: right exactly when no id is in use. */
  lemma NoneCounted(tab: seq<Attr>, cells: seq<Cell>, pad: nat, ids: set<nat>)
    requires IdsOk(tab, cells) && IdOk(tab, pad) && ids == IdsIn(cells) + (if pad == 0 then {} else {pad})
    ensures ids == {} ==> IdsOk([], cells) && IdOk([], pad) && Render([], cells) == Render(tab, cells)
    ensures ids != {} ==> !(IdsOk([], cells) && IdOk([], pad))
  {
    if ids == {} {
      forall p | 0 <= p < |cells|
        ensures cells[p].attrid == 0
      {
        assert cells[p].attrid in ids || cells[p].attrid == 0;
      }
    } else {
      var id :| id in ids;
      assert !IdOk([], id);
    }
  }

  /** The ids optimize_attributes fails to count make it build too small a table: id caps lies
      outside the counted words once caps is a whole number of 64-bit words, and the table
      sized without it is too small when the others fill a power of two. */
  ghost predicate Undercounted(caps: nat, used: set<nat>) {
    caps >= WORD_BITS && caps in used && (|used| == 1 || IsPowerOfTwo(|used| - 1))
  }

  const WORD_BITS := 64

  function Shade(k: nat): Attr { Attr(1, k + 1, 1, NO_FLAGS) }

  lemma ShadesOk(hash: Hash, tab: seq<Attr>)
    requires |tab| == 64 && forall k :: 0 <= k < 64 ==> tab[k] == Shade(k)
    requires forall a: Attr :: hash(a) == if a.fg == 0 then 0 else a.fg - 1
    ensures TableOk(hash, tab)
  {
    assert IsPowerOfTwo(64);
    forall j | 0 <= j < 64
      ensures Home(hash, tab[j], 64) == j
    {
      assert hash(tab[j]) == j;
    }
  }

  /** A line with a full table of 64 attributes, of which it uses the first and the last one. */
  method TwoOf64() returns (line: Line)
    ensures fresh(line) && line.TextOk() && |line.attrs| == 64 && line.UsedIds() == {1, 64}
    ensures line.Text() == [Glyph(65, Shade(0)), Glyph(66, Shade(63))] && line.Pad() == DEFAULT_ATTR
  {
    var hash: Hash := (a: Attr) => if a.fg == 0 then 0 else a.fg - 1;
    line := new Line(hash, DEFAULT_ATTR, 2);
    line.attrs := seq(64, k requires 0 <= k < 64 => Shade(k));
    line.cell := [Cell(65, false, 1), Cell(66, false, 64)];
    line.padAttrid := 0;
    ShadesOk(hash, line.attrs);
    assert line.cell[0] in line.cell && line.cell[1] in line.cell;
  }

  /** optimize_attributes changes what such a line shows. */
  method TextLost(line: Line)
    requires line.TextOk() && |line.attrs| == 64 && line.UsedIds() == {1, 64}
    modifies line
    ensures !(line.TextOk() && line.Text() == old(line.Text()) && line.Pad() == old(line.Pad()))
  {
    assert |{1, 64}| == 2 && IsPowerOfTwo(1);
    line.OptimizeAttributes();
  }

  /** Taking a free slot, or one that already holds attr, changes nothing that resolves. */
  lemma SlotTaken(tab: seq<Attr>, k: nat, attr: Attr, cells: seq<Cell>, pad: nat)
    requires IdsOk(tab, cells) && IdOk(tab, pad) && k < |tab| && !attr.Empty()
    requires tab[k].Empty() || tab[k] == attr
    ensures var new_ := tab[k := attr];
      && IdsOk(new_, cells) && Render(new_, cells) == Render(tab, cells)
      && IdOk(new_, pad) && Resolve(new_, pad) == Resolve(tab, pad)
      && Stored(new_) <= Stored(tab) + {attr}
  {
    var new_ := tab[k := attr];
    forall id | IdOk(tab, id)
      ensures IdOk(new_, id) && Resolve(new_, id) == Resolve(tab, id)
    {
    }
    forall a | a in Stored(new_)
      ensures a in Stored(tab) + {attr}
    {
      var j :| 0 <= j < |new_| && new_[j] == a;
      assert j == k || tab[j] == a;
    }
  }

  /** src laid over text at dx; a gap behind the end of text is filled with blank cells. */
  ghost function Overlay(text: seq<Glyph>, dx: nat, src: seq<Glyph>): (r: seq<Glyph>)
    ensures |r| == if dx + |src| > |text| then dx + |src| else |text|
  {
    var n := if dx + |src| > |text| then dx + |src| else |text|;
    seq(n, i requires 0 <= i < n =>
      if dx <= i < dx + |src| then src[i - dx]
      else if i < |text| then text[i]
      else Glyph(0, DEFAULT_ATTR))
  }

  function Undrawn(cells: seq<Cell>): seq<Cell> {
    seq(|cells|, i requires 0 <= i < |cells| => cells[i].(drawn := false))
  }

  const BLANK := Cell(0, false, 0)

  /** copy_line: between two lines every copied cell gets an id in the target's own table;
      within one line the cells are moved as they are. */
  method CopyLine(dst: Line, dx: nat, src: Line, sx: nat, len: nat)
    requires dst.TextOk() && src.TextOk()
    requires sx + len <= |src.cell| && dx + len <= dst.caps
    requires dst != src ==> |Stored(dst.attrs) + Stored(src.attrs)| <= MAX_STORED
    modifies dst`attrs, dst`cell, dst`padAttrid
    ensures dst.TextOk()
    ensures dst.Text() == Overlay(old(dst.Text()), dx, old(src.Text())[sx..sx + len]) && dst.Pad() == old(dst.Pad())
    ensures Stored(dst.attrs) <= old(Stored(dst.attrs) + Stored(src.attrs))
  {
    if dst != src {
      CopyBetween(dst, dx, src, sx, len);
    } else {
      dst.CopyWithin(dx, sx, len);
    }
  }

  method CopyBetween(dst: Line, dx: nat, src: Line, sx: nat, len: nat)
    requires dst != src && dst.TextOk() && src.TextOk()
    requires sx + len <= |src.cell| && dx + len <= dst.caps
    requires |Stored(dst.attrs) + Stored(src.attrs)| <= MAX_STORED
    modifies dst`attrs, dst`cell, dst`padAttrid
    ensures dst.TextOk()
    ensures dst.Text() == Overlay(old(dst.Text()), dx, old(src.Text())[sx..sx + len]) && dst.Pad() == old(dst.Pad())
    ensures Stored(dst.attrs) <= old(Stored(dst.attrs) + Stored(src.attrs))
  {
    if dx + len > |dst.cell| {
      OverlayExtended(dst.Text(), dx + len - |dst.cell|, dx, src.Text()[sx..sx + len]);
      dst.Extend(dx + len - |dst.cell|);
    }
    CopyCells(dst, dx, src, sx, len);
  }

  /** The loop of copy_line between two lines. */
  method CopyCells(dst: Line, dx: nat, src: Line, sx: nat, len: nat)
    requires dst != src && dst.TextOk() && src.TextOk()
    requires sx + len <= |src.cell| && dx + len <= |dst.cell|
    requires |Stored(dst.attrs) + Stored(src.attrs)| <= MAX_STORED
    modifies dst`attrs, dst`cell, dst`padAttrid
    ensures dst.TextOk()
    ensures dst.Text() == Overlay(old(dst.Text()), dx, old(src.Text())[sx..sx + len]) && dst.Pad() == old(dst.Pad())
    ensures Stored(dst.attrs) <= old(Stored(dst.attrs) + Stored(src.attrs))
  {
    ghost var was, text, pad, limit := dst.Text(), src.Text(), dst.Pad(), Stored(dst.attrs) + Stored(src.attrs);
    for i := 0 to len
      invariant dst.TextOk() && dst.Text() == Overlay(was, dx, text[sx..sx + i])
      invariant dst.Pad() == pad && Stored(dst.attrs) <= limit
    {
      CopyCell(dst, dx, src, sx, i, was, limit);
    }
  }

  /** Its body. */
  method CopyCell(dst: Line, dx: nat, src: Line, sx: nat, i: nat, ghost was: seq<Glyph>, ghost limit: set<Attr>)
    requires dst != src && dst.TextOk() && src.TextOk()
    requires sx + i < |src.cell| && dx + i < |dst.cell| == |was|
    requires dst.Text() == Overlay(was, dx, src.Text()[sx..sx + i])
    requires Stored(dst.attrs) <= limit && Stored(src.attrs) <= limit && |limit| <= MAX_STORED
    modifies dst`attrs, dst`cell, dst`padAttrid
    ensures dst.TextOk() && dst.Text() == Overlay(was, dx, src.Text()[sx..sx + i + 1])
    ensures dst.Pad() == old(dst.Pad()) && Stored(dst.attrs) <= limit
  {
    var x, y := sx + i, dx + i;
    ghost var before, text := dst.Text(), src.Text();
    var ch, attr := src.ReadCell(x);
    SubsetSize(Stored(dst.attrs) + (if attr == DEFAULT_ATTR then {} else {attr}), limit);
    dst.PutCopy(y, ch, attr);
    OverlayNext(was, dx, text, sx, i, before, dst.Text());
  }

  lemma OverlayNext(was: seq<Glyph>, dx: nat, text: seq<Glyph>, sx: nat, i: nat, before: seq<Glyph>, after: seq<Glyph>)
    requires sx + i < |text| && dx + i < |was| && before == Overlay(was, dx, text[sx..sx + i])
    requires after == before[dx + i := text[sx + i]]
    ensures after == Overlay(was, dx, text[sx..sx + i + 1])
  {
    OverlayStep(was, dx, text, sx, i);
  }

  lemma OverlayExtended(text: seq<Glyph>, n: nat, dx: nat, src: seq<Glyph>)
    requires |text| + n <= dx + |src|
    ensures Overlay(text + seq(n, _ => Glyph(0, DEFAULT_ATTR)), dx, src) == Overlay(text, dx, src)
  {
  }

  lemma OverlayStep(text: seq<Glyph>, dx: nat, src: seq<Glyph>, sx: nat, i: nat)
    requires sx + i < |src| && dx + i < |text|
    ensures Overlay(text, dx, src[sx..sx + i + 1]) == Overlay(text, dx, src[sx..sx + i])[dx + i := src[sx + i]]
  {
    var more := src[sx..sx + i + 1];
    assert more[i] == src[sx + i];
    assert more[..i] == src[sx..sx + i];
  }

  /** The first i cells carry the ids their old ids lead to, and these slots were moved. */
  ghost predicate Renumbered(cells0: seq<Cell>, cells: seq<Cell>, tab: seq<Attr>, moved: set<nat>, i: nat) {
    && |cells| == |cells0|
    && (forall p :: 0 <= p < i && p < |cells| ==>
          && (cells0[p].attrid == 0 || cells0[p].attrid in moved) && cells0[p].attrid <= |tab|
          && cells[p] == cells0[p].(attrid := Forward(tab, cells0[p].attrid)))
    && (forall p :: i <= p < |cells| ==> cells[p] == cells0[p])
  }

  /** Slots that were moved keep their marks. */
  lemma StillRenumbered(cells0: seq<Cell>, cells: seq<Cell>, tab0: seq<Attr>, tab: seq<Attr>, moved0: set<nat>,
                        moved: set<nat>)
    requires Renumbered(cells0, cells, tab0, moved0, |cells|) && moved0 <= moved && |tab| == |tab0|
    requires forall k :: k in moved0 ==> 1 <= k <= |tab| && tab[k - 1] == tab0[k - 1]
    ensures Renumbered(cells0, cells, tab, moved, |cells|)
  {
    forall p | 0 <= p < |cells|
      ensures cells0[p].attrid == 0 || cells0[p].attrid in moved
      ensures cells0[p].attrid <= |tab| && cells[p] == cells0[p].(attrid := Forward(tab, cells0[p].attrid))
    {
      assert cells0[p].attrid != 0 ==> Forward(tab, cells0[p].attrid) == Forward(tab0, cells0[p].attrid);
    }
  }

  /** The next cell. */
  lemma OneMoreCell(cells0: seq<Cell>, cells1: seq<Cell>, cells: seq<Cell>, tab0: seq<Attr>, tab: seq<Attr>,
                    moved: set<nat>, id: nat, i: nat)
    requires i < |cells0| && id == cells0[i].attrid <= |tab| && Renumbered(cells0, cells1, tab0, moved, i)
    requires cells == cells1[i := cells0[i].(attrid := Forward(tab, id))] && |tab| == |tab0|
    requires forall k :: k in moved ==> 1 <= k <= |tab| && tab[k - 1] == tab0[k - 1]
    ensures Renumbered(cells0, cells, tab, moved + {id}, i + 1)
  {
    forall p | 0 <= p < i
      ensures Forward(tab, cells0[p].attrid) == Forward(tab0, cells0[p].attrid)
    {
      assert cells0[p].attrid == 0 || cells0[p].attrid in moved;
    }
  }

  /** The padding's part of move_attrtab. */
  method MovePad(hash: Hash, dst0: seq<Attr>, src0: seq<Attr>, padAttrid: nat, ghost orig: seq<Attr>,
                 ghost moved0: set<nat>, ghost cells0: seq<Cell>, ghost cells: seq<Cell>)
    returns (newId: nat, dst: seq<Attr>, src: seq<Attr>, ghost moved: set<nat>)
    requires Moving(hash, orig, src0, dst0, moved0) && IdOk(orig, padAttrid)
    requires Renumbered(cells0, cells, src0, moved0, |cells|)
    ensures moved == moved0 + (if padAttrid == 0 then {} else {padAttrid})
    ensures Moving(hash, orig, src, dst, moved) && |dst| == |dst0| && Renumbered(cells0, cells, src, moved, |cells|)
    ensures padAttrid <= |src| && newId == Forward(src, padAttrid)
  {
    if padAttrid != 0 {
      newId, dst, src := MoveOneAttr(hash, dst0, src0, padAttrid, orig, moved0);
      moved := moved0 + {padAttrid};
      StillRenumbered(cells0, cells, src0, src, moved0, moved);
    } else {
      newId, dst, src, moved := 0, dst0, src0, moved0;
    }
  }

  /** A cell whose attribute got no slot shows another one. */
  lemma CellLost(orig: seq<Attr>, dst: seq<Attr>, cells0: seq<Cell>, cells: seq<Cell>, tab: seq<Attr>,
                 moved: set<nat>, lost: nat)
    requires IdsOk(orig, cells0) && IdsOk(dst, cells) && Renumbered(cells0, cells, tab, moved, |cells|)
    requires lost in IdsIn(cells0) && lost <= |tab| && Forward(tab, lost) == 0 && lost > 0 && IdOk(orig, lost)
    requires Resolve(orig, lost) != DEFAULT_ATTR
    ensures Render(dst, cells) != Render(orig, cells0)
  {
    var p :| 0 <= p < |cells0| && cells0[p].attrid == lost;
    assert Render(dst, cells)[p].attr != Render(orig, cells0)[p].attr;
  }

  /** A renumbered line reads as before exactly when every used attribute got a slot. */
  lemma MovedText(hash: Hash, orig: seq<Attr>, tab: seq<Attr>, dst: seq<Attr>, moved: set<nat>, cells0: seq<Cell>,
                  cells: seq<Cell>, pad0: nat, pad: nat)
    requires Moving(hash, orig, tab, dst, moved) && IdsOk(orig, cells0) && IdOk(orig, pad0)
    requires moved == IdsIn(cells0) + (if pad0 == 0 then {} else {pad0})
    requires pad0 <= |tab| && pad == Forward(tab, pad0) && Renumbered(cells0, cells, tab, moved, |cells|)
    ensures IdsOk(dst, cells) && IdOk(dst, pad)
    ensures Render(dst, cells) == Render(orig, cells0) && Resolve(dst, pad) == Resolve(orig, pad0)
            <==> |moved| <= |dst|
  {
    forall id | id in moved
      ensures IdOk(dst, Forward(tab, id)) && IdOk(orig, id)
      ensures Resolve(dst, Forward(tab, id)) == Resolve(orig, id) <==> Forward(tab, id) > 0
    {
      assert MarkOk(orig[id - 1], tab[id - 1], dst);
    }
    if |moved| <= |dst| {
      forall id | id in moved
        ensures Forward(tab, id) > 0
      {
        if Forward(tab, id) == 0 {
          OneLost(orig, tab, dst, moved, id);
        }
      }
    } else {
      var lost :| lost in moved && Forward(tab, lost) == 0 by {
        if forall id :: id in moved ==> Forward(tab, id) > 0 {
          NoneLost(orig, tab, dst, moved);
        }
      }
      if lost in IdsIn(cells0) {
        CellLost(orig, dst, cells0, cells, tab, moved, lost);
      }
    }
  }

  // ----- Cutting and joining lines -----

  /** A paragraph cut at offset: the head keeps the padding, the tail also the wrap mark. */
  function Head(p: Para, offset: nat): Para
    requires offset <= |p.text|
  {
    Para(p.text[..offset], p.pad, false)
  }

  function Tail(p: Para, offset: nat): Para
    requires offset <= |p.text|
  {
    Para(p.text[offset..], p.pad, p.wrapped)
  }

  /** Two paragraphs joined: padding and wrap mark come from the second. */
  function Joined(p: Para, q: Para): Para {
    Para(p.text + q.text, q.pad, q.wrapped)
  }

  lemma JoinCut(p: Para, offset: nat)
    requires offset <= |p.text|
    ensures Joined(Head(p, offset), Tail(p, offset)) == p
  {
    assert p.text[..offset] + p.text[offset..] == p.text;
  }

  lemma CutJoin(p: Para, q: Para)
    ensures Tail(Joined(p, q), |p.text|) == q
    ensures Head(Joined(p, q), |p.text|).text == p.text
  {
  }

  /** The tail as a line of its own. */
  method CopyTail(src: Line, offset: nat) returns (tail: Line)
    requires src.TextOk() && offset <= |src.cell|
    ensures fresh(tail) && tail.hash == src.hash && tail.TextOk() && Stored(tail.attrs) <= Stored(src.attrs)
    ensures tail.Text() == src.Text()[offset..] && tail.Pad() == src.Pad() && tail.caps == |src.cell| - offset
  {
    var tailLen := |src.cell| - offset;
    tail := new Line(src.hash, src.AttrAt(|src.cell|), tailLen);
    TableBelowCeiling(src.attrs);
    assert Stored(tail.attrs) + Stored(src.attrs) == Stored(src.attrs) by {
      assert src.padAttrid == 0 || src.attrs[src.padAttrid - 1] in Stored(src.attrs);
    }
    OverlayAll(src.Text(), offset);
    CopyLine(tail, 0, src, offset, tailLen);
  }

  /** The text part of split_line: the tail of a line becomes a new line. */
  method CutTail(src: Line, offset: nat) returns (tail: Line)
    requires src.TextOk() && offset <= |src.cell|
    modifies src`cell, src`wrapped, src`caps
    ensures fresh(tail) && tail.hash == src.hash && src.TextOk() && tail.TextOk()
    ensures src.Value() == Head(old(src.Value()), offset)
    ensures src.caps == offset && tail.caps == old(|src.cell|) - offset
    ensures !src.wrapped && tail.wrapped == old(src.wrapped) && tail.Pad() == src.Pad() == old(src.Pad())
    ensures tail.Value() == Tail(old(src.Value()), offset) && Stored(tail.attrs) <= Stored(src.attrs)
  {
    tail := CopyTail(src, offset);
    tail.wrapped := src.wrapped;
    src.Truncate(offset);
  }

  lemma OverlayAll(text: seq<Glyph>, offset: nat)
    requires offset <= |text|
    ensures Overlay([], 0, text[offset..offset + (|text| - offset)]) == text[offset..]
  {
  }

  /** The text part of concat_line: src2 is appended to src1, whose table takes in its attributes. */
  method Append(src1: Line, src2: Line)
    requires src1 != src2 && src1.TextOk() && src2.TextOk() && src1.hash == src2.hash
    requires |Stored(src1.attrs) + Stored(src2.attrs)| <= MAX_STORED
    modifies src1
    ensures src1.TextOk() && src1.Value() == Joined(old(src1.Value()), old(src2.Value()))
  {
    src1.caps := |src1.cell| + src2.caps;
    src1.wrapped := src2.wrapped;
    if src1.attrs != [] && src2.attrs != [] {
      AppendMerging(src1, src2);
    } else {
      AppendPlain(src1, src2);
    }
  }

  /** Both lines have a table: the padding and every copied cell get ids in the first one's. */
  method AppendMerging(src1: Line, src2: Line)
    requires src1 != src2 && src1.TextOk() && src2.TextOk()
    requires |src1.cell| + |src2.cell| <= src1.caps
    requires |Stored(src1.attrs) + Stored(src2.attrs)| <= MAX_STORED
    modifies src1`attrs, src1`cell, src1`padAttrid
    ensures src1.TextOk() && src1.Text() == old(src1.Text()) + old(src2.Text()) && src1.Pad() == old(src2.Pad())
  {
    PadLike(src1, src2);
    OverlayAtEnd(src1.Text(), src2.Text());
    CopyLine(src1, |src1.cell|, src2, 0, |src2.cell|);
  }

  lemma OverlayAtEnd(text: seq<Glyph>, more: seq<Glyph>)
    ensures Overlay(text, |text|, more[0..|more|]) == text + more
  {
  }

  /** The padding of src1 becomes that of src2. */
  method PadLike(src1: Line, src2: Line)
    requires src1 != src2 && src1.TextOk() && src2.TextOk()
    requires |Stored(src1.attrs) + Stored(src2.attrs)| <= MAX_STORED
    modifies src1`attrs, src1`cell, src1`padAttrid
    ensures src1.TextOk() && src1.Text() == old(src1.Text()) && src1.Pad() == src2.Pad()
    ensures |Stored(src1.attrs) + Stored(src2.attrs)| <= MAX_STORED
  {
    ghost var all := Stored(src1.attrs) + Stored(src2.attrs);
    var pad := src2.AttrAt(|src2.cell|);
    assert pad == DEFAULT_ATTR || pad in Stored(src2.attrs);
    SubsetSize(Stored(src1.attrs) + (if pad == DEFAULT_ATTR then {} else {pad}), all);
    var id := src1.AllocAttr(pad);
    src1.padAttrid := id;
    SubsetSize(Stored(src1.attrs) + Stored(src2.attrs), all);
  }

  /** At most one line has a table: the cells are copied as they are. */
  method AppendPlain(src1: Line, src2: Line)
    requires src1 != src2 && src1.TextOk() && src2.TextOk() && src1.hash == src2.hash
    requires |src1.cell| + |src2.cell| <= src1.caps && (src1.attrs == [] || src2.attrs == [])
    modifies src1`attrs, src1`cell, src1`padAttrid
    ensures src1.TextOk() && src1.Text() == old(src1.Text()) + old(src2.Text()) && src1.Pad() == old(src2.Pad())
  {
    src1.cell := src1.cell + src2.cell;
    src1.padAttrid := src2.padAttrid;
    if src2.attrs != [] {
      src1.attrs := src2.attrs;
    }
  }

  /** Appending the tail that was cut off a line gives the line back as it was: every cell's character
      and attribute, the padding and the wrap mark. */
  method CutAndAppend(line: Line, offset: nat)
    requires line.TextOk() && offset <= |line.cell|
    modifies line
    ensures line.TextOk() && line.Value() == old(line.Value())
  {
    ghost var was := line.Value();
    var tail := CutTail(line, offset);
    TableBelowCeiling(line.attrs);
    assert Stored(line.attrs) + Stored(tail.attrs) == Stored(line.attrs);
    Append(line, tail);
    JoinCut(was, offset);
  }
}
