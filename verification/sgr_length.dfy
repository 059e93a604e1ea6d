/** How long a printed attribute is (encode_sgr in screen.c). MAX_SGR_LEN and the sequence named as the
    longest one there are not the limit: all flags with three direct colours take 76 bytes. */
module SgrLengths {
  import opened Cells
  import opened Sgr
  import opened Spelling

  const MAX_SGR_LEN := 54

  /** The bytes of a list of numbers, each with the separator in front of it. */
  function Length(toks: seq<Tok>): (n: nat) {
    if toks == [] then 0 else Length(toks[..|toks| - 1]) + |Separated(toks[|toks| - 1])|
  }

  lemma {:induction false} TextLength(toks: seq<Tok>)
    requires toks != []
    ensures |Text(toks)| + 1 == Length(toks)
  {
    var front := toks[..|toks| - 1];
    if front != [] {
      TextLength(front);
    }
  }

  lemma {:induction false} LengthBoth(x: seq<Tok>, y: seq<Tok>)
    ensures Length(x + y) == Length(x) + Length(y)
    decreases |y|
  {
    if y == [] {
      assert x + y == x;
    } else {
      var front := y[..|y| - 1];
      LengthBoth(x, front);
      assert (x + y)[..|x + y| - 1] == x + front;
    }
  }

  function ItemsLength(items: seq<Item>): nat { Length(Flatten(items)) }

  lemma ItemsBoth(x: seq<Item>, y: seq<Item>)
    ensures ItemsLength(x + y) == ItemsLength(x) + ItemsLength(y)
  {
    FlattenBoth(x, y);
    LengthBoth(Flatten(x), Flatten(y));
  }

  /** The digits of a number below 1000. */
  function Width(n: nat): nat { if n < 10 then 1 else if n < 100 then 2 else 3 }

  lemma DigitsWidth(n: nat)
    requires n < 1000
    ensures |Digits(n)| == Width(n)
  {
    if n >= 10 {
      assert |Digits(n)| == |Digits(n / 10)| + 1;
      if n >= 100 {
        assert |Digits(n / 10)| == |Digits(n / 100)| + 1;
        assert n / 10 / 10 == n / 100;
      }
    }
  }

  /** The bytes of subparameters below 1000, with their separators. */
  function SubsLength(subs: seq<nat>): (n: nat)
    requires forall k :: 0 <= k < |subs| ==> subs[k] < 1000
  {
    if subs == [] then 0 else SubsLength(subs[..|subs| - 1]) + 1 + Width(subs[|subs| - 1])
  }

  lemma {:induction false} SubToksLength(subs: seq<nat>)
    requires forall k :: 0 <= k < |subs| ==> subs[k] < 1000
    ensures Length(SubToks(subs)) == SubsLength(subs)
  {
    if subs != [] {
      var front := subs[..|subs| - 1];
      SubToksLength(front);
      DigitsWidth(subs[|subs| - 1]);
      assert SubToks(subs)[..|subs| - 1] == SubToks(front);
    }
  }

  lemma OneItem(item: Item)
    requires item.n < 1000 && forall k :: 0 <= k < |item.subs| ==> item.subs[k] < 1000
    ensures ItemsLength([item]) == 1 + Width(item.n) + SubsLength(item.subs)
  {
    FlattenMore([], item);
    assert [] + [item] == [item] && [] + Toks(item) == Toks(item);
    LengthBoth([Tok(false, item.n)], SubToks(item.subs));
    assert Length([Tok(false, item.n)]) == 1 + |Digits(item.n)|;
    DigitsWidth(item.n);
    SubToksLength(item.subs);
  }

  // ----- The parts of an attribute -----

  function One(c: bool): nat { if c then 2 else 0 }

  function FlagsLength(f: Flags): nat {
    One(f.bold) + One(f.faint) + One(f.italic)
    + (if f.underlined == 0 then 0 else if f.underlined == 1 then 2 else 4)
    + One(f.blink) + One(f.reverse) + One(f.invisible) + One(f.strikethrough)
  }

  function DirectLength(c: nat): nat { 10 + Width(Red(c)) + Width(Green(c)) + Width(Blue(c)) }

  /** bright is the length of a bright palette entry. */
  function ColorLength(c: nat, bright: nat): nat {
    var idx := ColorIdx(c);
    if idx < 8 then 3
    else if idx < 16 then bright
    else if idx < PLAIN_COLORS then 6 + Width(idx)
    else if idx == SPECIAL_FG then 0
    else if IsDirect(c) then DirectLength(c)
    else 0
  }

  function UnderlineLength(c: nat): nat {
    var idx := ColorIdx(c);
    if idx < PLAIN_COLORS then 6 + Width(idx)
    else if idx == SPECIAL_FG then 0
    else if IsDirect(c) then DirectLength(c)
    else 0
  }

  function SgrLength(a: Attr): nat {
    1 + FlagsLength(a.flags) + ColorLength(a.fg, 3) + ColorLength(a.bg, 4) + UnderlineLength(a.ul)
  }

  lemma NoItems()
    ensures ItemsLength([]) == 0
  {
  }

  lemma OptLength(c: bool, n: nat)
    requires n < 10
    ensures ItemsLength(Opt(c, n)) == One(c)
  {
    NoItems();
    if c {
      OneItem(Item(n, []));
    }
  }

  lemma StyleLength(u: nat)
    requires u < 4
    ensures ItemsLength(UnderlineStyle(u)) == if u == 0 then 0 else if u == 1 then 2 else 4
  {
    NoItems();
    if u == 1 {
      OneItem(Item(4, []));
    } else if u > 1 {
      OneItem(Item(4, [u]));
      assert [u][..0] == [];
    }
  }

  lemma FiveLengths(v: seq<Item>, w: seq<Item>, x: seq<Item>, y: seq<Item>, z: seq<Item>)
    ensures ItemsLength(v + w + x + y + z) ==
      ItemsLength(v) + ItemsLength(w) + ItemsLength(x) + ItemsLength(y) + ItemsLength(z)
  {
    ItemsBoth(v, w);
    ItemsBoth(v + w, x);
    ItemsBoth(v + w + x, y);
    ItemsBoth(v + w + x + y, z);
  }

  lemma FlagItemsLength(f: Flags)
    requires f.underlined < 4
    ensures ItemsLength(FlagItems(f)) == FlagsLength(f)
  {
    var s, t, u, v := Opt(f.bold, 1), Opt(f.faint, 2), Opt(f.italic, 3), UnderlineStyle(f.underlined);
    var w, x, y, z := Opt(f.blink, 6), Opt(f.reverse, 7), Opt(f.invisible, 8), Opt(f.strikethrough, 9);
    FlagPartsLength(f);
    assert FlagItems(f) == s + t + u + v + w + x + y + z;
    FlagSum(FlagItems(f), f, s, t, u, v, w, x, y, z);
  }

  lemma FlagSum(items: seq<Item>, f: Flags, s: seq<Item>, t: seq<Item>, u: seq<Item>, v: seq<Item>, w: seq<Item>,
                x: seq<Item>, y: seq<Item>, z: seq<Item>)
    requires items == s + t + u + v + w + x + y + z
    requires ItemsLength(s) == One(f.bold) && ItemsLength(t) == One(f.faint) && ItemsLength(u) == One(f.italic)
    requires ItemsLength(v) == if f.underlined == 0 then 0 else if f.underlined == 1 then 2 else 4
    requires ItemsLength(w) == One(f.blink) && ItemsLength(x) == One(f.reverse)
    requires ItemsLength(y) == One(f.invisible) && ItemsLength(z) == One(f.strikethrough)
    ensures ItemsLength(items) == FlagsLength(f)
  {
    EightLengths(s, t, u, v, w, x, y, z);
  }

  lemma FlagPartsLength(f: Flags)
    requires f.underlined < 4
    ensures ItemsLength(Opt(f.bold, 1)) == One(f.bold) && ItemsLength(Opt(f.faint, 2)) == One(f.faint)
    ensures ItemsLength(Opt(f.italic, 3)) == One(f.italic)
    ensures ItemsLength(UnderlineStyle(f.underlined)) ==
      if f.underlined == 0 then 0 else if f.underlined == 1 then 2 else 4
    ensures ItemsLength(Opt(f.blink, 6)) == One(f.blink) && ItemsLength(Opt(f.reverse, 7)) == One(f.reverse)
    ensures ItemsLength(Opt(f.invisible, 8)) == One(f.invisible)
    ensures ItemsLength(Opt(f.strikethrough, 9)) == One(f.strikethrough)
  {
    OptLength(f.bold, 1);
    OptLength(f.faint, 2);
    OptLength(f.italic, 3);
    StyleLength(f.underlined);
    OptLength(f.blink, 6);
    OptLength(f.reverse, 7);
    OptLength(f.invisible, 8);
    OptLength(f.strikethrough, 9);
  }

  lemma EightLengths(s: seq<Item>, t: seq<Item>, u: seq<Item>, v: seq<Item>, w: seq<Item>, x: seq<Item>, y: seq<Item>,
                     z: seq<Item>)
    ensures ItemsLength(s + t + u + v + w + x + y + z)
            == ItemsLength(s) + ItemsLength(t) + ItemsLength(u) + ItemsLength(v) + ItemsLength(w) + ItemsLength(x)
              + ItemsLength(y) + ItemsLength(z)
  {
    ItemsBoth(s, t);
    ItemsBoth(s + t, u);
    ItemsBoth(s + t + u, v);
    FiveLengths(s + t + u + v, w, x, y, z);
  }

  lemma IndexedLength(n: nat, idx: nat)
    requires 10 <= n < 100 && idx < PLAIN_COLORS
    ensures ItemsLength([Item(n, [5, idx])]) == 6 + Width(idx)
  {
    OneItem(Item(n, [5, idx]));
    assert [5, idx][..1] == [5] && [5][..0] == [];
    assert SubsLength([5]) == 2;
  }

  lemma DirectItemLength(n: nat, c: nat)
    requires 10 <= n < 100
    ensures ItemsLength([Item(n, [2, 1, Red(c), Green(c), Blue(c)])]) == DirectLength(c)
  {
    var r, g, b := Red(c), Green(c), Blue(c);
    OneItem(Item(n, [2, 1, r, g, b]));
    assert [2, 1][..1] == [2] && [2][..0] == [];
    assert SubsLength([2]) == 2;
    assert SubsLength([2, 1]) == 4;
    assert [2, 1, r][..2] == [2, 1];
    assert SubsLength([2, 1, r]) == 5 + Width(r);
    assert [2, 1, r, g][..3] == [2, 1, r];
    assert SubsLength([2, 1, r, g]) == 6 + Width(r) + Width(g);
    assert [2, 1, r, g, b][..4] == [2, 1, r, g];
  }

  lemma ColorItemsLength(back: bool, c: nat)
    ensures ItemsLength(ColorItems(if back then 40 else 30, if back then 100 else 90, c)) ==
      ColorLength(c, if back then 4 else 3)
  {
    var base, bright, idx := if back then 40 else 30, if back then 100 else 90, ColorIdx(c);
    NoItems();
    if idx < 8 {
      OneItem(Item(base + idx, []));
    } else if idx < 16 {
      OneItem(Item(bright + idx - 8, []));
    } else if idx < PLAIN_COLORS {
      IndexedLength(base + 8, idx);
    } else if idx != SPECIAL_FG && IsDirect(c) {
      DirectItemLength(base + 8, c);
    }
  }

  lemma UnderlineItemsLength(c: nat)
    ensures ItemsLength(UnderlineItems(c)) == UnderlineLength(c)
  {
    var idx := ColorIdx(c);
    NoItems();
    if idx < PLAIN_COLORS {
      IndexedLength(58, idx);
    } else if idx != SPECIAL_FG && IsDirect(c) {
      DirectItemLength(58, c);
    }
  }

  lemma PartsLength(a: Attr)
    requires a.flags.underlined < 4
    ensures FlagsLength(a.flags) <= 18 && ColorLength(a.fg, 3) <= 19 && ColorLength(a.bg, 4) <= 19
    ensures UnderlineLength(a.ul) <= 19
  {
  }

  /** The length of what is printed. So it exceeds MAX_SGR_LEN exactly if SgrLength does. */
  lemma PrintedLength(a: Attr)
    requires a.flags.underlined < 4
    ensures |Text(Flatten(Items(a)))| == SgrLength(a) <= 76
  {
    var f, fg, bg, ul := FlagItems(a.flags), ColorItems(30, 90, a.fg), ColorItems(40, 100, a.bg), UnderlineItems(a.ul);
    OneItem(RESET);
    FlagItemsLength(a.flags);
    ColorItemsLength(false, a.fg);
    ColorItemsLength(true, a.bg);
    UnderlineItemsLength(a.ul);
    assert SubsLength([]) == 0;
    FiveLengths([RESET], f, fg, bg, ul);
    PartsLength(a);
    TextLength(Flatten(Items(a)));
  }

  /** All flags and three white direct colours: the longest there is. */
  lemma LongestPrinted()
    ensures var f := Flags(true, true, true, 3, true, true, true, true, false);
      |Text(Flatten(Items(Attr(0xFFFF_FFFF, 0xFFFF_FFFF, 0xFFFF_FFFF, f))))| == 76 > MAX_SGR_LEN
  {
    PrintedLength(Attr(0xFFFF_FFFF, 0xFFFF_FFFF, 0xFFFF_FFFF,
                       Flags(true, true, true, 3, true, true, true, true, false)));
  }
}
