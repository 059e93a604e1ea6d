/** Rendition attributes as SGR sequences: how they are printed (encode_sgr in screen.c) and read
    back (term_decode_sgr, term_decode_color in term.c); section 8.3.117 of ECMA-48, with colours
    in colon-separated subparameters as in ISO 8613-6. */
module Sgr {
  import opened Cells
  import opened ControlSequences
  import opened Spelling

  const PALETTE_SIZE := 269
  const PLAIN_COLORS := 256

  // ----- Colours -----

  function IndirectColor(idx: nat): nat { idx + 1 }

  /** color_idx, on 32 bits. */
  function ColorIdx(c: nat): nat { if c == 0 then 0xFFFF_FFFF else c - 1 }

  predicate IsDirect(c: nat) { c >= PALETTE_SIZE }

  function Red(c: nat): nat { c / 0x1_0000 % 0x100 }
  function Green(c: nat): nat { c / 0x100 % 0x100 }
  function Blue(c: nat): nat { c % 0x100 }

  /** mk_color, with full opacity. */
  function MkColor(r: nat, g: nat, b: nat): nat { 0xFF00_0000 + r * 0x1_0000 + g * 0x100 + b }

  lemma DirectColor(c: nat)
    requires c < 0x1_0000_0000
    ensures MkColor(Red(c), Green(c), Blue(c)) == c <==> c >= 0xFF00_0000
  {
    var hi := c / 0x1_0000;
    assert c == hi * 0x1_0000 + c % 0x1_0000;
    assert c % 0x1_0000 == Green(c) * 0x100 + Blue(c);
    assert hi == hi / 0x100 * 0x100 + Red(c);
  }

  // ----- Printing -----

  /** A parameter with its subparameters. */
  datatype Item = Item(n: nat, subs: seq<nat>)

  function SubToks(subs: seq<nat>): (r: seq<Tok>)
    ensures |r| == |subs|
  {
    seq(|subs|, i requires 0 <= i < |subs| => Tok(true, subs[i]))
  }

  function Toks(item: Item): (r: seq<Tok>)
    ensures |r| == 1 + |item.subs|
  {
    [Tok(false, item.n)] + SubToks(item.subs)
  }

  function Flatten(items: seq<Item>): (r: seq<Tok>)
    ensures items != [] ==> r != []
  {
    if items == [] then [] else Flatten(items[..|items| - 1]) + Toks(items[|items| - 1])
  }

  function Opt(c: bool, n: nat): seq<Item> { if c then [Item(n, [])] else [] }

  /** A foreground or background colour: base is 30 or 40, bright is 90 or 100. */
  function ColorItems(base: nat, bright: nat, c: nat): (r: seq<Item>) {
    var idx := ColorIdx(c);
    if idx < 8 then [Item(base + idx, [])]
    else if idx < 16 then [Item(bright + idx - 8, [])]
    else if idx < PLAIN_COLORS then [Item(base + 8, [5, idx])]
    else if idx == SPECIAL_FG then []
    else if IsDirect(c) then [Item(base + 8, [2, 1, Red(c), Green(c), Blue(c)])]
    else []
  }

  function UnderlineItems(c: nat): (r: seq<Item>) {
    var idx := ColorIdx(c);
    if idx < PLAIN_COLORS then [Item(58, [5, idx])]
    else if idx == SPECIAL_FG then []
    else if IsDirect(c) then [Item(58, [2, 1, Red(c), Green(c), Blue(c)])]
    else []
  }

  function UnderlineStyle(u: nat): seq<Item> {
    if u == 1 then [Item(4, [])] else if u > 1 then [Item(4, [u])] else []
  }

  function FlagItems(f: Flags): seq<Item> {
    Opt(f.bold, 1) + Opt(f.faint, 2) + Opt(f.italic, 3)
    + UnderlineStyle(f.underlined)
    + Opt(f.blink, 6) + Opt(f.reverse, 7) + Opt(f.invisible, 8) + Opt(f.strikethrough, 9)
  }

  const RESET := Item(0, [])

  /** What is printed for an attribute. */
  function Items(a: Attr): seq<Item> {
    [RESET] + FlagItems(a.flags) + ColorItems(30, 90, a.fg) + ColorItems(40, 100, a.bg) + UnderlineItems(a.ul)
  }

  lemma {:induction false} NextTok(front: seq<Tok>, toks: seq<Tok>, k: nat)
    requires k < |toks|
    ensures front + toks[..k] + [toks[k]] == front + toks[..k + 1]
  {
    assert toks[..k] + [toks[k]] == toks[..k + 1];
    assert front + toks[..k] + [toks[k]] == front + (toks[..k] + [toks[k]]);
  }

  /** One FMT of encode_sgr: a semicolon, a number, and its subparameters behind colons. */
  method Print(dst0: seq<nat>, ghost toks0: seq<Tok>, item: Item) returns (dst: seq<nat>)
    requires toks0 != [] && dst0 == Text(toks0)
    ensures dst == Text(toks0 + Toks(item))
  {
    dst := dst0 + Separated(Tok(false, item.n));
    ghost var toks := toks0 + [Tok(false, item.n)];
    TextMore(toks0, Tok(false, item.n));
    assert toks + SubToks(item.subs)[..0] == toks;
    for k := 0 to |item.subs|
      invariant dst == Text(toks + SubToks(item.subs)[..k])
    {
      dst := dst + Separated(Tok(true, item.subs[k]));
      TextMore(toks + SubToks(item.subs)[..k], Tok(true, item.subs[k]));
      NextTok(toks, SubToks(item.subs), k);
    }
    assert toks + SubToks(item.subs)[..|item.subs|] == toks0 + Toks(item);
  }

  lemma FlattenMore(items: seq<Item>, item: Item)
    ensures Flatten(items + [item]) == Flatten(items) + Toks(item)
  {
    assert (items + [item])[..|items|] == items;
  }

  lemma NextItem(front: seq<Item>, items: seq<Item>, k: nat)
    requires k < |items|
    ensures front + items[..k] + [items[k]] == front + items[..k + 1]
  {
    assert items[..k] + [items[k]] == items[..k + 1];
    assert front + items[..k] + [items[k]] == front + (items[..k] + [items[k]]);
  }

  method PrintAll(dst0: seq<nat>, ghost items0: seq<Item>, items: seq<Item>) returns (dst: seq<nat>)
    requires items0 != [] && dst0 == Text(Flatten(items0))
    ensures dst == Text(Flatten(items0 + items))
  {
    dst := dst0;
    assert items0 + items[..0] == items0;
    for k := 0 to |items|
      invariant dst == Text(Flatten(items0 + items[..k]))
    {
      dst := Print(dst, Flatten(items0 + items[..k]), items[k]);
      FlattenMore(items0 + items[..k], items[k]);
      NextItem(items0, items, k);
    }
    assert items[..|items|] == items;
  }

  /** encode_sgr: everything is reset first, then what differs is printed. */
  method EncodeSgr(a: Attr) returns (dst: seq<nat>)
    ensures dst == Text(Flatten(Items(a)))
  {
    dst := Digits(0);
    assert Flatten([RESET]) == [Tok(false, 0)];
    var flags, fg := FlagItems(a.flags), ColorItems(30, 90, a.fg);
    var bg, ul := ColorItems(40, 100, a.bg), UnderlineItems(a.ul);
    dst := PrintAll(dst, [RESET], flags);
    dst := PrintAll(dst, [RESET] + flags, fg);
    dst := PrintAll(dst, [RESET] + flags + fg, bg);
    dst := PrintAll(dst, [RESET] + flags + fg + bg, ul);
  }

  // ----- Parsing what was printed -----

  /** A whole SGR sequence, from the state behind CSI, whatever came before. */
  lemma {:induction false} ReadSequence(env: Env, e: Esc, toks: seq<Tok>)
    requires e.state.CsiEntry? && CleanBehind(e) && 0 < |toks| <= 32 && !toks[0].sub
    ensures Feed(env, e, Text(toks) + [0x6D]).events ==
      [Csi(NO_SELECTOR.(final := 0x6D), if toks[|toks| - 1].n == OMITTED then |toks| - 1 else |toks|, ParamsOf(toks),
           MaskOf(toks))]
  {
    var sp := Spelled(0, toks, []);
    assert sp.Bytes() == Text(toks);
    CsiSpelled(env, e, sp, 0x6D);
  }

  // ----- Decoding -----

  /** The number of subparameters from parameter i on. */
  function SubRun(m: Mask, i: nat): (n: nat)
    ensures i <= MAX_PARAM ==> i + n <= MAX_PARAM
    decreases MAX_PARAM - i
  {
    if i >= MAX_PARAM || !m[i] then 0 else 1 + SubRun(m, i + 1)
  }

  function Clip(v: int): (r: nat)
    ensures r <= 0xFF
  {
    if v < 0 then 0 else if v > 0xFF then 0xFF else v
  }

  datatype Color = Color(argc: nat, value: nat)

  /** term_decode_color: the colour whose type is parameter arg, and how many parameters it takes. */
  function DecodeColor(p: Params, m: Mask, arg: nat, old_: nat): Color {
    if arg + 1 >= MAX_PARAM then Color(0, old_)
    else
      var subs := SubRun(m, arg + 1) > 0;
      var argc := if subs then SubRun(m, arg + 1) + 1 else MAX_PARAM - arg;
      if p[arg] == 2 then
        if argc < 4 then Color(argc, old_)
        else
          var used := if subs then argc else 4;
          var i := arg + 1 + (if used > 4 then 1 else 0);
          Color(used, MkColor(Clip(p[i]), Clip(p[i + 1]), Clip(p[i + 2])))
      else if p[arg] == 5 then
        if argc < 2 || p[arg + 1] < 0 || p[arg + 1] >= PLAIN_COLORS then Color(argc, old_)
        else Color(if subs then argc else 2, IndirectColor(p[arg + 1]))
      else Color(1, old_)
  }

  /** A parameter without subparameters of its own. */
  function Plain(par: nat, a: Attr): Attr {
    var f := a.flags;
    if par == 0 then DEFAULT_ATTR
    else if par == 1 then a.(flags := f.(bold := true))
    else if par == 2 then a.(flags := f.(faint := true))
    else if par == 3 then a.(flags := f.(italic := true))
    else if par == 21 then a.(flags := f.(underlined := 2))
    else if par == 5 || par == 6 then a.(flags := f.(blink := true))
    else if par == 7 then a.(flags := f.(reverse := true))
    else if par == 8 then a.(flags := f.(invisible := true))
    else if par == 9 then a.(flags := f.(strikethrough := true))
    else if par == 22 then a.(flags := f.(faint := false, bold := false))
    else if par == 23 then a.(flags := f.(italic := false))
    else if par == 24 then a.(flags := f.(underlined := 0))
    else if par == 25 || par == 26 then a.(flags := f.(blink := false))
    else if par == 27 then a.(flags := f.(reverse := false))
    else if par == 28 then a.(flags := f.(invisible := false))
    else if par == 29 then a.(flags := f.(strikethrough := false))
    else if 30 <= par <= 37 then a.(fg := IndirectColor(par - 30))
    else if par == 39 then a.(fg := IndirectColor(SPECIAL_FG))
    else if 40 <= par <= 47 then a.(bg := IndirectColor(par - 40))
    else if par == 49 then a.(bg := IndirectColor(SPECIAL_BG))
    else if par == 59 then a.(ul := IndirectColor(SPECIAL_BG))
    else if 90 <= par <= 97 then a.(fg := IndirectColor(par - 90))
    else if 100 <= par <= 107 then a.(bg := IndirectColor(par - 100))
    else a
  }

  /** One parameter, at i: the attribute after it, and the last parameter it takes. */
  function DecodeOne(p: Params, m: Mask, count: nat, i: nat, a: Attr): (r: (nat, Attr))
    requires i < MAX_PARAM
    ensures r.0 >= i
  {
    var par := if p[i] > 0 then p[i] else 0;
    if par == 4 then
      if i < count && i + 1 < MAX_PARAM && m[i + 1] then (i + 1, a.(flags := a.flags.(underlined := p[i + 1] % 4)))
      else (i, a.(flags := a.flags.(underlined := 1)))
    else if par == 38 then
      var c := DecodeColor(p, m, i + 1, a.fg); (i + c.argc, a.(fg := c.value))
    else if par == 48 then
      var c := DecodeColor(p, m, i + 1, a.bg); (i + c.argc, a.(bg := c.value))
    else if par == 58 then
      var c := DecodeColor(p, m, i + 1, a.ul); (i + c.argc, a.(ul := c.value))
    else
      (i, Plain(par, a))
  }

  /** From parameter i on, to the end or a subparameter out of place. */
  function DecodeFrom(p: Params, m: Mask, count: nat, i: nat, a: Attr): Attr
    requires i < MAX_PARAM && count <= MAX_PARAM
    decreases MAX_PARAM - i
  {
    if m[i] then a
    else
      var (last, b) := DecodeOne(p, m, count, i, a);
      if last + 1 < count then DecodeFrom(p, m, count, last + 1, b) else b
  }

  /** term_decode_sgr. */
  method DecodeSgr(p: Params, m: Mask, count: nat, a0: Attr) returns (a: Attr)
    requires count <= MAX_PARAM
    ensures a == DecodeFrom(p, m, count, 0, a0)
  {
    a := a0;
    var i, more := 0, true;
    while more
      invariant more ==> i < MAX_PARAM
      invariant DecodeFrom(p, m, count, 0, a0) == if more then DecodeFrom(p, m, count, i, a) else a
      decreases MAX_PARAM - i, more
    {
      if m[i] {
        return;
      }
      var (last, b) := DecodeOne(p, m, count, i, a);
      a := b;
      i := last + 1;
      more := i < count;
    }
  }

  // ----- The round trip -----

  /** Items whose meaning does not depend on what is around them. */
  predicate WellFormed(item: Item) {
    if item.n == 38 || item.n == 48 || item.n == 58 then
      || (|item.subs| == 2 && item.subs[0] == 5 && item.subs[1] < PLAIN_COLORS)
      || (|item.subs| == 5 && item.subs[0] == 2 && item.subs[2] <= 0xFF && item.subs[3] <= 0xFF && item.subs[4] <= 0xFF)
    else if item.n == 4 then
      item.subs == [] || (|item.subs| == 1 && item.subs[0] < 4)
    else
      item.subs == []
  }

  function SubColor(subs: seq<nat>): nat
    requires |subs| == 2 || |subs| == 5
  {
    if |subs| == 2 then IndirectColor(subs[1]) else MkColor(subs[2], subs[3], subs[4])
  }

  /** What an item means. */
  function Apply(item: Item, a: Attr): Attr
    requires WellFormed(item)
  {
    if item.n == 38 then a.(fg := SubColor(item.subs))
    else if item.n == 48 then a.(bg := SubColor(item.subs))
    else if item.n == 58 then a.(ul := SubColor(item.subs))
    else if item.n == 4 then a.(flags := a.flags.(underlined := if item.subs == [] then 1 else item.subs[0]))
    else Plain(item.n, a)
  }

  /** The tokens from i on are those of the item, and the next one is a parameter or the end. */
  ghost predicate ItemAt(toks: seq<Tok>, i: nat, item: Item) {
    && |toks| <= MAX_PARAM && i + 1 + |item.subs| <= |toks| && toks[i..i + 1 + |item.subs|] == Toks(item)
    && (i + 1 + |item.subs| < |toks| ==> !toks[i + 1 + |item.subs|].sub)
  }

  lemma TokAt(toks: seq<Tok>, i: nat, item: Item, k: nat)
    requires ItemAt(toks, i, item) && k <= |item.subs|
    ensures ParamsOf(toks)[i + k] == (if k == 0 then item.n else item.subs[k - 1]) && MaskOf(toks)[i + k] == (k > 0)
  {
    assert toks[i + k] == toks[i..i + 1 + |item.subs|][k];
  }

  lemma RunAt(toks: seq<Tok>, i: nat, item: Item)
    requires ItemAt(toks, i, item) && |item.subs| > 0
    ensures SubRun(MaskOf(toks), i + 2) == |item.subs| - 1
  {
    var m := MaskOf(toks);
    forall j | i + 2 <= j < i + 2 + (|item.subs| - 1)
      ensures m[j]
    {
      TokAt(toks, i, item, j - i);
      assert i + (j - i) == j;
    }
    RunIs(m, i + 2, |item.subs| - 1);
  }

  lemma DecodeColorItem(toks: seq<Tok>, i: nat, item: Item, old_: nat)
    requires ItemAt(toks, i, item) && WellFormed(item) && item.n in {38, 48, 58}
    ensures DecodeColor(ParamsOf(toks), MaskOf(toks), i + 1, old_) == Color(|item.subs|, SubColor(item.subs))
  {
    RunAt(toks, i, item);
    TokAt(toks, i, item, 1);
    TokAt(toks, i, item, 2);
    if |item.subs| == 5 {
      TokAt(toks, i, item, 3);
      TokAt(toks, i, item, 4);
      TokAt(toks, i, item, 5);
    }
  }

  lemma DecodeItem(toks: seq<Tok>, i: nat, item: Item, a: Attr)
    requires ItemAt(toks, i, item) && WellFormed(item)
    ensures !MaskOf(toks)[i]
    ensures DecodeOne(ParamsOf(toks), MaskOf(toks), |toks|, i, a) == (i + |item.subs|, Apply(item, a))
  {
    TokAt(toks, i, item, 0);
    if item.n == 38 {
      DecodeColorItem(toks, i, item, a.fg);
    } else if item.n == 48 {
      DecodeColorItem(toks, i, item, a.bg);
    } else if item.n == 58 {
      DecodeColorItem(toks, i, item, a.ul);
    } else if item.n == 4 {
      if item.subs != [] {
        TokAt(toks, i, item, 1);
      }
    }
  }

  lemma {:induction false} RunIs(m: Mask, i: nat, n: nat)
    requires i + n <= MAX_PARAM && (forall k :: i <= k < i + n ==> m[k]) && (i + n < MAX_PARAM ==> !m[i + n])
    ensures SubRun(m, i) == n
    decreases n
  {
    if n > 0 {
      RunIs(m, i + 1, n - 1);
    }
  }

  /** What a list of items means, one after the other. */
  function ApplyAll(items: seq<Item>, a: Attr): Attr
    requires forall k :: 0 <= k < |items| ==> WellFormed(items[k])
  {
    if items == [] then a else ApplyAll(items[1..], Apply(items[0], a))
  }

  lemma {:induction false} FlattenFirst(items: seq<Item>)
    requires items != []
    ensures Flatten(items) == Toks(items[0]) + Flatten(items[1..])
  {
    var k := |items| - 1;
    var rest := items[1..];
    if k > 0 {
      var front, middle, last := items[..k], rest[..k - 1], items[k];
      FlattenFirst(front);
      assert front[1..] == middle && rest == middle + [last] && items == front + [last];
      FlattenMore(middle, last);
      FlattenMore(front, last);
      Regroup(Toks(items[0]), Flatten(middle), Toks(last));
    } else {
      assert items == [] + [items[0]] && rest == [];
      FlattenMore([], items[0]);
      assert [] + Toks(items[0]) == Toks(items[0]) + [];
    }
  }

  lemma {:induction false} TwoParts(toks: seq<Tok>, i: nat, front: seq<Tok>, rest: seq<Tok>)
    requires i <= |toks| && toks[i..] == front + rest
    ensures i + |front| <= |toks| && toks[i..i + |front|] == front && toks[i + |front|..] == rest
  {
    assert |toks[i..]| == |front| + |rest|;
    assert toks[i..][..|front|] == front && toks[i..][|front|..] == rest;
    assert toks[i..i + |front|] == toks[i..][..|front|];
    assert toks[i + |front|..] == toks[i..][|front|..];
  }

  /** Decoding from where the items start gives what they mean. */
  lemma {:induction false} DecodeItems(toks: seq<Tok>, i: nat, items: seq<Item>, a: Attr)
    requires |toks| <= MAX_PARAM && i < |toks| && toks[i..] == Flatten(items) && items != []
    requires forall k :: 0 <= k < |items| ==> WellFormed(items[k])
    ensures DecodeFrom(ParamsOf(toks), MaskOf(toks), |toks|, i, a) == ApplyAll(items, a)
    decreases |items|
  {
    var item, rest := items[0], items[1..];
    var n := i + 1 + |item.subs|;
    FlattenFirst(items);
    TwoParts(toks, i, Toks(item), Flatten(rest));
    if rest != [] {
      FlattenFirst(rest);
      assert toks[n] == toks[n..][0] == Toks(rest[0])[0];
      DecodeItem(toks, i, item, a);
      DecodeItems(toks, n, rest, Apply(item, a));
    } else {
      assert Flatten(rest) == [] && n == |toks|;
      DecodeItem(toks, i, item, a);
    }
  }

  lemma {:induction false} ApplyBoth(x: seq<Item>, y: seq<Item>, a: Attr)
    requires forall k :: 0 <= k < |x| ==> WellFormed(x[k])
    requires forall k :: 0 <= k < |y| ==> WellFormed(y[k])
    ensures forall k :: 0 <= k < |x + y| ==> WellFormed((x + y)[k])
    ensures ApplyAll(x + y, a) == ApplyAll(y, ApplyAll(x, a))
    decreases |x|
  {
    if x == [] {
      assert x + y == y;
    } else {
      ApplyBoth(x[1..], y, Apply(x[0], a));
      assert (x + y)[1..] == x[1..] + y && (x + y)[0] == x[0];
    }
  }

  lemma Regroup<T>(a: seq<T>, b: seq<T>, c: seq<T>)
    ensures a + b + c == a + (b + c)
  {
  }

  lemma FlattenStep(x: seq<Item>, front: seq<Item>, item: Item)
    requires Flatten(x + front) == Flatten(x) + Flatten(front)
    ensures Flatten(x + (front + [item])) == Flatten(x) + Flatten(front + [item])
  {
    var p, q, last := Flatten(x), Flatten(front), Toks(item);
    Regroup(x, front, [item]);
    FlattenMore(x + front, item);
    FlattenMore(front, item);
    Regroup(p, q, last);
  }

  /** Induction over the length of what is behind. */
  lemma {:induction false} FlattenBoth(x: seq<Item>, y: seq<Item>)
    ensures Flatten(x + y) == Flatten(x) + Flatten(y)
    decreases |y|
  {
    if y == [] {
      NothingBehind(x);
    } else {
      var front, item := y[..|y| - 1], y[|y| - 1];
      assert y == front + [item];
      FlattenBoth(x, front);
      FlattenStep(x, front, item);
    }
  }

  lemma NothingBehind(x: seq<Item>)
    ensures Flatten(x + []) == Flatten(x) + Flatten([])
  {
    assert x + [] == x;
    assert Flatten(x) + [] == Flatten(x);
  }

  /** A list of well-formed items of at most n tokens, and what it means. */
  ghost predicate Means(items: seq<Item>, n: nat, a: Attr, b: Attr) {
    && (forall k :: 0 <= k < |items| ==> WellFormed(items[k]))
    && |Flatten(items)| <= n && ApplyAll(items, a) == b
  }

  lemma MeansBoth(x: seq<Item>, y: seq<Item>, m: nat, n: nat, a: Attr, b: Attr, c: Attr)
    requires Means(x, m, a, b) && Means(y, n, b, c)
    ensures Means(x + y, m + n, a, c)
  {
    ApplyBoth(x, y, a);
    FlattenBoth(x, y);
  }

  lemma MeansOne(item: Item, a: Attr)
    requires WellFormed(item)
    ensures Means([item], 1 + |item.subs|, a, Apply(item, a))
  {
    var items := [item];
    assert items[1..] == [] && items[..0] == [];
    assert ApplyAll(items[1..], Apply(item, a)) == Apply(item, a);
    assert Flatten(items) == Flatten(items[..0]) + Toks(item);
  }

  lemma MeansOpt(c: bool, n: nat, a: Attr)
    requires n != 4 && n != 38 && n != 48 && n != 58
    ensures Means(Opt(c, n), 1, a, if c then Plain(n, a) else a)
  {
    if c {
      MeansOne(Item(n, []), a);
    }
  }

  /** A list of items that sets some flags, and one more item that sets another. */
  lemma OneFlagMore(x: seq<Item>, m: nat, a: Attr, g: Flags, c: bool, n: nat, h: Flags)
    requires Means(x, m, a, a.(flags := g)) && n != 4 && n != 38 && n != 48 && n != 58
    requires a.(flags := h) == if c then Plain(n, a.(flags := g)) else a.(flags := g)
    ensures Means(x + Opt(c, n), m + 1, a, a.(flags := h))
  {
    MeansOpt(c, n, a.(flags := g));
    MeansBoth(x, Opt(c, n), m, 1, a, a.(flags := g), a.(flags := h));
  }

  lemma ThreeFlagsMean(f: Flags, a: Attr)
    requires a.flags == NO_FLAGS
    ensures Means(Opt(f.bold, 1) + Opt(f.faint, 2) + Opt(f.italic, 3), 3, a,
                  a.(flags := NO_FLAGS.(bold := f.bold, faint := f.faint, italic := f.italic)))
  {
    var g1 := NO_FLAGS.(bold := f.bold);
    var g2 := g1.(faint := f.faint);
    var g3 := g2.(italic := f.italic);
    MeansOpt(f.bold, 1, a);
    OneFlagMore(Opt(f.bold, 1), 1, a, g1, f.faint, 2, g2);
    OneFlagMore(Opt(f.bold, 1) + Opt(f.faint, 2), 2, a, g2, f.italic, 3, g3);
  }

  lemma StyleMeans(u: nat, a: Attr)
    requires u < 4 && a.flags.underlined == 0
    ensures Means(UnderlineStyle(u), 2, a, a.(flags := a.flags.(underlined := u)))
  {
    if UnderlineStyle(u) != [] {
      MeansOne(UnderlineStyle(u)[0], a);
    }
  }

  lemma FirstFlagsMean(f: Flags, a: Attr)
    requires f.underlined < 4 && a.flags == NO_FLAGS
    ensures Means(Opt(f.bold, 1) + Opt(f.faint, 2) + Opt(f.italic, 3) + UnderlineStyle(f.underlined), 5, a,
                  a.(flags := NO_FLAGS.(bold := f.bold, faint := f.faint, italic := f.italic,
                                        underlined := f.underlined)))
  {
    var b := a.(flags := NO_FLAGS.(bold := f.bold, faint := f.faint, italic := f.italic));
    ThreeFlagsMean(f, a);
    StyleMeans(f.underlined, b);
    MeansBoth(Opt(f.bold, 1) + Opt(f.faint, 2) + Opt(f.italic, 3), UnderlineStyle(f.underlined), 3, 2, a, b,
              b.(flags := b.flags.(underlined := f.underlined)));
  }

  lemma LastFlagsMean(x: seq<Item>, g: Flags, f: Flags, a: Attr)
    requires Means(x, 5, a, a.(flags := g))
    requires g == NO_FLAGS.(bold := f.bold, faint := f.faint, italic := f.italic, underlined := f.underlined)
    ensures Means(x + Opt(f.blink, 6) + Opt(f.reverse, 7) + Opt(f.invisible, 8) + Opt(f.strikethrough, 9), 9, a,
                  a.(flags := f.(guarded := false)))
  {
    var g1 := g.(blink := f.blink);
    var g2 := g1.(reverse := f.reverse);
    OneFlagMore(x, 5, a, g, f.blink, 6, g1);
    OneFlagMore(x + Opt(f.blink, 6), 6, a, g1, f.reverse, 7, g2);
    TwoFlagsMore(x + Opt(f.blink, 6) + Opt(f.reverse, 7), g2, f, a);
  }

  lemma TwoFlagsMore(x: seq<Item>, g: Flags, f: Flags, a: Attr)
    requires Means(x, 7, a, a.(flags := g)) && g == f.(invisible := false, strikethrough := false, guarded := false)
    ensures Means(x + Opt(f.invisible, 8) + Opt(f.strikethrough, 9), 9, a, a.(flags := f.(guarded := false)))
  {
    var g3 := g.(invisible := f.invisible);
    OneFlagMore(x, 7, a, g, f.invisible, 8, g3);
    OneFlagMore(x + Opt(f.invisible, 8), 8, a, g3, f.strikethrough, 9, f.(guarded := false));
  }

  /** The flags come back, but for protection. */
  lemma FlagsMean(f: Flags, a: Attr)
    requires f.underlined < 4 && a.flags == NO_FLAGS
    ensures Means(FlagItems(f), 9, a, a.(flags := f.(guarded := false)))
  {
    FirstFlagsMean(f, a);
    var x := Opt(f.bold, 1) + Opt(f.faint, 2) + Opt(f.italic, 3) + UnderlineStyle(f.underlined);
    LastFlagsMean(x, NO_FLAGS.(bold := f.bold, faint := f.faint, italic := f.italic, underlined := f.underlined), f, a);
  }

  /** The colour that comes back for a foreground or background, whose default is given: palette
      entries from 8 to 15 come back as those from 0 to 7. */
  function ColorBack(c: nat, preset: nat): nat {
    var idx := ColorIdx(c);
    if 8 <= idx < 16 then IndirectColor(idx - 8)
    else if idx < PLAIN_COLORS then c
    else if idx != SPECIAL_FG && IsDirect(c) then MkColor(Red(c), Green(c), Blue(c))
    else preset
  }

  function UnderlineBack(c: nat): nat {
    var idx := ColorIdx(c);
    if idx < PLAIN_COLORS then c
    else if idx != SPECIAL_FG && IsDirect(c) then MkColor(Red(c), Green(c), Blue(c))
    else IndirectColor(SPECIAL_BG)
  }

  lemma ColorMeans(back: bool, c: nat, a: Attr)
    ensures Means(ColorItems(if back then 40 else 30, if back then 100 else 90, c), 6, a,
                  if back then a.(bg := ColorBack(c, a.bg)) else a.(fg := ColorBack(c, a.fg)))
  {
    var items := ColorItems(if back then 40 else 30, if back then 100 else 90, c);
    if items != [] {
      MeansOne(items[0], a);
    }
  }

  lemma UnderlineMeans(c: nat, a: Attr)
    requires a.ul == IndirectColor(SPECIAL_BG)
    ensures Means(UnderlineItems(c), 6, a, a.(ul := UnderlineBack(c)))
  {
    var items := UnderlineItems(c);
    if items != [] {
      MeansOne(items[0], a);
    }
  }

  /** The attribute that comes back. */
  function Restored(a: Attr): Attr {
    Attr(ColorBack(a.bg, DEFAULT_ATTR.bg), ColorBack(a.fg, DEFAULT_ATTR.fg), UnderlineBack(a.ul),
         a.flags.(guarded := false))
  }

  lemma ItemsMean(a: Attr, a0: Attr)
    requires a.flags.underlined < 4
    ensures Means(Items(a), 28, a0, Restored(a))
  {
    var d := DEFAULT_ATTR;
    var f, fg, bg, ul := FlagItems(a.flags), ColorItems(30, 90, a.fg), ColorItems(40, 100, a.bg), UnderlineItems(a.ul);
    MeansOne(RESET, a0);
    FlagsMean(a.flags, d);
    var b := d.(flags := a.flags.(guarded := false));
    MeansBoth([RESET], f, 1, 9, a0, d, b);
    ColorMeans(false, a.fg, b);
    var c := b.(fg := ColorBack(a.fg, b.fg));
    MeansBoth([RESET] + f, fg, 10, 6, a0, b, c);
    ColorMeans(true, a.bg, c);
    var e := c.(bg := ColorBack(a.bg, c.bg));
    MeansBoth([RESET] + f + fg, bg, 16, 6, a0, c, e);
    UnderlineMeans(a.ul, e);
    MeansBoth([RESET] + f + fg + bg, ul, 22, 6, a0, e, Restored(a));
  }

  /** Printed, parsed behind CSI and decoded, an attribute comes back as Restored says, whatever
      attribute was set and whatever the parser had read before. */
  lemma RoundTrip(env: Env, e: Esc, a: Attr, a0: Attr)
    requires e.state.CsiEntry? && CleanBehind(e) && a.flags.underlined < 4
    ensures var toks := Flatten(Items(a));
      && |toks| <= 28
      && Feed(env, e, Text(toks) + [0x6D]).events ==
           [Csi(NO_SELECTOR.(final := 0x6D), |toks|, ParamsOf(toks), MaskOf(toks))]
      && DecodeFrom(ParamsOf(toks), MaskOf(toks), |toks|, 0, a0) == Restored(a)
  {
    var toks := Flatten(Items(a));
    ItemsMean(a, a0);
    FlattenFirst(Items(a));
    assert toks[0..] == toks && toks[0] == Toks(RESET)[0];
    ReadSequence(env, e, toks);
    DecodeItems(toks, 0, Items(a), a0);
  }

  /** Which colours come back: plain palette entries except 8 to 15 where they are told apart, direct
      colours with full opacity, and the default. */
  predicate ColorComesBack(c: nat, preset: nat) {
    var idx := ColorIdx(c);
    idx < 8 || 16 <= idx < PLAIN_COLORS || c == preset || (c >= 0xFF00_0000 && idx != SPECIAL_FG)
  }

  predicate UnderlineComesBack(c: nat) {
    ColorIdx(c) < PLAIN_COLORS || c == IndirectColor(SPECIAL_BG) || c >= 0xFF00_0000
  }

  /** An attribute is restored exactly if it is not protected and its colours are of that kind. */
  lemma RestoredExactly(a: Attr)
    requires 0 < a.fg < 0x1_0000_0000 && 0 < a.bg < 0x1_0000_0000 && 0 < a.ul < 0x1_0000_0000
    ensures Restored(a) == a <==>
      !a.flags.guarded && ColorComesBack(a.fg, DEFAULT_ATTR.fg) && ColorComesBack(a.bg, DEFAULT_ATTR.bg) &&
        UnderlineComesBack(a.ul)
  {
    DirectColor(a.fg);
    DirectColor(a.bg);
    DirectColor(a.ul);
  }

  /** Foreground palette entry 8 comes back as entry 0. */
  lemma BrightLost()
    ensures var a := DEFAULT_ATTR.(fg := IndirectColor(8)); Restored(a) == DEFAULT_ATTR.(fg := IndirectColor(0)) != a
  {
  }
}
