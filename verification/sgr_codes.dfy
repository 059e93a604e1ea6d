/** What the codes of an SGR sequence do wherever they stand in it (term_decode_sgr, term_decode_color in
    term.c), in terms of flags and colours: section 8.3.117 of ECMA-48. */
module SgrCodes {
  import opened Cells
  import opened ControlSequences
  import opened Sgr
  import opened Spelling

  /** The number of parameters of a list: the last one counts if it is there. */
  function CountOf(toks: seq<Tok>): nat {
    if toks != [] && toks[|toks| - 1].n == OMITTED then |toks| - 1 else |toks|
  }

  /** Numbers that stand in a list from place i on, none of them left out; what is behind them is a
      parameter of its own. */
  ghost predicate FormAt(toks: seq<Tok>, i: nat, form: seq<Tok>) {
    && 0 < |form| && i + |form| <= |toks| <= 32 && toks[i..i + |form|] == form
    && form[|form| - 1].n != OMITTED && (i + |form| < |toks| ==> !toks[i + |form|].sub)
  }

  /** The attribute after the sequence, if it is a at place i. */
  function Decoded(toks: seq<Tok>, i: nat, a: Attr): Attr
    requires |toks| <= 32
  {
    if i < CountOf(toks) then DecodeFrom(ParamsOf(toks), MaskOf(toks), CountOf(toks), i, a) else a
  }

  lemma {:induction false} FormValue(toks: seq<Tok>, i: nat, form: seq<Tok>, k: nat)
    requires FormAt(toks, i, form) && k < |form|
    ensures ParamsOf(toks)[i + k] == form[k].n && MaskOf(toks)[i + k] == form[k].sub && i + k < CountOf(toks)
  {
    assert toks[i..i + |form|][k] == toks[i + k];
    assert toks[i..i + |form|][|form| - 1] == toks[i + |form| - 1];
  }

  lemma {:induction false} BehindForm(toks: seq<Tok>, i: nat, form: seq<Tok>)
    requires FormAt(toks, i, form)
    ensures i + |form| < MAX_PARAM ==> !MaskOf(toks)[i + |form|]
  {
  }

  // ----- Codes of one number -----

  /** A code is carried out, and decoding goes on behind it. */
  lemma {:induction false} CodeForm(toks: seq<Tok>, i: nat, n: nat, a: Attr)
    requires FormAt(toks, i, [Tok(false, n)]) && n !in {4, 38, 48, 58}
    ensures Decoded(toks, i, a) == Decoded(toks, i + 1, Plain(n, a))
  {
    FormValue(toks, i, [Tok(false, n)], 0);
  }

  /** The flags with a code that sets them. */
  datatype Flag = Bold | Faint | Italic | Blink | Reverse | Invisible | Strikethrough

  predicate Has(f: Flags, x: Flag) {
    match x
    case Bold => f.bold
    case Faint => f.faint
    case Italic => f.italic
    case Blink => f.blink
    case Reverse => f.reverse
    case Invisible => f.invisible
    case Strikethrough => f.strikethrough
  }

  function SetCode(x: Flag): nat {
    match x
    case Bold => 1
    case Faint => 2
    case Italic => 3
    case Blink => 6
    case Reverse => 7
    case Invisible => 8
    case Strikethrough => 9
  }

  /** Bold and faint are reset together. */
  function ResetCode(x: Flag): nat {
    match x
    case Bold => 22
    case Faint => 22
    case Italic => 23
    case Blink => 26
    case Reverse => 27
    case Invisible => 28
    case Strikethrough => 29
  }

  /** All but the flags with codes. */
  predicate SameBeside(a: Attr, b: Attr) {
    && b.fg == a.fg && b.bg == a.bg && b.ul == a.ul
    && b.flags.underlined == a.flags.underlined && b.flags.guarded == a.flags.guarded
  }

  /** A flag's code sets it and nothing else, whatever was set before. */
  lemma SetsFlag(x: Flag, a: Attr)
    ensures var b := Plain(SetCode(x), a);
      SameBeside(a, b) && forall y :: Has(b.flags, y) <==> y == x || Has(a.flags, y)
    ensures x == Blink ==> Plain(5, a) == Plain(SetCode(x), a)
  {
  }

  /** Its reset code clears it and what is reset with it. */
  lemma ResetsFlag(x: Flag, a: Attr)
    ensures var b := Plain(ResetCode(x), a);
      SameBeside(a, b) && forall y :: Has(b.flags, y) <==> Has(a.flags, y) && ResetCode(y) != ResetCode(x)
    ensures x == Blink ==> Plain(25, a) == Plain(ResetCode(x), a)
  {
    match x
    case Bold =>
    case Faint =>
    case Italic =>
    case Blink =>
    case Reverse =>
    case Invisible =>
    case Strikethrough =>
  }

  /** A palette colour below 8 has two codes; codes for the default restore that of a reset attribute. */
  lemma ColorCodes(k: nat, a: Attr)
    requires k < 8
    ensures Plain(30 + k, a) == Plain(90 + k, a) == a.(fg := k + 1)
    ensures Plain(40 + k, a) == Plain(100 + k, a) == a.(bg := k + 1)
    ensures Plain(39, a) == a.(fg := DEFAULT_ATTR.fg) && Plain(49, a) == a.(bg := DEFAULT_ATTR.bg)
    ensures Plain(59, a) == a.(ul := DEFAULT_ATTR.ul)
    ensures DEFAULT_ATTR == Attr(262, 263, 262, NO_FLAGS)
  {
  }

  /** A double underline and none; everything reset; and codes that are unknown. */
  lemma OtherCodes(n: nat, a: Attr)
    ensures Plain(21, a) == a.(flags := a.flags.(underlined := 2))
    ensures Plain(24, a) == a.(flags := a.flags.(underlined := 0))
    ensures Plain(0, a) == DEFAULT_ATTR
    ensures (10 <= n <= 20 || n == 38 || n == 48 || 50 <= n <= 58 || 60 <= n <= 89 || 98 <= n <= 99 || n >= 108) ==>
      Plain(n, a) == a
  {
  }

  /** A number that is left out resets everything, and so does a sequence without numbers; a subparameter
      out of place ends the decoding. */
  lemma {:induction false} Omitted(toks: seq<Tok>, i: nat, a: Attr)
    requires i < |toks| <= 32 && (toks[i].sub || toks[i].n == OMITTED)
    ensures toks[i].sub ==> Decoded(toks, i, a) == a
    ensures !toks[i].sub && i + 1 < |toks| ==> Decoded(toks, i, a) == Decoded(toks, i + 1, DEFAULT_ATTR)
    ensures DecodeFrom(ParamsOf([]), MaskOf([]), 0, 0, a) == DEFAULT_ATTR
  {
  }

  /** Underlining, with or without a style. */
  lemma {:induction false} UnderlineForm(toks: seq<Tok>, i: nat, a: Attr)
    requires FormAt(toks, i, [Tok(false, 4)])
    ensures Decoded(toks, i, a) == Decoded(toks, i + 1, a.(flags := a.flags.(underlined := 1)))
  {
    FormValue(toks, i, [Tok(false, 4)], 0);
    BehindForm(toks, i, [Tok(false, 4)]);
  }

  lemma {:induction false} StyleForm(toks: seq<Tok>, i: nat, style: nat, a: Attr)
    requires FormAt(toks, i, [Tok(false, 4), Tok(true, style)]) && style < 4
    ensures Decoded(toks, i, a) == Decoded(toks, i + 2, a.(flags := a.flags.(underlined := style)))
  {
    FormValue(toks, i, [Tok(false, 4), Tok(true, style)], 0);
    FormValue(toks, i, [Tok(false, 4), Tok(true, style)], 1);
  }

  // ----- Colours -----

  predicate IsColorCode(t: nat) { t == 38 || t == 48 || t == 58 }

  function WithColor(t: nat, a: Attr, c: nat): Attr {
    if t == 38 then a.(fg := c) else if t == 48 then a.(bg := c) else a.(ul := c)
  }

  function OldColor(t: nat, a: Attr): nat {
    if t == 38 then a.fg else if t == 48 then a.bg else a.ul
  }

  /** What a colour code does, by the colour that is read behind it. */
  lemma {:induction false} ColorStep(toks: seq<Tok>, i: nat, t: nat, a: Attr, c: Color)
    requires |toks| <= 32 && i < CountOf(toks) && IsColorCode(t)
    requires ParamsOf(toks)[i] == t && !MaskOf(toks)[i]
    requires c == DecodeColor(ParamsOf(toks), MaskOf(toks), i + 1, OldColor(t, a))
    ensures Decoded(toks, i, a) == Decoded(toks, i + c.argc + 1, WithColor(t, a, c.value))
  {
  }

  /** The run of the subparameters in a form of a colour. */
  lemma {:induction false} RunOfForm(toks: seq<Tok>, i: nat, form: seq<Tok>, sub: bool)
    requires FormAt(toks, i, form) && |form| > 2 && forall k :: 0 < k < |form| ==> form[k].sub == sub
    ensures SubRun(MaskOf(toks), i + 2) == if sub then |form| - 2 else 0
  {
    var m, n := MaskOf(toks), |form| - 2;
    forall j | i + 2 <= j < i + |form|
      ensures m[j] == sub
    {
      FormValue(toks, i, form, j - i);
    }
    BehindForm(toks, i, form);
    if sub {
      RunIs(m, i + 2, n);
    } else {
      assert !m[i + 2];
    }
  }

  lemma PaletteRead(p: Params, m: Mask, arg: nat, old_: nat)
    requires arg + 1 < MAX_PARAM && p[arg] == 5 && p[arg + 1] >= 0 && SubRun(m, arg + 1) <= 1
    ensures var subs := SubRun(m, arg + 1) > 0;
      DecodeColor(p, m, arg, old_) ==
        if p[arg + 1] < 256 then Color(2, p[arg + 1] + 1)
        else Color(if subs then 2 else MAX_PARAM - arg, old_)
  {
  }

  /** A palette colour: behind semicolons or behind colons, it is the same. One that does not exist sets
      nothing, and behind semicolons it swallows the rest. */
  lemma {:induction false} PaletteForm(toks: seq<Tok>, i: nat, t: nat, sub: bool, n: nat, a: Attr)
    requires FormAt(toks, i, [Tok(false, t), Tok(sub, 5), Tok(sub, n)]) && IsColorCode(t)
    ensures n < 256 ==> Decoded(toks, i, a) == Decoded(toks, i + 3, WithColor(t, a, n + 1))
    ensures n >= 256 ==> Decoded(toks, i, a) == if sub then Decoded(toks, i + 3, a) else a
  {
    var form := [Tok(false, t), Tok(sub, 5), Tok(sub, n)];
    FormValue(toks, i, form, 0);
    FormValue(toks, i, form, 1);
    FormValue(toks, i, form, 2);
    RunOfForm(toks, i, form, sub);
    PaletteRead(ParamsOf(toks), MaskOf(toks), i + 1, OldColor(t, a));
    ColorStep(toks, i, t, a, DecodeColor(ParamsOf(toks), MaskOf(toks), i + 1, OldColor(t, a)));
  }

  function Channel(v: nat): nat { if v < 0x100 then v else 0xFF }

  function Direct(r: nat, g: nat, b: nat): nat {
    0xFF00_0000 + 0x1_0000 * Channel(r) + 0x100 * Channel(g) + Channel(b)
  }

  /** The channels start at place k; with four subparameters behind the type, one further on. */
  lemma DirectRead(p: Params, m: Mask, arg: nat, k: nat, r: nat, g: nat, b: nat, old_: nat)
    requires arg + 3 < MAX_PARAM && p[arg] == 2 && SubRun(m, arg + 1) in {0, 3, 4}
    requires k == (if SubRun(m, arg + 1) == 4 then arg + 2 else arg + 1) && k + 2 < MAX_PARAM
    requires p[k] == r && p[k + 1] == g && p[k + 2] == b
    ensures DecodeColor(p, m, arg, old_) == Color(if SubRun(m, arg + 1) == 4 then 5 else 4, Direct(r, g, b))
  {
  }

  /** A direct colour, the same way; channels that are too large are cut. */
  lemma {:induction false} DirectForm(toks: seq<Tok>, i: nat, t: nat, sub: bool, r: nat, g: nat, b: nat, a: Attr)
    requires FormAt(toks, i, [Tok(false, t), Tok(sub, 2), Tok(sub, r), Tok(sub, g), Tok(sub, b)]) && IsColorCode(t)
    ensures Decoded(toks, i, a) == Decoded(toks, i + 5, WithColor(t, a, Direct(r, g, b)))
  {
    var form := [Tok(false, t), Tok(sub, 2), Tok(sub, r), Tok(sub, g), Tok(sub, b)];
    FormValue(toks, i, form, 0);
    FormValue(toks, i, form, 1);
    FormValue(toks, i, form, 2);
    FormValue(toks, i, form, 3);
    FormValue(toks, i, form, 4);
    RunOfForm(toks, i, form, sub);
    DirectRead(ParamsOf(toks), MaskOf(toks), i + 1, i + 2, r, g, b, OldColor(t, a));
    ColorStep(toks, i, t, a, DecodeColor(ParamsOf(toks), MaskOf(toks), i + 1, OldColor(t, a)));
  }

  /** And with a colour space in front of the channels, which is not looked at. */
  lemma {:induction false} SpaceForm(toks: seq<Tok>, i: nat, t: nat, space: Number, r: nat, g: nat, b: nat, a: Attr)
    requires IsColorCode(t)
    requires FormAt(toks, i, [Tok(false, t), Tok(true, 2), Tok(true, space), Tok(true, r), Tok(true, g), Tok(true, b)])
    ensures Decoded(toks, i, a) == Decoded(toks, i + 6, WithColor(t, a, Direct(r, g, b)))
  {
    var form := [Tok(false, t), Tok(true, 2), Tok(true, space), Tok(true, r), Tok(true, g), Tok(true, b)];
    FormValue(toks, i, form, 0);
    FormValue(toks, i, form, 1);
    FormValue(toks, i, form, 3);
    FormValue(toks, i, form, 4);
    FormValue(toks, i, form, 5);
    RunOfForm(toks, i, form, true);
    DirectRead(ParamsOf(toks), MaskOf(toks), i + 1, i + 3, r, g, b, OldColor(t, a));
    ColorStep(toks, i, t, a, DecodeColor(ParamsOf(toks), MaskOf(toks), i + 1, OldColor(t, a)));
  }

  /** Too few channels behind colons set nothing, and are skipped. */
  lemma {:induction false} ShortForm(toks: seq<Tok>, i: nat, form: seq<Tok>, a: Attr)
    requires FormAt(toks, i, form) && 3 <= |form| <= 4 && form[1].n == 2
    requires !form[0].sub && form[0].n in {38, 48, 58} && forall k :: 0 < k < |form| ==> form[k].sub
    ensures Decoded(toks, i, a) == Decoded(toks, i + |form|, a)
  {
    var t: nat := form[0].n;
    FormValue(toks, i, form, 0);
    FormValue(toks, i, form, 1);
    RunOfForm(toks, i, form, true);
    ColorStep(toks, i, t, a, DecodeColor(ParamsOf(toks), MaskOf(toks), i + 1, OldColor(t, a)));
  }

  /** A type of colour that is unknown sets nothing; decoding goes on behind it. */
  lemma {:induction false} UnknownType(toks: seq<Tok>, i: nat, t: nat, sub: bool, kind: nat, a: Attr)
    requires FormAt(toks, i, [Tok(false, t), Tok(sub, kind)]) && IsColorCode(t) && kind != 2 && kind != 5 && i < 30
    ensures Decoded(toks, i, a) == Decoded(toks, i + 2, a)
  {
    FormValue(toks, i, [Tok(false, t), Tok(sub, kind)], 0);
    FormValue(toks, i, [Tok(false, t), Tok(sub, kind)], 1);
    ColorStep(toks, i, t, a, DecodeColor(ParamsOf(toks), MaskOf(toks), i + 1, OldColor(t, a)));
  }
}
