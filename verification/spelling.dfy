/** Control sequences as they are spelled: a private marker, numbers with their separators, intermediate
    bytes and a final byte (section 5.4 of ECMA-48), and what the parser makes of them. */
module Spelling {
  import opened ControlSequences

  /** A number that may have been left out. */
  type Number = n: int | n >= -1 witness 0

  const OMITTED: Number := -1

  /** One number of a sequence, and whether it is a subparameter. */
  datatype Tok = Tok(sub: bool, n: Number)

  const SEMICOLON := 0x3B
  const COLON := 0x3A

  /** A number in decimal. */
  function Digits(n: nat): (r: seq<nat>)
    ensures |r| > 0
  {
    if n < 10 then [0x30 + n] else Digits(n / 10) + [0x30 + n % 10]
  }

  function Decimal(n: Number): seq<nat> {
    if n == OMITTED then [] else Digits(n)
  }

  /** A number with the separator in front of it. */
  function Separated(t: Tok): seq<nat> { [if t.sub then COLON else SEMICOLON] + Decimal(t.n) }

  /** The bytes of a list of numbers. */
  function Text(toks: seq<Tok>): (r: seq<nat>) {
    if toks == [] then []
    else if |toks| == 1 then Decimal(toks[0].n)
    else Text(toks[..|toks| - 1]) + Separated(toks[|toks| - 1])
  }

  lemma {:induction false} TextMore(toks: seq<Tok>, t: Tok)
    requires toks != []
    ensures Text(toks + [t]) == Text(toks) + Separated(t)
  {
    assert (toks + [t])[..|toks|] == toks;
  }

  lemma Grouped(a: seq<nat>, b: seq<nat>, c: seq<nat>, d: seq<nat>)
    ensures a + b + c + d == a + (b + (c + d))
  {
  }

  /** Two inputs one after the other, with no event. */
  lemma Silently(env: Env, e: Esc, a: seq<nat>, e1: Esc, b: seq<nat>, e2: Esc)
    requires Feed(env, e, a) == Step(e1, []) && Feed(env, e1, b) == Step(e2, [])
    ensures Feed(env, e, a + b) == Step(e2, [])
  {
    FeedSplit(env, e, a, b);
  }

  // ----- Numbers -----

  predicate ReadsNumbers(s: State) { s.Csi0? || s.Dcs0? }

  lemma DigitRead(env: Env, e: Esc, d: nat)
    requires ReadsNumbers(e.state) && e.i < MAX_PARAM && d < 10
    ensures OneByte(env, e, 0x30 + d) == Step(e.(param := e.param[e.i := AddDigit(e.param[e.i], 0x30 + d)]), [])
  {
    ParamStep(env, e, 0x30 + d);
  }

  /** Digits read into an unset parameter give the number. */
  lemma {:induction false} ReadDigits(env: Env, e: Esc, n: nat)
    requires ReadsNumbers(e.state) && e.i < MAX_PARAM && e.param[e.i] == -1
    ensures Feed(env, e, Digits(n)) == Step(e.(param := e.param[e.i := n]), [])
    decreases n
  {
    if n < 10 {
      FeedOne(env, e, 0x30 + n);
      DigitRead(env, e, n);
    } else {
      ReadDigits(env, e, n / 10);
      var e1 := e.(param := e.param[e.i := n / 10]);
      FeedOneMore(env, e, Digits(n / 10), 0x30 + n % 10);
      DigitRead(env, e1, n % 10);
      assert e1.param[e.i := n] == e.param[e.i := n];
    }
  }

  lemma ReadNumber(env: Env, e: Esc, n: Number)
    requires ReadsNumbers(e.state) && e.i < MAX_PARAM && e.param[e.i] == -1
    ensures Feed(env, e, Decimal(n)) == Step(e.(param := e.param[e.i := n]), [])
  {
    if n == OMITTED {
      assert e.param[e.i := -1] == e.param;
    } else {
      ReadDigits(env, e, n);
    }
  }

  /** The parameters of a list of numbers. */
  function ParamsOf(toks: seq<Tok>): Params {
    seq(MAX_PARAM, j requires 0 <= j < MAX_PARAM => if j < |toks| then toks[j].n else -1)
  }

  function MaskOf(toks: seq<Tok>): Mask {
    seq(MAX_PARAM, j requires 0 <= j < MAX_PARAM => j < |toks| && toks[j].sub)
  }

  /** The parser behind a list of numbers. */
  function Behind(e: Esc, toks: seq<Tok>): Esc
    requires toks != []
  {
    e.(i := |toks| - 1, param := ParamsOf(toks), sub := MaskOf(toks))
  }

  /** A separator and one more number, behind what was read. */
  lemma {:induction false} ReadTok(env: Env, e: Esc, front: seq<Tok>, last: Tok)
    requires ReadsNumbers(e.state) && 0 < |front| < MAX_PARAM
    ensures Feed(env, Behind(e, front), Separated(last)) == Step(Behind(e, front + [last]), [])
  {
    var k, sep := |front|, if last.sub then COLON else SEMICOLON;
    var e1 := Behind(e, front);
    FeedOne(env, e1, sep);
    ParamStep(env, e1, sep);
    var e2 := ParamByte(e1, sep);
    ReadNumber(env, e2, last.n);
    FeedSplit(env, e1, [sep], Decimal(last.n));
    MoreParams(front, last);
    assert e2.(param := e2.param[k := last.n]) == Behind(e, front + [last]);
  }

  lemma {:induction false} MoreParams(front: seq<Tok>, last: Tok)
    requires |front| < MAX_PARAM
    ensures ParamsOf(front + [last]) == ParamsOf(front)[|front| := last.n]
    ensures MaskOf(front + [last]) == MaskOf(front)[|front| := last.sub]
  {
  }

  lemma {:induction false} ReadFirst(env: Env, e: Esc, tok: Tok)
    requires ReadsNumbers(e.state) && e.i == 0 && e.param == ParamsOf([]) && e.sub == MaskOf([]) && !tok.sub
    ensures Feed(env, e, Text([tok])) == Step(Behind(e, [tok]), [])
  {
    ReadNumber(env, e, tok.n);
    assert Text([tok]) == Decimal(tok.n);
    MoreParams([], tok);
    assert [] + [tok] == [tok];
  }

  lemma {:induction false} ReadNext(env: Env, e: Esc, front: seq<Tok>, last: Tok)
    requires ReadsNumbers(e.state) && 0 < |front| < MAX_PARAM
    requires Feed(env, e, Text(front)) == Step(Behind(e, front), [])
    ensures Feed(env, e, Text(front + [last])) == Step(Behind(e, front + [last]), [])
  {
    ReadTok(env, e, front, last);
    TextMore(front, last);
    Silently(env, e, Text(front), Behind(e, front), Separated(last), Behind(e, front + [last]));
  }

  lemma {:induction false} ReadToks(env: Env, e: Esc, toks: seq<Tok>)
    requires ReadsNumbers(e.state) && e.i == 0 && e.param == ParamsOf([]) && e.sub == MaskOf([])
    requires 0 < |toks| <= MAX_PARAM && !toks[0].sub
    ensures Feed(env, e, Text(toks)) == Step(Behind(e, toks), [])
    decreases |toks|
  {
    var k := |toks| - 1;
    var front, last := toks[..k], toks[k];
    assert toks == front + [last];
    if k == 0 {
      ReadFirst(env, e, last);
      assert toks == [last];
    } else {
      ReadToks(env, e, front);
      ReadNext(env, e, front, last);
    }
  }

  lemma {:induction false} TextIsParams(toks: seq<Tok>, k: nat)
    requires k < |Text(toks)|
    ensures IsParam(Text(toks)[k])
    decreases |toks|
  {
    var front, last := toks[..|toks| - 1], toks[|toks| - 1];
    if |toks| == 1 {
      DigitsAre(last.n, k);
    } else if k < |Text(front)| {
      TextIsParams(front, k);
    } else if k > |Text(front)| {
      DigitsAre(last.n, k - |Text(front)| - 1);
    }
  }

  lemma {:induction false} DigitsAre(n: nat, k: nat)
    requires k < |Digits(n)|
    ensures 0x30 <= Digits(n)[k] <= 0x39
  {
    if n >= 10 && k < |Digits(n / 10)| {
      DigitsAre(n / 10, k);
    }
  }

  // ----- Whole sequences -----

  /** What is spelled: no marker is 0; a list without numbers is one number that is left out. */
  datatype Spelled = Spelled(marker: nat, toks: seq<Tok>, inter: seq<nat>)
  {
    predicate Ok() {
      && (marker == 0 || 0x3C <= marker <= 0x3F)
      && 0 < |toks| <= 32 && !toks[0].sub
      && |inter| <= 2 && forall k :: 0 <= k < |inter| ==> 0x20 <= inter[k] <= 0x2F
    }

    /** The bytes in front of the final byte. */
    function Bytes(): seq<nat> {
      (if marker == 0 then [] else [marker]) + Text(toks) + inter
    }

    /** What a final byte selects. */
    function Select(final: nat): Selector {
      Selector(marker, if |inter| > 0 then inter[0] else 0, if |inter| > 1 then inter[1] else 0, final)
    }

    /** The number of parameters: the last one counts if it is there. */
    function Count(): nat
      requires toks != []
    {
      if toks[|toks| - 1].n == OMITTED then |toks| - 1 else |toks|
    }
  }

  /** The state behind the intermediate bytes. */
  function BehindInter(s: State, n: nat): State {
    if n == 0 then s else if n == 1 then NextState(s) else NextState(NextState(s))
  }

  function BehindBody(e: Esc, toks: seq<Tok>, inter: seq<nat>): Esc
    requires toks != []
  {
    Behind(e, toks).(state := BehindInter(e.state, |inter|),
                     selector := e.selector.(i0 := if |inter| > 0 then inter[0] else 0,
                                             i1 := if |inter| > 1 then inter[1] else 0))
  }

  /** The parser in front of the final byte. */
  function Waiting(e: Esc, sp: Spelled): Esc
    requires sp.toks != []
  {
    BehindBody(Entered(e).(selector := NO_SELECTOR.(prefix := sp.marker)), sp.toks, sp.inter)
  }

  lemma MarkerStep(env: Env, e: Esc, marker: nat)
    requires (e.state.CsiEntry? || e.state.DcsEntry?) && 0x3C <= marker <= 0x3F
    ensures OneByte(env, e, marker) == Step(Entered(e).(selector := NO_SELECTOR.(prefix := marker)), [])
  {
  }

  /** The marker is kept, and what follows is read as from the start. */
  lemma ReadMarker(env: Env, e: Esc, marker: nat, bytes: seq<nat>)
    requires (e.state.CsiEntry? || e.state.DcsEntry?) && CleanBehind(e)
    requires marker == 0 || 0x3C <= marker <= 0x3F
    requires marker == 0 ==> bytes != [] && bytes[0] < 0x80 && !(0x3C <= bytes[0] <= 0x3F)
    ensures Feed(env, e, (if marker == 0 then [] else [marker]) + bytes) ==
      Feed(env, Entered(e).(selector := NO_SELECTOR.(prefix := marker)), bytes)
  {
    if marker == 0 {
      assert [] + bytes == bytes;
      FeedFirst(env, e, bytes);
      FeedFirst(env, Entered(e), bytes);
    } else {
      FeedSplit(env, e, [marker], bytes);
      FeedOne(env, e, marker);
      MarkerStep(env, e, marker);
    }
  }

  lemma ReadInter(env: Env, e: Esc, inter: seq<nat>)
    requires ReadsNumbers(e.state) && e.selector.i0 == e.selector.i1 == 0
    requires |inter| <= 2 && forall k :: 0 <= k < |inter| ==> 0x20 <= inter[k] <= 0x2F
    ensures Feed(env, e, inter) ==
      Step(e.(state := BehindInter(e.state, |inter|),
              selector := e.selector.(i0 := if |inter| > 0 then inter[0] else 0,
                                      i1 := if |inter| > 1 then inter[1] else 0)), [])
  {
    if inter != [] {
      FeedOne(env, e, inter[0]);
      if |inter| == 1 {
        assert inter == [inter[0]];
      } else {
        FeedOneMore(env, e, [inter[0]], inter[1]);
        assert inter == [inter[0]] + [inter[1]];
      }
    }
  }

  /** Numbers and intermediate bytes. */
  lemma {:induction false} ReadBody(env: Env, e0: Esc, toks: seq<Tok>, inter: seq<nat>, rest: seq<nat>)
    requires ReadsNumbers(e0.state) && e0.i == 0 && e0.param == ParamsOf([]) && e0.sub == MaskOf([])
    requires e0.selector.i0 == e0.selector.i1 == 0 && 0 < |toks| <= MAX_PARAM && !toks[0].sub
    requires |inter| <= 2 && forall k :: 0 <= k < |inter| ==> 0x20 <= inter[k] <= 0x2F
    ensures Feed(env, e0, Text(toks) + (inter + rest)) == Feed(env, BehindBody(e0, toks, inter), rest)
  {
    ReadToks(env, e0, toks);
    FeedSplit(env, e0, Text(toks), inter + rest);
    var e1 := Behind(e0, toks);
    ReadInter(env, e1, inter);
    FeedSplit(env, e1, inter, rest);
  }

  /** All that is spelled in front of the final byte, from an entry state, whatever came before. */
  lemma {:induction false} ReadSpelled(env: Env, e: Esc, sp: Spelled, rest: seq<nat>)
    requires (e.state.CsiEntry? || e.state.DcsEntry?) && CleanBehind(e) && sp.Ok()
    requires rest != [] && (sp.Bytes() == [] ==> 0x40 <= rest[0] < 0x80)
    ensures Feed(env, e, sp.Bytes() + rest) == Feed(env, Waiting(e, sp), rest)
  {
    StartsUnset(e);
    var e0 := Entered(e).(selector := NO_SELECTOR.(prefix := sp.marker));
    assert e0.param == ParamsOf([]) && e0.sub == MaskOf([]);
    BodyStarts(sp, rest);
    ReadMarker(env, e, sp.marker, Text(sp.toks) + (sp.inter + rest));
    ReadBody(env, e0, sp.toks, sp.inter, rest);
  }

  lemma {:induction false} BodyStarts(sp: Spelled, rest: seq<nat>)
    requires sp.Ok() && rest != [] && (sp.Bytes() == [] ==> 0x40 <= rest[0] < 0x80)
    ensures var body := Text(sp.toks) + (sp.inter + rest);
      && sp.Bytes() + rest == (if sp.marker == 0 then [] else [sp.marker]) + body
      && body != [] && (sp.marker == 0 ==> body[0] < 0x80 && !(0x3C <= body[0] <= 0x3F))
  {
    var text := Text(sp.toks);
    Grouped(if sp.marker == 0 then [] else [sp.marker], text, sp.inter, rest);
    if text != [] {
      TextIsParams(sp.toks, 0);
      assert (text + (sp.inter + rest))[0] == text[0];
    } else {
      assert text + (sp.inter + rest) == sp.inter + rest;
      if sp.inter == [] {
        assert sp.inter + rest == rest;
        assert sp.marker == 0 ==> sp.Bytes() == [];
      } else {
        assert (sp.inter + rest)[0] == sp.inter[0];
      }
    }
  }

  lemma CsiFinal(env: Env, e: Esc, final: nat)
    requires (e.state.Csi0? || e.state.Csi1? || e.state.Csi2?) && 0x40 <= final <= 0x7E
    ensures OneByte(env, e, final).events == [Csi(e.selector.(final := final), Counted(e), e.param, e.sub)]
  {
  }

  lemma DcsFinal(env: Env, e: Esc, final: nat)
    requires (e.state.Dcs0? || e.state.Dcs1? || e.state.Dcs2?) && 0x40 <= final <= 0x7E
    ensures OneByte(env, e, final) == Step(e.(state := DcsString, selector := e.selector.(final := final)), [])
  {
  }

  lemma {:induction false} CountIs(e: Esc, sp: Spelled)
    requires sp.Ok()
    ensures Counted(Waiting(e, sp)) == sp.Count()
  {
  }

  /** A control sequence is handed on as it is spelled: marker, numbers and which of them are
      subparameters, intermediate bytes and final byte; nothing else is. */
  lemma {:induction false} CsiSpelled(env: Env, e: Esc, sp: Spelled, final: nat)
    requires e.state.CsiEntry? && CleanBehind(e) && sp.Ok() && 0x40 <= final <= 0x7E
    ensures Feed(env, e, sp.Bytes() + [final]).events ==
      [Csi(sp.Select(final), sp.Count(), ParamsOf(sp.toks), MaskOf(sp.toks))]
  {
    ReadSpelled(env, e, sp, [final]);
    FeedOne(env, Waiting(e, sp), final);
    CsiFinal(env, Waiting(e, sp), final);
    CountIs(e, sp);
  }

  /** So is a device control string, once it ends. */
  lemma {:induction false} DcsSpelled(env: Env, e: Esc, sp: Spelled, final: nat)
    requires e.state.DcsEntry? && CleanBehind(e) && sp.Ok() && 0x40 <= final <= 0x7E
    ensures Feed(env, e, sp.Bytes() + [final]) ==
      Step(Waiting(e, sp).(state := DcsString, selector := sp.Select(final)), [])
  {
    ReadSpelled(env, e, sp, [final]);
    FeedOne(env, Waiting(e, sp), final);
    DcsFinal(env, Waiting(e, sp), final);
  }

  lemma {:induction false} DcsEnds(env: Env, e: Esc, sp: Spelled, final: nat, end: nat)
    requires e.state.DcsEntry? && CleanBehind(e) && sp.Ok() && 0x40 <= final <= 0x7E
    requires env(Waiting(e, sp).(state := DcsString, selector := sp.Select(final)), end).change.CountLast?
    ensures Feed(env, e, sp.Bytes() + [final] + [end]).events ==
      [Dcs(sp.Select(final), sp.Count(), ParamsOf(sp.toks), MaskOf(sp.toks))]
  {
    DcsSpelled(env, e, sp, final);
    FeedOneMore(env, e, sp.Bytes() + [final], end);
  }

  /** The VT52 cursor position: two bytes, each 32 more than row and column. */
  lemma CupSpelled(env: Env, e: Esc, row: nat, column: nat)
    requires e.state.Vt52Cup0? && CleanBehind(e) && row < 96 && column < 96
    ensures var s := Feed(env, e, [row + 0x20, column + 0x20]); s.esc.state == Ground && s.events == [Cup(row, column)]
  {
    StartsUnset(e);
    FeedOne(env, e, row + 0x20);
    FeedOneMore(env, e, [row + 0x20], column + 0x20);
    assert [row + 0x20] + [column + 0x20] == [row + 0x20, column + 0x20];
  }

  // ----- Sequences that go wrong -----

  /** A marker or number behind the numbers, or a third intermediate byte. */
  predicate Misfit(sp: Spelled, bad: nat) {
    if sp.inter == [] then sp.Bytes() != [] && 0x3C <= bad <= 0x3F
    else 0x30 <= bad <= 0x3F || (|sp.inter| == 2 && 0x20 <= bad <= 0x2F)
  }

  lemma MisfitStep(env: Env, e: Esc, s: State, n: nat, bad: nat)
    requires (s.Csi0? || s.Dcs0?) && e.state == BehindInter(s, n) && n <= 2
    requires if n == 0 then 0x3C <= bad <= 0x3F else 0x30 <= bad <= 0x3F || (n == 2 && 0x20 <= bad <= 0x2F)
    ensures OneByte(env, e, bad) == Step(e.(state := if s.Dcs0? then IgnString else CsiIgnore), [])
  {
  }

  /** A byte out of place spoils a control sequence: up to its final byte it is skipped. */
  lemma {:induction false} CsiSpoiled(env: Env, e: Esc, sp: Spelled, bad: nat, more: seq<nat>, final: nat)
    requires e.state.CsiEntry? && CleanBehind(e) && sp.Ok() && Misfit(sp, bad)
    requires (forall k :: 0 <= k < |more| ==> 0x20 <= more[k] <= 0x3F) && 0x40 <= final <= 0x7E
    ensures var s := Feed(env, e, sp.Bytes() + ([bad] + more + [final])); s.esc.state == Ground && s.events == []
  {
    var rest, e1 := [bad] + more + [final], Waiting(e, sp);
    ReadSpelled(env, e, sp, rest);
    MisfitStep(env, e1, Csi0, |sp.inter|, bad);
    SkippedTo(env, e1, bad, more, final);
  }

  lemma SkippedTo(env: Env, e: Esc, bad: nat, more: seq<nat>, final: nat)
    requires OneByte(env, e, bad) == Step(e.(state := CsiIgnore), []) && 0x40 <= final <= 0x7E
    requires forall k :: 0 <= k < |more| ==> 0x20 <= more[k] <= 0x3F
    ensures var s := Feed(env, e, [bad] + more + [final]); s.esc.state == Ground && s.events == []
  {
    var rest, e2 := [bad] + more + [final], e.(state := CsiIgnore);
    FeedFirst(env, e, rest);
    assert rest[1..] == more + [final];
    Skipped(env, e2, more);
    FeedSplit(env, e2, more, [final]);
    FeedOne(env, e2, final);
  }

  lemma {:induction false} Skipped(env: Env, e: Esc, more: seq<nat>)
    requires e.state.CsiIgnore? && forall k :: 0 <= k < |more| ==> 0x20 <= more[k] <= 0x3F
    ensures Feed(env, e, more) == Step(e, [])
    decreases |more|
  {
    if more != [] {
      FeedFirst(env, e, more);
      Skipped(env, e, more[1..]);
    }
  }

  /** It spoils a device control string as well, which is then skipped. */
  lemma {:induction false} DcsSpoiled(env: Env, e: Esc, sp: Spelled, bad: nat)
    requires e.state.DcsEntry? && CleanBehind(e) && sp.Ok() && Misfit(sp, bad)
    ensures var s := Feed(env, e, sp.Bytes() + [bad]); s.esc.state == IgnString && s.events == []
  {
    ReadSpelled(env, e, sp, [bad]);
    MisfitStep(env, Waiting(e, sp), Dcs0, |sp.inter|, bad);
    FeedOne(env, Waiting(e, sp), bad);
  }

  /** DEL inside a sequence is not there, and neither is a C0 control inside a device control sequence. */
  lemma Transparent(env: Env, e: Esc, byte: nat, bytes: seq<nat>)
    requires InSequence(e.state) && (byte == 0x7F || (byte < 0x20 && InDcs(e.state)))
    ensures Feed(env, e, [byte] + bytes) == Feed(env, e, bytes)
  {
    FeedOne(env, e, byte);
    FeedSplit(env, e, [byte], bytes);
  }

  /** A C0 control inside a control sequence goes to the environment; unless that starts something else,
      the sequence goes on as if it was not there. */
  lemma ControlInside(env: Env, e: Esc, byte: nat, bytes: seq<nat>)
    requires InSequence(e.state) && !InDcs(e.state) && byte < 0x20
    requires var r := env(e, byte); r.target.Stay? && r.c1 == e.c1 && r.world == e.world && !r.change.UnsetAll?
    ensures var s := Feed(env, e, bytes); Feed(env, e, [byte] + bytes) == Step(s.esc, [Byte(byte)] + s.events)
  {
    FeedOne(env, e, byte);
    FeedSplit(env, e, [byte], bytes);
  }

  /** A separator behind the 32nd number is not there. */
  lemma {:induction false} SeparatorIgnored(env: Env, e: Esc, sp: Spelled, sep: nat, rest: seq<nat>)
    requires (e.state.CsiEntry? || e.state.DcsEntry?) && CleanBehind(e) && sp.Ok() && |sp.toks| == 32 && sp.inter == []
    requires (sep == COLON || sep == SEMICOLON) && rest != []
    ensures Feed(env, e, sp.Bytes() + ([sep] + rest)) == Feed(env, e, sp.Bytes() + rest)
  {
    TwoNumbers(sp.toks);
    ReadSpelled(env, e, sp, [sep] + rest);
    ReadSpelled(env, e, sp, rest);
    SeparatorStep(env, Waiting(e, sp), sep, rest);
  }

  lemma SeparatorStep(env: Env, e: Esc, sep: nat, rest: seq<nat>)
    requires ReadsNumbers(e.state) && e.i == 31 && (sep == COLON || sep == SEMICOLON)
    ensures Feed(env, e, [sep] + rest) == Feed(env, e, rest)
  {
    FeedSplit(env, e, [sep], rest);
    FeedOne(env, e, sep);
  }

  lemma {:induction false} TwoNumbers(toks: seq<Tok>)
    requires |toks| > 1
    ensures Text(toks) != []
  {
  }

  // ----- Bytes above 127 -----

  /** A C1 control goes to the environment in every state, if such controls are recognized. */
  lemma C1Anywhere(env: Env, e: Esc, byte: nat)
    requires e.c1 && 0x80 <= byte <= 0x9F
    ensures OneByte(env, e, byte) == React(env, e, byte)
  {
  }

  /** Other bytes with the eighth bit are read without it inside a sequence. */
  lemma EighthBit(env: Env, e: Esc, byte: nat)
    requires InSequence(e.state) || e.state.CsiEntry? || e.state.DcsEntry? || e.state.Vt52Cup0? || e.state.Vt52Cup1?
    requires 0x80 <= byte < 0x100 && !(e.c1 && byte <= 0x9F)
    ensures OneByte(env, e, byte) == OneByte(env, e, byte - 0x80)
  {
  }
}
