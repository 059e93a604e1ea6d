/** The control sequence parser (term.c): the states that read the parameters of CSI and DCS
    sequences (section 5.4 of ECMA-48) and those of the VT52 cursor sequence, with the tight loop that
    reads several parameter bytes at a time. Numbers are unbounded. What happens in other states, on
    control characters and when a sequence is carried out is the business of an environment, which
    has a state of its own and can change the parameters in the ways listed as Change. */
module ControlSequences {

  const MAX_PARAM := 32

  datatype State =
    | Ground
    | CsiEntry | Csi0 | Csi1 | Csi2 | CsiIgnore
    | DcsEntry | Dcs0 | Dcs1 | Dcs2
    | DcsString | IgnString
    | Vt52Cup0 | Vt52Cup1
    | Elsewhere(n: nat)

  /** The selector's parts: private marker, two intermediate bytes, final byte; 0 where there is none. */
  datatype Selector = Selector(prefix: nat, i0: nat, i1: nat, final: nat)

  const NO_SELECTOR := Selector(0, 0, 0, 0)

  type Params = p: seq<int> | |p| == MAX_PARAM witness seq(MAX_PARAM, _ => -1)
  type Mask = m: seq<bool> | |m| == MAX_PARAM witness seq(MAX_PARAM, _ => false)

  /** The escape part of struct term; sub is subpar_mask bit by bit, c1 says whether C1 controls are
      recognized, and world is all else. */
  datatype Esc = Esc(state: State, selector: Selector, i: nat, param: Params, sub: Mask, c1: bool, world: nat)

  /** What the parser hands on: a sequence with its parameter count, the VT52 cursor position, or a byte
      for the environment. */
  datatype Event =
    | Csi(selector: Selector, count: nat, param: Params, sub: Mask)
    | Dcs(selector: Selector, count: nat, param: Params, sub: Mask)
    | Cup(row: int, column: int)
    | Byte(ch: nat)

  predicate InSequence(s: State) {
    s.Csi0? || s.Csi1? || s.Csi2? || s.CsiIgnore? || s.Dcs0? || s.Dcs1? || s.Dcs2?
  }

  /** The states the environment can start; the others are reached through the entry states. */
  type Outer = s: State | !MidSequence(s) witness Ground

  /** What the environment can do to the parameters: nothing, start anew (term_set_vt52), unset them all
      (term_load_config), count the last one at the end of a DCS string (term_dispatch_dcs), or see to it
      that there is one (DECSLE). */
  datatype Change = Keep | Restart | UnsetAll | CountLast | AtLeastOne

  datatype Target = Stay | To(state: Outer, selector: Selector)

  /** What the environment does with a byte it is given, or at the end of a sequence. */
  datatype Reaction = Reaction(change: Change, target: Target, c1: bool, world: nat)

  type Env = (Esc, nat) -> Reaction

  datatype Step = Step(esc: Esc, events: seq<Event>)

  function Unset(): Params { seq(MAX_PARAM, _ => -1) }

  function NoMask(): Mask { seq(MAX_PARAM, _ => false) }

  /** The number of parameters, the last one included if it is set. */
  function Counted(e: Esc): nat {
    e.i + (if e.i < MAX_PARAM && e.param[e.i] >= 0 then 1 else 0)
  }

  function Changed(e: Esc, c: Change): (r: Esc) {
    match c
    case Keep => e
    case Restart => StartSeq(e)
    case UnsetAll => e.(param := Unset())
    case CountLast => e.(i := Counted(e))
    case AtLeastOne => if e.i == 0 then e.(i := 1) else e
  }

  predicate MidSequence(s: State) { InSequence(s) || s.Vt52Cup1? }

  /** A byte that does not end a sequence under way can at most unset its parameters. */
  function Effective(e: Esc, r: Reaction): Change {
    if r.target.Stay? && MidSequence(e.state) && !r.change.UnsetAll? then Keep else r.change
  }

  function Reacted(e: Esc, r: Reaction): Esc {
    var e1 := Changed(e, Effective(e, r)).(c1 := r.c1, world := r.world);
    match r.target
    case Stay => e1.(state := e.state)
    case To(s, sel) => e1.(state := s, selector := sel)
  }

  /** A byte is left to the environment; at the end of a DCS string that carries out the sequence. */
  function React(env: Env, e: Esc, byte: nat): Step {
    var r := env(e, byte);
    Step(Reacted(e, r),
         if Effective(e, r).CountLast? then [Dcs(e.selector, Counted(e), e.param, e.sub)] else [Byte(byte)])
  }

  /** Parameters behind the current one are unset. */
  ghost predicate Clean(e: Esc) {
    && e.i < MAX_PARAM
    && (forall j :: 0 <= j < MAX_PARAM ==> e.param[j] >= -1)
    && (forall j :: e.i < j < MAX_PARAM ==> e.param[j] == -1 && !e.sub[j])
  }

  /** The same once a sequence was dispatched, which may have counted the last parameter. */
  ghost predicate CleanBehind(e: Esc) {
    && e.i <= MAX_PARAM
    && (forall j :: 0 <= j < MAX_PARAM ==> e.param[j] >= -1)
    && (forall j :: e.i < j < MAX_PARAM ==> e.param[j] == -1 && !e.sub[j])
  }

  /** term_esc_start_seq: only the parameters up to the current one are reset. */
  function StartSeq(e: Esc): (r: Esc) {
    e.(param := seq(MAX_PARAM, j requires 0 <= j < MAX_PARAM => if j <= e.i then -1 else e.param[j]),
       i := 0, sub := seq(MAX_PARAM, _ => false), selector := NO_SELECTOR)
  }

  /** ... which is enough: a new sequence starts with all parameters unset, whatever came before. */
  lemma StartsUnset(e: Esc)
    requires CleanBehind(e)
    ensures StartSeq(e).param == Unset() && StartSeq(e).sub == NoMask() && Clean(StartSeq(e))
  {
  }

  predicate IsParam(ch: nat) { 0x30 <= ch <= 0x3B }
  predicate IsC0(ch: nat) { ch < 0x20 }
  predicate IsC1(ch: nat) { 0x80 <= ch < 0xA0 }
  predicate InDcs(s: State) { s.DcsEntry? || s.Dcs0? || s.Dcs1? || s.Dcs2? }

  /** A digit in front of what was read of a parameter so far. */
  function AddDigit(last: int, ch: nat): int
    requires 0x30 <= ch <= 0x39
  {
    (ch - 0x30) + last * 10 * (if last > 0 then 1 else 0)
  }

  /** One parameter byte. The index is in range, see Ok. */
  function ParamByte(e: Esc, ch: nat): (r: Esc)
    requires IsParam(ch)
  {
    if e.i >= MAX_PARAM then
      e
    else if ch <= 0x39 then
      e.(param := e.param[e.i := AddDigit(e.param[e.i], ch)])
    else if e.i < MAX_PARAM - 1 then
      e.(i := e.i + 1, param := e.param[e.i + 1 := -1], sub := e.sub[e.i + 1 := e.sub[e.i + 1] || ch == 0x3A])
    else
      e
  }

  function NextState(s: State): State {
    match s
    case CsiEntry => Csi0
    case Csi0 => Csi1
    case Csi1 => Csi2
    case DcsEntry => Dcs0
    case Dcs0 => Dcs1
    case Dcs1 => Dcs2
    case _ => s
  }

  /** The final byte of a sequence: a CSI sequence is dispatched with its parameters counted, and the
      string of a DCS sequence starts. */
  function Final(env: Env, e: Esc, ch: nat): (r: Step) {
    var sel := e.selector.(final := ch);
    if InDcs(e.state) then
      Step(e.(state := DcsString, selector := sel), [])
    else
      var done := e.(state := Ground, selector := sel, i := Counted(e));
      Step(Reacted(done, env(done, ch)), [Csi(sel, Counted(e), e.param, e.sub)])
  }

  /** A byte that has no place in a sequence. */
  function Misplaced(env: Env, e: Esc, ch: nat): Step {
    if IsC0(ch) then
      if InDcs(e.state) then Step(e, []) else React(env, e, ch)
    else if ch == 0x7F then
      Step(e, [])
    else
      Step(e.(state := if InDcs(e.state) then IgnString else if 0x40 <= ch <= 0x7E then Ground else CsiIgnore), [])
  }

  /** One byte in a state that reads parameters or intermediate bytes. */
  function SequenceByte(env: Env, e: Esc, ch: nat): Step {
    var s := e.state;
    if (s.Csi0? || s.Dcs0?) && IsParam(ch) then
      Step(ParamByte(e, ch), [])
    else if (s.Csi0? || s.Dcs0? || s.Csi1? || s.Dcs1?) && 0x20 <= ch <= 0x2F then
      Step(e.(state := NextState(s),
              selector := if s.Csi0? || s.Dcs0? then e.selector.(i0 := ch) else e.selector.(i1 := ch)), [])
    else if !s.CsiIgnore? && 0x40 <= ch <= 0x7E then
      Final(env, e, ch)
    else
      Misplaced(env, e, ch)
  }

  /** The two bytes of a VT52 cursor position. */
  function Vt52Byte(env: Env, e: Esc, ch: nat): Step {
    if IsC0(ch) then React(env, e, ch)
    else if e.i >= MAX_PARAM then Step(e, [])
    else
      var e1 := e.(param := e.param[e.i := ch - 0x20], i := e.i + 1);
      if e.state.Vt52Cup1? then Step(e1.(state := Ground), [Cup(e1.param[0], e1.param[1])])
      else Step(e1.(state := Vt52Cup1), [])
  }

  /** Between bytes. */
  ghost predicate Ok(e: Esc) {
    CleanBehind(e) && (InSequence(e.state) ==> e.i < MAX_PARAM) && (e.state.Vt52Cup1? ==> e.i == 1 && e.param[0] < 96)
  }

  /** One byte at a time: the parser as an automaton. */
  function OneByte(env: Env, e: Esc, byte: nat): (r: Step) {
    var ch := byte % 128;
    if IsC1(byte) && e.c1 then React(env, e, byte)
    else if e.state.CsiEntry? || e.state.DcsEntry? then
      var e1 := Entered(e);
      if 0x3C <= ch <= 0x3F then Step(e1.(selector := e1.selector.(prefix := ch)), [])
      else SequenceByte(env, e1, ch)
    else if InSequence(e.state) then SequenceByte(env, e, ch)
    else if e.state.Vt52Cup0? then Vt52Byte(env, StartSeq(e), ch)
    else if e.state.Vt52Cup1? then Vt52Byte(env, e, ch)
    else React(env, e, byte)
  }

  /** An entry state starts the sequence. */
  function Entered(e: Esc): Esc { StartSeq(e).(state := NextState(e.state)) }

  /** A whole input, byte by byte, for any automaton. */
  function Run(step: (Esc, nat) -> Step, e: Esc, bytes: seq<nat>): (r: Step)
    decreases |bytes|
  {
    if bytes == [] then Step(e, [])
    else
      var s := step(e, bytes[0]);
      var t := Run(step, s.esc, bytes[1..]);
      Step(t.esc, s.events + t.events)
  }

  lemma {:induction false} RunSplit(step: (Esc, nat) -> Step, e: Esc, a: seq<nat>, b: seq<nat>)
    ensures var s := Run(step, e, a);
      var t := Run(step, s.esc, b);
      Run(step, e, a + b) == Step(t.esc, s.events + t.events)
    decreases |a|
  {
    if a == [] {
      assert a + b == b;
    } else {
      var s := step(e, a[0]);
      var rest := a[1..];
      RunSplit(step, s.esc, rest, b);
      assert (a + b)[0] == a[0] && (a + b)[1..] == rest + b;
      var s2 := Run(step, s.esc, rest);
      var t := Run(step, s2.esc, b);
      assert s.events + (s2.events + t.events) == (s.events + s2.events) + t.events;
    }
  }

  lemma RunOne(step: (Esc, nat) -> Step, e: Esc, byte: nat)
    ensures Run(step, e, [byte]) == step(e, byte)
  {
    var s := step(e, byte);
    assert Run(step, s.esc, []) == Step(s.esc, []);
    assert [byte][1..] == [] && s.events + [] == s.events;
  }

  function Stepper(env: Env): (Esc, nat) -> Step { (e: Esc, byte: nat) => OneByte(env, e, byte) }

  /** A whole input for the parser. */
  function Feed(env: Env, e: Esc, bytes: seq<nat>): (r: Step) { Run(Stepper(env), e, bytes) }

  /** Where an input is split does not matter. */
  lemma FeedSplit(env: Env, e: Esc, a: seq<nat>, b: seq<nat>)
    ensures var s := Feed(env, e, a);
      var t := Feed(env, s.esc, b);
      Feed(env, e, a + b) == Step(t.esc, s.events + t.events)
  {
    RunSplit(Stepper(env), e, a, b);
  }

  lemma FeedOne(env: Env, e: Esc, byte: nat)
    ensures Feed(env, e, [byte]) == OneByte(env, e, byte)
  {
    RunOne(Stepper(env), e, byte);
  }

  /** The first byte of an input. */
  lemma FeedFirst(env: Env, e: Esc, bytes: seq<nat>)
    requires bytes != []
    ensures var s := OneByte(env, e, bytes[0]);
      var t := Feed(env, s.esc, bytes[1..]);
      Feed(env, e, bytes) == Step(t.esc, s.events + t.events)
  {
  }

  lemma FeedOneMore(env: Env, e: Esc, bytes: seq<nat>, byte: nat)
    ensures var s := Feed(env, e, bytes);
      var t := OneByte(env, s.esc, byte);
      Feed(env, e, bytes + [byte]) == Step(t.esc, s.events + t.events)
  {
    FeedSplit(env, e, bytes, [byte]);
    FeedOne(env, Feed(env, e, bytes).esc, byte);
  }

  lemma ParamByteOk(e: Esc, ch: nat)
    requires Clean(e) && IsParam(ch)
    ensures Clean(ParamByte(e, ch))
  {
  }

  lemma ChangedOk(e: Esc, c: Change)
    requires CleanBehind(e)
    ensures CleanBehind(Changed(e, c))
    ensures c.UnsetAll? || c.Keep? ==> Changed(e, c).i == e.i && Changed(e, c).param[0] <= e.param[0]
  {
    StartsUnset(e);
  }

  lemma ReactedOk(e: Esc, r: Reaction)
    requires Ok(e)
    ensures Ok(Reacted(e, r))
  {
    ChangedOk(e, Effective(e, r));
  }

  lemma FinalOk(env: Env, e: Esc, ch: nat)
    requires Clean(e) && InSequence(e.state)
    ensures Ok(Final(env, e, ch).esc)
  {
    var done := e.(state := Ground, selector := e.selector.(final := ch), i := Counted(e));
    ReactedOk(done, env(done, ch));
  }

  lemma MisplacedOk(env: Env, e: Esc, ch: nat)
    requires Clean(e) && InSequence(e.state)
    ensures Ok(Misplaced(env, e, ch).esc)
  {
    ReactedOk(e, env(e, ch));
  }

  lemma SequenceByteOk(env: Env, e: Esc, ch: nat)
    requires Clean(e) && InSequence(e.state)
    ensures Ok(SequenceByte(env, e, ch).esc)
  {
    if IsParam(ch) {
      ParamByteOk(e, ch);
    }
    FinalOk(env, e, ch);
    MisplacedOk(env, e, ch);
  }

  lemma Vt52ByteOk(env: Env, e: Esc, ch: nat)
    requires Ok(e) && ch < 128 && (e.state.Vt52Cup1? || (e.state.Vt52Cup0? && e.i == 0))
    ensures Ok(Vt52Byte(env, e, ch).esc)
  {
    ReactedOk(e, env(e, ch));
  }

  /** The parser stays in order. */
  lemma StepOk(env: Env, e: Esc, byte: nat)
    requires Ok(e)
    ensures Ok(OneByte(env, e, byte).esc)
  {
    var ch := byte % 128;
    if IsC1(byte) && e.c1 {
      ReactedOk(e, env(e, byte));
    } else if e.state.CsiEntry? || e.state.DcsEntry? {
      StartsUnset(e);
      SequenceByteOk(env, Entered(e), ch);
    } else if InSequence(e.state) {
      SequenceByteOk(env, e, ch);
    } else if e.state.Vt52Cup0? {
      StartsUnset(e);
      Vt52ByteOk(env, StartSeq(e), ch);
    } else if e.state.Vt52Cup1? {
      Vt52ByteOk(env, e, ch);
    } else {
      ReactedOk(e, env(e, byte));
    }
  }

  lemma {:induction false} FeedOk(env: Env, e: Esc, bytes: seq<nat>)
    requires Ok(e)
    ensures Ok(Feed(env, e, bytes).esc)
    decreases |bytes|
  {
    if bytes != [] {
      FeedFirst(env, e, bytes);
      StepOk(env, e, bytes[0]);
      FeedOk(env, OneByte(env, e, bytes[0]).esc, bytes[1..]);
    }
  }

  /** A parameter byte in a state that reads parameters. */
  lemma ParamStep(env: Env, e: Esc, byte: nat)
    requires (e.state.Csi0? || e.state.Dcs0?) && IsParam(byte % 128) && !(IsC1(byte) && e.c1)
    ensures OneByte(env, e, byte) == Step(ParamByte(e, byte % 128), [])
  {
  }

  lemma FinalStep(env: Env, e: Esc, byte: nat)
    requires (e.state.Csi0? || e.state.Dcs0?) && 0x40 <= byte <= 0x7E
    ensures OneByte(env, e, byte) == Final(env, e, byte)
  {
  }

  /** The current parameter, kept in a variable by the tight loop, stored. */
  function Stored(e: Esc, last: int): Esc
    requires e.i < |e.param|
  {
    e.(param := e.param[e.i := last])
  }

  /** One round of the tight loop. */
  method TakeByte(e0: Esc, last0: int, ch: nat) returns (e: Esc, last: int)
    requires IsParam(ch) && e0.i < MAX_PARAM
    ensures e.i < MAX_PARAM && Stored(e, last) == ParamByte(Stored(e0, last0), ch)
  {
    e, last := e0, last0;
    if ch <= 0x39 {
      last := AddDigit(last, ch);
    } else if e.i < MAX_PARAM - 1 {
      e := e.(param := e.param[e.i := last], i := e.i + 1, sub := e.sub[e.i + 1 := e.sub[e.i + 1] || ch == 0x3A]);
      last := -1;
    }
  }

  /** The bytes from start to next, read byte by byte, lead to a state that only waits for more parameter bytes. */
  ghost predicate ReadSoFar(env: Env, e0: Esc, bytes: seq<nat>, start: nat, next: nat, e: Esc)
    requires start <= next <= |bytes|
  {
    e.state == e0.state && e.c1 == e0.c1 && Feed(env, e0, bytes[start..next]) == Step(e, [])
  }

  lemma ReadMore(env: Env, e0: Esc, bytes: seq<nat>, start: nat, next: nat, e: Esc)
    requires (e0.state.Csi0? || e0.state.Dcs0?) && start <= next < |bytes|
    requires ReadSoFar(env, e0, bytes, start, next, e) && IsParam(bytes[next] % 128) && !(IsC1(bytes[next]) && e.c1)
    ensures ReadSoFar(env, e0, bytes, start, next + 1, ParamByte(e, bytes[next] % 128))
  {
    ParamStep(env, e, bytes[next]);
    FeedOneMore(env, e0, bytes[start..next], bytes[next]);
    assert bytes[start..next + 1] == bytes[start..next] + [bytes[next]];
  }

  /** The state in which the tight loop starts, if the next byte leads there: the entry states fall
      through to it. */
  predicate ReadsParam(e: Esc, byte: nat) {
    && (e.state.Csi0? || e.state.Dcs0? || e.state.CsiEntry? || e.state.DcsEntry?)
    && IsParam(byte % 128) && !(IsC1(byte) && e.c1)
  }

  function LoopStart(e: Esc): Esc { if e.state.CsiEntry? || e.state.DcsEntry? then Entered(e) else e }

  /** The tight loop of term_dispatch: parameter bytes are read with the current parameter in a
      variable, which is stored when the buffer or the parameters end. What follows is left to the caller. */
  method ReadParams(env: Env, e0: Esc, bytes: seq<nat>, start: nat) returns (e: Esc, next: nat)
    requires e0.i < MAX_PARAM && (e0.state.Csi0? || e0.state.Dcs0?) && start < |bytes| && ReadsParam(e0, bytes[start])
    ensures start < next <= |bytes| && ReadSoFar(env, e0, bytes, start, next, e)
    ensures next < |bytes| ==> !IsParam(bytes[next])
  {
    e, next := e0, start;
    var last := e.param[e.i];
    assert Stored(e, last) == e0 && bytes[start..start] == [];
    var more := true;
    while more
      invariant start <= next <= |bytes| && e.i < MAX_PARAM
      invariant ReadSoFar(env, e0, bytes, start, next, Stored(e, last))
      invariant next > start || more
      invariant if more then next < |bytes| && IsParam(bytes[next] % 128) && !(IsC1(bytes[next]) && e.c1)
                else next < |bytes| ==> !IsParam(bytes[next])
      decreases |bytes| - next, more
    {
      ReadMore(env, e0, bytes, start, next, Stored(e, last));
      e, last := TakeByte(e, last, bytes[next] % 128);
      next := next + 1;
      more := next < |bytes| && IsParam(bytes[next]);
    }
    e := Stored(e, last);
  }

  /** What an entry state does to a parameter byte is what happens behind it. */
  lemma EnteredFeeds(env: Env, e: Esc, bytes: seq<nat>)
    requires bytes != [] && ReadsParam(e, bytes[0])
    ensures Feed(env, e, bytes) == Feed(env, LoopStart(e), bytes)
  {
    FeedFirst(env, e, bytes);
    FeedFirst(env, LoopStart(e), bytes);
  }

  /** term_dispatch for the states modelled here: the tight loop with its jump to the final byte, or
      one byte. */
  method Dispatch(env: Env, e0: Esc, bytes: seq<nat>, start: nat) returns (e: Esc, events: seq<Event>, next: nat)
    requires Ok(e0) && start < |bytes|
    ensures start < next <= |bytes| && Feed(env, e0, bytes[start..next]) == Step(e, events)
  {
    if ReadsParam(e0, bytes[start]) {
      e, events, next := DispatchParams(env, LoopStart(e0), bytes, start);
      EnteredFeeds(env, e0, bytes[start..next]);
    } else {
      var s := OneByte(env, e0, bytes[start]);
      e, events, next := s.esc, s.events, start + 1;
      FeedOne(env, e0, bytes[start]);
      assert bytes[start..next] == [bytes[start]];
    }
  }

  method DispatchParams(env: Env, e0: Esc, bytes: seq<nat>, start: nat) returns (e: Esc, events: seq<Event>, next: nat)
    requires e0.i < MAX_PARAM && (e0.state.Csi0? || e0.state.Dcs0?) && start < |bytes| && ReadsParam(e0, bytes[start])
    ensures start < next <= |bytes| && Feed(env, e0, bytes[start..next]) == Step(e, events)
  {
    e, next := ReadParams(env, e0, bytes, start);
    events := [];
    if next < |bytes| && 0x40 <= bytes[next] <= 0x7E {
      var s := Final(env, e, bytes[next]);
      FinalStep(env, e, bytes[next]);
      FeedOneMore(env, e0, bytes[start..next], bytes[next]);
      assert bytes[start..next + 1] == bytes[start..next] + [bytes[next]];
      e, events, next := s.esc, s.events, next + 1;
    }
  }

  /** A buffer read with the tight loop gives what the automaton gives byte by byte; so by FeedSplit
      it does not matter how the input is split into buffers. */
  method ReadBuffer(env: Env, e0: Esc, bytes: seq<nat>) returns (e: Esc, events: seq<Event>)
    requires Ok(e0)
    ensures Feed(env, e0, bytes) == Step(e, events)
  {
    e, events := e0, [];
    var start := 0;
    while start < |bytes|
      invariant 0 <= start <= |bytes| && Feed(env, e0, bytes[..start]) == Step(e, events)
      decreases |bytes| - start
    {
      FeedOk(env, e0, bytes[..start]);
      var more, next;
      e, more, next := Dispatch(env, e, bytes, start);
      FeedSplit(env, e0, bytes[..start], bytes[start..next]);
      assert bytes[..next] == bytes[..start] + bytes[start..next];
      events, start := events + more, next;
    }
    assert bytes[..start] == bytes;
  }

  ghost predicate CountedOk(count: nat, param: Params) {
    count <= 32 && forall j :: count <= j < 32 ==> param[j] == -1
  }

  /** Every sequence that is carried out comes with the parameters behind the counted ones unset, and a
      cursor position with what its two bytes say, or unset. */
  ghost predicate EventOk(v: Event) {
    && (v.Csi? || v.Dcs? ==> CountedOk(v.count, v.param))
    && (v.Cup? ==> -1 <= v.row < 96 && 0 <= v.column < 96)
  }

  /** Nothing of an earlier or aborted sequence is left in any sequence that is carried out. */
  lemma {:induction false} NothingLeaks(env: Env, e: Esc, bytes: seq<nat>)
    requires Ok(e)
    ensures forall k :: 0 <= k < |Feed(env, e, bytes).events| ==> EventOk(Feed(env, e, bytes).events[k])
    decreases |bytes|
  {
    if bytes != [] {
      var s := OneByte(env, e, bytes[0]);
      FeedFirst(env, e, bytes);
      OneEventOk(env, e, bytes[0]);
      StepOk(env, e, bytes[0]);
      NothingLeaks(env, s.esc, bytes[1..]);
    }
  }

  lemma OneEventOk(env: Env, e: Esc, byte: nat)
    requires Ok(e)
    ensures var s := OneByte(env, e, byte); |s.events| <= 1 && (|s.events| == 1 ==> EventOk(s.events[0]))
  {
    StartsUnset(e);
  }

  /** The parser as term_load_config leaves it at first. */
  function Initial(c1: bool, world: nat): (e: Esc)
    ensures Ok(e) && e.selector == Selector(0, 0, 0, 0) && e.i == 0
  {
    Esc(Ground, NO_SELECTOR, 0, Unset(), NoMask(), c1, world)
  }
}
