/** The timer queue of the event loop (poller.c): a binary heap of events with back-indices, and
    the pass that fires what is due. Times are struct timespec, see util.h. */
module Timers {
  import opened Sequences
  import opened Sets

  const SEC := 1000000000

  datatype Timespec = Timespec(sec: int, nsec: int)
  {
    function Total(): int { sec * SEC + nsec }
    predicate Normal() { 0 <= nsec < 1_000_000_000 }
  }

  /** C division: towards zero. */
  function Quot(a: int, b: int): int
    requires b > 0
  {
    if a >= 0 then a / b else 0 - (0 - a) / b
  }

  /** ts_leq. */
  predicate TsLeq(a: Timespec, b: Timespec) {
    a.sec < b.sec || (a.sec == b.sec && a.nsec <= b.nsec)
  }

  /** ts_add. */
  function TsAdd(a: Timespec, inc: int): (r: Timespec)
    ensures r.Total() == a.Total() + inc
  {
    var ns := a.nsec + inc;
    var sadj := Quot(ns - (if inc < 0 then SEC + 1 else 0), SEC);
    Timespec(a.sec + sadj, ns - sadj * SEC)
  }

  lemma TsLeqIsOrder(a: Timespec, b: Timespec)
    requires a.Normal() && b.Normal()
    ensures TsLeq(a, b) <==> a.Total() <= b.Total()
  {
  }

  /** A sum is normal for every increment that is not negative, and for a negative one unless the
      nanoseconds come out as a whole number of seconds or one more. */
  lemma TsAddNormal(a: Timespec, inc: int)
    requires a.Normal()
    ensures TsAdd(a, inc).Normal() <==> inc >= 0 || ((a.nsec + inc) % SEC != 0 && (a.nsec + inc) % SEC != 1)
  {
    var ns := a.nsec + inc;
    if inc < 0 {
      var d := SEC + 1 - ns;
      assert Quot(ns - (SEC + 1), SEC) == 0 - d / SEC;
      assert TsAdd(a, inc).nsec == SEC + 1 - d % SEC;
      NegativeRemainder(ns, d);
    }
  }

  lemma NegativeRemainder(ns: int, d: int)
    requires d == SEC + 1 - ns && d > 0
    ensures d % SEC == 0 <==> ns % SEC == 1
    ensures d % SEC == 1 <==> ns % SEC == 0
  {
    var q, r := ns / SEC, ns % SEC;
    assert d == (1 - q) * SEC + (1 - r);
    if r <= 1 {
      assert d % SEC == 1 - r;
    } else {
      assert d == (0 - q) * SEC + (SEC + 1 - r);
      assert d % SEC == SEC + 1 - r;
    }
  }

  // ----- The heap -----

  /** The timer part of struct event; index is -1 while the event is not queued. */
  datatype Event = Event(current: Timespec, period: nat, index: int, enabled: bool)

  /** poller.timer_heap, timer_heap_size, and the events by number. */
  datatype Queue = Queue(heap: seq<nat>, size: nat, event: map<nat, Event>)
  {
    function Key(e: nat): int
      requires e in event
    {
      event[e].current.Total()
    }

    predicate Queued(e: nat) { e in event && event[e].index >= 0 }
  }

  function Parent(i: nat): nat
    requires i > 0
  {
    (i - 1) / 2
  }

  /** The slots hold events with normal deadlines. */
  ghost predicate Sized(q: Queue) {
    && q.size <= |q.heap| && (forall i :: 0 <= i < q.size ==> q.heap[i] in q.event)
    && (forall e :: e in q.event ==> q.event[e].current.Normal())
  }

  /** The deadlines in heap order. */
  ghost function Keys(q: Queue): (ks: seq<int>)
    requires Sized(q)
    ensures |ks| == q.size
  {
    seq(q.size, i requires 0 <= i < q.size => q.Key(q.heap[i]))
  }

  // The heap order is about the deadlines alone.

  /** The deadline in slot i is not before the one in its parent slot. */
  ghost predicate OrderAt(ks: seq<int>, i: nat)
    requires i < |ks|
  {
    i > 0 ==> ks[Parent(i)] <= ks[i]
  }

  ghost predicate Ordered(ks: seq<int>) {
    forall c {:trigger OrderAt(ks, c)} :: 0 <= c < |ks| ==> OrderAt(ks, c)
  }

  /** The parent of slot i is in order with slot c. */
  ghost predicate Grand(ks: seq<int>, i: nat, c: nat)
    requires i < |ks| && c < |ks|
  {
    i > 0 ==> ks[Parent(i)] <= ks[c]
  }

  /** The order holds except that slot i may be out of order with its parent and its children; its
      parent and its children are in order with each other. */
  ghost predicate HoleAt(ks: seq<int>, i: nat) {
    && i < |ks|
    && (forall c {:trigger OrderAt(ks, c)} :: 0 < c < |ks| && c != i && Parent(c) != i ==> OrderAt(ks, c))
    && (forall c {:trigger Grand(ks, i, c)} :: 0 < c < |ks| && Parent(c) == i ==> Grand(ks, i, c))
  }

  /** Only slot i may be out of order with its parent. */
  ghost predicate OrderedBut(ks: seq<int>, i: nat) {
    forall c {:trigger OrderAt(ks, c)} :: 0 < c < |ks| && c != i ==> OrderAt(ks, c)
  }

  function Swapped(ks: seq<int>, i: nat, j: nat): (r: seq<int>)
    requires i < |ks| && j < |ks|
  {
    ks[i := ks[j]][j := ks[i]]
  }

  lemma MovedUp(ks: seq<int>, i: nat)
    requires 0 < i < |ks| && HoleAt(ks, i) && ks[Parent(i)] > ks[i]
    ensures HoleAt(Swapped(ks, i, Parent(i)), Parent(i)) && OrderedBut(Swapped(ks, i, Parent(i)), Parent(i))
  {
    var p := Parent(i);
    var r := Swapped(ks, i, p);
    forall c | 0 < c < |r| && c != p
      ensures OrderAt(r, c)
    {
      if c != i && Parent(c) != i {
        assert OrderAt(ks, c);
      } else if Parent(c) == i {
        assert Grand(ks, i, c);
      }
    }
    forall c | 0 < c < |r| && Parent(c) == p
      ensures Grand(r, p, c)
    {
      assert p > 0 ==> OrderAt(ks, p);
      if c != i {
        assert OrderAt(ks, c);
      }
    }
  }

  /** The least child of slot i, if it has any. */
  ghost predicate LeastChild(ks: seq<int>, i: nat, n: nat) {
    && n < |ks| && n > 0 && Parent(n) == i && i < |ks|
    && forall c :: 0 < c < |ks| && Parent(c) == i ==> ks[n] <= ks[c]
  }

  lemma MovedDown(ks: seq<int>, i: nat, n: nat)
    requires HoleAt(ks, i) && OrderAt(ks, i) && LeastChild(ks, i, n) && ks[n] < ks[i]
    ensures HoleAt(Swapped(ks, i, n), n) && OrderAt(Swapped(ks, i, n), n)
  {
    var r := Swapped(ks, i, n);
    assert Grand(ks, i, n);
    forall c | 0 < c < |r| && c != n && Parent(c) != n
      ensures OrderAt(r, c)
    {
      if c != i && Parent(c) != i {
        assert OrderAt(ks, c);
      }
    }
    forall c | 0 < c < |r| && Parent(c) == n
      ensures Grand(r, n, c)
    {
      assert OrderAt(ks, c);
    }
  }

  /** If slot i is in order with its parent and its children, all is in order. */
  lemma HoleClosed(ks: seq<int>, i: nat)
    requires HoleAt(ks, i) && OrderAt(ks, i)
    requires forall c :: 0 < c < |ks| && Parent(c) == i ==> ks[i] <= ks[c]
    ensures Ordered(ks)
  {
    forall c | 0 <= c < |ks|
      ensures OrderAt(ks, c)
    {
    }
  }

  /** The first slot has the least deadline. */
  lemma {:induction false} RootLeast(ks: seq<int>, i: nat)
    requires Ordered(ks) && i < |ks|
    ensures ks[0] <= ks[i]
    decreases i
  {
    if i > 0 {
      assert OrderAt(ks, i);
      RootLeast(ks, Parent(i));
    }
  }

  /** An ordered heap without its last slot, or with slot i changed. */
  lemma OrderedHole(ks: seq<int>, i: nat, k: int)
    requires Ordered(ks) && i < |ks|
    ensures HoleAt(ks[i := k], i)
  {
    var r := ks[i := k];
    forall c | 0 < c < |r| && c != i && Parent(c) != i
      ensures OrderAt(r, c)
    {
      assert OrderAt(ks, c);
    }
    forall c | 0 < c < |r| && Parent(c) == i
      ensures Grand(r, i, c)
    {
      assert OrderAt(ks, c) && OrderAt(ks, i);
    }
  }

  lemma OrderedPrefix(ks: seq<int>, n: nat)
    requires Ordered(ks) && n <= |ks|
    ensures Ordered(ks[..n])
  {
    var r := ks[..n];
    forall c | 0 <= c < n
      ensures OrderAt(r, c)
    {
      assert OrderAt(ks, c);
    }
  }

  /** Every slot but i is known to the event in it, and event x is to go into slot i. */
  ghost predicate Indexed(q: Queue, i: nat, x: nat) {
    && i < q.size <= |q.heap| && q.heap[i] == x && x in q.event
    && (forall j :: 0 <= j < q.size && j != i ==>
          q.heap[j] != x && q.heap[j] in q.event && q.event[q.heap[j]].index == j)
    && (forall e :: e in q.event && e != x ==>
          || q.event[e].index == -1
          || (0 <= q.event[e].index < q.size && q.event[e].index != i && q.heap[q.event[e].index] == e))
  }

  /** heap_leq. */
  predicate HeapLeq(q: Queue, a: nat, b: nat)
    requires a < |q.heap| && b < |q.heap| && q.heap[a] in q.event && q.heap[b] in q.event
  {
    TsLeq(q.event[q.heap[a]].current, q.event[q.heap[b]].current)
  }

  /** The step of both sifts: the events in slots i and j change places, and the one that comes to
      slot i is told so. */
  function Exchange(q: Queue, i: nat, j: nat): Queue
    requires i < |q.heap| && j < |q.heap| && q.heap[j] in q.event
  {
    var e := q.heap[j];
    q.(event := q.event[e := q.event[e].(index := i)], heap := q.heap[i := e][j := q.heap[i]])
  }

  /** Same events, with the same deadlines and settings; only indices differ. */
  ghost predicate SameEvents(q0: Queue, q: Queue) {
    && q.size == q0.size && |q.heap| == |q0.heap| && q.event.Keys == q0.event.Keys
    && (forall e :: e in q0.event ==> e in q.event && q.event[e] == q0.event[e].(index := q.event[e].index))
    && (forall i :: q0.size <= i < |q0.heap| ==> q.heap[i] == q0.heap[i])
  }

  ghost predicate SameQueued(q0: Queue, q: Queue) {
    forall e :: e in q0.event ==> (q.Queued(e) <==> q0.Queued(e))
  }

  lemma KeysSwapped(q: Queue, i: nat, j: nat)
    requires Sized(q) && i < q.size && j < q.size && i != j
    ensures Sized(Exchange(q, i, j)) && Keys(Exchange(q, i, j)) == Swapped(Keys(q), i, j)
  {
  }

  lemma Exchanged(q: Queue, i: nat, j: nat, x: nat)
    requires Sized(q) && Indexed(q, i, x) && j < q.size && i != j
    ensures var r := Exchange(q, i, j);
      Sized(r) && Indexed(r, j, x) && SameEvents(q, r) && SameQueued(q, r) && Keys(r) == Swapped(Keys(q), i, j)
  {
    KeysSwapped(q, i, j);
  }

  /** heap_sift_up: event x goes up from its slot until it is not due before its parent. */
  method SiftUp(q0: Queue, index0: nat, ghost x: nat) returns (q: Queue, index: nat)
    requires Sized(q0) && Indexed(q0, index0, x) && HoleAt(Keys(q0), index0)
    ensures Sized(q) && SameEvents(q0, q) && SameQueued(q0, q) && Indexed(q, index, x) && HoleAt(Keys(q), index)
    ensures OrderAt(Keys(q), index)
    ensures (index == index0 && q == q0) || OrderedBut(Keys(q), index)
  {
    q, index := q0, index0;
    while index > 0
      invariant Sized(q) && SameEvents(q0, q) && SameQueued(q0, q) && Indexed(q, index, x) && HoleAt(Keys(q), index)
      invariant (index == index0 && q == q0) || OrderedBut(Keys(q), index)
    {
      var parent := Parent(index);
      TsLeqIsOrder(q.event[q.heap[parent]].current, q.event[q.heap[index]].current);
      if HeapLeq(q, parent, index) {
        break;
      }
      Exchanged(q, index, parent, x);
      MovedUp(Keys(q), index);
      q := Exchange(q, index, parent);
      index := parent;
    }
  }

  /** heap_sift_down: event x goes down from its slot until no child is due before it. */
  method SiftDown(q0: Queue, index0: nat, ghost x: nat) returns (q: Queue, index: nat)
    requires Sized(q0) && Indexed(q0, index0, x) && HoleAt(Keys(q0), index0) && OrderAt(Keys(q0), index0)
    ensures Sized(q) && SameEvents(q0, q) && SameQueued(q0, q) && Indexed(q, index, x) && Ordered(Keys(q))
  {
    q, index := q0, index0;
    while 2 * index + 1 < q.size
      invariant Sized(q) && SameEvents(q0, q) && SameQueued(q0, q) && Indexed(q, index, x) && HoleAt(Keys(q), index)
      invariant OrderAt(Keys(q), index)
      decreases q.size - index
    {
      var next := LesserChild(q, index);
      TsLeqIsOrder(q.event[q.heap[index]].current, q.event[q.heap[next]].current);
      if HeapLeq(q, index, next) {
        HoleClosed(Keys(q), index);
        return;
      }
      Exchanged(q, index, next, x);
      MovedDown(Keys(q), index, next);
      q := Exchange(q, index, next);
      index := next;
    }
    HoleClosed(Keys(q), index);
  }

  method LesserChild(q: Queue, index: nat) returns (next: nat)
    requires Sized(q) && 2 * index + 1 < q.size
    ensures index < next < q.size && LeastChild(Keys(q), index, next)
  {
    next := 2 * index + 1;
    if next + 1 < q.size {
      TsLeqIsOrder(q.event[q.heap[next]].current, q.event[q.heap[next + 1]].current);
      if !HeapLeq(q, next, next + 1) {
        next := next + 1;
      }
    }
    Children(index);
  }

  lemma Children(i: nat)
    ensures forall c :: c > 0 && Parent(c) == i ==> c == 2 * i + 1 || c == 2 * i + 2
  {
  }

  /** Between calls: heap order, each queued event knows its slot, and the others know that they have none. */
  ghost predicate Valid(q: Queue) {
    && Sized(q) && Ordered(Keys(q))
    && (forall j :: 0 <= j < q.size ==> q.event[q.heap[j]].index == j)
    && (forall e :: e in q.event ==>
          q.event[e].index == -1 || (0 <= q.event[e].index < q.size && q.heap[q.event[e].index] == e))
  }

  /** The event in slot i is told its slot. */
  method Settle(q0: Queue, i: nat, ghost x: nat) returns (q: Queue)
    requires Sized(q0) && Indexed(q0, i, x) && Ordered(Keys(q0))
    ensures Valid(q) && SameEvents(q0, q) && forall e :: e in q.event && e != x ==> q.event[e] == q0.event[e]
    ensures q.Queued(x)
  {
    var e := q0.heap[i];
    q := q0.(event := q0.event[e := q0.event[e].(index := i)]);
    assert Keys(q) == Keys(q0);
  }

  /** Exactly event x has changed its membership in the queue; deadlines of others are the same. */
  ghost predicate Changed(q0: Queue, q: Queue, x: nat, queued: bool) {
    && q.event.Keys == q0.event.Keys && x in q.event && q.Queued(x) == queued
    && forall e :: e in q0.event && e != x ==>
         e in q.event && q.Queued(e) == q0.Queued(e) && q.event[e] == q0.event[e].(index := q.event[e].index)
  }

  lemma OrderedPlus(ks: seq<int>, k: int)
    requires Ordered(ks)
    ensures HoleAt(ks + [k], |ks|)
  {
    var r := ks + [k];
    forall c | 0 < c < |r| && c != |ks|
      ensures OrderAt(r, c)
    {
      assert OrderAt(ks, c);
    }
  }

  /** What is in order but for one slot, which is in order with its parent, is in order. */
  lemma OrderedAll(ks: seq<int>, i: nat)
    requires i < |ks| && OrderedBut(ks, i) && OrderAt(ks, i)
    ensures Ordered(ks)
  {
    forall c | 0 <= c < |ks|
      ensures OrderAt(ks, c)
    {
    }
  }

  /** All events but x are the same, indices aside. */
  ghost predicate SameBut(q0: Queue, q: Queue, x: nat) {
    && q.event.Keys == q0.event.Keys && x in q.event
    && forall e :: e in q0.event && e != x ==> e in q.event && q.event[e] == q0.event[e].(index := q.event[e].index)
  }

  /** The new event goes behind the last slot. */
  method Append(q0: Queue, e: nat, current: Timespec) returns (q: Queue)
    requires Valid(q0) && e in q0.event && q0.event[e].index == -1 && current.Normal()
    ensures q.size == q0.size + 1 && Sized(q) && Indexed(q, q0.size, e) && HoleAt(Keys(q), q0.size)
    ensures q.event == q0.event[e := q0.event[e].(current := current)]
  {
    var heap := if q0.size < |q0.heap| then q0.heap[q0.size := e] else q0.heap + [e];
    q := Queue(heap, q0.size + 1, q0.event[e := q0.event[e].(current := current)]);
    assert Keys(q) == Keys(q0) + [current.Total()];
    OrderedPlus(Keys(q0), current.Total());
  }

  /** heap_insert: the event is due one period from now. */
  method Insert(q0: Queue, e: nat, now: Timespec) returns (q: Queue)
    requires Valid(q0) && e in q0.event && q0.event[e].index == -1 && now.Normal()
    ensures Valid(q) && Changed(q0, q, e, true) && q.size == q0.size + 1
    ensures q.Key(e) == now.Total() + q0.event[e].period
    ensures q.event[e] == q0.event[e].(index := q.event[e].index, current := q.event[e].current)
  {
    TsAddNormal(now, q0.event[e].period);
    q := Append(q0, e, TsAdd(now, q0.event[e].period));
    q := SiftUpAll(q, q0.size, e);
  }

  /** The sift of heap_insert, and the index at the end. */
  method SiftUpAll(q0: Queue, i: nat, x: nat) returns (q: Queue)
    requires Sized(q0) && Indexed(q0, i, x) && HoleAt(Keys(q0), i) && q0.size == i + 1
    ensures Valid(q) && SameEvents(q0, q) && q.Queued(x)
    ensures forall e :: e in q0.event && e != x ==> (q.Queued(e) <==> q0.Queued(e))
  {
    var index;
    q, index := SiftUp(q0, i, x);
    if index == i {
      HoleClosed(Keys(q), index);
    } else {
      OrderedAll(Keys(q), index);
    }
    q := Settle(q, index, x);
  }

  /** The last event goes into the slot of the one that is taken out. */
  method TakeOut(q0: Queue, e: nat) returns (q: Queue, index: nat, x: nat)
    requires Valid(q0) && e in q0.event && 0 <= q0.event[e].index < q0.size - 1
    ensures q.size == q0.size - 1 && Sized(q) && index == q0.event[e].index && x != e && Indexed(q, index, x)
    ensures HoleAt(Keys(q), index)
    ensures q.event == q0.event[e := q0.event[e].(index := -1)] && q0.Queued(x)
  {
    index := q0.event[e].index;
    var last := q0.size - 1;
    x := q0.heap[last];
    q := Queue(q0.heap[last := e][index := x], last, q0.event[e := q0.event[e].(index := -1)]);
    OrderedPrefix(Keys(q0), last);
    assert Keys(q) == Keys(q0)[..last][index := q.Key(x)];
    OrderedHole(Keys(q0)[..last], index, q.Key(x));
  }

  /** Its part for an event that is in the heap. */
  method RemoveQueued(q0: Queue, e: nat) returns (q: Queue)
    requires Valid(q0) && e in q0.event && q0.event[e].index != -1
    ensures Valid(q) && Changed(q0, q, e, false) && q.event[e] == q0.event[e].(index := -1) && q.size + 1 == q0.size
  {
    if q0.event[e].index < q0.size - 1 {
      var i, x;
      q, i, x := TakeOut(q0, e);
      q := SiftBoth(q, i, x, e);
    } else {
      var last := q0.size - 1;
      q := Queue(q0.heap, last, q0.event[e := q0.event[e].(index := -1)]);
      OrderedPrefix(Keys(q0), last);
      assert Keys(q) == Keys(q0)[..last];
    }
  }

  /** heap_remove. The index of the event is reset first here; nothing reads it in between. For the
      last slot both sifts have nothing to do, and are not called here. */
  method Remove(q0: Queue, e: nat) returns (q: Queue)
    requires Valid(q0) && e in q0.event
    ensures Valid(q) && Changed(q0, q, e, false) && q.event[e] == q0.event[e].(index := -1)
    ensures if q0.Queued(e) then q.size + 1 == q0.size else q == q0
  {
    q := q0;
    if q0.event[e].index != -1 {
      q := RemoveQueued(q0, e);
    }
  }

  method SiftBoth(q0: Queue, i: nat, x: nat, ghost e: nat) returns (q: Queue)
    requires Sized(q0) && Indexed(q0, i, x) && HoleAt(Keys(q0), i) && e in q0.event && e != x && q0.event[e].index == -1
    ensures Valid(q) && SameEvents(q0, q) && q.Queued(x) && q.event[e] == q0.event[e]
    ensures forall y :: y in q0.event && y != x ==> (q.Queued(y) <==> q0.Queued(y))
  {
    var index;
    q, index := SiftUp(q0, i, x);
    q, index := SiftDown(q, index, x);
    q := Settle(q, index, x);
  }

  // ----- A timer pass -----

  /** What fires in one pass: what is due less than this many nanoseconds from now. */
  const SLACK := 10000

  type Period = p: nat | p >= SLACK witness SLACK

  /** What a callback does: any calls of the timer functions. */
  datatype Call = AddTimer(period: Period) | RemoveEvent(e: nat) | ToggleEvent(e: nat, enable: bool)

  /** When a timer fires next. */
  datatype Due = Never | At(time: int)

  /** What a timer is, wherever it is in the heap. */
  datatype Timer = Timer(period: nat, enabled: bool, due: Due)

  type Table = map<nat, Timer>

  function TimerOf(e: Event): Timer {
    Timer(e.period, e.enabled, if e.index >= 0 then At(e.current.Total()) else Never)
  }

  /** What the queue stands for. */
  function View(q: Queue): Table {
    map e | e in q.event :: TimerOf(q.event[e])
  }

  /** What a change of one event means for the timers. */
  lemma ViewChanged(q0: Queue, q: Queue, e: nat, queued: bool)
    requires Changed(q0, q, e, queued) && e in q0.event
    ensures View(q) == View(q0)[e := TimerOf(q.event[e])]
  {
    forall x | x in View(q0) && x != e
      ensures x in View(q) && View(q)[x] == View(q0)[x]
    {
      assert q.Queued(x) == q0.Queued(x);
    }
  }

  lemma ViewInserted(q0: Queue, q: Queue, e: nat, due: int)
    requires Changed(q0, q, e, true) && e in q0.event && q.Key(e) == due
    requires q.event[e] == q0.event[e].(index := q.event[e].index, current := q.event[e].current)
    ensures View(q) == View(q0)[e := TimerOf(q0.event[e]).(due := At(due))]
  {
    ViewChanged(q0, q, e, true);
  }

  lemma ViewRemoved(q0: Queue, q: Queue, e: nat)
    requires Changed(q0, q, e, false) && e in q0.event && q.event[e] == q0.event[e].(index := -1)
    ensures View(q) == View(q0)[e := TimerOf(q0.event[e]).(due := Never)]
  {
    ViewChanged(q0, q, e, false);
  }

  /** A callback, given its event and the timers: its calls, and whether the event is to be requeued.
      The heap is static in poller.c. */
  datatype Action = Action(calls: seq<Call>, requeue: bool)
  type Callback = (nat, Table) -> Action

  // ----- What the calls and a round of the loop are for, with no heap -----

  /** All timers, and the number of the next one. */
  datatype State = State(timers: Table, brk: nat)

  function Started(t: Timer, now: int): Timer { t.(enabled := true, due := At(now + t.period)) }
  function Stopped(t: Timer): Timer { t.(enabled := false, due := Never) }

  /** A call: a timer is added, removed, or switched on or off; switching it to what it is does nothing.
      A timer whose callback runs keeps out of it. */
  function AfterCall(s: State, call: Call, current: nat, now: int): State {
    match call
    case AddTimer(period) => State(s.timers[s.brk := Timer(period, true, At(now + period))], s.brk + 1)
    case RemoveEvent(e) => if e == current then s else s.(timers := s.timers - {e})
    case ToggleEvent(e, enable) =>
      if e !in s.timers || e == current || s.timers[e].enabled == enable then s
      else s.(timers := s.timers[e := if enable then Started(s.timers[e], now) else Stopped(s.timers[e])])
  }

  function AfterCalls(s: State, calls: seq<Call>, current: nat, now: int): State {
    if calls == [] then s
    else AfterCall(AfterCalls(s, calls[..|calls| - 1], current, now), calls[|calls| - 1], current, now)
  }

  /** The timers while the callback of evt runs. */
  function Pending(s: State, evt: nat): State
    requires evt in s.timers
  {
    s.(timers := s.timers[evt := s.timers[evt].(due := Never)])
  }

  function ActionOf(s: State, evt: nat, cb: Callback): Action
    requires evt in s.timers
  {
    cb(evt, Pending(s, evt).timers)
  }

  /** The event goes on if its callback says so and has not removed it. */
  predicate GoesOn(action: Action, evt: nat) {
    action.requeue && RemoveEvent(evt) !in action.calls
  }

  /** A timer fires: its callback runs; then it is due one period from now, or gone. */
  function AfterFire(s: State, evt: nat, now: int, cb: Callback): State {
    if evt !in s.timers then s
    else
      var action := ActionOf(s, evt, cb);
      var r := AfterCalls(Pending(s, evt), action.calls, evt, now);
      r.(timers := if GoesOn(action, evt) then r.timers[evt := s.timers[evt].(due := At(now + s.timers[evt].period))]
                   else r.timers - {evt})
  }

  function AfterFires(s: State, fired: seq<nat>, now: int, cb: Callback): State {
    if fired == [] then s
    else AfterFire(AfterFires(s, fired[..|fired| - 1], now, cb), fired[|fired| - 1], now, cb)
  }

  /** A call that is about timer e. */
  predicate Names(call: Call, e: nat) {
    (call.RemoveEvent? || call.ToggleEvent?) && call.e == e
  }

  /** Calls leave alone what they do not name; what is gone stays gone. */
  lemma {:induction false} OthersStay(s: State, calls: seq<Call>, current: nat, now: int, e: nat)
    requires e < s.brk
    ensures var r := AfterCalls(s, calls, current, now);
      && s.brk <= r.brk && (e !in s.timers ==> e !in r.timers)
      && (e in s.timers && (forall call :: call in calls && Names(call, e) ==> e == current) ==>
            e in r.timers && r.timers[e] == s.timers[e])
    decreases |calls|
  {
    if calls != [] {
      OthersStay(s, calls[..|calls| - 1], current, now, e);
      assert calls[|calls| - 1] in calls;
    }
  }

  /** Numbers are not used again. */
  lemma {:induction false} BelowBrk(s: State, fired: seq<nat>, now: int, cb: Callback)
    requires forall e :: e in s.timers ==> e < s.brk
    ensures var r := AfterFires(s, fired, now, cb); s.brk <= r.brk && forall e :: e in r.timers ==> e < r.brk
    decreases |fired|
  {
    if fired != [] {
      var last := |fired| - 1;
      BelowBrk(s, fired[..last], now, cb);
      var s1 := AfterFires(s, fired[..last], now, cb);
      if fired[last] in s1.timers {
        BelowAfterCalls(Pending(s1, fired[last]), ActionOf(s1, fired[last], cb).calls, fired[last], now);
      }
    }
  }

  lemma {:induction false} BelowAfterCalls(s: State, calls: seq<Call>, current: nat, now: int)
    requires forall e :: e in s.timers ==> e < s.brk
    ensures var r := AfterCalls(s, calls, current, now); s.brk <= r.brk && forall e :: e in r.timers ==> e < r.brk
    decreases |calls|
  {
    if calls != [] {
      BelowAfterCalls(s, calls[..|calls| - 1], current, now);
    }
  }

  /** Event number j that fires has a callback that names timer e. */
  ghost predicate NamedAt(s: State, fired: seq<nat>, j: nat, now: int, cb: Callback, e: nat)
    requires j < |fired|
  {
    var s1 := AfterFires(s, fired[..j], now, cb);
    fired[j] in s1.timers && exists call :: call in ActionOf(s1, fired[j], cb).calls && Names(call, e)
  }

  ghost predicate NamedLater(s: State, fired: seq<nat>, i: nat, now: int, cb: Callback)
    requires i < |fired|
  {
    exists j :: i < j < |fired| && NamedAt(s, fired, j, now, cb, fired[i])
  }

  /** A timer that fires leaves alone those its callback does not name; what is gone stays gone. */
  lemma FireLeaves(s: State, evt: nat, now: int, cb: Callback, e: nat)
    requires e < s.brk && e != evt
    ensures var r := AfterFire(s, evt, now, cb);
      && (e !in s.timers ==> e !in r.timers)
      && (e in s.timers && !(evt in s.timers && exists call :: call in ActionOf(s, evt, cb).calls && Names(call, e)) ==>
            e in r.timers && r.timers[e] == s.timers[e])
  {
    if evt in s.timers {
      OthersStay(Pending(s, evt), ActionOf(s, evt, cb).calls, evt, now, e);
    }
  }

  lemma {:induction false} EarlierBrk(s: State, fired: seq<nat>, i: nat, j: nat, now: int, cb: Callback)
    requires i <= j <= |fired| && forall e :: e in s.timers ==> e < s.brk
    ensures AfterFires(s, fired[..i], now, cb).brk <= AfterFires(s, fired[..j], now, cb).brk
    decreases j
  {
    if i < j {
      EarlierBrk(s, fired, i, j - 1, now, cb);
      var s1 := AfterFires(s, fired[..j - 1], now, cb);
      BelowBrk(s, fired[..j - 1], now, cb);
      BelowBrk(s1, [fired[j - 1]], now, cb);
      assert fired[..j][..j - 1] == fired[..j - 1];
      assert [fired[j - 1]][..0] == [];
    }
  }

  /** A timer whose callback runs stays as it is meanwhile. */
  lemma Current(s: State, calls: seq<Call>, current: nat, now: int)
    requires current in s.timers && current < s.brk
    ensures var r := AfterCalls(s, calls, current, now); current in r.timers && r.timers[current] == s.timers[current]
  {
    OthersStay(s, calls, current, now, current);
  }

  /** What becomes of a timer that fires, whatever fires after it: it is gone for good unless its callback
      lets it go on; if that does, and no later callback names it, it is due one period from now. */
  lemma {:induction false} LastWord(s: State, fired: seq<nat>, i: nat, now: int, cb: Callback)
    requires i < |fired| && fired[i] !in fired[i + 1..] && (forall e :: e in s.timers ==> e < s.brk)
    requires fired[i] in AfterFires(s, fired[..i], now, cb).timers
    ensures var evt, s1, r := fired[i], AfterFires(s, fired[..i], now, cb), AfterFires(s, fired, now, cb);
      && (!GoesOn(ActionOf(s1, evt, cb), evt) ==> evt !in r.timers)
      && (GoesOn(ActionOf(s1, evt, cb), evt) && !NamedLater(s, fired, i, now, cb) ==>
            evt in r.timers && r.timers[evt] == s1.timers[evt].(due := At(now + s1.timers[evt].period)))
    decreases |fired|
  {
    var last, evt := |fired| - 1, fired[i];
    BelowBrk(s, fired[..i], now, cb);
    BelowBrk(s, fired[..last], now, cb);
    if i < last {
      var front := fired[..last];
      assert front[..i] == fired[..i] && front[i + 1..] == fired[i + 1..][..last - i - 1];
      assert fired[last] == fired[i + 1..][last - i - 1];
      LastWord(s, front, i, now, cb);
      if NamedLater(s, front, i, now, cb) {
        var j :| i < j < last && NamedAt(s, front, j, now, cb, evt);
        assert front[..j] == fired[..j];
        assert NamedAt(s, fired, j, now, cb, evt);
      }
      EarlierBrk(s, fired, i, last, now, cb);
      FireLeaves(AfterFires(s, front, now, cb), fired[last], now, cb, evt);
      assert NamedAt(s, fired, last, now, cb, evt) ==> NamedLater(s, fired, i, now, cb);
    } else {
      assert fired[..last] == fired[..i];
    }
  }

  /** Between two callbacks; NONE stands for no current event. All numbers of events are below brk. */
  const NONE: int := -1

  ghost predicate Running(q: Queue, brk: nat, current: int) {
    && Valid(q)
    && forall e :: e in q.event ==>
         && e < brk && q.event[e].period >= SLACK
         && (if e == current then q.event[e].index == -1 && q.event[e].enabled
             else (q.Queued(e) <==> q.event[e].enabled))
  }

  /** init_poller: no events, and n free slots. */
  method Init(n: nat) returns (q: Queue)
    ensures Running(q, 0, -1) && q.size == 0 && |q.heap| == n
  {
    q := Queue(seq(n, _ => 0), 0, map[]);
  }

  ghost predicate IsDue(q: Queue, e: nat, limit: int) {
    q.Queued(e) && q.Key(e) < limit
  }

  /** Nothing has become due; what still is has the same deadline. */
  ghost predicate NothingNew(q0: Queue, q: Queue, limit: int) {
    forall e :: IsDue(q, e, limit) ==> IsDue(q0, e, limit) && q.Key(e) == q0.Key(e)
  }

  /** A new event, not queued yet. */
  function WithNew(q: Queue, e: nat, period: nat): Queue {
    q.(event := q.event[e := Event(Timespec(0, 0), period, -1, true)])
  }

  lemma NewEvent(q: Queue, e: nat, period: nat)
    requires Valid(q) && e !in q.event
    ensures Valid(WithNew(q, e, period))
  {
    assert Keys(WithNew(q, e, period)) == Keys(q);
  }

  /** free_event, for an event that is not queued. */
  function WithoutEvent(q: Queue, e: nat): Queue {
    q.(event := q.event - {e})
  }

  lemma FreedEvent(q: Queue, e: nat)
    requires Valid(q) && e in q.event && q.event[e].index == -1
    ensures Valid(WithoutEvent(q, e))
  {
    assert Keys(WithoutEvent(q, e)) == Keys(q);
  }

  function WithEnabled(q: Queue, e: nat, enabled: bool): Queue
    requires e in q.event
  {
    q.(event := q.event[e := q.event[e].(enabled := enabled)])
  }

  lemma FlaggedEvent(q: Queue, e: nat, enabled: bool)
    requires Valid(q) && e in q.event
    ensures Valid(WithEnabled(q, e, enabled))
  {
    assert Keys(WithEnabled(q, e, enabled)) == Keys(q);
  }

  lemma ViewNew(q0: Queue, e: nat, period: nat)
    requires e !in q0.event
    ensures View(WithNew(q0, e, period)) == View(q0)[e := Timer(period, true, Never)]
  {
  }

  lemma ViewAdded(q0: Queue, q: Queue, e: nat, period: nat, due: int)
    requires e !in q0.event && Changed(WithNew(q0, e, period), q, e, true) && q.Key(e) == due
    requires q.event[e] == WithNew(q0, e, period).event[e].(index := q.event[e].index, current := q.event[e].current)
    ensures View(q) == View(q0)[e := Timer(period, true, At(due))] && e !in View(q0)
  {
    ViewInserted(WithNew(q0, e, period), q, e, due);
    ViewNew(q0, e, period);
  }

  /** poller_add_timer. */
  method Add(q0: Queue, period: Period, now: Timespec, brk: nat, ghost current: int) returns (q: Queue)
    requires Running(q0, brk, current) && now.Normal() && current < brk
    ensures Running(q, brk + 1, current) && NothingNew(q0, q, now.Total() + SLACK)
    ensures current >= 0 && current in q0.event ==> current in q.event
    ensures View(q) == View(q0)[brk := Timer(period, true, At(now.Total() + period))] && brk !in View(q0)
  {
    NewEvent(q0, brk, period);
    q := Insert(WithNew(q0, brk, period), brk, now);
    ViewAdded(q0, q, brk, period, now.Total() + period);
  }

  lemma ViewDropped(q0: Queue, q: Queue, e: nat)
    requires Changed(q0, q, e, false) && e in q0.event && q.event[e] == q0.event[e].(index := -1)
    ensures View(WithoutEvent(q, e)) == View(q0) - {e}
  {
    ViewRemoved(q0, q, e);
    assert View(WithoutEvent(q, e)) == View(q) - {e};
  }

  /** poller_remove, for another event than the current one. */
  method RemoveTimer(q0: Queue, e: nat, ghost brk: nat, ghost current: int, ghost limit: int) returns (q: Queue)
    requires Running(q0, brk, current) && e in q0.event && e != current
    ensures Running(q, brk, current) && NothingNew(q0, q, limit)
    ensures current >= 0 && current in q0.event ==> current in q.event
    ensures View(q) == View(q0) - {e}
  {
    q := Remove(q0, e);
    ghost var q1 := q;
    FreedEvent(q, e);
    q := WithoutEvent(q, e);
    ViewDropped(q0, q1, e);
  }

  /** The timers once one of them is switched on or off. */
  function Switched(q: Queue, e: nat, enable: bool, now: Timespec): Table
    requires e in q.event
  {
    var t := View(q)[e];
    View(q)[e := if enable then Started(t, now.Total()) else Stopped(t)]
  }

  lemma SwitchedIs(q0: Queue, q1: Queue, q: Queue, e: nat, enable: bool, now: Timespec)
    requires e in q0.event && q1 == WithEnabled(q0, e, enable) && Changed(q1, q, e, enable)
    requires enable ==> q.Key(e) == now.Total() + q1.event[e].period
    requires q.event[e] == q1.event[e].(index := q.event[e].index, current := q.event[e].current)
    ensures View(q) == Switched(q0, e, enable, now)
  {
    ViewChanged(q1, q, e, enable);
    assert View(q1)[e := TimerOf(q.event[e])] == View(q0)[e := TimerOf(q.event[e])];
  }

  lemma SwitchedRuns(q0: Queue, q1: Queue, q: Queue, e: nat, enable: bool, now: Timespec, brk: nat, current: int)
    requires Running(q0, brk, current) && e in q0.event && e != current && Valid(q)
    requires q1 == WithEnabled(q0, e, enable) && Changed(q1, q, e, enable)
    requires enable ==> q.Key(e) == now.Total() + q1.event[e].period
    requires q.event[e] == q1.event[e].(index := q.event[e].index, current := q.event[e].current)
    ensures Running(q, brk, current) && NothingNew(q0, q, now.Total() + SLACK)
  {
    forall x | x in q.event && x != e
      ensures q.event[x] == q0.event[x].(index := q.event[x].index) && q.Queued(x) == q0.Queued(x)
    {
      assert q.event[x] == q1.event[x].(index := q.event[x].index) && q.Queued(x) == q1.Queued(x);
    }
  }

  /** poller_toggle, for another event than the current one. */
  method Toggle(q0: Queue, e: nat, enable: bool, now: Timespec, ghost brk: nat, ghost current: int) returns (q: Queue)
    requires Running(q0, brk, current) && e in q0.event && e != current && now.Normal()
    ensures Running(q, brk, current) && NothingNew(q0, q, now.Total() + SLACK)
    ensures q.Queued(e) <==> enable
    ensures current >= 0 && current in q0.event ==> current in q.event
    ensures View(q) == if q0.event[e].enabled == enable then View(q0) else Switched(q0, e, enable, now)
  {
    q := q0;
    if q.event[e].enabled == enable {
      return;
    }
    FlaggedEvent(q, e, enable);
    q := WithEnabled(q, e, enable);
    ghost var q1 := q;
    if enable {
      q := Insert(q, e, now);
    } else {
      q := Remove(q, e);
    }
    SwitchedIs(q0, q1, q, e, enable, now);
    SwitchedRuns(q0, q1, q, e, enable, now, brk, current);
  }

  lemma NothingNewTwice(q0: Queue, q1: Queue, q: Queue, limit: int)
    requires NothingNew(q0, q1, limit) && NothingNew(q1, q, limit)
    ensures NothingNew(q0, q, limit)
  {
  }

  /** One call of a callback. A call that names no event, or toggles the callback's own, is not made;
      removing its own event is put off. */
  method Perform(q0: Queue, call: Call, now: Timespec, brk0: nat, current: nat)
    returns (q: Queue, brk: nat, deleteCurrent: bool)
    requires Running(q0, brk0, current) && now.Normal() && current in q0.event
    ensures brk >= brk0 && Running(q, brk, current) && NothingNew(q0, q, now.Total() + SLACK) && current in q.event
    ensures State(View(q), brk) == AfterCall(State(View(q0), brk0), call, current, now.Total())
    ensures deleteCurrent <==> call == RemoveEvent(current)
  {
    q, brk, deleteCurrent := q0, brk0, false;
    match call
    case AddTimer(period) =>
      q := Add(q, period, now, brk, current);
      brk := brk + 1;
    case RemoveEvent(e) =>
      if e == current {
        deleteCurrent := true;
      } else if e in q.event {
        q := RemoveTimer(q, e, brk, current, now.Total() + SLACK);
      }
    case ToggleEvent(e, enable) =>
      if e in q.event && e != current {
        q := Toggle(q, e, enable, now, brk, current);
      }
  }

  /** All calls of a callback. */
  method PerformAll(q0: Queue, calls: seq<Call>, now: Timespec, brk0: nat, current: nat)
    returns (q: Queue, brk: nat, deleteCurrent: bool)
    requires Running(q0, brk0, current) && now.Normal() && current in q0.event
    ensures brk >= brk0 && Running(q, brk, current) && NothingNew(q0, q, now.Total() + SLACK) && current in q.event
    ensures State(View(q), brk) == AfterCalls(State(View(q0), brk0), calls, current, now.Total())
    ensures deleteCurrent <==> RemoveEvent(current) in calls
  {
    q, brk, deleteCurrent := q0, brk0, false;
    for i := 0 to |calls|
      invariant brk >= brk0 && Running(q, brk, current) && NothingNew(q0, q, now.Total() + SLACK) && current in q.event
      invariant State(View(q), brk) == AfterCalls(State(View(q0), brk0), calls[..i], current, now.Total())
      invariant deleteCurrent <==> RemoveEvent(current) in calls[..i]
    {
      ghost var q1 := q;
      var deleted;
      q, brk, deleted := Perform(q, calls[i], now, brk, current);
      NothingNewTwice(q0, q1, q, now.Total() + SLACK);
      deleteCurrent := deleteCurrent || deleted;
      assert calls[..i + 1][..i] == calls[..i] && calls[..i + 1] == calls[..i] + [calls[i]];
    }
    assert calls[..|calls|] == calls;
  }

  /** The event whose callback has run is requeued or freed. */
  method Dispose(q0: Queue, now: Timespec, ghost brk: nat, e: nat, requeue: bool) returns (q: Queue)
    requires Running(q0, brk, e) && now.Normal() && e in q0.event
    ensures NothingNew(q0, q, now.Total() + SLACK) && !IsDue(q, e, now.Total() + SLACK)
    ensures Running(q, brk, NONE)
    ensures View(q) ==
      if requeue then View(q0)[e := Timer(q0.event[e].period, true, At(now.Total() + q0.event[e].period))]
      else View(q0) - {e}
  {
    if requeue {
      q := Insert(q0, e, now);
      ViewInserted(q0, q, e, now.Total() + q0.event[e].period);
    } else {
      FreedEvent(q0, e);
      q := WithoutEvent(q0, e);
    }
  }

  /** Nothing is due before the first event. */
  lemma FirstIsLeast(q: Queue)
    requires Valid(q) && q.size > 0
    ensures forall e :: q.Queued(e) ==> q.Key(q.heap[0]) <= q.Key(e)
  {
    forall e | q.Queued(e)
      ensures q.Key(q.heap[0]) <= q.Key(e)
    {
      RootLeast(Keys(q), q.event[e].index);
      assert Keys(q)[0] == q.Key(q.heap[0]) && Keys(q)[q.event[e].index] == q.Key(e);
    }
  }

  /** Before the calls, after them, and at the end. */
  lemma FiredIs(s: State, evt: nat, now: int, cb: Callback, s2: State, timers: Table)
    requires evt in s.timers && evt < s.brk && s.timers[evt].enabled
    requires s2 == AfterCalls(Pending(s, evt), ActionOf(s, evt, cb).calls, evt, now) && evt in s2.timers
    requires var period := s2.timers[evt].period;
      timers == if GoesOn(ActionOf(s, evt, cb), evt) then s2.timers[evt := Timer(period, true, At(now + period))]
                else s2.timers - {evt}
    ensures State(timers, s2.brk) == AfterFire(s, evt, now, cb)
  {
    Current(Pending(s, evt), ActionOf(s, evt, cb).calls, evt, now);
  }

  /** An event is taken out and its callback runs. */
  method RunCallback(q0: Queue, now: Timespec, brk0: nat, cb: Callback, evt: nat)
    returns (q: Queue, brk: nat, requeue: bool)
    requires Running(q0, brk0, NONE) && now.Normal() && q0.Queued(evt)
    ensures Running(q, brk, evt) && NothingNew(q0, q, now.Total() + SLACK) && evt in q.event
    ensures var s := State(View(q0), brk0); var action := ActionOf(s, evt, cb);
      && State(View(q), brk) == AfterCalls(Pending(s, evt), action.calls, evt, now.Total())
      && (requeue <==> GoesOn(action, evt))
  {
    q := Remove(q0, evt);
    ghost var q1 := q;
    ViewRemoved(q0, q, evt);
    var action := cb(evt, View(q));
    var deleteCurrent;
    q, brk, deleteCurrent := PerformAll(q, action.calls, now, brk0, evt);
    NothingNewTwice(q0, q1, q, now.Total() + SLACK);
    requeue := !deleteCurrent && action.requeue;
  }

  /** Then it is requeued or freed. */
  method FireEvent(q0: Queue, now: Timespec, brk0: nat, cb: Callback, evt: nat) returns (q: Queue, brk: nat)
    requires Running(q0, brk0, NONE) && now.Normal() && q0.Queued(evt)
    ensures Running(q, brk, NONE) && NothingNew(q0, q, now.Total() + SLACK) && !IsDue(q, evt, now.Total() + SLACK)
    ensures State(View(q), brk) == AfterFire(State(View(q0), brk0), evt, now.Total(), cb)
  {
    var requeue;
    q, brk, requeue := RunCallback(q0, now, brk0, cb, evt);
    ghost var q2 := q;
    q := Dispose(q, now, brk, evt, requeue);
    NothingNewTwice(q0, q2, q, now.Total() + SLACK);
    assert View(q2)[evt].period == q2.event[evt].period;
    FiredIs(State(View(q0), brk0), evt, now.Total(), cb, State(View(q2), brk), View(q));
  }

  /** One round of the timer loop in poller_run, for the first event. It fires before everything else
      that is due, and is not due again. */
  method Fire(q0: Queue, now: Timespec, brk0: nat, cb: Callback) returns (q: Queue, brk: nat, ghost evt: nat)
    requires Running(q0, brk0, NONE) && now.Normal() && q0.size > 0
    ensures Running(q, brk, NONE) && evt == q0.heap[0] && evt in q0.event
    ensures NothingNew(q0, q, now.Total() + SLACK) && !IsDue(q, evt, now.Total() + SLACK)
    ensures forall e :: q0.Queued(e) ==> q0.Key(evt) <= q0.Key(e)
    ensures State(View(q), brk) == AfterFire(State(View(q0), brk0), evt, now.Total(), cb)
  {
    FirstIsLeast(q0);
    evt := q0.heap[0];
    q, brk := FireEvent(q0, now, brk0, cb, q0.heap[0]);
  }

  // ----- The whole pass -----

  ghost function DueBy(q: Queue, limit: int): (r: set<nat>) {
    set e | e in q.event && IsDue(q, e, limit)
  }

  /** What has fired so far: distinct events that were due at the start, in the order of their
      deadlines, none of which is due any more, and none of which was to fire after one that is. */
  ghost predicate FiredInOrder(q0: Queue, q: Queue, fired: seq<nat>, limit: int) {
    && NothingNew(q0, q, limit) && Distinct(fired)
    && (forall i :: 0 <= i < |fired| ==> IsDue(q0, fired[i], limit) && !IsDue(q, fired[i], limit))
    && (forall i, j :: 0 <= i < j < |fired| ==> q0.Key(fired[i]) <= q0.Key(fired[j]))
    && (forall i, e :: 0 <= i < |fired| && IsDue(q, e, limit) ==> q0.Key(fired[i]) <= q.Key(e))
  }

  lemma OneMoreFired(q0: Queue, q1: Queue, q: Queue, fired: seq<nat>, evt: nat, limit: int)
    requires FiredInOrder(q0, q1, fired, limit) && IsDue(q1, evt, limit) && NothingNew(q1, q, limit)
    requires !IsDue(q, evt, limit)
    requires forall e :: q1.Queued(e) ==> q1.Key(evt) <= q1.Key(e)
    ensures FiredInOrder(q0, q, fired + [evt], limit)
  {
    var more := fired + [evt];
    forall i, j | 0 <= i < j < |more|
      ensures Differ(more, i, j)
    {
      if j < |fired| {
        assert Differ(fired, i, j);
      }
    }
  }

  /** The timer loop of poller_run, at time now. It terminates whatever the callbacks do; every event
      fires at most once, in the order of deadlines, and only if it was due at the start; at the end
      nothing is due. */
  method TimerPass(q0: Queue, now: Timespec, brk0: nat, cb: Callback)
    returns (q: Queue, brk: nat, ghost fired: seq<nat>)
    requires Running(q0, brk0, NONE) && now.Normal()
    ensures Running(q, brk, NONE) && FiredInOrder(q0, q, fired, now.Total() + 10_000)
    ensures DueBy(q, now.Total() + 10_000) == {}
    ensures State(View(q), brk) == AfterFires(State(View(q0), brk0), fired, now.Total(), cb)
  {
    var now2 := TsAdd(now, SLACK);
    TsAddNormal(now, SLACK);
    ghost var limit := now.Total() + SLACK;
    q, brk, fired := q0, brk0, [];
    while q.size > 0
      invariant Running(q, brk, NONE) && FiredInOrder(q0, q, fired, limit)
      invariant State(View(q), brk) == AfterFires(State(View(q0), brk0), fired, now.Total(), cb)
      decreases |DueBy(q, limit)|
    {
      TsLeqIsOrder(now2, q.event[q.heap[0]].current);
      if TsLeq(now2, q.event[q.heap[0]].current) {
        NothingDue(q, limit);
        return;
      }
      ghost var q1, evt := q, q.heap[0];
      assert q1.event[evt].index == 0;
      q, brk, evt := Fire(q, now, brk, cb);
      OneMoreFired(q0, q1, q, fired, evt, limit);
      assert (fired + [evt])[..|fired|] == fired;
      fired := fired + [evt];
      FewerDue(q1, q, evt, limit);
    }
  }

  lemma NothingDue(q: Queue, limit: int)
    requires Valid(q) && q.size > 0 && limit <= q.Key(q.heap[0])
    ensures DueBy(q, limit) == {}
  {
    FirstIsLeast(q);
  }

  lemma FewerDue(q1: Queue, q: Queue, evt: nat, limit: int)
    requires NothingNew(q1, q, limit) && IsDue(q1, evt, limit) && !IsDue(q, evt, limit)
    ensures |DueBy(q, limit)| < |DueBy(q1, limit)|
  {
    assert DueBy(q, limit) <= DueBy(q1, limit) - {evt};
    SubsetSize(DueBy(q, limit), DueBy(q1, limit) - {evt});
    assert |DueBy(q1, limit) - {evt}| == |DueBy(q1, limit)| - 1;
  }
}
