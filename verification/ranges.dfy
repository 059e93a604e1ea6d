/** Ranges of lines put into the list or taken off its end (create_lines_range and
    free_line_list_until in screen.c, free_line in line.c). */
module Ranges {
  import opened Cells
  import opened Lines
  import opened Sequences
  import opened Stores
  import Concats
  import Handles

  /** Line i is linked to its neighbours, except where the list is cut: a cut at n opens it in
      front of line n. */
  ghost predicate LinkedButAt(line: Heap, order: seq<Ptr>, cuts: set<nat>, i: nat)
    requires i < |order|
  {
    && order[i] in line
    && line[order[i]].prev == (if i == 0 || i in cuts then NULL else order[i - 1])
    && line[order[i]].next == (if i == |order| - 1 || i + 1 in cuts then NULL else order[i + 1])
  }

  ghost predicate LinksBut(line: Heap, order: seq<Ptr>, cuts: set<nat>) {
    && NULL !in order && Distinct(order) && Covers(line, order)
    && forall i {:trigger LinkedButAt(line, order, cuts, i)} :: 0 <= i < |order| ==> LinkedButAt(line, order, cuts, i)
  }

  /** The pointers on the two sides of a cut. */
  predicate Sides(order: seq<Ptr>, cut: nat, prev: Ptr, next: Ptr) {
    && cut <= |order|
    && prev == (if cut == 0 then NULL else order[cut - 1])
    && next == (if cut == |order| then NULL else order[cut])
  }

  /** The same document, reached through other links. */
  ghost predicate SameText(line0: Heap, line: Heap, order: seq<Ptr>) {
    && Covers(line0, order) && Covers(line, order)
    && Doc(line, order) == Doc(line0, order) && Labels(line, order) == Labels(line0, order)
  }

  /** Cuts at either end do not show. */
  lemma Uncut(line: Heap, order: seq<Ptr>, cuts: set<nat>)
    requires forall n :: n in cuts ==> n == 0 || n >= |order|
    ensures LinksOk(line, order) <==> LinksBut(line, order, cuts)
  {
    if LinksOk(line, order) {
      forall i | 0 <= i < |order|
        ensures LinkedButAt(line, order, cuts, i)
      {
        assert LinkedAt(line, order, i);
      }
    }
    if LinksBut(line, order, cuts) {
      forall i | 0 <= i < |order|
        ensures LinkedAt(line, order, i)
      {
        assert LinkedButAt(line, order, cuts, i);
      }
    }
  }

  /** detach_next_line cuts the list. */
  lemma Opened(line: Heap, order: seq<Ptr>, cuts: set<nat>, cut: nat)
    requires LinksBut(line, order, cuts) && 0 < cut <= |order| && order[cut - 1] in line
    requires var next := line[order[cut - 1]].next; next != NULL ==> next in line
    ensures LinksBut(Concats.DetachNext(line, order[cut - 1]), order, cuts + {cut})
    ensures SameText(line, Concats.DetachNext(line, order[cut - 1]), order)
  {
    var new_ := Concats.DetachNext(line, order[cut - 1]);
    OnlyAt(order, cut - 1);
    if cut < |order| {
      OnlyAt(order, cut);
    }
    assert LinkedButAt(line, order, cuts, cut - 1);
    forall i | 0 <= i < |order|
      ensures LinkedButAt(new_, order, cuts + {cut}, i)
    {
      assert LinkedButAt(line, order, cuts, i);
    }
  }

  /** detach_prev_line cuts the list, too. */
  lemma OpenedBefore(line: Heap, order: seq<Ptr>, cuts: set<nat>, cut: nat)
    requires LinksBut(line, order, cuts) && cut < |order| && order[cut] in line
    requires line[order[cut]].prev != NULL ==> line[order[cut]].prev in line
    ensures LinksBut(Concats.DetachPrev(line, order[cut]), order, cuts + {cut})
    ensures SameText(line, Concats.DetachPrev(line, order[cut]), order)
  {
    var new_ := Concats.DetachPrev(line, order[cut]);
    OnlyAt(order, cut);
    if cut > 0 {
      OnlyAt(order, cut - 1);
    }
    assert LinkedButAt(line, order, cuts, cut);
    forall i | 0 <= i < |order|
      ensures LinkedButAt(new_, order, cuts + {cut}, i)
    {
      assert LinkedButAt(line, order, cuts, i);
    }
  }

  /** attach_next_line closes a cut. */
  lemma Closed(line: Heap, order: seq<Ptr>, cuts: set<nat>, cut: nat, next: Ptr)
    requires LinksBut(line, order, cuts) && 0 < cut <= |order| && cut in cuts && order[cut - 1] in line
    requires next == (if cut == |order| then NULL else order[cut]) && (next != NULL ==> next in line)
    ensures LinksBut(Concats.AttachNext(line, order[cut - 1], next), order, cuts - {cut})
    ensures SameText(line, Concats.AttachNext(line, order[cut - 1], next), order)
  {
    var new_ := Concats.AttachNext(line, order[cut - 1], next);
    OnlyAt(order, cut - 1);
    if cut < |order| {
      OnlyAt(order, cut);
    }
    forall i | 0 <= i < |order|
      ensures LinkedButAt(new_, order, cuts - {cut}, i)
    {
      assert LinkedButAt(line, order, cuts, i);
    }
  }

  /** create_line and attach_prev_line: a fresh line behind prev. */
  function AttachNew(line: Heap, prev: Ptr, p: Ptr, rec: LineRec): Heap
    requires prev != NULL ==> prev in line
  {
    var l1 := if prev == NULL then line else line[prev := line[prev].(next := p)];
    l1[p := rec.(prev := prev, next := NULL)]
  }

  lemma AttachedAt(line: Heap, order: seq<Ptr>, cut: nat, prev: Ptr, p: Ptr, rec: LineRec, i: nat)
    requires LinksBut(line, order, {cut}) && cut <= |order| && p !in order && p != NULL && i <= |order|
    requires prev == (if cut == 0 then NULL else order[cut - 1]) && (prev != NULL ==> prev in line)
    ensures var new_, order_ := AttachNew(line, prev, p, rec), Splice(order, cut, [p]);
      && LinkedButAt(new_, order_, {cut + 1}, i)
      && new_[order_[i]].para == Splice(Doc(line, order), cut, [rec.para])[i]
      && new_[order_[i]].seqno == Splice(Labels(line, order), cut, [rec.seqno])[i]
  {
    if cut > 0 {
      OnlyAt(order, cut - 1);
    }
    if i != cut {
      assert LinkedButAt(line, order, {cut}, if i < cut then i else i - 1);
    }
  }

  lemma Attached(line: Heap, order: seq<Ptr>, cut: nat, prev: Ptr, p: Ptr, rec: LineRec)
    requires LinksBut(line, order, {cut}) && cut <= |order| && p !in order && p != NULL
    requires prev == (if cut == 0 then NULL else order[cut - 1]) && (prev != NULL ==> prev in line)
    ensures var new_, order_ := AttachNew(line, prev, p, rec), Splice(order, cut, [p]);
      && LinksBut(new_, order_, {cut + 1})
      && Doc(new_, order_) == Splice(Doc(line, order), cut, [rec.para])
      && Labels(new_, order_) == Splice(Labels(line, order), cut, [rec.seqno])
  {
    var new_, order_ := AttachNew(line, prev, p, rec), Splice(order, cut, [p]);
    assert Distinct([p]);
    DistinctSplice(order, cut, [p]);
    forall i | 0 <= i < |order_|
      ensures LinkedButAt(new_, order_, {cut + 1}, i)
      ensures new_[order_[i]].para == Splice(Doc(line, order), cut, [rec.para])[i]
      ensures new_[order_[i]].seqno == Splice(Labels(line, order), cut, [rec.seqno])[i]
    {
      AttachedAt(line, order, cut, prev, p, rec, i);
    }
  }

  // ----- create_lines_range -----

  /** The addresses and labels a run of new lines gets. */
  ghost function NewLines(brk: Ptr, n: nat): (r: seq<Ptr>)
    ensures |r| == n
  {
    seq(n, i requires 0 <= i < n => brk + i)
  }

  ghost function NewLabels(nextSeqno: nat, n: nat): (r: seq<nat>)
    ensures |r| == n
  {
    seq(n, i requires 0 <= i < n => nextSeqno + 16 * i)
  }

  function Blank(attr: Attr): Para { Para([], attr, false) }

  ghost function Blanks(attr: Attr, n: nat): (r: seq<Para>)
    ensures |r| == n && forall i :: 0 <= i < n ==> r[i] == Para([], attr, false)
  {
    var r := seq(n, i requires 0 <= i < n => Blank(attr));
    assert forall i :: 0 <= i < n ==> r[i] == Blank(attr);
    r
  }

  /** Behind a spliced-in run lies its last element. */
  lemma SpliceEnds<T>(s: seq<T>, k: nat, xs: seq<T>)
    requires k <= |s| && xs != []
    ensures Splice(s, k, xs)[k + |xs| - 1] == xs[|xs| - 1]
    ensures k < |s| ==> Splice(s, k, xs)[k + |xs|] == s[k]
  {
  }

  lemma NotYetUsed(order: seq<Ptr>, cut: nat, brk: Ptr, n: nat)
    requires cut <= |order| && forall p :: p in order ==> p < brk
    ensures brk + n !in Splice(order, cut, NewLines(brk, n))
  {
    InSplice(order, cut, NewLines(brk, n));
  }

  /** The list of lines after n of the new ones were put in. */
  ghost predicate SplicedIn(line0: Heap, line: Heap, order: seq<Ptr>, cut: nat, brk: Ptr, nextSeqno: nat, attr: Attr,
                            n: nat)
    requires Covers(line0, order) && cut <= |order|
  {
    var order_ := Splice(order, cut, NewLines(brk, n));
    && Covers(line, order_)
    && Doc(line, order_) == Splice(Doc(line0, order), cut, Blanks(attr, n))
    && Labels(line, order_) == Splice(Labels(line0, order), cut, NewLabels(nextSeqno, n))
  }

  /** One more line behind prev. */
  lemma OneMore(line0: Heap, line: Heap, order: seq<Ptr>, cut: nat, brk: Ptr, nextSeqno: nat, attr: Attr, n: nat,
                prev: Ptr)
    requires Covers(line0, order) && cut <= |order| && (forall p :: p in order ==> p < brk) && NULL < brk
    requires SplicedIn(line0, line, order, cut, brk, nextSeqno, attr, n)
    requires LinksBut(line, Splice(order, cut, NewLines(brk, n)), {cut + n})
    requires prev == (if cut + n == 0 then NULL else Splice(order, cut, NewLines(brk, n))[cut + n - 1])
    requires prev != NULL ==> prev in line
    ensures var new_ := AttachNew(line, prev, brk + n, LineRec(NULL, NULL, nextSeqno + 16 * n, Blank(attr)));
      && SplicedIn(line0, new_, order, cut, brk, nextSeqno, attr, n + 1)
      && LinksBut(new_, Splice(order, cut, NewLines(brk, n + 1)), {cut + n + 1})
  {
    var p: Ptr, seqno: nat := brk + n, nextSeqno + 16 * n;
    NotYetUsed(order, cut, brk, n);
    Attached(line, Splice(order, cut, NewLines(brk, n)), cut + n, prev, p, LineRec(NULL, NULL, seqno, Blank(attr)));
    RunGrows(order, Doc(line0, order), Labels(line0, order), cut, brk, nextSeqno, attr, n, p, seqno);
  }

  lemma RunGrows(order: seq<Ptr>, doc: seq<Para>, labels: seq<nat>, cut: nat, brk: Ptr, nextSeqno: nat, attr: Attr,
                 n: nat, p: Ptr, seqno: nat)
    requires cut <= |order| == |doc| == |labels| && p == brk + n && seqno == nextSeqno + 16 * n
    ensures Splice(Splice(order, cut, NewLines(brk, n)), cut + n, [p]) == Splice(order, cut, NewLines(brk, n + 1))
    ensures Splice(Splice(doc, cut, Blanks(attr, n)), cut + n, [Blank(attr)]) == Splice(doc, cut, Blanks(attr, n + 1))
    ensures Splice(Splice(labels, cut, NewLabels(nextSeqno, n)), cut + n, [seqno]) ==
            Splice(labels, cut, NewLabels(nextSeqno, n + 1))
  {
  }

  /** The list part of create_lines_range: count blank lines go in at the cut and close the list. */
  method ChainLines(line0: Heap, brk: Ptr, nextSeqno: nat, prev: Ptr, next: Ptr, attr: Attr, count: nat,
                    ghost order: seq<Ptr>, ghost cut: nat)
    returns (line: Heap)
    requires LinksBut(line0, order, {cut}) && Sides(order, cut, prev, next) && count > 0
    requires NULL < brk && (forall p :: p in order ==> p < brk)
    ensures LinksOk(line, Splice(order, cut, NewLines(brk, count)))
    ensures SplicedIn(line0, line, order, cut, brk, nextSeqno, attr, count)
  {
    line := line0;
    var last, i := prev, 0;
    assert Splice(order, cut, []) == order && Splice(Doc(line, order), cut, []) == Doc(line, order);
    assert Splice(Labels(line, order), cut, []) == Labels(line, order);
    assert NewLines(brk, 0) == [] && Blanks(attr, 0) == [] && NewLabels(nextSeqno, 0) == [];
    assert cut > 0 ==> order[cut - 1] in line;
    while i < count
      invariant i <= count && LinksBut(line, Splice(order, cut, NewLines(brk, i)), {cut + i})
      invariant SplicedIn(line0, line, order, cut, brk, nextSeqno, attr, i)
      invariant last == (if i == 0 then prev else brk + i - 1) && (last != NULL ==> last in line)
    {
      OneMore(line0, line, order, cut, brk, nextSeqno, attr, i, last);
      line := AttachNew(line, last, brk + i, LineRec(NULL, NULL, nextSeqno + SEQNO_INC * i, Blank(attr)));
      last := brk + i;
      i := i + 1;
    }
    line := CloseRange(line0, line, brk, nextSeqno, attr, count, last, next, order, cut);
  }

  /** The new lines are linked to what follows. */
  method CloseRange(ghost line0: Heap, line1: Heap, ghost brk: Ptr, ghost nextSeqno: nat, ghost attr: Attr,
                    ghost count: nat, last: Ptr, next: Ptr, ghost order: seq<Ptr>, ghost cut: nat)
    returns (line: Heap)
    requires Covers(line0, order) && cut <= |order| && count > 0 && last == brk + count - 1 && last in line1
    requires next == if cut == |order| then NULL else order[cut]
    requires LinksBut(line1, Splice(order, cut, NewLines(brk, count)), {cut + count})
    requires SplicedIn(line0, line1, order, cut, brk, nextSeqno, attr, count)
    ensures LinksOk(line, Splice(order, cut, NewLines(brk, count)))
    ensures SplicedIn(line0, line, order, cut, brk, nextSeqno, attr, count)
  {
    ghost var order_ := Splice(order, cut, NewLines(brk, count));
    SpliceEnds(order, cut, NewLines(brk, count));
    assert order_[cut + count - 1] == last;
    if cut < |order| {
      assert order_[cut + count] == next && order_[cut + count] in line1;
    }
    Closed(line1, order_, {cut + count}, cut + count, next);
    Uncut(Concats.AttachNext(line1, last, next), order_, {cut + count} - {cut + count});
    line := Concats.AttachNext(line1, last, next);
  }

  /** create_lines_range: count blank lines go in where the list is open, and close it. They are
      shown in the span slots from y on, as far as there are slots. */
  method CreateLinesRange(s0: Store, prev: Ptr, next: Ptr, y: nat, attr: Attr, count: nat, ghost order: seq<Ptr>,
                          ghost cut: nat)
    returns (s: Store)
    requires LinksBut(s0.line, order, {cut}) && Sides(order, cut, prev, next)
    requires NULL < s0.brk && (forall p :: p in order ==> p < s0.brk)
    requires count > 0 && y < |s0.spans|
    ensures LinksOk(s.line, Splice(order, cut, NewLines(s0.brk, count)))
    ensures SplicedIn(s0.line, s.line, order, cut, s0.brk, s0.nextSeqno, attr, count)
    ensures s.brk == s0.brk + count && s.nextSeqno == s0.nextSeqno + 16 * count && s.hs == s0.hs
    ensures |s.spans| == |s0.spans|
    ensures forall j :: 0 <= j < |s.spans| ==>
      s.spans[j] == if y <= j < y + count then Span(s0.brk + (j - y), 0, 0) else s0.spans[j]
  {
    var line := ChainLines(s0.line, s0.brk, s0.nextSeqno, prev, next, attr, count, order, cut);
    var spans, i := s0.spans, 0;
    while i < count && y + i < |spans|
      invariant i <= count && |spans| == |s0.spans|
      invariant forall j :: 0 <= j < |spans| ==>
        spans[j] == if y <= j < y + i then Span(s0.brk + (j - y), 0, 0) else s0.spans[j]
    {
      spans := spans[y + i := Span(s0.brk + i, 0, 0)];
      i := i + 1;
    }
    s := s0.(line := line, spans := spans, brk := s0.brk + count, nextSeqno := s0.nextSeqno + SEQNO_INC * count);
  }

  /** The new lines have no handles. */
  ghost function WithNewLines(lists: map<Ptr, seq<Ptr>>, brk: Ptr, n: nat): (r: map<Ptr, seq<Ptr>>)
    ensures forall p: Ptr :: p in r <==> p in lists || brk <= p < brk + n
    ensures forall p: Ptr :: p in lists && p < brk ==> r[p] == lists[p]
  {
    if n == 0 then lists else WithNewLines(lists, brk, n - 1)[brk + n - 1 := []]
  }

  lemma NoHandlesStep(hs: Handles.Memory, lists: map<Ptr, seq<Ptr>>, brk: Ptr, n: nat)
    requires (forall p :: p in lists ==> p < brk) && Handles.Ok(hs, WithNewLines(lists, brk, n))
    ensures Handles.Ok(hs.SetFirst(brk + n, Handles.NULL), WithNewLines(lists, brk, n + 1))
  {
    Handles.NewLine(hs, WithNewLines(lists, brk, n), brk + n);
  }

  method NoHandles(hs0: Handles.Memory, brk: Ptr, count: nat, ghost lists: map<Ptr, seq<Ptr>>)
    returns (hs: Handles.Memory)
    requires Handles.Ok(hs0, lists) && forall p :: p in lists ==> p < brk
    ensures hs.node == hs0.node && Handles.Ok(hs, WithNewLines(lists, brk, count))
  {
    hs := hs0;
    var i := 0;
    while i < count
      invariant i <= count && hs.node == hs0.node && Handles.Ok(hs, WithNewLines(lists, brk, i))
    {
      NoHandlesStep(hs, lists, brk, i);
      hs := hs.SetFirst(brk + i, Handles.NULL);
      i := i + 1;
    }
  }

  lemma NewLabelsFit(labels: seq<nat>, next0: nat, cut: nat, n: nat)
    requires Increasing(labels, next0) && cut <= |labels|
    ensures IncreasingTo(Splice(labels, cut, NewLabels(next0, n)), cut + n, next0 + 16 * n)
  {
    var r := Splice(labels, cut, NewLabels(next0, n));
    forall i, j | 0 <= i < j < cut + n
      ensures Sequences.Below(r, i, j)
    {
      assert j < cut ==> Sequences.Below(labels, i, j);
    }
  }

  /** create_lines_range and the relabelling of the lines behind, on a list that is open at cut. */
  method InsertLines(s0: Store, prev: Ptr, next: Ptr, y: nat, attr: Attr, count: nat, ghost order: seq<Ptr>,
                     ghost lists0: map<Ptr, seq<Ptr>>, ghost cut: nat)
    returns (s: Store, ghost lists: map<Ptr, seq<Ptr>>)
    requires LinksBut(s0.line, order, {cut}) && Sides(order, cut, prev, next) && LabelsOk(s0.line, order, s0.nextSeqno)
    requires Handles.Ok(s0.hs, lists0) && AddressesOk(s0, order, lists0)
    requires count > 0 && y < |s0.spans|
    ensures ListsOk(s, Splice(order, cut, NewLines(s0.brk, count)), lists)
    ensures Doc(s.line, Splice(order, cut, NewLines(s0.brk, count))) ==
      Splice(Doc(s0.line, order), cut, Blanks(attr, count))
    ensures s.hs.node == s0.hs.node && lists == WithNewLines(lists0, s0.brk, count) && s.brk == s0.brk + count
    ensures |s.spans| == |s0.spans|
    ensures forall j :: 0 <= j < |s.spans| ==>
      s.spans[j] == if y <= j < y + count then Span(s0.brk + (j - y), 0, 0) else s0.spans[j]
  {
    ghost var order_ := Splice(order, cut, NewLines(s0.brk, count));
    s := CreateLinesRange(s0, prev, next, y, attr, count, order, cut);
    NewLabelsFit(Labels(s0.line, order), s0.nextSeqno, cut, count);
    InSplice(order, cut, NewLines(s0.brk, count));
    SpliceEnds(order, cut, NewLines(s0.brk, count));
    var line, nextSeqno := FixupLinesSeqno(s.line, s.nextSeqno, next, order_, cut + count);
    var hs := NoHandles(s.hs, s0.brk, count, lists0);
    lists := WithNewLines(lists0, s0.brk, count);
    s := s.(line := line, nextSeqno := nextSeqno, hs := hs);
    NewAddresses(s, order, lists0, cut, s0.brk, count);
  }

  lemma NewAddresses(s: Store, order: seq<Ptr>, lists: map<Ptr, seq<Ptr>>, cut: nat, brk: Ptr, count: nat)
    requires NULL < brk && (forall p :: p in order ==> p < brk) && (forall p :: p in order <==> p in lists)
    requires cut <= |order| && s.brk == brk + count
    ensures AddressesOk(s, Splice(order, cut, NewLines(brk, count)), WithNewLines(lists, brk, count))
  {
    InSplice(order, cut, NewLines(brk, count));
    var news := NewLines(brk, count);
    forall p: Ptr | brk <= p < brk + count
      ensures p in news
    {
      assert news[p - brk] == p;
    }
  }

  // ----- Freeing the lines behind the screen -----

  /** free_line's list part, for the line behind an open place. */
  lemma FreedAt(line: Heap, order: seq<Ptr>, k: nat)
    requires LinksBut(line, order, {k}) && k < |order| && order[k] in line && line[order[k]].prev == NULL
    requires line[order[k]].next != NULL ==> line[order[k]].next in line
    ensures var new_ := Concats.DetachNext(Concats.DetachPrev(line, order[k]), order[k]) - {order[k]};
      && LinksBut(new_, Drop(order, k), {k})
      && Doc(new_, Drop(order, k)) == Drop(Doc(line, order), k)
      && Labels(new_, Drop(order, k)) == Drop(Labels(line, order), k)
  {
    var new_, order_ := Concats.DetachNext(Concats.DetachPrev(line, order[k]), order[k]) - {order[k]}, Drop(order, k);
    OnlyAt(order, k);
    if k + 1 < |order| {
      OnlyAt(order, k + 1);
    }
    DistinctDrop(order, k);
    assert LinkedButAt(line, order, {k}, k);
    forall i | 0 <= i < |order_|
      ensures LinkedButAt(new_, order_, {k}, i)
    {
      assert LinkedButAt(line, order, {k}, if i < k then i else i + 1);
    }
  }

  /** What is left once the lines from k to j - 1 are gone. */
  ghost function Rest<T>(s: seq<T>, k: nat, j: nat): (r: seq<T>)
    requires k <= j <= |s|
  {
    s[..k] + s[j..]
  }

  lemma RestDrop<T>(s: seq<T>, k: nat, j: nat)
    requires k <= j < |s|
    ensures Drop(Rest(s, k, j), k) == Rest(s, k, j + 1) && Rest(s, k, j)[k] == s[j]
  {
  }

  lemma InRest<T>(s: seq<T>, k: nat, j: nat)
    requires Distinct(s) && k <= j < |s|
    ensures forall x :: x in Rest(s, k, j + 1) <==> x in Rest(s, k, j) && x != s[j]
    ensures s[j] in Rest(s, k, j)
  {
    OnlyAt(s, j);
    assert Rest(s, k, j) == s[..k] + [s[j]] + s[j + 1..];
  }

  /** free_line for the first of the lines to go; the list is open in front of it. */
  method FreeFirst(s0: Store, p: Ptr, ghost order: seq<Ptr>, ghost lists0: map<Ptr, seq<Ptr>>, ghost k: nat)
    returns (s: Store, next: Ptr)
    requires LinksBut(s0.line, order, {k}) && Handles.Ok(s0.hs, lists0) && (forall x :: x in order <==> x in lists0)
    requires k < |order| && order[k] == p
    ensures s == s0.(line := s.line, hs := s.hs) && next == if k + 1 == |order| then NULL else order[k + 1]
    ensures LinksBut(s.line, Drop(order, k), {k})
    ensures Doc(s.line, Drop(order, k)) == Drop(Doc(s0.line, order), k)
    ensures Labels(s.line, Drop(order, k)) == Drop(Labels(s0.line, order), k)
    ensures Handles.Ok(s.hs, lists0 - {p}) && Handles.LetGo(s0.hs, s.hs, lists0[p])
  {
    assert LinkedButAt(s0.line, order, {k}, k);
    next := s0.line[p].next;
    assert k + 1 < |order| ==> order[k + 1] in s0.line;
    FreedAt(s0.line, order, k);
    assert order[k] in order;
    var hs := Handles.Release(s0.hs, p, lists0);
    s := s0.(line := Concats.DetachNext(Concats.DetachPrev(s0.line, p), p) - {p}, hs := hs);
  }

  /** The lines from k to j - 1 are gone. */
  ghost predicate FreedTo(s0: Store, lists0: map<Ptr, seq<Ptr>>, s: Store, lists: map<Ptr, seq<Ptr>>, order: seq<Ptr>,
                          k: nat, j: nat)
    requires Covers(s0.line, order) && k <= j <= |order|
  {
    var rest := Rest(order, k, j);
    && s == s0.(line := s.line, hs := s.hs) && LinksBut(s.line, rest, {k})
    && Doc(s.line, rest) == Rest(Doc(s0.line, order), k, j)
    && Labels(s.line, rest) == Rest(Labels(s0.line, order), k, j)
    && Handles.Ok(s.hs, lists) && (forall x :: x in rest <==> x in lists)
    && Handles.Spared(s0.hs, lists0, s.hs, lists)
  }

  /** One round of free_line_list_until. */
  method FreeOne(ghost s0: Store, s1: Store, p: Ptr, ghost order: seq<Ptr>, ghost lists0: map<Ptr, seq<Ptr>>,
                 ghost lists: map<Ptr, seq<Ptr>>, ghost k: nat, ghost j: nat)
    returns (s: Store, next: Ptr)
    requires Covers(s0.line, order) && Distinct(order) && NULL !in order && k <= j < |order| && p == order[j]
    requires Handles.Ok(s0.hs, lists0) && FreedTo(s0, lists0, s1, lists, order, k, j)
    ensures FreedTo(s0, lists0, s, lists - {p}, order, k, j + 1)
    ensures next == if j + 1 == |order| then NULL else order[j + 1]
  {
    RestDrop(order, k, j);
    RestDrop(Doc(s0.line, order), k, j);
    RestDrop(Labels(s0.line, order), k, j);
    InRest(order, k, j);
    s, next := FreeFirst(s1, p, Rest(order, k, j), lists, k);
    Handles.SparedStep(s0.hs, lists0, s1.hs, lists, s.hs, p);
  }

  /** The list is opened in front of the lines to go. */
  method OpenTail(s0: Store, p: Ptr, ghost order: seq<Ptr>, ghost lists0: map<Ptr, seq<Ptr>>, ghost k: nat)
    returns (s: Store)
    requires ListsOk(s0, order, lists0) && k <= |order| && p == if k == |order| then NULL else order[k]
    ensures FreedTo(s0, lists0, s, lists0, order, k, k)
  {
    s := s0;
    if p != NULL {
      assert LinkedAt(s0.line, order, k);
      assert k > 0 ==> order[k - 1] in s0.line;
      Uncut(s0.line, order, {});
      OpenedBefore(s0.line, order, {}, k);
      assert {} + {k} == {k};
      s := s0.(line := Concats.DetachPrev(s0.line, p));
    } else {
      Uncut(s.line, order, {k});
    }
    assert Rest(order, k, k) == order && Rest(Doc(s.line, order), k, k) == Doc(s.line, order);
    assert Rest(Labels(s.line, order), k, k) == Labels(s.line, order);
  }

  /** free_line_list_until, to the end of the list: the lines from k on are freed, and their
      handles point nowhere. No span may refer to them. */
  method FreeTail(s0: Store, first: Ptr, ghost order: seq<Ptr>, ghost lists0: map<Ptr, seq<Ptr>>, ghost k: nat)
    returns (s: Store, ghost lists: map<Ptr, seq<Ptr>>)
    requires ListsOk(s0, order, lists0) && k <= |order| && first == if k == |order| then NULL else order[k]
    ensures ListsOk(s, order[..k], lists) && Doc(s.line, order[..k]) == Doc(s0.line, order)[..k]
    ensures s == s0.(line := s.line, hs := s.hs)
    ensures Handles.Spared(s0.hs, lists0, s.hs, lists)
  {
    lists := lists0;
    var p := first;
    ghost var j := k;
    s := OpenTail(s0, p, order, lists0, k);
    while p != NULL
      invariant k <= j <= |order| && p == if j == |order| then NULL else order[j]
      invariant FreedTo(s0, lists0, s, lists, order, k, j)
      decreases |order| - j
    {
      var p1 := p;
      s, p := FreeOne(s0, s, p1, order, lists0, lists, k, j);
      lists := lists - {p1};
      j := j + 1;
    }
    HeadIsRest(s0, s, order, lists, k);
  }

  lemma HeadIsRest(s0: Store, s: Store, order: seq<Ptr>, lists: map<Ptr, seq<Ptr>>, k: nat)
    requires k <= |order| && Covers(s0.line, order) && LabelsOk(s0.line, order, s0.nextSeqno)
    requires s == s0.(line := s.line, hs := s.hs) && LinksBut(s.line, Rest(order, k, |order|), {k})
    requires Doc(s.line, Rest(order, k, |order|)) == Rest(Doc(s0.line, order), k, |order|)
    requires Labels(s.line, Rest(order, k, |order|)) == Rest(Labels(s0.line, order), k, |order|)
    requires Handles.Ok(s.hs, lists) && (forall x :: x in Rest(order, k, |order|) <==> x in lists)
    requires NULL < s0.brk && forall p :: p in order ==> p < s0.brk
    ensures ListsOk(s, order[..k], lists) && Doc(s.line, order[..k]) == Doc(s0.line, order)[..k]
  {
    assert Rest(order, k, |order|) == order[..k];
    assert forall p :: p in order[..k] ==> p in order;
    assert Rest(Labels(s0.line, order), k, |order|) == Labels(s0.line, order)[..k];
    assert Rest(Doc(s0.line, order), k, |order|) == Doc(s0.line, order)[..k];
    Uncut(s.line, order[..k], {k});
    var labels, labels0 := Labels(s.line, order[..k]), Labels(s0.line, order);
    forall i, j | 0 <= i < j < k
      ensures Sequences.Below(labels, i, j)
    {
      assert Sequences.Below(labels0, i, j);
    }
  }
}
