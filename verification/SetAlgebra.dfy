/** The set operations that overwrite a third bitmap, recycling its elements. */
module SetAlgebra {
  import opened Chunks
  import opened Elements
  import opened Bitmaps
  import opened Merging

  /** a is a bitmap that an operation on dst only reads. */
  ghost predicate Source(dst: Bitmap, a: Bitmap)
    reads dst, dst.obstack, a, a.elts
  {
    a != dst && a.OnList() && Canonical(a.chunks) && SetOf(a.elts) !! dst.Owned()
  }

  /** Where the cursor is while the elements s were the first of the list e and it pointed at c. */
  ghost predicate CursorStays(e: seq<Element>, current: Element?, s: seq<Element>, c: Element?) {
    s <= e && current == if s == [] then At(e, 0) else c
  }

  lemma CursorGrown(e: seq<Element>, current: Element?, e': seq<Element>, current': Element?,
                    s: seq<Element>, c: Element?)
    requires CursorStays(e, current, s, c) && e <= e' && (current == null <==> e == [])
    requires current' == if current == null then At(e', 0) else current
    ensures CursorStays(e', current', s, c)
  {
  }

  lemma NextAt(a: Bitmap, e: Element, i: nat)
    requires a.OnList() && e == At(a.elts, i)
    ensures i < |a.elts| && e.next == At(a.elts, i + 1)
  {
  }

  /** Write a chunk into the slot at position k, inserting an element if the list ends there. */
  method Produce(dst: Bitmap, elt: Element?, prev: Element?, indx: nat, bits: Bits, ghost k: nat)
    returns (e: Element)
    requires dst.Shape() && k <= |dst.elts| && elt == At(dst.elts, k) && prev == Before(dst.elts, k)
    modifies dst, dst.obstack, dst.Owned()
    ensures dst.Shape() && dst.chunks == Written(old(dst.chunks), k, Chunk(indx, bits))
    ensures k < |dst.elts| && e == dst.elts[k]
    ensures old(dst.elts) <= dst.elts
    ensures dst.current == if old(dst.current) == null then At(dst.elts, 0) else old(dst.current)
    ensures dst.Grows()
  {
    if elt == null {
      e := dst.EltInsertAfter(prev, k);
    } else {
      e := elt;
    }
    PoolAllocated(dst.obstack.lists);
    dst.Fill(e, indx, bits, k);
  }

  /** Whether the cursor, at position p of a list d, is still in the list after the results r were written over
      it and the rest was freed. */
  ghost predicate CursorSurvives(d: seq<Chunk>, p: nat, r: seq<Chunk>, spilt: bool) {
    || p >= |d|
    || p < |r|
    || r == []
    || (if p == |r| && spilt then true else d[p].indx > r[|r|-1].indx)
  }

  /** Free the slots from k on and settle the cursor. */
  method Finish(dst: Bitmap, elt: Element?, ghost k: nat)
    requires dst.Shape() && k <= |dst.elts| && elt == At(dst.elts, k)
    modifies dst, dst.obstack, dst.Owned()
    ensures dst.Shape() && dst.elts == old(dst.elts)[..k] && dst.chunks == old(dst.chunks)[..k]
    ensures dst.Owned() == old(dst.Owned())
    ensures elt == null && old(dst.CursorIn()) ==> dst.CursorOk()
    ensures elt != null ==> (dst.CursorOk() <==> k == 0 || old(dst.current) in old(dst.elts)[..k]
                                                 || old(dst.current.indx) > old(dst.chunks)[k-1].indx)
  {
    dst.EltClearFrom(elt, k);
    if dst.current != null {
      dst.indx := dst.current.indx;
    }
  }

  /** How far a walk has come: i and j chunks of the sources consumed, k results written.  The destination held
      the elements s with the chunks d at first, and its cursor pointed at c; the sources have n and m chunks. */
  datatype Walk = Walk(op: Op, i: nat, j: nat, k: nat, spilt: bool, s: seq<Element>, d: seq<Chunk>, c: Element?,
                       n: nat, m: nat)

  /** How many chunks of the sources are left. */
  function Left(w: Walk): nat {
    (if w.i <= w.n then w.n - w.i else 0) + (if w.j <= w.m then w.m - w.j else 0)
  }

  /** The pointers of a walk are where w says. */
  ghost predicate Standing(w: Walk, dst: Bitmap, a: Bitmap, b: Bitmap, aElt: Element?, bElt: Element?,
                           elt: Element?, prev: Element?)
    reads dst, dst.obstack, dst.Owned(), a, a.elts, b, b.elts
  {
    && dst.Shape() && Source(dst, a) && Source(dst, b)
    && w.n == |a.elts| && w.m == |b.elts| && w.k <= |dst.elts|
    && elt == At(dst.elts, w.k) && prev == Before(dst.elts, w.k)
    && aElt == At(a.elts, w.i) && bElt == At(b.elts, w.j)
    && CursorStays(dst.elts, dst.current, w.s, w.c)
  }

  /** The walk is right so far. */
  ghost predicate Right(w: Walk, dst: Bitmap, a: Bitmap, b: Bitmap)
    reads dst, a, b
  {
    Progress(w.op, a.chunks, b.chunks, w.i, w.j, w.d, dst.chunks, w.k, w.spilt)
  }

  /** Pass over an element of a that the operation drops. */
  lemma SkipFirst(w: Walk, dst: Bitmap, a: Bitmap, b: Bitmap, aElt: Element, bElt: Element?,
                  elt: Element?, prev: Element?)
    requires Standing(w, dst, a, b, aElt, bElt, elt, prev) && Right(w, dst, a, b)
    requires w.op == Op.And && bElt != null && aElt.indx < bElt.indx
    ensures Standing(w.(i := w.i + 1), dst, a, b, aElt.next, bElt, elt, prev)
    ensures Right(w.(i := w.i + 1), dst, a, b)
    ensures Left(w.(i := w.i + 1)) < Left(w)
  {
    NextAt(a, aElt, w.i);
    DropFirst(w.op, a.chunks, b.chunks, w.i, w.j, w.d, dst.chunks, w.k, w.spilt);
  }

  /** Pass over an element of b that the operation drops. */
  lemma SkipSecond(w: Walk, dst: Bitmap, a: Bitmap, b: Bitmap, aElt: Element?, bElt: Element,
                   elt: Element?, prev: Element?)
    requires Standing(w, dst, a, b, aElt, bElt, elt, prev) && Right(w, dst, a, b)
    requires (w.op == Op.And || w.op == Op.AndCompl) && aElt != null && bElt.indx < aElt.indx
    ensures Standing(w.(j := w.j + 1), dst, a, b, aElt, bElt.next, elt, prev)
    ensures Right(w.(j := w.j + 1), dst, a, b)
    ensures Left(w.(j := w.j + 1)) < Left(w)
  {
    NextAt(b, bElt, w.j);
    DropSecond(w.op, a.chunks, b.chunks, w.i, w.j, w.d, dst.chunks, w.k, w.spilt);
  }

  /** Write a chunk into the slot, and go on to the next slot if it is a result. */
  method WriteSlot(dst: Bitmap, a: Bitmap, b: Bitmap, aElt: Element?, bElt: Element?,
                   elt: Element?, prev: Element?, indx: nat, bits: Bits, keep: bool, ghost w: Walk)
    returns (elt': Element?, prev': Element?)
    requires Standing(w, dst, a, b, aElt, bElt, elt, prev)
    modifies dst, dst.obstack, dst.Owned()
    ensures Standing(if keep then w.(k := w.k + 1) else w, dst, a, b, aElt, bElt, elt', prev')
    ensures dst.chunks == Written(old(dst.chunks), w.k, Chunk(indx, bits))
    ensures dst.Grows()
  {
    hide Canonical, Nexts, Prevs, NoDup, Linked, Holds, FreeOk, Apart, CursorStays;
    ghost var e, c := dst.elts, dst.current;
    elt' := Produce(dst, elt, prev, indx, bits, w.k);
    CursorGrown(e, c, dst.elts, dst.current, w.s, w.c);
    prev' := prev;
    if keep {
      NextAt(dst, elt', w.k);
      prev', elt' := elt', elt'.next;
    }
    assert Source(dst, a);
    assert Source(dst, b);
  }

  /** Write the combination of matching elements into the slot. */
  method WriteMatch(dst: Bitmap, a: Bitmap, b: Bitmap, aElt: Element, bElt: Element, elt: Element?, prev: Element?,
                    r: Bits, ior: bool, ghost w: Walk)
    returns (elt': Element?, prev': Element?, ghost w': Walk)
    requires Standing(w, dst, a, b, aElt, bElt, elt, prev) && Right(w, dst, a, b)
    requires aElt.indx == bElt.indx && r == BitsOp(w.op, aElt.bits, bElt.bits) && ior == !BitsZero(r)
    modifies dst, dst.obstack, dst.Owned()
    ensures Standing(w', dst, a, b, aElt.next, bElt.next, elt', prev') && Right(w', dst, a, b)
    ensures w' == w.(i := w.i + 1, j := w.j + 1, k := w'.k, spilt := w'.spilt)
    ensures Left(w') < Left(w)
    ensures dst.Grows()
  {
    hide Progress, Canonical, BitsOp, BitsZero, Combined, Nexts, Prevs, NoDup, Linked, Holds, FreeOk, Apart;
    MatchRight(w, dst, a, b, aElt, bElt, elt, prev);
    NextAt(a, aElt, w.i);
    NextAt(b, bElt, w.j);
    elt', prev' := WriteSlot(dst, a, b, aElt, bElt, elt, prev, aElt.indx, r, ior, w);
    w' := w.(i := w.i + 1, j := w.j + 1, k := if ior then w.k + 1 else w.k, spilt := !ior);
  }

  /** Combine matching elements into the slot. */
  method Match(dst: Bitmap, a: Bitmap, b: Bitmap, aElt: Element, bElt: Element, elt: Element?, prev: Element?,
               op: Op, ghost w: Walk)
    returns (elt': Element?, prev': Element?, ghost w': Walk)
    requires Standing(w, dst, a, b, aElt, bElt, elt, prev) && Right(w, dst, a, b)
    requires w.op == op && aElt.indx == bElt.indx
    modifies dst, dst.obstack, dst.Owned()
    ensures Standing(w', dst, a, b, aElt.next, bElt.next, elt', prev') && Right(w', dst, a, b)
    ensures w' == w.(i := w.i + 1, j := w.j + 1, k := w'.k, spilt := w'.spilt)
    ensures Left(w') < Left(w)
    ensures dst.Grows()
  {
    hide Standing, Right, Progress, Canonical, BitsZero;
    var x, y := aElt.bits, bElt.bits;
    var r: Bits, ior := Zeros(), false;
    var ix := BITMAP_ELEMENT_WORDS;
    while ix > 0
      invariant 0 <= ix <= BITMAP_ELEMENT_WORDS
      invariant forall w :: ix <= w < BITMAP_ELEMENT_WORDS ==> r[w] == WordOp(op, x[w], y[w])
      invariant ior == ((ix == 0 && NonZero(r[0])) || (ix <= 1 && NonZero(r[1])))
    {
      ix := ix - 1;
      r := r[ix := WordOp(op, x[ix], y[ix])];
      ior := ior || NonZero(r[ix]);
    }
    CombinedBits(op, x, y, r);
    elt', prev', w' := WriteMatch(dst, a, b, aElt, bElt, elt, prev, r, ior, w);
  }

  lemma CombinedBits(op: Op, x: Bits, y: Bits, r: Bits)
    requires forall w :: 0 <= w < BITMAP_ELEMENT_WORDS ==> r[w] == WordOp(op, x[w], y[w])
    ensures r == BitsOp(op, x, y) && BitsZero(r) == (!NonZero(r[0]) && !NonZero(r[1]))
  {
  }

  lemma MatchRight(w: Walk, dst: Bitmap, a: Bitmap, b: Bitmap, aElt: Element, bElt: Element,
                   elt: Element?, prev: Element?)
    requires Standing(w, dst, a, b, aElt, bElt, elt, prev) && Right(w, dst, a, b) && aElt.indx == bElt.indx
    ensures w.i < |a.elts| && w.j < |b.elts|
    ensures var x := Chunk(aElt.indx, BitsOp(w.op, aElt.bits, bElt.bits));
            if BitsZero(x.bits)
            then Progress(w.op, a.chunks, b.chunks, w.i + 1, w.j + 1, w.d, Written(dst.chunks, w.k, x), w.k, true)
            else Progress(w.op, a.chunks, b.chunks, w.i + 1, w.j + 1, w.d, Written(dst.chunks, w.k, x), w.k + 1, false)
  {
    hide BitsOp, BitsZero;
    assert a.chunks[w.i] == Chunk(a.elts[w.i].indx, a.elts[w.i].bits);
    assert b.chunks[w.j] == Chunk(b.elts[w.j].indx, b.elts[w.j].bits);
    EmitMatch(w.op, a.chunks, b.chunks, w.i, w.j, w.d, dst.chunks, w.k, w.spilt);
  }

  /** The condition under which a three-operand operation leaves the cursor in the list: it matters only if the
      cursor was beyond the results and elements were freed there. */
  ghost predicate CursorKept(op: Op, d: seq<Chunk>, p: nat, a: seq<Chunk>, b: seq<Chunk>) {
    CursorSurvives(d, p, Merge(op, a, b), Spill(op, a, b, false))
  }

  lemma Begin(w: Walk, dst: Bitmap, a: Bitmap, b: Bitmap)
    requires dst.Shape() && Source(dst, a) && Source(dst, b)
    requires w == Walk(w.op, 0, 0, 0, false, dst.elts, dst.chunks, dst.current,
                           |a.elts|, |b.elts|)
    ensures Standing(w, dst, a, b, a.first, b.first, dst.first, null) && Right(w, dst, a, b)
  {
    ProgressStart(w.op, a.chunks, b.chunks, dst.chunks);
  }

  ghost predicate Complete(w: Walk, aElt: Element?, bElt: Element?) {
    (aElt == null || w.op == Op.And) && (bElt == null || w.op == Op.And || w.op == Op.AndCompl) && (aElt == null || bElt == null)
  }

  /** What a complete walk leaves before the end is freed. */
  lemma Results(w: Walk, dst: Bitmap, a: Bitmap, b: Bitmap, aElt: Element?, bElt: Element?,
                elt: Element?, prev: Element?)
    requires Standing(w, dst, a, b, aElt, bElt, elt, prev) && Right(w, dst, a, b) && Complete(w, aElt, bElt)
    ensures dst.Shape() && w.k <= |dst.elts| && elt == At(dst.elts, w.k) && a != dst && b != dst
    ensures dst.chunks[..w.k] == Merge(w.op, a.chunks, b.chunks) && Canonical(dst.chunks[..w.k])
    ensures w.s == [] ==> dst.CursorIn() && (w.k > 0 ==> dst.current == dst.elts[..w.k][0])
  {
    ProgressEnd(w.op, a.chunks, b.chunks, w.i, w.j, w.d, dst.chunks, w.k, w.spilt);
  }

  /** What becomes of a cursor that was at position p. */
  lemma CursorFate(w: Walk, dst: Bitmap, a: Bitmap, b: Bitmap, aElt: Element?, bElt: Element?,
                   elt: Element?, prev: Element?, p: nat)
    requires Standing(w, dst, a, b, aElt, bElt, elt, prev) && Right(w, dst, a, b) && Complete(w, aElt, bElt)
    requires |w.s| == |w.d| && p < |w.s| && w.s[p] == w.c
    ensures dst.current == w.c && p < |dst.elts| && dst.elts[p] == w.c
    ensures elt == null ==> CursorKept(w.op, w.d, p, a.chunks, b.chunks)
    ensures elt != null ==> (CursorKept(w.op, w.d, p, a.chunks, b.chunks) <==>
                               w.k == 0 || p < w.k || w.c.indx > dst.chunks[w.k-1].indx)
  {
    ProgressEnd(w.op, a.chunks, b.chunks, w.i, w.j, w.d, dst.chunks, w.k, w.spilt);
    assert dst.chunks[p] == Chunk(dst.elts[p].indx, dst.elts[p].bits);
    hide Merge, Spill, Canonical, BitsZero;
  }

  /** Free what is left of the destination after a complete walk. */
  method End(dst: Bitmap, a: Bitmap, b: Bitmap, aElt: Element?, bElt: Element?, elt: Element?, prev: Element?,
             ghost w: Walk, ghost p: nat)
    requires Standing(w, dst, a, b, aElt, bElt, elt, prev) && Right(w, dst, a, b) && Complete(w, aElt, bElt)
    requires |w.s| == |w.d|
    modifies dst, dst.obstack, dst.Owned()
    ensures dst.ListOk() && dst.chunks == Merge(w.op, a.chunks, b.chunks)
    ensures dst.Owned() == old(dst.Owned())
    ensures p < |w.s| && w.s[p] == w.c ==> (dst.CursorOk() <==> CursorKept(w.op, w.d, p, a.chunks, b.chunks))
    ensures w.s == [] ==> dst.CursorOk()
  {
    hide CursorKept, Standing, Right, Canonical, Merge, Nexts, Prevs, NoDup, Linked, Holds, FreeOk, Apart;
    Results(w, dst, a, b, aElt, bElt, elt, prev);
    if p < |w.s| && w.s[p] == w.c {
      CursorFate(w, dst, a, b, aElt, bElt, elt, prev, p);
      PositionIn(dst, p, w.k);
    }
    Finish(dst, elt, w.k);
  }

  lemma PositionIn(dst: Bitmap, p: nat, k: nat)
    requires dst.Shape() && p < |dst.elts| && k <= |dst.elts|
    ensures dst.elts[p] in dst.elts[..k] <==> p < k
  {
  }

  /** w and v belong to the same walk. */
  ghost predicate Same(w: Walk, v: Walk) {
    w == v.(i := w.i, j := w.j, k := w.k, spilt := w.spilt)
  }

  lemma SelfSource(dst: Bitmap, a: Bitmap)
    requires Source(dst, a)
    ensures a != dst && Canonical(a.chunks) && Merge(Op.And, a.chunks, a.chunks) == a.chunks
    ensures Merge(Op.AndCompl, a.chunks, a.chunks) == [] && Merge(Op.Xor, a.chunks, a.chunks) == []
  {
    MergeSelf(a.chunks);
  }

  /** Add a copy of a chunk after the last element. */
  method Append(dst: Bitmap, last: Element?, i: nat, b: Bits) returns (e: Element)
    requires dst.Shape() && dst.CursorOk() && last == Before(dst.elts, |dst.elts|)
    modifies dst, dst.obstack, dst.Owned()
    ensures dst.Shape() && dst.CursorOk() && dst.elts == old(dst.elts) + [e]
    ensures dst.chunks == old(dst.chunks) + [Chunk(i, b)]
    ensures dst.Grows()
  {
    hide Canonical, FreeOk, Apart, BitsZero, Nexts, Prevs, NoDup, Linked, Holds;
    e := dst.Create(i, b);
    PoolAllocated(dst.obstack.lists);
    dst.AttachLast(e, last);
  }

  /** The first i chunks of a are copied and last is the last copy. */
  ghost predicate Copying(dst: Bitmap, a: Bitmap, ptr: Element?, last: Element?, i: nat)
    reads dst, dst.obstack, dst.Owned(), a, a.elts
  {
    && Source(dst, a) && i <= |a.elts| && ptr == At(a.elts, i)
    && dst.Shape() && dst.CursorOk() && last == Before(dst.elts, |dst.elts|)
    && dst.chunks == a.chunks[..i]
  }

  lemma CopyEnd(dst: Bitmap, a: Bitmap, last: Element?, i: nat)
    requires Copying(dst, a, null, last, i)
    ensures dst.Valid() && dst.chunks == a.chunks
  {
  }

  /** Copy one element to the end. */
  method CopyStep(dst: Bitmap, a: Bitmap, ptr: Element, last: Element?, ghost i: nat) returns (e: Element)
    requires Copying(dst, a, ptr, last, i)
    modifies dst, dst.obstack, dst.Owned()
    ensures i < |a.elts| && Copying(dst, a, ptr.next, e, i + 1)
    ensures dst.Grows()
  {
    hide Canonical, FreeOk, Apart, BitsZero, Nexts, Prevs, NoDup, Linked, Holds;
    NextAt(a, ptr, i);
    ChunkAt(a, i);
    e := Append(dst, last, ptr.indx, ptr.bits);
    assert Source(dst, a);
  }

  lemma ChunkAt(a: Bitmap, i: nat)
    requires a.OnList() && i < |a.elts|
    ensures a.chunks[..i+1] == a.chunks[..i] + [Chunk(a.elts[i].indx, a.elts[i].bits)]
  {
    assert a.chunks[i] == Chunk(a.elts[i].indx, a.elts[i].bits);
  }

  /** bitmap_copy. */
  method Copy(dst: Bitmap, a: Bitmap)
    requires dst.Shape() && Source(dst, a)
    modifies dst, dst.obstack, dst.Owned()
    ensures dst.Valid() && dst.chunks == a.chunks
    ensures dst.Grows()
  {
    hide Canonical, FreeOk, Apart, BitsZero, Nexts, Prevs, NoDup, Linked, Holds;
    ghost var o := dst.Owned();
    dst.Clear();
    assert Source(dst, a);
    CopyAll(dst, a);
  }

  method CopyAll(dst: Bitmap, a: Bitmap)
    requires dst.Valid() && dst.elts == [] && Source(dst, a)
    modifies dst, dst.obstack, dst.Owned()
    ensures dst.Valid() && dst.chunks == a.chunks
    ensures dst.Grows()
  {
    hide Copying, Canonical, FreeOk, Apart, BitsZero, Nexts, Prevs, NoDup, Linked, Holds;
    var ptr := a.first;
    var last: Element? := null;
    ghost var i := 0;
    CopyBegin(dst, a);
    while ptr != null
      invariant Copying(dst, a, ptr, last, i)
      invariant dst.Grows()
      decreases |a.elts| - i
    {
      last := CopyStep(dst, a, ptr, last, i);
      ptr, i := ptr.next, i + 1;
    }
    CopyEnd(dst, a, last, i);
  }

  lemma CopyBegin(dst: Bitmap, a: Bitmap)
    requires dst.Valid() && dst.elts == [] && Source(dst, a)
    ensures Copying(dst, a, a.first, null, 0) && a != dst
  {
  }

  /** One round of bitmap_and's loop. */
  method AndStep(dst: Bitmap, a: Bitmap, b: Bitmap, aElt: Element, bElt: Element, elt: Element?, prev: Element?,
                 ghost w: Walk)
    returns (aElt': Element?, bElt': Element?, elt': Element?, prev': Element?, ghost w': Walk)
    requires Standing(w, dst, a, b, aElt, bElt, elt, prev) && Right(w, dst, a, b) && w.op == Op.And
    modifies dst, dst.obstack, dst.Owned()
    ensures Standing(w', dst, a, b, aElt', bElt', elt', prev') && Right(w', dst, a, b) && Same(w', w)
    ensures Left(w') < Left(w)
    ensures dst.Grows()
  {
    hide Standing, Right, Left, Canonical, Merge, Source;
    aElt', bElt', elt', prev', w' := aElt, bElt, elt, prev, w;
    if aElt.indx < bElt.indx {
      SkipFirst(w, dst, a, b, aElt, bElt, elt, prev);
      aElt', w' := aElt.next, w.(i := w.i + 1);
    } else if bElt.indx < aElt.indx {
      SkipSecond(w, dst, a, b, aElt, bElt, elt, prev);
      bElt', w' := bElt.next, w.(j := w.j + 1);
    } else {
      elt', prev', w' := Match(dst, a, b, aElt, bElt, elt, prev, Op.And, w);
      aElt', bElt' := aElt.next, bElt.next;
    }
  }

  /** bitmap_and: dst = a & b, whatever dst held. */
  method And(dst: Bitmap, a: Bitmap, b: Bitmap, ghost p: nat)
    requires dst.Shape() && Source(dst, a) && Source(dst, b)
    modifies dst, dst.obstack, dst.Owned()
    ensures dst.ListOk() && dst.chunks == Merge(Op.And, a.chunks, b.chunks)
    ensures dst.Grows()
    ensures (a != b && p < |old(dst.elts)| && old(dst.elts)[p] == old(dst.current)
             ==> (dst.CursorOk() <==> CursorKept(Op.And, old(dst.chunks), p, a.chunks, b.chunks)))
    ensures old(dst.elts) == [] || a == b ==> dst.CursorOk()
  {
    hide Standing, Right, Left, Canonical, Merge, CursorKept, Source;
    if a == b {
      SelfSource(dst, a);
      Copy(dst, a);
      return;
    }
    var dstElt, aElt, bElt := dst.first, a.first, b.first;
    var dstPrev: Element? := null;
    ghost var w0 := Walk(Op.And, 0, 0, 0, false, dst.elts, dst.chunks, dst.current,
                           |a.elts|, |b.elts|);
    ghost var w := w0;
    Begin(w, dst, a, b);
    while aElt != null && bElt != null
      invariant Standing(w, dst, a, b, aElt, bElt, dstElt, dstPrev) && Right(w, dst, a, b)
      invariant Same(w, w0) && dst.Grows()
      decreases Left(w)
    {
      aElt, bElt, dstElt, dstPrev, w := AndStep(dst, a, b, aElt, bElt, dstElt, dstPrev, w);
    }
    End(dst, a, b, aElt, bElt, dstElt, dstPrev, w, p);
  }

  // ---------- the operations that copy elements ----------

  /** The next result is the element of a at i. */
  lemma TakeFirst(w: Walk, dst: Bitmap, a: Bitmap, b: Bitmap, aElt: Element, bElt: Element?,
                  elt: Element?, prev: Element?)
    requires Standing(w, dst, a, b, aElt, bElt, elt, prev) && Right(w, dst, a, b)
    requires w.op != Op.And && (bElt == null || aElt.indx < bElt.indx)
    ensures w.i < |a.elts| && aElt.next == At(a.elts, w.i + 1)
    ensures var x := Chunk(aElt.indx, aElt.bits);
            Progress(w.op, a.chunks, b.chunks, w.i + 1, w.j, w.d, Written(dst.chunks, w.k, x), w.k + 1, false)
  {
    hide FreeOk, Apart, CursorStays, BitsZero, Written, Rest, Merge, Spill, Untouched;
    assert a.chunks[w.i] == Chunk(a.elts[w.i].indx, a.elts[w.i].bits);
    EmitFirst(w.op, a.chunks, b.chunks, w.i, w.j, w.d, dst.chunks, w.k, w.spilt);
  }

  lemma TakeSecond(w: Walk, dst: Bitmap, a: Bitmap, b: Bitmap, aElt: Element?, bElt: Element,
                   elt: Element?, prev: Element?)
    requires Standing(w, dst, a, b, aElt, bElt, elt, prev) && Right(w, dst, a, b)
    requires (w.op == Op.Ior || w.op == Op.Xor) && (aElt == null || bElt.indx < aElt.indx)
    ensures w.j < |b.elts| && bElt.next == At(b.elts, w.j + 1)
    ensures var x := Chunk(bElt.indx, bElt.bits);
            Progress(w.op, a.chunks, b.chunks, w.i, w.j + 1, w.d, Written(dst.chunks, w.k, x), w.k + 1, false)
  {
    hide FreeOk, Apart, CursorStays, BitsZero, Written, Rest, Merge, Spill, Untouched;
    assert b.chunks[w.j] == Chunk(b.elts[w.j].indx, b.elts[w.j].bits);
    EmitSecond(w.op, a.chunks, b.chunks, w.i, w.j, w.d, dst.chunks, w.k, w.spilt);
  }

  /** Copy the element of a at i into the slot. */
  method CopyFirst(dst: Bitmap, a: Bitmap, b: Bitmap, aElt: Element, bElt: Element?, elt: Element?, prev: Element?,
                   ghost w: Walk)
    returns (elt': Element?, prev': Element?, ghost w': Walk)
    requires Standing(w, dst, a, b, aElt, bElt, elt, prev) && Right(w, dst, a, b)
    requires w.op != Op.And && (bElt == null || aElt.indx < bElt.indx)
    modifies dst, dst.obstack, dst.Owned()
    ensures Standing(w', dst, a, b, aElt.next, bElt, elt', prev') && Right(w', dst, a, b)
    ensures w' == w.(i := w.i + 1, k := w.k + 1, spilt := false) && Left(w') < Left(w)
    ensures dst.Grows()
  {
    hide Progress, Canonical, BitsZero, Nexts, Prevs, NoDup, Linked, Holds, FreeOk, Apart, CursorStays;
    TakeFirst(w, dst, a, b, aElt, bElt, elt, prev);
    elt', prev' := WriteSlot(dst, a, b, aElt, bElt, elt, prev, aElt.indx, aElt.bits, true, w);
    w' := w.(i := w.i + 1, k := w.k + 1, spilt := false);
  }

  method CopySecond(dst: Bitmap, a: Bitmap, b: Bitmap, aElt: Element?, bElt: Element, elt: Element?, prev: Element?,
                    ghost w: Walk)
    returns (elt': Element?, prev': Element?, ghost w': Walk)
    requires Standing(w, dst, a, b, aElt, bElt, elt, prev) && Right(w, dst, a, b)
    requires (w.op == Op.Ior || w.op == Op.Xor) && (aElt == null || bElt.indx < aElt.indx)
    modifies dst, dst.obstack, dst.Owned()
    ensures Standing(w', dst, a, b, aElt, bElt.next, elt', prev') && Right(w', dst, a, b)
    ensures w' == w.(j := w.j + 1, k := w.k + 1, spilt := false) && Left(w') < Left(w)
    ensures dst.Grows()
  {
    hide Progress, Canonical, BitsZero, Nexts, Prevs, NoDup, Linked, Holds, FreeOk, Apart, CursorStays;
    TakeSecond(w, dst, a, b, aElt, bElt, elt, prev);
    elt', prev' := WriteSlot(dst, a, b, aElt, bElt, elt, prev, bElt.indx, bElt.bits, true, w);
    w' := w.(j := w.j + 1, k := w.k + 1, spilt := false);
  }

  /** One round of bitmap_and_compl's loop. */
  method AndComplStep(dst: Bitmap, a: Bitmap, b: Bitmap, aElt: Element, bElt: Element?,
                      elt: Element?, prev: Element?, ghost w: Walk)
    returns (aElt': Element?, bElt': Element?, elt': Element?, prev': Element?, ghost w': Walk)
    requires Standing(w, dst, a, b, aElt, bElt, elt, prev) && Right(w, dst, a, b) && w.op == Op.AndCompl
    modifies dst, dst.obstack, dst.Owned()
    ensures Standing(w', dst, a, b, aElt', bElt', elt', prev') && Right(w', dst, a, b) && Same(w', w)
    ensures Left(w') < Left(w)
    ensures dst.Grows()
  {
    hide Standing, Right, Left, Canonical, Merge, Source;
    aElt', bElt', elt', prev', w' := aElt, bElt, elt, prev, w;
    if bElt == null || aElt.indx < bElt.indx {
      elt', prev', w' := CopyFirst(dst, a, b, aElt, bElt, elt, prev, w);
      aElt' := aElt.next;
    } else if bElt.indx < aElt.indx {
      SkipSecond(w, dst, a, b, aElt, bElt, elt, prev);
      bElt', w' := bElt.next, w.(j := w.j + 1);
    } else {
      elt', prev', w' := Match(dst, a, b, aElt, bElt, elt, prev, Op.AndCompl, w);
      aElt', bElt' := aElt.next, bElt.next;
    }
  }

  /** bitmap_and_compl: dst = a & ~b, whatever dst held. */
  method AndCompl(dst: Bitmap, a: Bitmap, b: Bitmap, ghost p: nat)
    requires dst.Shape() && Source(dst, a) && Source(dst, b)
    modifies dst, dst.obstack, dst.Owned()
    ensures dst.ListOk() && dst.chunks == Merge(Op.AndCompl, a.chunks, b.chunks)
    ensures dst.Grows()
    ensures (a != b && p < |old(dst.elts)| && old(dst.elts)[p] == old(dst.current)
             ==> (dst.CursorOk() <==> CursorKept(Op.AndCompl, old(dst.chunks), p, a.chunks, b.chunks)))
    ensures old(dst.elts) == [] || a == b ==> dst.CursorOk()
  {
    hide Standing, Right, Left, Canonical, Merge, CursorKept, Source;
    if a == b {
      SelfSource(dst, a);
      dst.Clear();
      return;
    }
    var dstElt, aElt, bElt := dst.first, a.first, b.first;
    var dstPrev: Element? := null;
    ghost var w0 := Walk(Op.AndCompl, 0, 0, 0, false, dst.elts, dst.chunks, dst.current,
                           |a.elts|, |b.elts|);
    ghost var w := w0;
    Begin(w, dst, a, b);
    while aElt != null
      invariant Standing(w, dst, a, b, aElt, bElt, dstElt, dstPrev) && Right(w, dst, a, b)
      invariant Same(w, w0) && dst.Grows()
      decreases Left(w)
    {
      aElt, bElt, dstElt, dstPrev, w := AndComplStep(dst, a, b, aElt, bElt, dstElt, dstPrev, w);
    }
    End(dst, a, b, aElt, bElt, dstElt, dstPrev, w, p);
  }

  /** One round of bitmap_xor's loop. */
  method XorStep(dst: Bitmap, a: Bitmap, b: Bitmap, aElt: Element?, bElt: Element?,
                 elt: Element?, prev: Element?, ghost w: Walk)
    returns (aElt': Element?, bElt': Element?, elt': Element?, prev': Element?, ghost w': Walk)
    requires Standing(w, dst, a, b, aElt, bElt, elt, prev) && Right(w, dst, a, b) && w.op == Op.Xor
    requires aElt != null || bElt != null
    modifies dst, dst.obstack, dst.Owned()
    ensures Standing(w', dst, a, b, aElt', bElt', elt', prev') && Right(w', dst, a, b) && Same(w', w)
    ensures Left(w') < Left(w)
    ensures dst.Grows()
  {
    hide Standing, Right, Left, Canonical, Merge, Source;
    aElt', bElt' := aElt, bElt;
    if aElt != null && bElt != null && aElt.indx == bElt.indx {
      elt', prev', w' := Match(dst, a, b, aElt, bElt, elt, prev, Op.Xor, w);
      aElt', bElt' := aElt.next, bElt.next;
    } else if bElt == null || (aElt != null && aElt.indx < bElt.indx) {
      elt', prev', w' := CopyFirst(dst, a, b, aElt, bElt, elt, prev, w);
      aElt' := aElt.next;
    } else {
      elt', prev', w' := CopySecond(dst, a, b, aElt, bElt, elt, prev, w);
      bElt' := bElt.next;
    }
  }

  /** bitmap_xor: dst = a ^ b, whatever dst held. */
  method Xor(dst: Bitmap, a: Bitmap, b: Bitmap, ghost p: nat)
    requires dst.Shape() && Source(dst, a) && Source(dst, b)
    modifies dst, dst.obstack, dst.Owned()
    ensures dst.ListOk() && dst.chunks == Merge(Op.Xor, a.chunks, b.chunks)
    ensures dst.Grows()
    ensures (a != b && p < |old(dst.elts)| && old(dst.elts)[p] == old(dst.current)
             ==> (dst.CursorOk() <==> CursorKept(Op.Xor, old(dst.chunks), p, a.chunks, b.chunks)))
    ensures old(dst.elts) == [] || a == b ==> dst.CursorOk()
  {
    hide Standing, Right, Left, Canonical, Merge, CursorKept, Source;
    if a == b {
      SelfSource(dst, a);
      dst.Clear();
      return;
    }
    var dstElt, aElt, bElt := dst.first, a.first, b.first;
    var dstPrev: Element? := null;
    ghost var w0 := Walk(Op.Xor, 0, 0, 0, false, dst.elts, dst.chunks, dst.current,
                           |a.elts|, |b.elts|);
    ghost var w := w0;
    Begin(w, dst, a, b);
    while aElt != null || bElt != null
      invariant Standing(w, dst, a, b, aElt, bElt, dstElt, dstPrev) && Right(w, dst, a, b)
      invariant Same(w, w0) && dst.Grows()
      decreases Left(w)
    {
      aElt, bElt, dstElt, dstPrev, w := XorStep(dst, a, b, aElt, bElt, dstElt, dstPrev, w);
    }
    End(dst, a, b, aElt, bElt, dstElt, dstPrev, w, p);
  }
  // ---------- bitmap_ior, which reports whether the destination changed ----------

  /** Overwrite the words that differ; whether any did. */
  method StoreWords(dst: Bitmap, e: Element, r: Bits, ghost k: nat) returns (changed: bool)
    requires dst.Shape() && k < |dst.elts| == |dst.chunks| && e == dst.elts[k]
    modifies dst`chunks, e`indx, e`bits
    ensures dst.Shape() && dst.chunks == old(dst.chunks)[k := Chunk(old(e.indx), r)]
    ensures changed == (old(e.bits) != r)
  {
    hide Nexts, Prevs, NoDup, Linked, FreeOk, Apart, Holds;
    changed := false;
    ghost var c, b, i := dst.chunks, e.bits, e.indx;
    BitsAt(dst, k);
    var ix := BITMAP_ELEMENT_WORDS;
    while ix > 0
      invariant 0 <= ix <= BITMAP_ELEMENT_WORDS
      invariant dst.Shape() && |dst.chunks| == |dst.elts| && dst.chunks == c[k := Chunk(i, e.bits)] && e.indx == i
      invariant forall v :: 0 <= v < BITMAP_ELEMENT_WORDS ==> e.bits[v] == if v < ix then b[v] else r[v]
      invariant changed == exists v :: ix <= v < BITMAP_ELEMENT_WORDS && b[v] != r[v]
    {
      ix := ix - 1;
      if r[ix] != e.bits[ix] {
        dst.Fill(e, e.indx, e.bits[ix := r[ix]], k);
        changed := true;
      }
    }
    assert e.bits == r;
  }

  lemma BitsAt(dst: Bitmap, k: nat)
    requires dst.Shape() && k < |dst.elts|
    ensures |dst.chunks| == |dst.elts| && dst.chunks[k] == Chunk(dst.elts[k].indx, dst.elts[k].bits)
  {
  }

  /** Write a chunk into the slot at position k unless it is already there. */
  method ProduceChecked(dst: Bitmap, elt: Element?, prev: Element?, indx: nat, bits: Bits, changed: bool, ghost k: nat)
    returns (e: Element, changed': bool)
    requires dst.Shape() && k <= |dst.elts| && elt == At(dst.elts, k) && prev == Before(dst.elts, k)
    modifies dst, dst.obstack, dst.Owned()
    ensures dst.Shape() && dst.chunks == Written(old(dst.chunks), k, Chunk(indx, bits))
    ensures k < |dst.elts| && e == dst.elts[k]
    ensures old(dst.elts) <= dst.elts
    ensures dst.current == if old(dst.current) == null then At(dst.elts, 0) else old(dst.current)
    ensures dst.Grows()
    ensures changed' == (changed || SlotChanges(old(dst.chunks), k, Chunk(indx, bits)))
  {
    hide Nexts, Prevs, NoDup, Linked, FreeOk, Apart, Holds, Canonical, BitsZero;
    if elt != null {
      BitsAt(dst, k);
    } else {
      SameLength(dst);
    }
    if !changed && elt != null && elt.indx == indx {
      e := elt;
      changed' := StoreWords(dst, e, bits, k);
    } else {
      changed' := true;
      e := Produce(dst, elt, prev, indx, bits, k);
    }
  }

  lemma SameLength(dst: Bitmap)
    requires dst.Shape()
    ensures |dst.chunks| == |dst.elts|
  {
  }
  ghost predicate Noticed(changed: bool, w: Walk, dst: Bitmap, a: Bitmap, b: Bitmap)
    reads dst, a, b
  {
    ChangeSeen(changed, w.op, a.chunks, b.chunks, w.d, dst.chunks)
  }

  /** Write the next result into the slot, which takes the walk from w to w', and notice a change. */
  method StoreSlot(dst: Bitmap, a: Bitmap, b: Bitmap, aElt: Element?, bElt: Element?, elt: Element?, prev: Element?,
                   indx: nat, bits: Bits, changed: bool, ghost w: Walk, ghost w': Walk)
    returns (elt': Element?, prev': Element?, changed': bool)
    requires Standing(w, dst, a, b, aElt, bElt, elt, prev) && Noticed(changed, w, dst, a, b) && w.k <= |dst.chunks|
    requires w' == w.(i := w'.i, j := w'.j, k := w.k + 1, spilt := false)
    requires Progress(w.op, a.chunks, b.chunks, w'.i, w'.j, w.d, Written(dst.chunks, w.k, Chunk(indx, bits)), w'.k, false)
    modifies dst, dst.obstack, dst.Owned()
    ensures Standing(w', dst, a, b, At(a.elts, w'.i), At(b.elts, w'.j), elt', prev')
    ensures Right(w', dst, a, b) && Noticed(changed', w', dst, a, b)
    ensures dst.Grows()
  {
    hide Canonical, Nexts, Prevs, NoDup, Linked, Holds, FreeOk, Apart, CursorStays, Progress, ChangeSeen, Merge;
    ghost var e, c := dst.elts, dst.current;
    ChangeStep(changed, w.op, a.chunks, b.chunks, w'.i, w'.j, w.d, dst.chunks, w.k, Chunk(indx, bits));
    elt', changed' := ProduceChecked(dst, elt, prev, indx, bits, changed, w.k);
    CursorGrown(e, c, dst.elts, dst.current, w.s, w.c);
    NextAt(dst, elt', w.k);
    prev', elt' := elt', elt'.next;
    assert Source(dst, a);
    assert Source(dst, b);
  }

  lemma UnionNonZero(x: Bits, y: Bits)
    requires !BitsZero(x)
    ensures !BitsZero(BitsOp(Op.Ior, x, y))
  {
    ZeroTest(x);
    var n :| 0 <= n < BITMAP_ELEMENT_ALL_BITS && Test(x, n);
    TestOp(Op.Ior, x, y, n);
    ZeroTest(BitsOp(Op.Ior, x, y));
  }

  lemma IorMatch(w: Walk, dst: Bitmap, a: Bitmap, b: Bitmap, aElt: Element, bElt: Element,
                 elt: Element?, prev: Element?)
    requires Standing(w, dst, a, b, aElt, bElt, elt, prev) && Right(w, dst, a, b) && aElt.indx == bElt.indx
    requires w.op == Op.Ior
    ensures w.i < |a.elts| && w.j < |b.elts| && w.k <= |dst.chunks|
    ensures aElt.next == At(a.elts, w.i + 1) && bElt.next == At(b.elts, w.j + 1)
    ensures var x := Chunk(aElt.indx, BitsOp(Op.Ior, aElt.bits, bElt.bits));
            Progress(w.op, a.chunks, b.chunks, w.i + 1, w.j + 1, w.d, Written(dst.chunks, w.k, x), w.k + 1, false)
  {
    hide BitsOp, Rest, Merge, Spill, Untouched, FreeOk, Apart;
    MatchRight(w, dst, a, b, aElt, bElt, elt, prev);
    assert a.chunks[w.i] == Chunk(a.elts[w.i].indx, a.elts[w.i].bits);
    UnionNonZero(aElt.bits, bElt.bits);
  }

  /** One round of bitmap_ior's loop. */
  method IorStep(dst: Bitmap, a: Bitmap, b: Bitmap, aElt: Element?, bElt: Element?,
                 elt: Element?, prev: Element?, changed: bool, ghost w: Walk)
    returns (aElt': Element?, bElt': Element?, elt': Element?, prev': Element?, changed': bool, ghost w': Walk)
    requires Standing(w, dst, a, b, aElt, bElt, elt, prev) && Right(w, dst, a, b) && w.op == Op.Ior
    requires Noticed(changed, w, dst, a, b) && (aElt != null || bElt != null)
    modifies dst, dst.obstack, dst.Owned()
    ensures Standing(w', dst, a, b, aElt', bElt', elt', prev') && Right(w', dst, a, b) && Same(w', w)
    ensures Noticed(changed', w', dst, a, b)
    ensures Left(w') < Left(w)
    ensures dst.Grows()
  {
    hide Standing, Right, Noticed, Progress, Canonical, Merge, Source, BitsZero, BitsOp, Written;
    aElt', bElt' := aElt, bElt;
    Limits(w, dst, a, b, aElt, bElt, elt, prev);
    if aElt != null && bElt != null && aElt.indx == bElt.indx {
      IorMatch(w, dst, a, b, aElt, bElt, elt, prev);
      var x, y := aElt.bits, bElt.bits;
      var r: Bits := Zeros();
      var ix := BITMAP_ELEMENT_WORDS;
      while ix > 0
        invariant 0 <= ix <= BITMAP_ELEMENT_WORDS
        invariant forall v :: ix <= v < BITMAP_ELEMENT_WORDS ==> r[v] == WordOp(Op.Ior, x[v], y[v])
      {
        ix := ix - 1;
        r := r[ix := WordOp(Op.Ior, x[ix], y[ix])];
      }
      CombinedBits(Op.Ior, x, y, r);
      w' := w.(i := w.i + 1, j := w.j + 1, k := w.k + 1, spilt := false);
      aElt', bElt' := aElt.next, bElt.next;
      elt', prev', changed' := StoreSlot(dst, a, b, aElt, bElt, elt, prev, aElt.indx, r, changed, w, w');
    } else if bElt == null || (aElt != null && aElt.indx < bElt.indx) {
      TakeFirst(w, dst, a, b, aElt, bElt, elt, prev);
      w' := w.(i := w.i + 1, k := w.k + 1, spilt := false);
      aElt' := aElt.next;
      elt', prev', changed' := StoreSlot(dst, a, b, aElt, bElt, elt, prev, aElt.indx, aElt.bits, changed, w, w');
    } else {
      TakeSecond(w, dst, a, b, aElt, bElt, elt, prev);
      w' := w.(j := w.j + 1, k := w.k + 1, spilt := false);
      bElt' := bElt.next;
      elt', prev', changed' := StoreSlot(dst, a, b, aElt, bElt, elt, prev, bElt.indx, bElt.bits, changed, w, w');
    }
  }

  lemma Limits(w: Walk, dst: Bitmap, a: Bitmap, b: Bitmap, aElt: Element?, bElt: Element?,
               elt: Element?, prev: Element?)
    requires Standing(w, dst, a, b, aElt, bElt, elt, prev)
    ensures w.k <= |dst.chunks| && w.n == |a.elts| && w.m == |b.elts| && a != dst && b != dst
    ensures aElt == At(a.elts, w.i) && bElt == At(b.elts, w.j)
  {
  }

  /** Once the walk is complete: elements left over are a change too. */
  lemma ChangeEnd(changed: bool, w: Walk, dst: Bitmap, a: Bitmap, b: Bitmap, aElt: Element?, bElt: Element?,
                  elt: Element?, prev: Element?)
    requires Standing(w, dst, a, b, aElt, bElt, elt, prev) && Right(w, dst, a, b) && Complete(w, aElt, bElt)
    requires Noticed(changed, w, dst, a, b)
    ensures (changed || elt != null) <==> Merge(w.op, a.chunks, b.chunks) != w.d
  {
    hide Merge, Progress, Canonical, BitsZero, FreeOk, Apart;
    Results(w, dst, a, b, aElt, bElt, elt, prev);
  }

  /** bitmap_ior: dst = a | b, whatever dst held; the result says whether dst changed. */
  method Ior(dst: Bitmap, a: Bitmap, b: Bitmap, ghost p: nat) returns (changed: bool)
    requires dst.Shape() && Source(dst, a) && Source(dst, b)
    modifies dst, dst.obstack, dst.Owned()
    ensures dst.ListOk() && dst.chunks == Merge(Op.Ior, a.chunks, b.chunks)
    ensures dst.Grows()
    ensures changed <==> dst.chunks != old(dst.chunks)
    ensures (p < |old(dst.elts)| && old(dst.elts)[p] == old(dst.current)
             ==> (dst.CursorOk() <==> CursorKept(Op.Ior, old(dst.chunks), p, a.chunks, b.chunks)))
    ensures old(dst.elts) == [] ==> dst.CursorOk()
  {
    hide Standing, Right, Noticed, Left, Canonical, Merge, CursorKept, Source;
    changed := false;
    var dstElt, aElt, bElt := dst.first, a.first, b.first;
    var dstPrev: Element? := null;
    ghost var w0 := Walk(Op.Ior, 0, 0, 0, false, dst.elts, dst.chunks, dst.current, |a.elts|, |b.elts|);
    ghost var w := w0;
    Begin(w, dst, a, b);
    NoticeNothing(w, dst, a, b);
    Limits(w, dst, a, b, aElt, bElt, dstElt, dstPrev);
    while aElt != null || bElt != null
      invariant Standing(w, dst, a, b, aElt, bElt, dstElt, dstPrev) && Right(w, dst, a, b)
      invariant Noticed(changed, w, dst, a, b)
      invariant Same(w, w0) && dst.Grows()
      decreases Left(w)
    {
      aElt, bElt, dstElt, dstPrev, changed, w := IorStep(dst, a, b, aElt, bElt, dstElt, dstPrev, changed, w);
    }
    ChangeEnd(changed, w, dst, a, b, aElt, bElt, dstElt, dstPrev);
    if dstElt != null {
      changed := true;
    }
    End(dst, a, b, aElt, bElt, dstElt, dstPrev, w, p);
  }

  lemma NoticeNothing(w: Walk, dst: Bitmap, a: Bitmap, b: Bitmap)
    requires w.d == dst.chunks
    ensures Noticed(false, w, dst, a, b)
  {
  }
}
