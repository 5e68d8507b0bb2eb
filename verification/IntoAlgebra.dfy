/** The set operations that change their first operand in place. */
module IntoAlgebra {
  import opened Chunks
  import opened Elements
  import opened Bitmaps
  import opened Merging
  import opened SetAlgebra

  /** With the first k chunks final, the list c still turns into the merge of a and b. */
  ghost predicate Turns(op: Op, a: seq<Chunk>, b: seq<Chunk>, c: seq<Chunk>, k: nat, j: nat) {
    k <= |c| && j <= |b| && c[..k] + Rest(op, c, b, k, j) == Merge(op, a, b)
  }

  lemma TurnsStart(op: Op, a: seq<Chunk>, b: seq<Chunk>)
    ensures Turns(op, a, b, a, 0, 0)
  {
    assert a[0..] == a && b[0..] == b;
  }

  /** An element that only a has: kept or freed. */
  lemma TurnFirst(op: Op, a: seq<Chunk>, b: seq<Chunk>, c: seq<Chunk>, k: nat, j: nat)
    requires Turns(op, a, b, c, k, j) && TakesFirst(c, b, k, j)
    ensures if KeepsFirst(op) then Turns(op, a, b, c, k + 1, j)
            else Turns(op, a, b, Without(c, k), k, j)
  {
    hide Merge;
    RestFirst(op, c, b, k, j);
    if KeepsFirst(op) {
      assert c[..k+1] == c[..k] + [c[k]];
    } else {
      assert Without(c, k)[..k] == c[..k] && Without(c, k)[k..] == c[k+1..];
    }
  }

  /** An element that only b has: passed over or copied. */
  lemma TurnSecond(op: Op, a: seq<Chunk>, b: seq<Chunk>, c: seq<Chunk>, k: nat, j: nat)
    requires Turns(op, a, b, c, k, j) && TakesFirst(b, c, j, k)
    ensures if KeepsSecond(op) then Turns(op, a, b, With(c, k, b[j]), k + 1, j + 1)
            else Turns(op, a, b, c, k, j + 1)
  {
    hide Merge;
    RestSecond(op, c, b, k, j);
    if KeepsSecond(op) {
      var d := With(c, k, b[j]);
      assert d[..k+1] == c[..k] + [b[j]] && d[k+1..] == c[k..];
      assert Rest(op, d, b, k + 1, j + 1) == Rest(op, c, b, k, j + 1);
    }
  }

  /** Elements both have: combined, and freed if nothing is left. */
  lemma TurnMatch(op: Op, a: seq<Chunk>, b: seq<Chunk>, c: seq<Chunk>, k: nat, j: nat)
    requires Turns(op, a, b, c, k, j) && Matches(c, b, k, j)
    ensures var x := Combined(op, c[k], b[j]);
            if BitsZero(x.bits) then Turns(op, a, b, Without(c[k := x], k), k, j + 1)
            else Turns(op, a, b, c[k := x], k + 1, j + 1)
  {
    hide BitsZero, BitsOp, Merge, Combined;
    RestMatch(op, c, b, k, j);
    var x := Combined(op, c[k], b[j]);
    var d := c[k := x];
    if BitsZero(x.bits) {
      assert Without(d, k)[..k] == c[..k] && Without(d, k)[k..] == c[k+1..];
      assert Rest(op, Without(d, k), b, k, j + 1) == Rest(op, c, b, k + 1, j + 1);
    } else {
      assert d[..k+1] == c[..k] + [x] && d[k+1..] == c[k+1..];
      assert Rest(op, d, b, k + 1, j + 1) == Rest(op, c, b, k + 1, j + 1);
    }
  }

  lemma TurnsEnd(op: Op, a: seq<Chunk>, b: seq<Chunk>, c: seq<Chunk>, k: nat, j: nat)
    requires Turns(op, a, b, c, k, j) && (k == |c| || j == |b|) && (j == |b| || !KeepsSecond(op))
    ensures op == And ==> c[..k] == Merge(op, a, b)
    ensures op != And ==> c == Merge(op, a, b)
  {
    MergeEmpty(op, c[k..], b[j..]);
    assert c == c[..k] + c[k..];
  }

  /** The pointers of a walk along a at position k and b at position j. */
  ghost predicate Along(a: Bitmap, b: Bitmap, aElt: Element?, bElt: Element?, k: nat, j: nat)
    reads a, a.obstack, a.Owned(), b, b.elts
  {
    && a.Shape() && a.CursorIn() && Source(a, b)
    && k <= |a.elts| && j <= |b.elts|
    && aElt == At(a.elts, k) && bElt == At(b.elts, j)
  }

  lemma AlongFacts(a: Bitmap, b: Bitmap, aElt: Element?, bElt: Element?, k: nat, j: nat)
    requires Along(a, b, aElt, bElt, k, j)
    ensures a != b && Canonical(b.chunks) && |a.chunks| == |a.elts| && |b.chunks| == |b.elts|
    ensures k <= |a.elts| && j <= |b.elts|
    ensures aElt != null <==> k < |a.elts|
    ensures bElt != null <==> j < |b.elts|
    ensures aElt != null ==> a.chunks[k] == Chunk(aElt.indx, aElt.bits) && Along(a, b, aElt.next, bElt, k + 1, j)
    ensures bElt != null ==> b.chunks[j] == Chunk(bElt.indx, bElt.bits) && Along(a, b, aElt, bElt.next, k, j + 1)
  {
    hide FreeOk, Apart, BitsZero;
    if aElt != null {
      NextAt(a, aElt, k);
      BitsAt(a, k);
    }
    if bElt != null {
      NextAt(b, bElt, j);
      assert b.chunks[j] == Chunk(b.elts[j].indx, b.elts[j].bits);
    }
  }

  /** Free the element at position k and go on to the next. */
  method FreeHere(a: Bitmap, b: Bitmap, aElt: Element, bElt: Element?, ghost k: nat, ghost j: nat)
    returns (next: Element?)
    requires Along(a, b, aElt, bElt, k, j)
    modifies a, a.obstack, a.Owned()
    ensures Along(a, b, next, bElt, k, j)
    ensures k < |old(a.chunks)| && a.chunks == Without(old(a.chunks), k)
    ensures k < |old(a.elts)| && a.elts == Without(old(a.elts), k)
    ensures a.Owned() == old(a.Owned())
    ensures old(a.CursorOk()) ==> a.CursorOk()
  {
    hide Canonical, FreeOk, Apart, Nexts, Prevs, NoDup, Linked, Holds;
    AlongFacts(a, b, aElt, bElt, k, j);
    next := aElt.next;
    a.ElementFree(aElt, k);
    assert Source(a, b);
  }

  /** Give the element at position k new bits. */
  method FillHere(a: Bitmap, b: Bitmap, aElt: Element, bElt: Element?, r: Bits, ghost k: nat, ghost j: nat)
    requires Along(a, b, aElt, bElt, k, j)
    modifies a`chunks, aElt`indx, aElt`bits
    ensures Along(a, b, aElt, bElt, k, j)
    ensures k < |old(a.chunks)| && a.chunks == old(a.chunks)[k := Chunk(old(a.chunks)[k].indx, r)]
    ensures old(a.CursorOk()) ==> a.CursorOk()
  {
    hide Canonical, FreeOk, Apart, Nexts, Prevs, NoDup, Linked, Holds;
    AlongFacts(a, b, aElt, bElt, k, j);
    assert aElt in SetOf(a.elts);
    a.Fill(aElt, aElt.indx, r, k);
    assert Source(a, b);
  }

  /** Insert a copy of the element of b before position k. */
  method InsertHere(a: Bitmap, b: Bitmap, aElt: Element?, bElt: Element, prev: Element?, ghost k: nat, ghost j: nat)
    returns (dst: Element)
    requires Along(a, b, aElt, bElt, k, j) && prev == Before(a.elts, k)
    modifies a, a.obstack, a.Owned()
    ensures Along(a, b, aElt, bElt.next, k + 1, j + 1) && dst == Before(a.elts, k + 1)
    ensures j < |b.chunks| && a.chunks == With(old(a.chunks), k, b.chunks[j])
    ensures a.elts == With(old(a.elts), k, dst)
    ensures a.Grows()
  {
    hide Canonical, FreeOk, Apart, Nexts, Prevs, NoDup, Linked, Holds;
    AlongFacts(a, b, aElt, bElt, k, j);
    ghost var s, c := a.elts, a.current;
    dst := a.EltInsertAfter(prev, k);
    CursorMoved(s, c, a.elts, a.current, k, dst);
    PoolAllocated(a.obstack.lists);
    assert dst == a.elts[k] && dst in SetOf(a.elts);
    a.Fill(dst, bElt.indx, bElt.bits, k);
    assert Source(a, b);
  }

  lemma CursorMoved(s: seq<Element>, c: Element?, s': seq<Element>, c': Element?, k: nat, x: Element)
    requires k <= |s| && s' == With(s, k, x) && c' == if c == null then x else c
    requires c != null ==> c in s
    ensures c' in s' && k < |s'| && At(s', k + 1) == At(s, k)
  {
    if c != null {
      var i :| 0 <= i < |s| && s[i] == c;
      assert s'[if i < k then i else i + 1] == c;
    }
    assert s'[k] == x;
  }
  /** Store the combination of elements with the same number in a, or free a's element if nothing is left. */
  method StoreHere(a: Bitmap, b: Bitmap, aElt: Element, bElt: Element, r: Bits, ior: bool, ghost k: nat, ghost j: nat)
    returns (next: Element?)
    requires Along(a, b, aElt, bElt, k, j)
    modifies a, a.obstack, a.Owned()
    ensures Along(a, b, next, bElt.next, if ior then k + 1 else k, j + 1)
    ensures k < |old(a.chunks)|
    ensures var c := old(a.chunks)[k := Chunk(old(a.chunks)[k].indx, r)];
            a.chunks == if ior then c else Without(c, k)
    ensures a.Owned() == old(a.Owned())
    ensures old(a.CursorOk()) ==> a.CursorOk()
    ensures |a.elts| - (if ior then k + 1 else k) < |old(a.elts)| - k
    ensures ior ==> aElt == Before(a.elts, k + 1)
    ensures !ior ==> a.elts == Without(old(a.elts), k)
  {
    hide Canonical, FreeOk, Apart, Nexts, Prevs, NoDup, Linked, Holds;
    AlongFacts(a, b, aElt, bElt, k, j);
    next := aElt.next;
    FillHere(a, b, aElt, bElt, r, k, j);
    if !ior {
      next := FreeHere(a, b, aElt, bElt, k, j);
    } else {
      AlongFacts(a, b, aElt, bElt, k, j);
    }
    AlongFacts(a, b, next, bElt, if ior then k + 1 else k, j);
  }

  // ---------- bitmap_and_into ----------

  lemma AscendingKept(c: seq<Chunk>, k: nat, b: Bits)
    requires Ascending(c) && k < |c|
    ensures Ascending(Without(c, k)) && Ascending(c[k := Chunk(c[k].indx, b)])
    ensures Ascending(Without(c[k := Chunk(c[k].indx, b)], k))
  {
    assert Without(c[k := Chunk(c[k].indx, b)], k) == Without(c, k);
  }

  /** bitmap_and_into so far: s is what a held at first. */
  ghost predicate AndGoing(a: Bitmap, b: Bitmap, aElt: Element?, bElt: Element?, k: nat, j: nat, s: seq<Chunk>)
    reads a, a.obstack, a.Owned(), b, b.elts
  {
    && Along(a, b, aElt, bElt, k, j) && a.CursorOk() && Ascending(a.chunks)
    && Turns(Op.And, s, b.chunks, a.chunks, k, j)
  }

  /** Elements with the same number: combine, and free the element of a if nothing is left. */
  method AndMatch(a: Bitmap, b: Bitmap, aElt: Element, bElt: Element, ghost k: nat, ghost j: nat,
                  ghost s: seq<Chunk>)
    returns (next: Element?, ghost k': nat)
    requires AndGoing(a, b, aElt, bElt, k, j, s) && aElt.indx == bElt.indx
    modifies a, a.obstack, a.Owned()
    ensures AndGoing(a, b, next, bElt.next, k', j + 1, s)
    ensures a.Owned() == old(a.Owned())
    ensures |a.elts| - k' < |old(a.elts)| - k
  {
    hide Turns, Canonical, FreeOk, Apart, Nexts, Prevs, NoDup, Linked, Holds, Ascending, BitsOp, BitsZero;
    AlongFacts(a, b, aElt, bElt, k, j);
    ghost var c := a.chunks;
    TurnMatch(Op.And, s, b.chunks, c, k, j);
    var x, y := aElt.bits, bElt.bits;
    var r: Bits, ior := Zeros(), false;
    var ix := BITMAP_ELEMENT_WORDS;
    while ix > 0
      invariant 0 <= ix <= BITMAP_ELEMENT_WORDS
      invariant forall v :: ix <= v < BITMAP_ELEMENT_WORDS ==> r[v] == WordOp(Op.And, x[v], y[v])
      invariant ior == ((ix == 0 && NonZero(r[0])) || (ix <= 1 && NonZero(r[1])))
    {
      ix := ix - 1;
      r := r[ix := WordOp(Op.And, x[ix], y[ix])];
      ior := ior || NonZero(r[ix]);
    }
    CombinedBits(Op.And, x, y, r);
    AscendingKept(c, k, r);
    next := StoreHere(a, b, aElt, bElt, r, ior, k, j);
    k' := if ior then k + 1 else k;
  }

  /** One round of bitmap_and_into's loop. */
  method AndIntoStep(a: Bitmap, b: Bitmap, aElt: Element, bElt: Element, ghost k: nat, ghost j: nat,
                     ghost s: seq<Chunk>)
    returns (aElt': Element?, bElt': Element?, ghost k': nat, ghost j': nat)
    requires AndGoing(a, b, aElt, bElt, k, j, s)
    modifies a, a.obstack, a.Owned()
    ensures AndGoing(a, b, aElt', bElt', k', j', s)
    ensures a.Owned() == old(a.Owned())
    ensures |a.elts| - k' + |b.elts| - j' < |old(a.elts)| - k + |b.elts| - j
  {
    hide Turns, Canonical, FreeOk, Apart, Nexts, Prevs, NoDup, Linked, Holds, Ascending;
    aElt', bElt', k', j' := aElt, bElt, k, j;
    AlongFacts(a, b, aElt, bElt, k, j);
    if aElt.indx < bElt.indx {
      TurnFirst(Op.And, s, b.chunks, a.chunks, k, j);
      AscendingKept(a.chunks, k, Zeros());
      aElt' := FreeHere(a, b, aElt, bElt, k, j);
    } else if bElt.indx < aElt.indx {
      TurnSecond(Op.And, s, b.chunks, a.chunks, k, j);
      bElt', j' := bElt.next, j + 1;
    } else {
      aElt', k' := AndMatch(a, b, aElt, bElt, k, j, s);
      bElt', j' := bElt.next, j + 1;
    }
  }

  /** bitmap_and_into: a &= b. */
  method AndInto(a: Bitmap, b: Bitmap)
    requires a.Valid() && (a == b || Source(a, b))
    modifies a, a.obstack, a.Owned()
    ensures a.Valid() && a.chunks == Merge(Op.And, old(a.chunks), old(b.chunks))
    ensures a.Owned() == old(a.Owned())
  {
    hide AndGoing, Source, Canonical, Merge, FreeOk, Apart, Nexts, Prevs, NoDup, Linked, Holds, Ascending;
    if a == b {
      Self(a);
      return;
    }
    ghost var s := a.chunks;
    var aElt, bElt := a.first, b.first;
    ghost var k: nat, j: nat := 0, 0;
    AndBegin(a, b);
    while aElt != null && bElt != null
      invariant AndGoing(a, b, aElt, bElt, k, j, s)
      invariant a.Owned() == old(a.Owned())
      invariant k <= |a.elts| && j <= |b.elts|
      decreases |a.elts| - k + |b.elts| - j
    {
      aElt, bElt, k, j := AndIntoStep(a, b, aElt, bElt, k, j, s);
      AndBounds(a, b, aElt, bElt, k, j, s);
    }
    AndEnd(a, b, aElt, bElt, k, j, s);
    a.EltClearFrom(aElt, k);
  }

  lemma Self(a: Bitmap)
    requires a.Valid()
    ensures Merge(Op.And, a.chunks, a.chunks) == a.chunks
    ensures Merge(Op.AndCompl, a.chunks, a.chunks) == [] && Merge(Op.Xor, a.chunks, a.chunks) == []
  {
    MergeSelf(a.chunks);
  }

  lemma AndBegin(a: Bitmap, b: Bitmap)
    requires a.Valid() && Source(a, b)
    ensures AndGoing(a, b, a.first, b.first, 0, 0, a.chunks)
  {
    TurnsStart(Op.And, a.chunks, b.chunks);
  }

  lemma AndBounds(a: Bitmap, b: Bitmap, aElt: Element?, bElt: Element?, k: nat, j: nat, s: seq<Chunk>)
    requires AndGoing(a, b, aElt, bElt, k, j, s)
    ensures k <= |a.elts| && j <= |b.elts|
  {
  }

  /** At the end the first k chunks are the result, and the cursor is within them or beyond their numbers. */
  lemma AndEnd(a: Bitmap, b: Bitmap, aElt: Element?, bElt: Element?, k: nat, j: nat, s: seq<Chunk>)
    requires AndGoing(a, b, aElt, bElt, k, j, s) && (aElt == null || bElt == null)
    requires Canonical(s)
    ensures a != b && a.Shape() && a.CursorOk() && k <= |a.elts| && aElt == At(a.elts, k)
    ensures a.chunks[..k] == Merge(Op.And, s, b.chunks) && Canonical(a.chunks[..k])
    ensures aElt != null && k > 0 ==> a.current in a.elts[..k] || a.current.indx > a.elts[k-1].indx
  {
    hide Merge, BitsZero, FreeOk, Apart;
    AlongFacts(a, b, aElt, bElt, k, j);
    TurnsEnd(Op.And, s, b.chunks, a.chunks, k, j);
    MergeCanonical(Op.And, s, b.chunks, 0);
    if aElt != null && k > 0 {
      ghost var p := a.Position();
      assert p < k ==> a.elts[..k][p] == a.current;
      BitsAt(a, k - 1);
      BitsAt(a, p);
    }
  }
  // ---------- bitmap_and_compl_into ----------

  /** A change was seen exactly if some bit of s was cleared; nothing changed before that. */
  ghost predicate Cleared(changed: bool, s: seq<Chunk>, b: seq<Chunk>, c: seq<Chunk>) {
    if changed then exists m: nat :: Member(s, m) && Member(b, m) else c == s
  }

  ghost predicate ComplGoing(a: Bitmap, b: Bitmap, aElt: Element?, bElt: Element?, k: nat, j: nat, s: seq<Chunk>,
                             changed: bool)
    reads a, a.obstack, a.Owned(), b, b.elts
  {
    && Along(a, b, aElt, bElt, k, j) && a.CursorOk()
    && Turns(Op.AndCompl, s, b.chunks, a.chunks, k, j)
    && Cleared(changed, s, b.chunks, a.chunks)
  }

  /** a ^ (a & b) is a & ~b. */
  lemma ComplWord(x: Word, y: Word)
    ensures WordOp(Op.Xor, x, WordOp(Op.And, x, y)) == WordOp(Op.AndCompl, x, y)
  {
  }

  /** If nothing is cleared nothing changes, otherwise some common bit is. */
  lemma ClearedMatch(changed: bool, s: seq<Chunk>, b: seq<Chunk>, c: seq<Chunk>, k: nat, j: nat, cleared: bool)
    requires Cleared(changed, s, b, c) && Canonical(s) && Canonical(b) && k < |c| && j < |b| && c[k].indx == b[j].indx
    requires cleared == !BitsZero(BitsOp(Op.And, c[k].bits, b[j].bits))
    ensures var x := Combined(Op.AndCompl, c[k], b[j]);
            var d := if BitsZero(x.bits) then Without(c[k := x], k) else c[k := x];
            Cleared(changed || cleared, s, b, d)
  {
    var both := BitsOp(Op.And, c[k].bits, b[j].bits);
    var x := Combined(Op.AndCompl, c[k], b[j]);
    ZeroTest(both);
    if !changed {
      if cleared {
        var n :| 0 <= n < BITMAP_ELEMENT_ALL_BITS && Test(both, n);
        TestOp(Op.And, c[k].bits, b[j].bits, n);
        BitIn(s, k, n);
        BitIn(b, j, n);
      } else {
        forall n | 0 <= n < BITMAP_ELEMENT_ALL_BITS ensures Test(x.bits, n) == Test(c[k].bits, n) {
          TestOp(Op.And, c[k].bits, b[j].bits, n);
          TestOp(Op.AndCompl, c[k].bits, b[j].bits, n);
        }
        BitsExtensional(x.bits, c[k].bits);
        assert c[k := x] == c;
      }
    }
  }

  /** Bit n of chunk k is a member. */
  lemma BitIn(s: seq<Chunk>, k: nat, n: nat)
    requires k < |s| && n < BITMAP_ELEMENT_ALL_BITS && Test(s[k].bits, n)
    ensures Member(s, s[k].indx * BITMAP_ELEMENT_ALL_BITS + n)
  {
    var m := s[k].indx * BITMAP_ELEMENT_ALL_BITS + n;
    assert m / BITMAP_ELEMENT_ALL_BITS == s[k].indx && m % BITMAP_ELEMENT_ALL_BITS == n;
  }

  lemma ClearedEnd(changed: bool, s: seq<Chunk>, b: seq<Chunk>, c: seq<Chunk>, k: nat, j: nat)
    requires Cleared(changed, s, b, c) && Turns(Op.AndCompl, s, b, c, k, j) && (k == |c| || j == |b|)
    requires Canonical(s) && Canonical(b)
    ensures c == Merge(Op.AndCompl, s, b) && Canonical(c)
    ensures changed <==> c != s
  {
    hide Merge;
    TurnsEnd(Op.AndCompl, s, b, c, k, j);
    MergeCanonical(Op.AndCompl, s, b, 0);
    if changed {
      var m: nat :| Member(s, m) && Member(b, m);
      MergeMember(Op.AndCompl, s, b, m);
    }
  }

  method ComplMatch(a: Bitmap, b: Bitmap, aElt: Element, bElt: Element, changed: bool, ghost k: nat, ghost j: nat,
                    ghost s: seq<Chunk>)
    returns (next: Element?, changed': bool, ghost k': nat)
    requires ComplGoing(a, b, aElt, bElt, k, j, s, changed) && aElt.indx == bElt.indx && Canonical(s)
    modifies a, a.obstack, a.Owned()
    ensures ComplGoing(a, b, next, bElt.next, k', j + 1, s, changed')
    ensures a.Owned() == old(a.Owned())
    ensures |a.elts| - k' < |old(a.elts)| - k
  {
    hide Turns, Cleared, Canonical, FreeOk, Apart, Nexts, Prevs, NoDup, Linked, Holds, BitsOp, BitsZero;
    AlongFacts(a, b, aElt, bElt, k, j);
    ghost var c := a.chunks;
    var x, y := aElt.bits, bElt.bits;
    var r: Bits, ior, any := Zeros(), false, false;
    ghost var cleared: Bits := Zeros();
    ComplWord(x[0], y[0]);
    ComplWord(x[1], y[1]);
    var ix := BITMAP_ELEMENT_WORDS;
    while ix > 0
      invariant 0 <= ix <= BITMAP_ELEMENT_WORDS
      invariant forall v :: ix <= v < BITMAP_ELEMENT_WORDS ==> r[v] == WordOp(Op.AndCompl, x[v], y[v])
      invariant forall v :: ix <= v < BITMAP_ELEMENT_WORDS ==> cleared[v] == WordOp(Op.And, x[v], y[v])
      invariant ior == ((ix == 0 && NonZero(r[0])) || (ix <= 1 && NonZero(r[1])))
      invariant any == ((ix == 0 && NonZero(cleared[0])) || (ix <= 1 && NonZero(cleared[1])))
    {
      ix := ix - 1;
      var word := WordOp(Op.And, x[ix], y[ix]);
      cleared := cleared[ix := word];
      r := r[ix := WordOp(Op.Xor, x[ix], word)];
      any := any || NonZero(word);
      ior := ior || NonZero(r[ix]);
    }
    CombinedBits(Op.AndCompl, x, y, r);
    CombinedBits(Op.And, x, y, cleared);
    changed' := changed || any;
    TurnMatch(Op.AndCompl, s, b.chunks, c, k, j);
    ClearedMatch(changed, s, b.chunks, c, k, j, any);
    next := StoreHere(a, b, aElt, bElt, r, ior, k, j);
    k' := if ior then k + 1 else k;
  }
  /** One round of bitmap_and_compl_into's loop. */
  method AndComplIntoStep(a: Bitmap, b: Bitmap, aElt: Element, bElt: Element, changed: bool, ghost k: nat, ghost j: nat,
                          ghost s: seq<Chunk>)
    returns (aElt': Element?, bElt': Element?, changed': bool, ghost k': nat, ghost j': nat)
    requires ComplGoing(a, b, aElt, bElt, k, j, s, changed) && Canonical(s)
    modifies a, a.obstack, a.Owned()
    ensures ComplGoing(a, b, aElt', bElt', k', j', s, changed')
    ensures a.Owned() == old(a.Owned())
    ensures |a.elts| - k' + |b.elts| - j' < |old(a.elts)| - k + |b.elts| - j
  {
    hide Turns, Cleared, Canonical, FreeOk, Apart, Nexts, Prevs, NoDup, Linked, Holds;
    aElt', bElt', changed', k', j' := aElt, bElt, changed, k, j;
    AlongFacts(a, b, aElt, bElt, k, j);
    if aElt.indx < bElt.indx {
      TurnFirst(Op.AndCompl, s, b.chunks, a.chunks, k, j);
      aElt', k' := aElt.next, k + 1;
    } else if bElt.indx < aElt.indx {
      TurnSecond(Op.AndCompl, s, b.chunks, a.chunks, k, j);
      bElt', j' := bElt.next, j + 1;
    } else {
      aElt', changed', k' := ComplMatch(a, b, aElt, bElt, changed, k, j, s);
      bElt', j' := bElt.next, j + 1;
    }
  }

  /** bitmap_and_compl_into: a &= ~b; the result says whether a changed. */
  method AndComplInto(a: Bitmap, b: Bitmap) returns (changed: bool)
    requires a.Valid() && (a == b || Source(a, b))
    modifies a, a.obstack, a.Owned()
    ensures a.Valid() && a.chunks == Merge(Op.AndCompl, old(a.chunks), old(b.chunks))
    ensures changed <==> a.chunks != old(a.chunks)
    ensures a.Owned() == old(a.Owned())
  {
    hide ComplGoing, Source, Canonical, Merge, FreeOk, Apart, Nexts, Prevs, NoDup, Linked, Holds;
    if a == b {
      Self(a);
      Empty(a);
      if a.first == null {
        return false;
      }
      a.Clear();
      return true;
    }
    ghost var s := a.chunks;
    var aElt, bElt := a.first, b.first;
    changed := false;
    ghost var k: nat, j: nat := 0, 0;
    ComplBegin(a, b);
    while aElt != null && bElt != null
      invariant ComplGoing(a, b, aElt, bElt, k, j, s, changed)
      invariant a.Owned() == old(a.Owned())
      invariant k <= |a.elts| && j <= |b.elts|
      decreases |a.elts| - k + |b.elts| - j
    {
      aElt, bElt, changed, k, j := AndComplIntoStep(a, b, aElt, bElt, changed, k, j, s);
      ComplBounds(a, b, aElt, bElt, k, j, s, changed);
    }
    ComplEnd(a, b, aElt, bElt, k, j, s, changed);
  }

  lemma Empty(a: Bitmap)
    requires a.Valid()
    ensures a.first == null <==> a.chunks == []
  {
  }

  lemma ComplBegin(a: Bitmap, b: Bitmap)
    requires a.Valid() && Source(a, b)
    ensures ComplGoing(a, b, a.first, b.first, 0, 0, a.chunks, false)
  {
    TurnsStart(Op.AndCompl, a.chunks, b.chunks);
  }

  lemma ComplBounds(a: Bitmap, b: Bitmap, aElt: Element?, bElt: Element?, k: nat, j: nat, s: seq<Chunk>, changed: bool)
    requires ComplGoing(a, b, aElt, bElt, k, j, s, changed)
    ensures k <= |a.elts| && j <= |b.elts|
  {
  }

  lemma ComplEnd(a: Bitmap, b: Bitmap, aElt: Element?, bElt: Element?, k: nat, j: nat, s: seq<Chunk>, changed: bool)
    requires ComplGoing(a, b, aElt, bElt, k, j, s, changed) && (aElt == null || bElt == null) && Canonical(s)
    ensures a.Valid() && a.chunks == Merge(Op.AndCompl, s, b.chunks) && (changed <==> a.chunks != s)
  {
    hide Merge, BitsZero, Turns, Cleared, FreeOk, Apart;
    AlongFacts(a, b, aElt, bElt, k, j);
    ClearedEnd(changed, s, b.chunks, a.chunks, k, j);
  }

  // ---------- bitmap_ior_into ----------

  /** A change was seen exactly if some bit of b was added; nothing changed before that. */
  ghost predicate Added(changed: bool, s: seq<Chunk>, b: seq<Chunk>, c: seq<Chunk>) {
    if changed then exists m: nat :: Member(b, m) && !Member(s, m) else c == s
  }

  /** The chunks of b not yet passed lie beyond the first k chunks of c. */
  ghost predicate Beyond(c: seq<Chunk>, b: seq<Chunk>, k: nat, j: nat)
    requires k <= |c| && j <= |b|
  {
    k > 0 && j < |b| ==> c[k-1].indx < b[j].indx
  }

  lemma AddedInsert(changed: bool, s: seq<Chunk>, b: seq<Chunk>, c: seq<Chunk>, k: nat, j: nat)
    requires Added(changed, s, b, c) && Canonical(s) && Canonical(b) && k <= |c| && j < |b|
    requires Beyond(c, b, k, j) && (k < |c| ==> b[j].indx < c[k].indx)
    ensures Added(true, s, b, With(c, k, b[j]))
    ensures Beyond(With(c, k, b[j]), b, k + 1, j + 1)
  {
    if !changed {
      ZeroTest(b[j].bits);
      var n :| 0 <= n < BITMAP_ELEMENT_ALL_BITS && Test(b[j].bits, n);
      BitIn(b, j, n);
      var m := b[j].indx * BITMAP_ELEMENT_ALL_BITS + n;
      assert m / BITMAP_ELEMENT_ALL_BITS == b[j].indx;
      NoChunkBetween(c, k, b[j].indx);
      NoChunkMember(c, m);
    }
  }

  lemma NoChunkBetween(c: seq<Chunk>, k: nat, i: nat)
    requires Canonical(c) && k <= |c| && (k > 0 ==> c[k-1].indx < i) && (k < |c| ==> i < c[k].indx)
    ensures NoChunk(c, i)
  {
  }

  lemma AddedMatch(changed: bool, s: seq<Chunk>, b: seq<Chunk>, c: seq<Chunk>, k: nat, j: nat)
    requires Added(changed, s, b, c) && Canonical(s) && Canonical(b) && k < |c| && j < |b| && c[k].indx == b[j].indx
    ensures var x := Combined(Op.Ior, c[k], b[j]);
            Added(changed || x.bits != c[k].bits, s, b, c[k := x]) && Beyond(c[k := x], b, k + 1, j + 1)
  {
    var x := Combined(Op.Ior, c[k], b[j]);
    if !changed {
      if x.bits == c[k].bits {
        assert c[k := x] == c;
      } else {
        var n := NewBit(c[k].bits, b[j].bits);
        BitIn(b, j, n);
        var m := b[j].indx * BITMAP_ELEMENT_ALL_BITS + n;
        assert m / BITMAP_ELEMENT_ALL_BITS == b[j].indx && m % BITMAP_ELEMENT_ALL_BITS == n;
        MemberAt(s, k, m);
      }
    }
  }

  /** If a union is not its first operand, the second has a bit that the first has not. */
  lemma NewBit(x: Bits, y: Bits) returns (n: nat)
    requires BitsOp(Op.Ior, x, y) != x
    ensures n < BITMAP_ELEMENT_ALL_BITS && Test(y, n) && !Test(x, n)
  {
    if forall n :: 0 <= n < BITMAP_ELEMENT_ALL_BITS && Test(y, n) ==> Test(x, n) {
      forall n | 0 <= n < BITMAP_ELEMENT_ALL_BITS ensures Test(BitsOp(Op.Ior, x, y), n) == Test(x, n) {
        TestOp(Op.Ior, x, y, n);
      }
      BitsExtensional(BitsOp(Op.Ior, x, y), x);
    }
    n :| 0 <= n < BITMAP_ELEMENT_ALL_BITS && Test(y, n) && !Test(x, n);
  }

  lemma AddedEnd(changed: bool, s: seq<Chunk>, b: seq<Chunk>, c: seq<Chunk>, k: nat, j: nat)
    requires Added(changed, s, b, c) && Turns(Op.Ior, s, b, c, k, j) && j == |b|
    requires Canonical(s) && Canonical(b)
    ensures c == Merge(Op.Ior, s, b) && Canonical(c)
    ensures changed <==> c != s
  {
    hide Merge;
    TurnsEnd(Op.Ior, s, b, c, k, j);
    MergeCanonical(Op.Ior, s, b, 0);
    if changed {
      var m: nat :| Member(b, m) && !Member(s, m);
      MergeMember(Op.Ior, s, b, m);
    }
  }
  ghost predicate IorGoing(a: Bitmap, b: Bitmap, aElt: Element?, bElt: Element?, prev: Element?, k: nat, j: nat,
                           s: seq<Chunk>, changed: bool)
    reads a, a.obstack, a.Owned(), b, b.elts
  {
    && Along(a, b, aElt, bElt, k, j) && prev == Before(a.elts, k)
    && Turns(Op.Ior, s, b.chunks, a.chunks, k, j)
    && Added(changed, s, b.chunks, a.chunks) && Beyond(a.chunks, b.chunks, k, j)
  }

  /** Add the words of b's element to a's, noticing whether they change it. */
  method IorMatch(a: Bitmap, b: Bitmap, aElt: Element, bElt: Element, prev: Element?, changed: bool,
                  ghost k: nat, ghost j: nat, ghost s: seq<Chunk>)
    returns (changed': bool)
    requires IorGoing(a, b, aElt, bElt, prev, k, j, s, changed) && aElt.indx == bElt.indx && Canonical(s)
    modifies a`chunks, aElt`indx, aElt`bits
    ensures IorGoing(a, b, aElt.next, bElt.next, aElt, k + 1, j + 1, s, changed')
  {
    hide Turns, Added, Beyond, Canonical, FreeOk, Apart, Nexts, Prevs, NoDup, Linked, Holds, BitsOp, BitsZero, Merge;
    AlongFacts(a, b, aElt, bElt, k, j);
    ghost var c := a.chunks;
    var x, y := aElt.bits, bElt.bits;
    var r: Bits := Zeros();
    var ix := BITMAP_ELEMENT_WORDS;
    while ix > 0
      invariant 0 <= ix <= BITMAP_ELEMENT_WORDS
      invariant forall v :: ix <= v < BITMAP_ELEMENT_WORDS ==> r[v] == WordOp(Op.Ior, x[v], y[v])
    {
      ix := ix - 1;
      r := r[ix := WordOp(Op.Ior, x[ix], y[ix])];
    }
    CombinedBits(Op.Ior, x, y, r);
    TurnUnion(s, b.chunks, c, k, j);
    AddedMatch(changed, s, b.chunks, c, k, j);
    changed' := FillNoticed(a, b, aElt, bElt, r, changed, k, j);
    assert prev == Before(a.elts, k);
    AlongFacts(a, b, aElt, bElt, k, j);
    AlongFacts(a, b, aElt.next, bElt, k + 1, j);
  }

  lemma TurnUnion(s: seq<Chunk>, b: seq<Chunk>, c: seq<Chunk>, k: nat, j: nat)
    requires Turns(Op.Ior, s, b, c, k, j) && Matches(c, b, k, j) && Canonical(b)
    ensures Turns(Op.Ior, s, b, c[k := Combined(Op.Ior, c[k], b[j])], k + 1, j + 1)
  {
    hide Turns;
    TurnMatch(Op.Ior, s, b, c, k, j);
    UnionSecondNonZero(c[k].bits, b[j].bits);
  }

  lemma UnionSecondNonZero(x: Bits, y: Bits)
    requires !BitsZero(y)
    ensures !BitsZero(BitsOp(Op.Ior, x, y))
  {
    ZeroTest(y);
    var n :| 0 <= n < BITMAP_ELEMENT_ALL_BITS && Test(y, n);
    TestOp(Op.Ior, x, y, n);
    ZeroTest(BitsOp(Op.Ior, x, y));
  }

  /** Store new bits: without comparing once a change was seen, comparing word by word before. */
  method FillNoticed(a: Bitmap, b: Bitmap, aElt: Element, bElt: Element?, r: Bits, changed: bool,
                     ghost k: nat, ghost j: nat)
    returns (changed': bool)
    requires Along(a, b, aElt, bElt, k, j)
    modifies a`chunks, aElt`indx, aElt`bits
    ensures Along(a, b, aElt, bElt, k, j)
    ensures k < |old(a.chunks)| && a.chunks == old(a.chunks)[k := Chunk(old(a.chunks)[k].indx, r)]
    ensures changed' == (changed || r != old(a.chunks)[k].bits)
  {
    hide Canonical, FreeOk, Apart, Nexts, Prevs, NoDup, Linked, Holds;
    AlongFacts(a, b, aElt, bElt, k, j);
    assert aElt in SetOf(a.elts);
    changed' := changed;
    if changed {
      a.Fill(aElt, aElt.indx, r, k);
    } else {
      changed' := StoreWords(a, aElt, r, k);
    }
    assert Source(a, b);
  }

  /** One round of bitmap_ior_into's loop. */
  method IorIntoStep(a: Bitmap, b: Bitmap, aElt: Element?, bElt: Element, prev: Element?, changed: bool,
                     ghost k: nat, ghost j: nat, ghost s: seq<Chunk>)
    returns (aElt': Element?, bElt': Element?, prev': Element?, changed': bool, ghost k': nat, ghost j': nat)
    requires IorGoing(a, b, aElt, bElt, prev, k, j, s, changed) && Canonical(s)
    modifies a, a.obstack, a.Owned()
    ensures IorGoing(a, b, aElt', bElt', prev', k', j', s, changed')
    ensures a.Grows()
    ensures |a.elts| - k' + |b.elts| - j' < |old(a.elts)| - k + |b.elts| - j
  {
    hide Turns, Added, Beyond, Canonical, FreeOk, Apart, Nexts, Prevs, NoDup, Linked, Holds;
    aElt', bElt', prev', changed', k', j' := aElt, bElt, prev, changed, k, j;
    AlongFacts(a, b, aElt, bElt, k, j);
    if aElt == null || bElt.indx < aElt.indx {
      TurnSecond(Op.Ior, s, b.chunks, a.chunks, k, j);
      AddedInsert(changed, s, b.chunks, a.chunks, k, j);
      prev' := InsertHere(a, b, aElt, bElt, prev, k, j);
      bElt', changed', k', j' := bElt.next, true, k + 1, j + 1;
    } else if aElt.indx < bElt.indx {
      TurnFirst(Op.Ior, s, b.chunks, a.chunks, k, j);
      PassBeyond(a.chunks, b.chunks, k, j);
      prev', aElt', k' := aElt, aElt.next, k + 1;
    } else {
      changed' := IorMatch(a, b, aElt, bElt, prev, changed, k, j, s);
      bElt', prev', aElt', k', j' := bElt.next, aElt, aElt.next, k + 1, j + 1;
    }
  }

  lemma PassBeyond(c: seq<Chunk>, b: seq<Chunk>, k: nat, j: nat)
    requires k < |c| && j < |b| && c[k].indx < b[j].indx
    ensures Beyond(c, b, k + 1, j)
  {
  }

  /** bitmap_ior_into: a |= b; the result says whether a changed. */
  method IorInto(a: Bitmap, b: Bitmap) returns (changed: bool)
    requires a.Valid() && (a == b || Source(a, b))
    modifies a, a.obstack, a.Owned()
    ensures a.Valid() && a.chunks == Merge(Op.Ior, old(a.chunks), old(b.chunks))
    ensures changed <==> a.chunks != old(a.chunks)
    ensures a.Grows()
  {
    hide IorGoing, Source, Canonical, Merge, FreeOk, Apart, Nexts, Prevs, NoDup, Linked, Holds;
    if a == b {
      SelfUnion(a);
      return false;
    }
    ghost var s := a.chunks;
    var aElt, bElt := a.first, b.first;
    var prev: Element? := null;
    changed := false;
    ghost var k: nat, j: nat := 0, 0;
    IorBegin(a, b);
    while bElt != null
      invariant IorGoing(a, b, aElt, bElt, prev, k, j, s, changed)
      invariant a.Grows()
      invariant k <= |a.elts| && j <= |b.elts|
      decreases |a.elts| - k + |b.elts| - j
    {
      aElt, bElt, prev, changed, k, j := IorIntoStep(a, b, aElt, bElt, prev, changed, k, j, s);
      IorBounds(a, b, aElt, bElt, prev, k, j, s, changed);
    }
    IorEnd(a, b, aElt, prev, k, j, s, changed);
    Settle(a);
  }

  lemma SelfUnion(a: Bitmap)
    requires a.Valid()
    ensures Merge(Op.Ior, a.chunks, a.chunks) == a.chunks
  {
    SameSet(Op.Ior, a.chunks, a.chunks);
  }

  /** Set the cached chunk number from the cursor. */
  method Settle(a: Bitmap)
    requires a.ListOk() && a.CursorIn()
    modifies a`indx
    ensures a.Valid()
  {
    if a.current != null {
      a.indx := a.current.indx;
    }
  }

  lemma IorBegin(a: Bitmap, b: Bitmap)
    requires a.Valid() && Source(a, b)
    ensures IorGoing(a, b, a.first, b.first, null, 0, 0, a.chunks, false)
  {
    TurnsStart(Op.Ior, a.chunks, b.chunks);
  }

  lemma IorBounds(a: Bitmap, b: Bitmap, aElt: Element?, bElt: Element?, prev: Element?, k: nat, j: nat,
                  s: seq<Chunk>, changed: bool)
    requires IorGoing(a, b, aElt, bElt, prev, k, j, s, changed)
    ensures k <= |a.elts| && j <= |b.elts|
  {
  }

  lemma IorEnd(a: Bitmap, b: Bitmap, aElt: Element?, prev: Element?, k: nat, j: nat, s: seq<Chunk>, changed: bool)
    requires IorGoing(a, b, aElt, null, prev, k, j, s, changed) && Canonical(s)
    ensures a != b && a.ListOk() && a.CursorIn()
    ensures a.chunks == Merge(Op.Ior, s, b.chunks) && (changed <==> a.chunks != s)
  {
    hide Merge, BitsZero, Turns, Added, FreeOk, Apart;
    AlongFacts(a, b, aElt, null, k, j);
    AddedEnd(changed, s, b.chunks, a.chunks, k, j);
  }
  // ---------- bitmap_xor_into ----------

  ghost predicate XorGoing(a: Bitmap, b: Bitmap, aElt: Element?, bElt: Element?, prev: Element?, k: nat, j: nat,
                           s: seq<Chunk>)
    reads a, a.obstack, a.Owned(), b, b.elts
  {
    && Along(a, b, aElt, bElt, k, j) && prev == Before(a.elts, k)
    && Turns(Op.Xor, s, b.chunks, a.chunks, k, j)
  }

  method XorMatch(a: Bitmap, b: Bitmap, aElt: Element, bElt: Element, prev: Element?, ghost k: nat, ghost j: nat,
                  ghost s: seq<Chunk>)
    returns (next: Element?, prev': Element?, ghost k': nat)
    requires XorGoing(a, b, aElt, bElt, prev, k, j, s) && aElt.indx == bElt.indx
    modifies a, a.obstack, a.Owned()
    ensures XorGoing(a, b, next, bElt.next, prev', k', j + 1, s)
    ensures a.Owned() == old(a.Owned())
    ensures |a.elts| - k' < |old(a.elts)| - k
  {
    hide Turns, Canonical, FreeOk, Apart, Nexts, Prevs, NoDup, Linked, Holds, BitsOp, BitsZero;
    AlongFacts(a, b, aElt, bElt, k, j);
    ghost var s0 := a.elts;
    TurnMatch(Op.Xor, s, b.chunks, a.chunks, k, j);
    var x, y := aElt.bits, bElt.bits;
    var r: Bits, ior := Zeros(), false;
    var ix := BITMAP_ELEMENT_WORDS;
    while ix > 0
      invariant 0 <= ix <= BITMAP_ELEMENT_WORDS
      invariant forall v :: ix <= v < BITMAP_ELEMENT_WORDS ==> r[v] == WordOp(Op.Xor, x[v], y[v])
      invariant ior == ((ix == 0 && NonZero(r[0])) || (ix <= 1 && NonZero(r[1])))
    {
      ix := ix - 1;
      r := r[ix := WordOp(Op.Xor, x[ix], y[ix])];
      ior := ior || NonZero(r[ix]);
    }
    CombinedBits(Op.Xor, x, y, r);
    next := StoreHere(a, b, aElt, bElt, r, ior, k, j);
    k', prev' := k, prev;
    if ior {
      k', prev' := k + 1, aElt;
    } else {
      assert Before(a.elts, k) == Before(s0, k);
    }
  }

  /** One round of bitmap_xor_into's loop. */
  method XorIntoStep(a: Bitmap, b: Bitmap, aElt: Element?, bElt: Element, prev: Element?, ghost k: nat, ghost j: nat,
                     ghost s: seq<Chunk>)
    returns (aElt': Element?, bElt': Element?, prev': Element?, ghost k': nat, ghost j': nat)
    requires XorGoing(a, b, aElt, bElt, prev, k, j, s)
    modifies a, a.obstack, a.Owned()
    ensures XorGoing(a, b, aElt', bElt', prev', k', j', s)
    ensures a.Grows()
    ensures |a.elts| - k' + |b.elts| - j' < |old(a.elts)| - k + |b.elts| - j
  {
    hide Turns, Canonical, FreeOk, Apart, Nexts, Prevs, NoDup, Linked, Holds;
    aElt', bElt', prev', k', j' := aElt, bElt, prev, k, j;
    AlongFacts(a, b, aElt, bElt, k, j);
    if aElt == null || bElt.indx < aElt.indx {
      TurnSecond(Op.Xor, s, b.chunks, a.chunks, k, j);
      prev' := InsertHere(a, b, aElt, bElt, prev, k, j);
      bElt', k', j' := bElt.next, k + 1, j + 1;
    } else if aElt.indx < bElt.indx {
      TurnFirst(Op.Xor, s, b.chunks, a.chunks, k, j);
      prev', aElt', k' := aElt, aElt.next, k + 1;
    } else {
      aElt', prev', k' := XorMatch(a, b, aElt, bElt, prev, k, j, s);
      bElt', j' := bElt.next, j + 1;
    }
  }

  /** bitmap_xor_into: a ^= b. */
  method XorInto(a: Bitmap, b: Bitmap)
    requires a.Valid() && (a == b || Source(a, b))
    modifies a, a.obstack, a.Owned()
    ensures a.Valid() && a.chunks == Merge(Op.Xor, old(a.chunks), old(b.chunks))
    ensures a.Grows()
  {
    hide XorGoing, Source, Canonical, Merge, FreeOk, Apart, Nexts, Prevs, NoDup, Linked, Holds;
    if a == b {
      Self(a);
      a.Clear();
      return;
    }
    ghost var s := a.chunks;
    var aElt, bElt := a.first, b.first;
    var prev: Element? := null;
    ghost var k: nat, j: nat := 0, 0;
    XorBegin(a, b);
    while bElt != null
      invariant XorGoing(a, b, aElt, bElt, prev, k, j, s)
      invariant a.Grows()
      invariant k <= |a.elts| && j <= |b.elts|
      decreases |a.elts| - k + |b.elts| - j
    {
      aElt, bElt, prev, k, j := XorIntoStep(a, b, aElt, bElt, prev, k, j, s);
      XorBounds(a, b, aElt, bElt, prev, k, j, s);
    }
    XorEnd(a, b, aElt, prev, k, j, s);
    Settle(a);
  }

  lemma XorBegin(a: Bitmap, b: Bitmap)
    requires a.Valid() && Source(a, b)
    ensures XorGoing(a, b, a.first, b.first, null, 0, 0, a.chunks)
  {
    TurnsStart(Op.Xor, a.chunks, b.chunks);
  }

  lemma XorBounds(a: Bitmap, b: Bitmap, aElt: Element?, bElt: Element?, prev: Element?, k: nat, j: nat, s: seq<Chunk>)
    requires XorGoing(a, b, aElt, bElt, prev, k, j, s)
    ensures k <= |a.elts| && j <= |b.elts|
  {
  }

  lemma XorEnd(a: Bitmap, b: Bitmap, aElt: Element?, prev: Element?, k: nat, j: nat, s: seq<Chunk>)
    requires XorGoing(a, b, aElt, null, prev, k, j, s) && Canonical(s)
    ensures a != b && a.ListOk() && a.CursorIn() && a.chunks == Merge(Op.Xor, s, b.chunks)
  {
    hide Merge, BitsZero, Turns, FreeOk, Apart;
    AlongFacts(a, b, aElt, null, k, j);
    TurnsEnd(Op.Xor, s, b.chunks, a.chunks, k, j);
    MergeCanonical(Op.Xor, s, b.chunks, 0);
  }
}
