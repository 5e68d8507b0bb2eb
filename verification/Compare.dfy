/** The tests that compare two bitmaps, and what the set operations say about the cursor. */
module Compare {
  import opened Chunks
  import opened Elements
  import opened Bitmaps
  import opened Merging
  import opened SetAlgebra

  ghost predicate Readable(a: Bitmap)
    reads a, a.elts
  {
    a.OnList() && Canonical(a.chunks)
  }

  lemma ReadAt(a: Bitmap, e: Element, i: nat)
    requires Readable(a) && e == At(a.elts, i)
    ensures i < |a.elts| == |a.chunks| && e.next == At(a.elts, i + 1)
    ensures a.chunks[i] == Chunk(e.indx, e.bits)
  {
    assert a.chunks[i] == Chunk(a.elts[i].indx, a.elts[i].bits);
  }

  lemma ReadEnd(a: Bitmap, i: nat)
    requires Readable(a)
    ensures At(a.elts, i) == null ==> i >= |a.chunks|
    ensures a.first == At(a.elts, 0) && |a.elts| == |a.chunks|
  {
  }

  /** bitmap_equal_p. */
  method EqualP(a: Bitmap, b: Bitmap) returns (r: bool)
    requires Readable(a) && Readable(b)
    ensures r <==> forall x: nat :: Member(a.chunks, x) == Member(b.chunks, x)
  {
    hide Member, Canonical, BitsZero;
    SetsDiffer(a.chunks, b.chunks);
    ReadEnd(a, 0);
    ReadEnd(b, 0);
    var aElt, bElt := a.first, b.first;
    ghost var i: nat := 0;
    while aElt != null && bElt != null
      invariant i <= |a.chunks| && i <= |b.chunks|
      invariant aElt == At(a.elts, i) && bElt == At(b.elts, i)
      invariant a.chunks[..i] == b.chunks[..i]
      decreases |a.chunks| - i
    {
      ReadAt(a, aElt, i);
      ReadAt(b, bElt, i);
      if aElt.indx != bElt.indx {
        return false;
      }
      var ix := BITMAP_ELEMENT_WORDS;
      while ix > 0
        invariant 0 <= ix <= BITMAP_ELEMENT_WORDS
        invariant forall v :: ix <= v < BITMAP_ELEMENT_WORDS ==> aElt.bits[v] == bElt.bits[v]
      {
        ix := ix - 1;
        if aElt.bits[ix] != bElt.bits[ix] {
          assert a.chunks[i] != b.chunks[i];
          return false;
        }
      }
      assert aElt.bits == bElt.bits;
      aElt, bElt, i := aElt.next, bElt.next, i + 1;
    }
    ReadEnd(a, i);
    ReadEnd(b, i);
    r := aElt == null && bElt == null;
    if r {
      assert a.chunks == a.chunks[..i] && b.chunks == b.chunks[..i];
    }
  }

  /** The merge is empty exactly when no bit qualifies. */
  lemma MergeEmptySet(op: Op, a: seq<Chunk>, b: seq<Chunk>)
    requires Canonical(a) && Canonical(b)
    ensures Merge(op, a, b) != [] <==> exists x: nat :: Apply(op, Member(a, x), Member(b, x))
  {
    hide Merge, Member;
    MergeCanonical(op, a, b, 0);
    SomeMember(Merge(op, a, b));
    forall x: nat ensures Member(Merge(op, a, b), x) == Apply(op, Member(a, x), Member(b, x)) {
      MergeMember(op, a, b, x);
    }
    if x: nat :| Apply(op, Member(a, x), Member(b, x)) {
      assert Member(Merge(op, a, b), x);
    }
  }

  /** bitmap_intersect_p. */
  method IntersectP(a: Bitmap, b: Bitmap) returns (r: bool)
    requires Readable(a) && Readable(b)
    ensures r <==> exists x: nat :: Member(a.chunks, x) && Member(b.chunks, x)
  {
    hide Member, Merge, Rest, BitsZero, BitsOp;
    IntersectSets(a.chunks, b.chunks);
    ReadEnd(a, 0);
    ReadEnd(b, 0);
    RestAll(Op.And, a.chunks, b.chunks);
    var aElt, bElt := a.first, b.first;
    ghost var i: nat, j: nat := 0, 0;
    while aElt != null && bElt != null
      invariant i <= |a.chunks| && j <= |b.chunks|
      invariant aElt == At(a.elts, i) && bElt == At(b.elts, j)
      invariant Rest(Op.And, a.chunks, b.chunks, i, j) == Merge(Op.And, a.chunks, b.chunks)
      decreases |a.chunks| - i + |b.chunks| - j
    {
      ReadAt(a, aElt, i);
      ReadAt(b, bElt, j);
      if aElt.indx < bElt.indx {
        RestFirst(Op.And, a.chunks, b.chunks, i, j);
        aElt, i := aElt.next, i + 1;
      } else if bElt.indx < aElt.indx {
        RestSecond(Op.And, a.chunks, b.chunks, i, j);
        bElt, j := bElt.next, j + 1;
      } else {
        RestMatch(Op.And, a.chunks, b.chunks, i, j);
        var hit := AnyWord(Op.And, aElt.bits, bElt.bits);
        if hit {
          return true;
        }
        aElt, bElt, i, j := aElt.next, bElt.next, i + 1, j + 1;
      }
    }
    ReadEnd(a, i);
    ReadEnd(b, j);
    RestEnd(Op.And, a.chunks, b.chunks, i, j);
    r := false;
  }

  /** bitmap_intersect_compl_p. */
  method IntersectComplP(a: Bitmap, b: Bitmap) returns (r: bool)
    requires Readable(a) && Readable(b)
    ensures r <==> exists x: nat :: Member(a.chunks, x) && !Member(b.chunks, x)
  {
    hide Member, Merge, Rest, BitsZero, BitsOp;
    DifferSets(a.chunks, b.chunks);
    ReadEnd(a, 0);
    ReadEnd(b, 0);
    RestAll(Op.AndCompl, a.chunks, b.chunks);
    var aElt, bElt := a.first, b.first;
    ghost var i: nat, j: nat := 0, 0;
    while aElt != null && bElt != null
      invariant i <= |a.chunks| && j <= |b.chunks|
      invariant aElt == At(a.elts, i) && bElt == At(b.elts, j)
      invariant Rest(Op.AndCompl, a.chunks, b.chunks, i, j) == Merge(Op.AndCompl, a.chunks, b.chunks)
      decreases |a.chunks| - i + |b.chunks| - j
    {
      ReadAt(a, aElt, i);
      ReadAt(b, bElt, j);
      if aElt.indx < bElt.indx {
        RestFirst(Op.AndCompl, a.chunks, b.chunks, i, j);
        return true;
      } else if bElt.indx < aElt.indx {
        RestSecond(Op.AndCompl, a.chunks, b.chunks, i, j);
        bElt, j := bElt.next, j + 1;
      } else {
        RestMatch(Op.AndCompl, a.chunks, b.chunks, i, j);
        var hit := AnyWord(Op.AndCompl, aElt.bits, bElt.bits);
        if hit {
          return true;
        }
        aElt, bElt, i, j := aElt.next, bElt.next, i + 1, j + 1;
      }
    }
    ReadEnd(a, i);
    ReadEnd(b, j);
    r := aElt != null;
    if r {
      ReadAt(a, aElt, i);
      RestFirst(Op.AndCompl, a.chunks, b.chunks, i, j);
    } else {
      RestEnd(Op.AndCompl, a.chunks, b.chunks, i, j);
    }
  }

  /** Whether some word of the combination is not zero. */
  method AnyWord(op: Op, x: Bits, y: Bits) returns (r: bool)
    ensures r == !BitsZero(BitsOp(op, x, y))
  {
    var ix := BITMAP_ELEMENT_WORDS;
    while ix > 0
      invariant 0 <= ix <= BITMAP_ELEMENT_WORDS
      invariant forall v :: ix <= v < BITMAP_ELEMENT_WORDS ==> !NonZero(WordOp(op, x[v], y[v]))
    {
      ix := ix - 1;
      if NonZero(WordOp(op, x[ix], y[ix])) {
        return true;
      }
    }
    r := false;
  }

  lemma RestAll(op: Op, a: seq<Chunk>, b: seq<Chunk>)
    ensures Rest(op, a, b, 0, 0) == Merge(op, a, b)
  {
    assert a[0..] == a && b[0..] == b;
  }

  lemma IntersectSets(a: seq<Chunk>, b: seq<Chunk>)
    requires Canonical(a) && Canonical(b)
    ensures Merge(Op.And, a, b) != [] <==> exists x: nat :: Member(a, x) && Member(b, x)
  {
    MergeEmptySet(Op.And, a, b);
  }

  lemma DifferSets(a: seq<Chunk>, b: seq<Chunk>)
    requires Canonical(a) && Canonical(b)
    ensures Merge(Op.AndCompl, a, b) != [] <==> exists x: nat :: Member(a, x) && !Member(b, x)
  {
    MergeEmptySet(Op.AndCompl, a, b);
  }

  // ---------- the cursor after a three-operand operation ----------

  ghost predicate HasChunk(r: seq<Chunk>, i: nat) {
    exists m :: 0 <= m < |r| && r[m].indx == i
  }

  /** A list whose chunk numbers all occur in another sorted list is no longer than it. */
  lemma {:induction false} SubsetLength(d: seq<Chunk>, r: seq<Chunk>)
    requires Ascending(d) && Ascending(r)
    requires forall i :: 0 <= i < |d| ==> HasChunk(r, d[i].indx)
    ensures |d| <= |r|
    decreases |d|
  {
    if d != [] {
      assert HasChunk(r, d[0].indx);
      var m :| 0 <= m < |r| && r[m].indx == d[0].indx;
      forall i | 0 <= i < |d[1..]| ensures HasChunk(r[m+1..], d[1..][i].indx) {
        assert d[1..][i] == d[i+1] && HasChunk(r, d[i+1].indx);
        var q :| 0 <= q < |r| && r[q].indx == d[i+1].indx;
        assert q > m;
        assert r[m+1..][q - m - 1] == r[q];
      }
      SubsetLength(d[1..], r[m+1..]);
    }
  }

  /** The cursor always survives a union with a set that contains what the destination held. */
  lemma IorKeepsCursor(d: seq<Chunk>, p: nat, a: seq<Chunk>, b: seq<Chunk>)
    requires Canonical(d) && Canonical(a) && Canonical(b) && p < |d|
    requires forall x: nat :: Member(d, x) ==> Member(a, x) || Member(b, x)
    ensures CursorKept(Op.Ior, d, p, a, b)
  {
    var r := Merge(Op.Ior, a, b);
    MergeCanonical(Op.Ior, a, b, 0);
    forall i | 0 <= i < |d| ensures HasChunk(r, d[i].indx) {
      ZeroTest(d[i].bits);
      var n :| 0 <= n < BITMAP_ELEMENT_ALL_BITS && Test(d[i].bits, n);
      var x := d[i].indx * BITMAP_ELEMENT_ALL_BITS + n;
      assert x / BITMAP_ELEMENT_ALL_BITS == d[i].indx && x % BITMAP_ELEMENT_ALL_BITS == n;
      assert Member(d, x);
      MergeMember(Op.Ior, a, b, x);
      var m :| 0 <= m < |r| && r[m].indx == x / BITMAP_ELEMENT_ALL_BITS;
    }
    SubsetLength(d, r);
  }

  /** The cursor can be lost: with dst holding chunks 0 and 1, the cursor on the second, and a and b both holding
      chunk 9 with the same bits, the slot of chunk 0 is overwritten with chunk 9.  The cursor's chunk number 1 is
      not above 9, so the cursor stays on an element that is freed. */
  lemma CursorCanDangle(bits: Bits)
    requires !BitsZero(bits)
    ensures Canonical([Chunk(0, bits), Chunk(1, bits)]) && Canonical([Chunk(9, bits)])
    ensures !CursorKept(Op.And, [Chunk(0, bits), Chunk(1, bits)], 1, [Chunk(9, bits)], [Chunk(9, bits)])
  {
    var d, a := [Chunk(0, bits), Chunk(1, bits)], [Chunk(9, bits)];
    assert d[1].indx == 1 && a[0].indx == 9;
    MergeSelf(a);
    var both := BitsOp(Op.And, bits, bits);
    forall n | 0 <= n < BITMAP_ELEMENT_ALL_BITS ensures Test(both, n) == Test(bits, n) {
      TestOp(Op.And, bits, bits, n);
    }
    BitsExtensional(both, bits);
    assert a[1..] == [];
    assert Spill(Op.And, a, a, false) == Spill(Op.And, a[1..], a[1..], BitsZero(both));
  }
}
