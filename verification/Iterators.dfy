/** The bitmap iterators: over one set, an intersection, and a difference. */
module Iterators {
  import opened Chunks
  import opened Elements
  import opened Bitmaps
  import opened Merging
  import opened Compare
  import opened BitScan
  import opened Scan

  /** The element that stands for the end of a list: chunk 0 without bits. */
  ghost predicate ZeroElement(z: Element)
    reads z
  {
    z.next == null && z.indx == 0 && BitsZero(z.bits)
  }

  /** From position i of the list s, the first element whose chunk number is at least n. */
  method SkipTo(e: Element?, n: nat, ghost s: seq<Element>, ghost c: seq<Chunk>, ghost i: nat)
    returns (e': Element?, ghost i': nat)
    requires Nexts(s) && Holds(s, c) && i <= |s| && e == At(s, i)
    ensures i <= i' <= |s| && e' == At(s, i')
    ensures forall k :: i <= k < i' ==> c[k].indx < n
    ensures i' < |s| ==> c[i'].indx >= n
  {
    e', i' := e, i;
    while e' != null && e'.indx < n
      invariant i <= i' <= |s| && e' == At(s, i')
      invariant forall k :: i <= k < i' ==> c[k].indx < n
      decreases |s| - i'
    {
      e', i' := e'.next, i' + 1;
    }
  }

  class BitmapIterator {
    var elt1: Element?
    var elt2: Element?
    var wordNo: nat
    var bits: Word
    var bitNo: nat

    ghost var op: Op
    ghost var s1: seq<Element>
    ghost var s2: seq<Element>
    ghost var c1: seq<Chunk>
    ghost var c2: seq<Chunk>
    ghost var i: nat
    ghost var j: nat

    constructor ()
    {
      elt1, elt2, wordNo, bits, bitNo := null, null, 0, ZeroWord(), 0;
    }

    /** The elements are at positions i and j of the lists, the second not before the first. */
    ghost predicate Pointing()
      reads this, s1, s2
    {
      && (op == Op.And || op == Op.AndCompl)
      && Nexts(s1) && Nexts(s2) && Holds(s1, c1) && Holds(s2, c2)
      && i < |s1| && j <= |s2|
      && elt1 == s1[i] && elt2 == At(s2, j)
      && Tidy(c1) && Tidy(c2) && Caught(c1, c2, i, j)
      && (Paired(c1, c2, i, j) || Canonical(c2) || j > 0)
    }

    /** The list this iterator still runs along. */
    ghost function Path(): (v: seq<Chunk>)
      reads this, s1, s2
      requires Pointing()
      ensures v != []
    {
      View(op, c1, c2, i, j)
    }

    ghost predicate Inv()
      reads this, s1, s2
    {
      && Pointing() && Iter(Path(), wordNo, bits, bitNo)
      && (op == Op.And ==> j < |s2| && (wordNo == 0 ==> Paired(c1, c2, i, j)))
    }

    /** A word of the first chunk ahead, in terms of the current elements. */
    lemma CurrentWord(n: nat)
      requires Pointing() && n < BITMAP_ELEMENT_WORDS && (op == Op.And ==> Paired(c1, c2, i, j))
      ensures elt2 != null && elt1.indx == elt2.indx ==> Path()[0].bits[n] == WordOp(op, elt1.bits[n], elt2.bits[n])
      ensures !(elt2 != null && elt1.indx == elt2.indx) ==> Path()[0].bits[n] == elt1.bits[n]
    {
      hide Rest;
      assert elt2 != null <==> j < |s2|;
      assert elt1.indx == c1[i].indx && elt1.bits == c1[i].bits;
      assert Path()[0] == Current(op, c1, c2, i, j);
      if elt2 != null {
        assert elt2.indx == c2[j].indx && elt2.bits == c2[j].bits;
        if elt1.indx == elt2.indx {
          assert Current(op, c1, c2, i, j) == Combined(op, c1[i], c2[j]);
        }
      }
    }

    /** The current word of the current elements. */
    method Load(o: Op) returns (w: Word)
      requires Pointing() && o == op && wordNo < BITMAP_ELEMENT_WORDS && (op == Op.And ==> Paired(c1, c2, i, j))
      ensures w == Path()[0].bits[wordNo]
    {
      hide View, Rest;
      CurrentWord(wordNo);
      w := elt1.bits[wordNo];
      if elt2 != null && elt1.indx == elt2.indx {
        w := WordOp(o, w, elt2.bits[wordNo]);
      }
    }

    /** Shift to the next set bit of a word that has one. */
    method NextBit()
      requires Inv() && NonZero(bits)
      modifies this`bits, this`bitNo
      ensures Inv() && bits[0] && Member(Path(), bitNo)
      ensures Equiv(Path(), old(bitNo), Path(), bitNo)
    {
      hide View, Rest, Member, Ahead, Nexts, Holds, Tidy, Caught;
      ghost var v, b := Path(), bitNo;
      while !bits[0]
        invariant Pointing() && Path() == v && Iter(v, wordNo, bits, bitNo) && NonZero(bits)
        invariant Equiv(v, b, v, bitNo)
        decreases Base(v[0], wordNo) + BITMAP_WORD_BITS - bitNo
      {
        NotPast(v[0], wordNo, bits, bitNo);
        ShiftOne(v, wordNo, bits, bitNo);
        EquivTrans(v, b, v, bitNo, v, bitNo + 1);
        bits := ShiftRight(bits, 1);
        bitNo := bitNo + 1;
      }
      NotPast(v[0], wordNo, bits, bitNo);
      ShiftOne(v, wordNo, bits, bitNo);
    }

    /** Between words: everything below the start of the current word has been passed. */
    ghost predicate Seeking(v0: seq<Chunk>, b0: nat)
      reads this, s1, s2
    {
      && Pointing() && Increasing(Path()) && wordNo <= BITMAP_ELEMENT_WORDS
      && (wordNo < BITMAP_ELEMENT_WORDS ==> bitNo == Base(Path()[0], wordNo) && (op == Op.And ==> Paired(c1, c2, i, j)))
      && (op == Op.And ==> j < |s2|)
      && Equiv(v0, b0, Path(), Base(Path()[0], wordNo))
    }

    /** Round up to the word boundary and look at the next word. */
    method LeaveCurrent()
      requires Inv() && !NonZero(bits)
      modifies this`bitNo, this`wordNo
      ensures Seeking(old(Path()), old(bitNo))
      ensures Path() == old(Path())
    {
      hide View, Rest, Member, Ahead, Nexts, Holds, Tidy, Caught;
      LeaveWord(Path(), wordNo, bits, bitNo);
      bitNo := (bitNo + BITMAP_WORD_BITS - 1) / BITMAP_WORD_BITS * BITMAP_WORD_BITS;
      wordNo := wordNo + 1;
    }

    /** Look for a word in use among the remaining words of the current elements. */
    method ScanWords(o: Op, ghost v0: seq<Chunk>, ghost b0: nat) returns (found: bool)
      requires Seeking(v0, b0) && o == op
      modifies this`bits, this`bitNo, this`wordNo
      ensures found ==> Inv() && bits[0] && Member(Path(), bitNo) && Equiv(v0, b0, Path(), bitNo)
      ensures !found ==> Seeking(v0, b0) && wordNo == BITMAP_ELEMENT_WORDS
      ensures Path() == old(Path())
    {
      hide View, Rest, Member, Ahead, Nexts, Holds, Tidy, Caught, Seeking, Inv;
      ghost var v := SeekPath(v0, b0);
      while wordNo != BITMAP_ELEMENT_WORDS
        invariant Seeking(v0, b0) && Pointing() && Path() == v && wordNo <= BITMAP_ELEMENT_WORDS
        decreases BITMAP_ELEMENT_WORDS - wordNo
      {
        found := ScanWord(o, v0, b0);
        if found {
          return;
        }
      }
      found := false;
    }

    lemma SeekPath(v0: seq<Chunk>, b0: nat) returns (v: seq<Chunk>)
      requires Seeking(v0, b0)
      ensures Pointing() && v == Path() && wordNo <= BITMAP_ELEMENT_WORDS
    {
      v := Path();
    }

    /** Look at one word: stop at its first bit if it is in use, otherwise go on to the next. */
    method ScanWord(o: Op, ghost v0: seq<Chunk>, ghost b0: nat) returns (found: bool)
      requires Seeking(v0, b0) && o == op && wordNo < BITMAP_ELEMENT_WORDS
      modifies this`bits, this`bitNo, this`wordNo
      ensures found ==> Inv() && bits[0] && Member(Path(), bitNo) && Equiv(v0, b0, Path(), bitNo)
      ensures !found ==> Seeking(v0, b0) && wordNo == old(wordNo) + 1
      ensures Pointing() && Path() == old(Path())
    {
      hide View, Rest, Member, Ahead, Nexts, Holds, Tidy, Caught;
      ghost var v := Path();
      bits := Load(o);
      found := NonZero(bits);
      if found {
        AtWordStart(v, wordNo, bits);
        ghost var b := bitNo;
        NextBit();
        EquivTrans(v0, b0, v, b, v, bitNo);
      } else {
        NextWord(v0, b0, v);
        bitNo := bitNo + BITMAP_WORD_BITS;
        wordNo := wordNo + 1;
      }
    }

    /** Passing a zero word. */
    lemma NextWord(v0: seq<Chunk>, b0: nat, v: seq<Chunk>)
      requires Seeking(v0, b0) && wordNo < BITMAP_ELEMENT_WORDS && v == Path() && !NonZero(v[0].bits[wordNo])
      ensures Equiv(v0, b0, v, Base(v[0], wordNo + 1))
    {
      hide View, Rest, Member, Ahead, Nexts, Holds, Tidy, Caught;
      LeaveZero(v, wordNo);
      EquivTrans(v0, b0, v, Base(v[0], wordNo), v, Base(v[0], wordNo + 1));
    }

    /** bmp_iter_next: pass the current bit. */
    method Next()
      requires Inv() && bits[0]
      modifies this`bits, this`bitNo
      ensures Inv() && Path() == old(Path()) && bitNo == old(bitNo) + 1
    {
      hide View, Rest, Member, Ahead, Nexts, Holds, Tidy, Caught;
      NotPast(Path()[0], wordNo, bits, bitNo);
      ShiftOne(Path(), wordNo, bits, bitNo);
      bits := ShiftRight(bits, 1);
      bitNo := bitNo + 1;
    }

    /** The next element of the first bitmap, and the second brought up to it. */
    method AdvanceCompl() returns (more: bool)
      requires Pointing() && op == Op.AndCompl && Increasing(Path())
      modifies this`elt1, this`elt2, this`i, this`j
      ensures more ==> Pointing() && Increasing(Path()) && i == old(i) + 1
      ensures more ==> Equiv(old(Path()), Base(old(Path())[0], BITMAP_ELEMENT_WORDS), Path(), Base(Path()[0], 0))
      ensures !more ==> forall x: nat :: !Ahead(old(Path()), Base(old(Path())[0], BITMAP_ELEMENT_WORDS), x)
    {
      hide Merge, Member, Rest, Ahead;
      ghost var v, i0, j0 := Path(), i, j;
      elt1 := elt1.next;
      if elt1 == null {
        PathEnd(op, c1, c2, i, j);
        LeaveLast(v);
        return false;
      }
      i := i + 1;
      var e, m := SkipTo(elt2, elt1.indx, s2, c2, j);
      elt2, j := e, m;
      PathTail(op, c1, c2, i0, j0, j);
      ViewMembers(op, c1, c2, i, j);
      ViewIncreasing(op, c1, c2, i, j);
      LeaveChunk(v, Path());
      more := true;
    }

    /** The next element of the first bitmap, always moving, that is not before the second's. */
    method AdvanceFirst(ghost r: seq<Chunk>) returns (more: bool)
      requires Listed() && i < |s1| && elt1 == s1[i] && j < |s2| && elt2 == s2[j]
      requires Rest(Op.And, c1, c2, i + 1, j) == r
      modifies this`elt1, this`i
      ensures more ==> i < |s1| && elt1 == s1[i] && i > old(i) && c1[i].indx >= c2[j].indx && Rest(Op.And, c1, c2, i, j) == r
      ensures !more ==> r == []
    {
      hide Merge, Rest;
      elt1, i := elt1.next, i + 1;
      if elt1 == null {
        RestEnd(Op.And, c1, c2, i, j);
        return false;
      }
      while elt1.indx < elt2.indx
        invariant i < |s1| && elt1 == s1[i] && i > old(i)
        invariant Rest(Op.And, c1, c2, i, j) == r
        decreases |s1| - i
      {
        RestFirst(Op.And, c1, c2, i, j);
        elt1, i := elt1.next, i + 1;
        if elt1 == null {
          RestEnd(Op.And, c1, c2, i, j);
          return false;
        }
      }
      more := true;
    }

    /** The next element of the second bitmap that is not before the first's.  This might not advance. */
    method AdvanceSecond(ghost r: seq<Chunk>) returns (more: bool)
      requires Listed() && i < |s1| && elt1 == s1[i] && j < |s2| && elt2 == s2[j]
      requires Rest(Op.And, c1, c2, i, j) == r
      modifies this`elt2, this`j
      ensures more ==> j < |s2| && elt2 == s2[j] && c1[i].indx <= c2[j].indx && Rest(Op.And, c1, c2, i, j) == r
      ensures !more ==> r == []
    {
      hide Merge, Rest;
      while elt2.indx < elt1.indx
        invariant j < |s2| && elt2 == s2[j]
        invariant Rest(Op.And, c1, c2, i, j) == r
        decreases |s2| - j
      {
        RestSecond(Op.And, c1, c2, i, j);
        elt2, j := elt2.next, j + 1;
        if elt2 == null {
          RestEnd(Op.And, c1, c2, i, j);
          return false;
        }
      }
      more := true;
    }

    /** The next pair of elements with the same number. */
    method AdvancePair(ghost r: seq<Chunk>) returns (more: bool)
      requires Listed() && i < |s1| && elt1 == s1[i] && j < |s2| && elt2 == s2[j]
      requires Rest(Op.And, c1, c2, i + 1, j) == r
      modifies this`elt1, this`elt2, this`i, this`j
      ensures more ==> i < |s1| && elt1 == s1[i] && j < |s2| && elt2 == s2[j] && i > old(i)
      ensures more ==> Paired(c1, c2, i, j) && Rest(Op.And, c1, c2, i, j) == r
      ensures !more ==> r == []
    {
      hide Merge, Rest;
      var again := true;
      while again
        invariant i < |s1| && elt1 == s1[i] && j < |s2| && elt2 == s2[j]
        invariant again ==> i >= old(i) && Rest(Op.And, c1, c2, i + 1, j) == r
        invariant !again ==> i > old(i) && Paired(c1, c2, i, j) && Rest(Op.And, c1, c2, i, j) == r
        decreases again, |s1| - i
      {
        more := AdvanceFirst(r);
        if !more {
          return;
        }
        more := AdvanceSecond(r);
        if !more {
          return;
        }
        again := elt1.indx != elt2.indx;
        if again {
          RestFirst(Op.And, c1, c2, i, j);
        }
      }
      more := true;
    }

    /** The lists are linked and hold their chunks. */
    ghost predicate Listed()
      reads this, s1, s2
    {
      Nexts(s1) && Nexts(s2) && Holds(s1, c1) && Holds(s2, c2)
    }

    /** Advance to the next pair of elements that both bitmaps have. */
    method AdvanceAnd() returns (more: bool)
      requires Pointing() && op == Op.And && j < |s2| && Increasing(Path())
      modifies this`elt1, this`elt2, this`i, this`j
      ensures more ==> Pointing() && Increasing(Path()) && i > old(i) && j < |s2| && Paired(c1, c2, i, j)
      ensures more ==> Equiv(old(Path()), Base(old(Path())[0], BITMAP_ELEMENT_WORDS), Path(), Base(Path()[0], 0))
      ensures !more ==> forall x: nat :: !Ahead(old(Path()), Base(old(Path())[0], BITMAP_ELEMENT_WORDS), x)
    {
      hide Merge, Member, Rest, Ahead;
      ghost var v := Path();
      PathTailAnd(c1, c2, i, j);
      ghost var i0 := i;
      more := AdvancePair(v[1..]);
      if !more {
        LeaveLast(v);
        return;
      }
      Later(c1, i0, i);
      ViewMembers(op, c1, c2, i, j);
      ViewIncreasing(op, c1, c2, i, j);
      LeaveChunk(v, Path());
    }

    /** bmp_iter_set, when there is no second bitmap, and bmp_iter_and_compl: go on to the next bit, if any. */
    method StepCompl() returns (r: bool)
      requires Inv() && op == Op.AndCompl
      modifies this`elt1, this`elt2, this`wordNo, this`bits, this`bitNo, this`i, this`j
      ensures r ==> Inv() && bits[0] && Member(Path(), bitNo) && Equiv(old(Path()), old(bitNo), Path(), bitNo)
      ensures !r ==> forall x: nat :: !Ahead(old(Path()), old(bitNo), x)
    {
      hide View, Rest, Member, Ahead, Nexts, Holds, Tidy, Caught;
      ghost var v0, b0 := Path(), bitNo;
      if NonZero(bits) {
        NextBit();
        return true;
      }
      LeaveCurrent();
      while true
        invariant op == Op.AndCompl && Seeking(v0, b0)
        decreases |s1| - i
      {
        r := ScanWords(Op.AndCompl, v0, b0);
        if r {
          return;
        }
        ghost var v := Path();
        r := AdvanceCompl();
        if !r {
          NothingAhead(v0, b0, v, Base(v[0], BITMAP_ELEMENT_WORDS));
          return;
        }
        EquivTrans(v0, b0, v, Base(v[0], BITMAP_ELEMENT_WORDS), Path(), Base(Path()[0], 0));
        bitNo := elt1.indx * BITMAP_ELEMENT_ALL_BITS;
        wordNo := 0;
        PathNumber();
      }
    }

    /** bmp_iter_and: go on to the next common bit, if any. */
    method StepAnd() returns (r: bool)
      requires Inv() && op == Op.And
      modifies this`elt1, this`elt2, this`wordNo, this`bits, this`bitNo, this`i, this`j
      ensures r ==> Inv() && bits[0] && Member(Path(), bitNo) && Equiv(old(Path()), old(bitNo), Path(), bitNo)
      ensures !r ==> forall x: nat :: !Ahead(old(Path()), old(bitNo), x)
    {
      hide View, Rest, Member, Ahead, Nexts, Holds, Tidy, Caught;
      ghost var v0, b0 := Path(), bitNo;
      if NonZero(bits) {
        NextBit();
        return true;
      }
      LeaveCurrent();
      while true
        invariant op == Op.And && Seeking(v0, b0)
        decreases |s1| - i
      {
        r := ScanWords(Op.And, v0, b0);
        if r {
          return;
        }
        ghost var v := Path();
        r := AdvanceAnd();
        if !r {
          NothingAhead(v0, b0, v, Base(v[0], BITMAP_ELEMENT_WORDS));
          return;
        }
        EquivTrans(v0, b0, v, Base(v[0], BITMAP_ELEMENT_WORDS), Path(), Base(Path()[0], 0));
        bitNo := elt1.indx * BITMAP_ELEMENT_ALL_BITS;
        wordNo := 0;
        PathNumber();
      }
    }

    /** The iterator yields the bits of a combined with b from start on. */
    ghost predicate Yields(a: seq<Chunk>, b: seq<Chunk>, start: nat)
      reads this, s1, s2
    {
      Inv() && forall x: nat :: Ahead(Path(), bitNo, x) <==> x >= start && Apply(op, Member(a, x), Member(b, x))
    }

    /** Start at the first word of the current elements that may hold a bit from start on. */
    method Begin(o: Op, start: nat)
      requires Pointing() && o == op && Increasing(Path()) && (op == Op.And ==> j < |s2| && Paired(c1, c2, i, j))
      modifies this`wordNo, this`bits, this`bitNo
      ensures Inv()
      ensures start / BITMAP_ELEMENT_ALL_BITS <= Path()[0].indx ==> Equiv(Path(), start, Path(), bitNo)
    {
      hide View, Rest, Member, Ahead, Nexts, Holds, Tidy, Caught, Iter, Equiv, ShiftRight, BitsZero, Canonical;
      PathNumber();
      ghost var v := Path();
      var bit := start;
      if elt1.indx != start / BITMAP_ELEMENT_ALL_BITS {
        bit := elt1.indx * BITMAP_ELEMENT_ALL_BITS;
      }
      wordNo := bit / BITMAP_WORD_BITS % BITMAP_ELEMENT_WORDS;
      var w := Load(o);
      bits := ShiftRight(w, bit % BITMAP_WORD_BITS);
      bitNo := bit + if NonZero(bits) then 0 else 1;
      Enter(v, bit, wordNo, bits);
      Entered(v, start, bit, bitNo);
    }

    /** The start bit, if it lies before the first chunk, may be moved to it. */
    static lemma Entered(v: seq<Chunk>, start: nat, bit: nat, b: nat)
      requires v != [] && Increasing(v) && Equiv(v, bit, v, b)
      requires bit == if v[0].indx == start / BITMAP_ELEMENT_ALL_BITS then start else v[0].indx * BITMAP_ELEMENT_ALL_BITS
      ensures start / BITMAP_ELEMENT_ALL_BITS <= v[0].indx ==> Equiv(v, start, v, b)
    {
      hide Member, Ahead;
      if start / BITMAP_ELEMENT_ALL_BITS < v[0].indx {
        EnterLater(v, start);
        EquivTrans(v, start, v, bit, v, b);
      }
    }

    /** Take the elements of a bitmap, or the zero element if the list ended, as the first list. */
    method PointFirst(bmp: Bitmap, e: Element?, zero: Element, ghost k: nat)
      requires Readable(bmp) && ZeroElement(zero) && k <= |bmp.elts| && e == At(bmp.elts, k)
      modifies this`elt1, this`s1, this`c1, this`i
      ensures Nexts(s1) && Holds(s1, c1) && Tidy(c1) && i < |s1| && elt1 == s1[i]
      ensures |c1| == |s1| && c1[i].indx == elt1.indx
      ensures e != null ==> elt1 == e && s1 == bmp.elts && c1 == bmp.chunks && i == k
      ensures e == null ==> elt1 == zero && s1 == [zero] && c1 == [Chunk(0, zero.bits)] && i == 0
    {
      if e == null {
        elt1, s1, c1, i := zero, [zero], [Chunk(0, zero.bits)], 0;
      } else {
        elt1, s1, c1, i := e, bmp.elts, bmp.chunks, k;
      }
    }

    /** bmp_iter_set_init, without a second bitmap, and bmp_iter_and_compl_init. */
    method InitCompl(bmp: Bitmap, e2: Element?, ghost t2: seq<Element>, ghost d2: seq<Chunk>, start: nat, zero: Element)
      requires Readable(bmp) && ZeroElement(zero)
      requires Nexts(t2) && Holds(t2, d2) && Canonical(d2) && e2 == At(t2, 0)
      modifies this
      ensures op == Op.AndCompl && Yields(bmp.chunks, d2, start)
    {
      hide View, Rest, Member, Ahead, Canonical, Iter, Merge, BitsZero, Apply, Nexts, Holds, Tidy;
      Untangle(bmp);
      var e, k := SkipTo(bmp.first, start / BITMAP_ELEMENT_ALL_BITS, bmp.elts, bmp.chunks, 0);
      PointFirst(bmp, e, zero, k);
      MeetSecond(e2, t2, d2, start);
      if e == null {
        ZeroView(op, c1, c2, i, j);
        NothingFromStart(op, bmp.chunks, d2, start, k, 0, Path(), bitNo);
      } else {
        FromStart(op, bmp.chunks, d2, start, k, j, bitNo);
      }
    }

    /** Bring the second bitmap up to the first and start at the first's element. */
    method MeetSecond(e2: Element?, ghost t2: seq<Element>, ghost d2: seq<Chunk>, start: nat)
      requires Nexts(s1) && Holds(s1, c1) && Tidy(c1) && i < |s1| && elt1 == s1[i]
      requires Nexts(t2) && Holds(t2, d2) && Canonical(d2) && e2 == At(t2, 0)
      modifies this`elt2, this`j, this`op, this`s2, this`c2, this`wordNo, this`bits, this`bitNo
      ensures Inv() && op == Op.AndCompl && s2 == t2 && c2 == d2 && j <= |d2| && i < |c1|
      ensures Caught(c1, c2, i, j) && forall n :: 0 <= n < j ==> d2[n].indx < c1[i].indx
      ensures start / BITMAP_ELEMENT_ALL_BITS <= c1[i].indx ==> Equiv(Path(), start, Path(), bitNo)
    {
      hide View, Rest, Member, Ahead, Canonical, Iter, Merge, BitsZero, Nexts, Tidy;
      var f, m := SkipTo(e2, elt1.indx, t2, d2, 0);
      elt2, j, op, s2, c2 := f, m, Op.AndCompl, t2, d2;
      Facing(op, c1, c2, i, j);
      Begin(Op.AndCompl, start);
    }

    /** Either list is exhausted: both elements become the zero element. */
    method EndBoth(start: nat, zero: Element)
      requires ZeroElement(zero)
      modifies this
      ensures op == Op.And && Inv() && |Path()| == 1 && BitsZero(Path()[0].bits)
    {
      elt1, s1, c1, i := zero, [zero], [Chunk(0, zero.bits)], 0;
      elt2, s2, c2, j := zero, [zero], [Chunk(0, zero.bits)], 0;
      op := Op.And;
      ViewIncreasing(op, c1, c2, i, j);
      Begin(Op.And, start);
      ZeroView(op, c1, c2, i, j);
    }

    /** Start at two elements of which the second is not before the first. */
    method BeginAnd(start: nat)
      requires Pointing() && op == Op.And && j < |s2| && elt2 == s2[j] && Increasing(Path())
      requires start / BITMAP_ELEMENT_ALL_BITS <= c1[i].indx
      modifies this`wordNo, this`bits, this`bitNo
      ensures Inv() && Equiv(Path(), start, Path(), bitNo)
    {
      PathNumber();
      if elt1.indx == elt2.indx {
        Begin(Op.And, start);
      } else {
        // The first element must be advanced immediately.
        wordNo := BITMAP_ELEMENT_WORDS - 1;
        bits := ZeroWord();
        bitNo := start + 1;
        Unpaired(Path(), start, bits);
      }
    }

    /** bmp_iter_and_init. */
    method InitAnd(bmp1: Bitmap, bmp2: Bitmap, start: nat, zero: Element)
      requires Readable(bmp1) && Readable(bmp2) && ZeroElement(zero)
      modifies this
      ensures op == Op.And && Yields(bmp1.chunks, bmp2.chunks, start)
    {
      hide View, Rest, Member, Ahead, Canonical, Iter, Merge, BitsZero, Apply, Nexts, Holds, Tidy;
      Untangle(bmp1);
      Untangle(bmp2);
      var e, k := SkipTo(bmp1.first, start / BITMAP_ELEMENT_ALL_BITS, bmp1.elts, bmp1.chunks, 0);
      var f: Element? := null;
      ghost var m := 0;
      if e != null {
        f, m := SkipTo(bmp2.first, e.indx, bmp2.elts, bmp2.chunks, 0);
      }
      if f == null {
        EndBoth(start, zero);
        NothingFromStart(op, bmp1.chunks, bmp2.chunks, start, k, m, Path(), bitNo);
      } else {
        MeetBoth(bmp1, bmp2, e, f, start, zero, k, m);
      }
    }

    /** Start at elements found in both bitmaps. */
    method MeetBoth(bmp1: Bitmap, bmp2: Bitmap, e: Element, f: Element, start: nat, zero: Element,
                    ghost k: nat, ghost m: nat)
      requires Readable(bmp1) && Readable(bmp2) && ZeroElement(zero)
      requires k < |bmp1.elts| && e == bmp1.elts[k] && m < |bmp2.elts| && f == bmp2.elts[m]
      requires forall n :: 0 <= n < k ==> bmp1.chunks[n].indx < start / BITMAP_ELEMENT_ALL_BITS
      requires forall n :: 0 <= n < m ==> bmp2.chunks[n].indx < e.indx
      requires start / BITMAP_ELEMENT_ALL_BITS <= e.indx <= bmp2.chunks[m].indx
      modifies this
      ensures op == Op.And && Yields(bmp1.chunks, bmp2.chunks, start)
    {
      hide View, Rest, Member, Ahead, Canonical, Iter, Merge, BitsZero, Apply, Nexts, Holds, Tidy;
      Untangle(bmp1);
      Untangle(bmp2);
      PointFirst(bmp1, e, zero, k);
      elt2, s2, c2, j, op := f, bmp2.elts, bmp2.chunks, m, Op.And;
      Facing(op, c1, c2, i, j);
      BeginAnd(start);
      FromStart(op, bmp1.chunks, bmp2.chunks, start, k, j, bitNo);
    }

    lemma PathNumber()
      requires Pointing()
      ensures Path()[0].indx == elt1.indx
    {
    }

    method Step(o: Op) returns (r: bool)
      requires Inv() && op == o
      modifies this`elt1, this`elt2, this`wordNo, this`bits, this`bitNo, this`i, this`j
      ensures r ==> Inv() && bits[0] && Member(Path(), bitNo) && Equiv(old(Path()), old(bitNo), Path(), bitNo)
      ensures !r ==> forall x: nat :: !Ahead(old(Path()), old(bitNo), x)
    {
      if o == Op.And {
        r := StepAnd();
      } else {
        r := StepCompl();
      }
    }

    /** The loop that visits the bits one by one: each qualifying bit exactly once, in increasing order. */
    method Run(o: Op, ghost a: seq<Chunk>, ghost b: seq<Chunk>, ghost start: nat) returns (out: seq<nat>)
      requires o == op && Yields(a, b, start)
      modifies this
      ensures forall p, q :: 0 <= p < q < |out| ==> out[p] < out[q]
      ensures forall x: nat :: x in out <==> x >= start && Apply(o, Member(a, x), Member(b, x))
    {
      hide View, Rest, Member, Ahead, Canonical, Iter, Merge, BitsZero, Apply, Nexts, Holds, Tidy, Caught;
      out := [];
      ghost var v, bit := Path(), bitNo;
      RunStart(o, a, b, start, v, bit);
      var more := Step(o);
      RunStep(o, a, b, start, [], v, bit, more, Path'(more), bitNo);
      if more {
        Limited(o, a, b, start, out, Path(), bitNo);
      }
      while more
        invariant op == o && (more ==> Inv() && bits[0] && Member(Path(), bitNo) && bitNo < Limit(a))
        invariant Sorted(out)
        invariant Visited(o, a, b, start, out, more, Path'(more), bitNo)
        decreases more, Limit(a) - bitNo
      {
        out, more := Visit(o, a, b, start, out);
      }
    }

    /** Visit the current bit and go on to the next. */
    method Visit(o: Op, ghost a: seq<Chunk>, ghost b: seq<Chunk>, ghost start: nat, out: seq<nat>)
      returns (out': seq<nat>, more: bool)
      requires op == o && Inv() && bits[0] && Member(Path(), bitNo) && bitNo < Limit(a)
      requires Sorted(out) && Visited(o, a, b, start, out, true, Path(), bitNo)
      modifies this
      ensures op == o && (more ==> Inv() && bits[0] && Member(Path(), bitNo) && old(bitNo) < bitNo < Limit(a))
      ensures Sorted(out') && Visited(o, a, b, start, out', more, Path'(more), bitNo)
    {
      hide View, Rest, Member, Ahead, Canonical, Iter, Merge, BitsZero, Apply, Nexts, Holds, Tidy, Caught;
      ghost var v, bit := Path(), bitNo;
      out' := out + [bitNo];
      RunNext(o, a, b, start, out, v, bit);
      Next();
      more := Step(o);
      RunStep(o, a, b, start, out', v, bit + 1, more, Path'(more), bitNo);
      if more {
        Limited(o, a, b, start, out', Path(), bitNo);
      }
    }

    /** The path, while there is one. */
    ghost function Path'(more: bool): (v: seq<Chunk>)
      reads this, s1, s2
      requires more ==> Pointing()
    {
      if more then Path() else []
    }
  }

  predicate Sorted(out: seq<nat>) {
    forall p, q :: 0 <= p < q < |out| ==> out[p] < out[q]
  }

  /** The qualifying bits are those visited and those ahead, which come later. */
  ghost predicate Visited(op: Op, a: seq<Chunk>, b: seq<Chunk>, start: nat, out: seq<nat>, more: bool,
                          v: seq<Chunk>, bit: nat) {
    && (more ==> forall p :: 0 <= p < |out| ==> out[p] < bit)
    && forall x: nat :: x >= start && Apply(op, Member(a, x), Member(b, x)) <==> x in out || (more && Ahead(v, bit, x))
  }

  lemma RunStart(op: Op, a: seq<Chunk>, b: seq<Chunk>, start: nat, v: seq<Chunk>, bit: nat)
    requires forall x: nat :: Ahead(v, bit, x) <==> x >= start && Apply(op, Member(a, x), Member(b, x))
    ensures Visited(op, a, b, start, [], true, v, bit)
  {
    hide Ahead, Member, Apply;
  }

  lemma RunStep(op: Op, a: seq<Chunk>, b: seq<Chunk>, start: nat, out: seq<nat>, v: seq<Chunk>, bit: nat,
                more: bool, v': seq<Chunk>, bit': nat)
    requires Visited(op, a, b, start, out, true, v, bit)
    requires if more then Equiv(v, bit, v', bit') && Member(v', bit') else forall x: nat :: !Ahead(v, bit, x)
    ensures Visited(op, a, b, start, out, more, v', bit')
  {
    if more {
      assert Ahead(v', bit', bit');
      assert Ahead(v, bit, bit');
      assert bit <= bit';
    }
    forall x: nat
      ensures x >= start && Apply(op, Member(a, x), Member(b, x)) <==> x in out || (more && Ahead(v', bit', x))
    {
      hide Member, Apply, Ahead;
      assert Ahead(v, bit, x) <==> more && Ahead(v', bit', x);
    }
  }

  lemma RunNext(op: Op, a: seq<Chunk>, b: seq<Chunk>, start: nat, out: seq<nat>, v: seq<Chunk>, bit: nat)
    requires Visited(op, a, b, start, out, true, v, bit) && Member(v, bit) && Sorted(out)
    ensures Visited(op, a, b, start, out + [bit], true, v, bit + 1) && Sorted(out + [bit])
  {
    forall x: nat
      ensures x >= start && Apply(op, Member(a, x), Member(b, x)) <==> x in out + [bit] || Ahead(v, bit + 1, x)
    {
      hide Member, Apply;
      assert x in out + [bit] <==> x in out || x == bit;
      assert Ahead(v, bit, x) <==> x == bit || Ahead(v, bit + 1, x);
    }
  }

  /** A bound on the bits of a list. */
  function Limit(a: seq<Chunk>): nat {
    if a == [] then 0
    else var n := Limit(a[1..]); var m := Base(a[0], BITMAP_ELEMENT_WORDS); if n < m then m else n
  }

  lemma {:induction false} WithinLimit(a: seq<Chunk>, x: nat)
    requires Member(a, x)
    ensures x < Limit(a)
  {
    assert a == [a[0]] + a[1..];
    MemberCons(a[0], a[1..], x);
    if Member(a[1..], x) {
      WithinLimit(a[1..], x);
    }
  }

  lemma Limited(op: Op, a: seq<Chunk>, b: seq<Chunk>, start: nat, out: seq<nat>, v: seq<Chunk>, bit: nat)
    requires Visited(op, a, b, start, out, true, v, bit) && Member(v, bit) && (op == Op.And || op == Op.AndCompl)
    ensures bit < Limit(a) && (out != [] ==> out[|out|-1] < bit)
  {
    assert Ahead(v, bit, bit);
    WithinLimit(a, bit);
  }

  lemma Untangle(bmp: Bitmap)
    requires Readable(bmp)
    ensures Nexts(bmp.elts) && Holds(bmp.elts, bmp.chunks) && Tidy(bmp.chunks) && Canonical(bmp.chunks)
    ensures bmp.first == At(bmp.elts, 0) && |bmp.elts| == |bmp.chunks|
  {
  }

  /** The first elements after skipping: where they point, and the order of the path. */
  lemma Facing(op: Op, a: seq<Chunk>, b: seq<Chunk>, i: nat, j: nat)
    requires Tidy(a) && Canonical(b) && i < |a| && j <= |b| && (j < |b| ==> a[i].indx <= b[j].indx)
    ensures Tidy(b) && Caught(a, b, i, j) && Increasing(View(op, a, b, i, j))
    ensures View(op, a, b, i, j)[0].indx == a[i].indx
  {
    ViewIncreasing(op, a, b, i, j);
  }

  /** The path of the zero element. */
  lemma ZeroView(op: Op, a: seq<Chunk>, b: seq<Chunk>, i: nat, j: nat)
    requires |a| == 1 && i == 0 && j <= |b| && BitsZero(a[0].bits) && (op == Op.And || op == Op.AndCompl)
    ensures |View(op, a, b, i, j)| == 1 && BitsZero(View(op, a, b, i, j)[0].bits)
  {
    PathEnd(op, a, b, i, j);
    var v := View(op, a, b, i, j);
    assert v == [v[0]] + v[1..];
    ZeroTest(a[0].bits);
    if Paired(a, b, i, j) {
      forall n | 0 <= n < BITMAP_ELEMENT_ALL_BITS ensures !Test(v[0].bits, n) {
        TestOp(op, a[0].bits, b[j].bits, n);
      }
    }
    ZeroTest(v[0].bits);
  }

  lemma Unpaired(v: seq<Chunk>, start: nat, bits: Word)
    requires v != [] && Increasing(v) && BitsZero(v[0].bits) && start / BITMAP_ELEMENT_ALL_BITS <= v[0].indx
    requires !NonZero(bits)
    ensures Iter(v, BITMAP_ELEMENT_WORDS - 1, bits, start + 1) && Equiv(v, start, v, start + 1)
  {
    PassStart(v, start);
  }

  lemma Later(c: seq<Chunk>, i: nat, i': nat)
    requires Tidy(c) && i < i' < |c|
    ensures c[i].indx < c[i'].indx
  {
  }

  lemma NothingAhead(v: seq<Chunk>, b: nat, v': seq<Chunk>, b': nat)
    requires Equiv(v, b, v', b') && forall x: nat :: !Ahead(v', b', x)
    ensures forall x: nat :: !Ahead(v, b, x)
  {
  }

  lemma AtWordStart(v: seq<Chunk>, wordNo: nat, bits: Word)
    requires v != [] && Increasing(v) && wordNo < BITMAP_ELEMENT_WORDS && bits == v[0].bits[wordNo] && NonZero(bits)
    ensures Iter(v, wordNo, bits, Base(v[0], wordNo))
  {
    assert bits == ShiftRight(bits, 0);
  }
  // ---------- the loops over bitmaps ----------

  /** EXECUTE_IF_SET_IN_BITMAP. */
  method VisitSet(bmp: Bitmap, start: nat, zero: Element) returns (out: seq<nat>)
    requires Readable(bmp) && ZeroElement(zero)
    ensures Sorted(out)
    ensures forall x: nat :: x in out <==> x >= start && Member(bmp.chunks, x)
  {
    hide Readable, Member;
    var bi := new BitmapIterator();
    NoSecond();
    bi.InitCompl(bmp, null, [], [], start, zero);
    out := bi.Run(Op.AndCompl, bmp.chunks, [], start);
  }

  lemma NoSecond()
    ensures Nexts([]) && Holds([], []) && Canonical([])
    ensures forall x: nat :: !Member([], x)
  {
  }

  /** EXECUTE_IF_AND_IN_BITMAP. */
  method VisitAnd(bmp1: Bitmap, bmp2: Bitmap, start: nat, zero: Element) returns (out: seq<nat>)
    requires Readable(bmp1) && Readable(bmp2) && ZeroElement(zero)
    ensures Sorted(out)
    ensures forall x: nat :: x in out <==> x >= start && Member(bmp1.chunks, x) && Member(bmp2.chunks, x)
  {
    hide Readable, Member;
    var bi := new BitmapIterator();
    bi.InitAnd(bmp1, bmp2, start, zero);
    out := bi.Run(Op.And, bmp1.chunks, bmp2.chunks, start);
  }

  /** EXECUTE_IF_AND_COMPL_IN_BITMAP. */
  method VisitAndCompl(bmp1: Bitmap, bmp2: Bitmap, start: nat, zero: Element) returns (out: seq<nat>)
    requires Readable(bmp1) && Readable(bmp2) && ZeroElement(zero)
    ensures Sorted(out)
    ensures forall x: nat :: x in out <==> x >= start && Member(bmp1.chunks, x) && !Member(bmp2.chunks, x)
  {
    hide Member;
    var bi := new BitmapIterator();
    Untangle(bmp2);
    bi.InitCompl(bmp1, bmp2.first, bmp2.elts, bmp2.chunks, start, zero);
    out := bi.Run(Op.AndCompl, bmp1.chunks, bmp2.chunks, start);
  }
}
