/** What a bitmap iterator still has to yield, on values: a list of chunks, a word of the first, the word shifted
    to the current bit, and the current bit number. */
module Scan {
  import opened Chunks
  import opened Merging
  import opened BitScan

  /** The bits at or above b in v. */
  ghost predicate Ahead(v: seq<Chunk>, b: nat, x: nat) {
    x >= b && Member(v, x)
  }

  /** Both positions have the same bits ahead. */
  ghost predicate Equiv(v: seq<Chunk>, b: nat, v': seq<Chunk>, b': nat) {
    forall x: nat :: Ahead(v, b, x) <==> Ahead(v', b', x)
  }

  function Base(c: Chunk, wordNo: nat): nat {
    c.indx * BITMAP_ELEMENT_ALL_BITS + wordNo * BITMAP_WORD_BITS
  }

  ghost predicate Increasing(v: seq<Chunk>) {
    forall i, j :: 0 <= i < j < |v| ==> v[i].indx < v[j].indx
  }

  /** The current word, shifted so that bit b comes first. */
  ghost predicate Aligned(c: Chunk, wordNo: nat, bits: Word, b: nat) {
    && wordNo < BITMAP_ELEMENT_WORDS
    && Base(c, wordNo) <= b <= Base(c, wordNo) + BITMAP_WORD_BITS
    && bits == ShiftRight(c.bits[wordNo], b - Base(c, wordNo))
  }

  /** A position between two steps.  An exhausted word never has its first bit as the current one, so rounding up
      leads to the next word; a pair of chunks without common bits is entered as exhausted in its last word. */
  ghost predicate Iter(v: seq<Chunk>, wordNo: nat, bits: Word, b: nat) {
    && v != [] && Increasing(v) && wordNo < BITMAP_ELEMENT_WORDS
    && (NonZero(bits) ==> Aligned(v[0], wordNo, bits, b))
    && (!NonZero(bits) ==>
          || (Aligned(v[0], wordNo, bits, b) && b > Base(v[0], wordNo))
          || (wordNo == BITMAP_ELEMENT_WORDS - 1 && BitsZero(v[0].bits) && b <= Base(v[0], wordNo) + BITMAP_WORD_BITS))
  }

  /** Where bit number x of chunk c's range is stored. */
  lemma Located(c: Chunk, w: nat, n: nat)
    requires w < BITMAP_ELEMENT_WORDS && n < BITMAP_WORD_BITS
    ensures var x := Base(c, w) + n;
            x / BITMAP_ELEMENT_ALL_BITS == c.indx && Test(c.bits, x % BITMAP_ELEMENT_ALL_BITS) == c.bits[w][n]
  {
    TestAt(c.bits, w, n);
    var m := w * BITMAP_WORD_BITS + n;
    assert (c.indx * BITMAP_ELEMENT_ALL_BITS + m) / BITMAP_ELEMENT_ALL_BITS == c.indx;
    assert (c.indx * BITMAP_ELEMENT_ALL_BITS + m) % BITMAP_ELEMENT_ALL_BITS == m;
  }

  /** Membership of a bit of the first chunk. */
  lemma FirstHas(v: seq<Chunk>, w: nat, n: nat)
    requires v != [] && Increasing(v) && w < BITMAP_ELEMENT_WORDS && n < BITMAP_WORD_BITS
    ensures Member(v, Base(v[0], w) + n) == v[0].bits[w][n]
  {
    Located(v[0], w, n);
    var x := Base(v[0], w) + n;
    if Member(v, x) {
      var i :| 0 <= i < |v| && v[i].indx == x / BITMAP_ELEMENT_ALL_BITS && Test(v[i].bits, x % BITMAP_ELEMENT_ALL_BITS);
      assert i == 0;
    }
  }

  /** Bits of one word without members from b on can be skipped. */
  lemma SkipBits(v: seq<Chunk>, w: nat, b: nat, b': nat)
    requires v != [] && Increasing(v) && w < BITMAP_ELEMENT_WORDS
    requires Base(v[0], w) <= b <= b' <= Base(v[0], w) + BITMAP_WORD_BITS
    requires forall n :: b - Base(v[0], w) <= n < b' - Base(v[0], w) ==> !v[0].bits[w][n]
    ensures Equiv(v, b, v, b')
  {
    forall x: nat ensures Ahead(v, b, x) <==> Ahead(v, b', x) {
      if b <= x < b' {
        FirstHas(v, w, x - Base(v[0], w));
      }
    }
  }

  /** An exhausted word can be left. */
  lemma LeaveWord(v: seq<Chunk>, wordNo: nat, bits: Word, b: nat)
    requires Iter(v, wordNo, bits, b) && !NonZero(bits)
    ensures Equiv(v, b, v, Base(v[0], wordNo) + BITMAP_WORD_BITS)
    ensures wordNo + 1 < BITMAP_ELEMENT_WORDS ==>
              (b + BITMAP_WORD_BITS - 1) / BITMAP_WORD_BITS * BITMAP_WORD_BITS == Base(v[0], wordNo + 1)
  {
    var base := Base(v[0], wordNo);
    if Aligned(v[0], wordNo, bits, b) && b > base {
      forall n | b - base <= n < BITMAP_WORD_BITS ensures !v[0].bits[wordNo][n] {
        assert bits[n - (b - base)] == v[0].bits[wordNo][n];
      }
      SkipBits(v, wordNo, b, base + BITMAP_WORD_BITS);
      RoundUp(v[0].indx * 2 + wordNo, b);
    } else {
      SkipChunk(v, b, base + BITMAP_WORD_BITS);
    }
  }

  lemma RoundUp(q: nat, b: nat)
    requires q * BITMAP_WORD_BITS < b <= q * BITMAP_WORD_BITS + BITMAP_WORD_BITS
    ensures (b + BITMAP_WORD_BITS - 1) / BITMAP_WORD_BITS * BITMAP_WORD_BITS == (q + 1) * BITMAP_WORD_BITS
  {
    assert (b + BITMAP_WORD_BITS - 1) / BITMAP_WORD_BITS == q + 1;
  }

  /** An empty first chunk has no bits to yield. */
  lemma SkipChunk(v: seq<Chunk>, b: nat, b': nat)
    requires v != [] && Increasing(v) && BitsZero(v[0].bits)
    requires b <= b' == v[0].indx * BITMAP_ELEMENT_ALL_BITS + BITMAP_ELEMENT_ALL_BITS
    ensures Equiv(v, b, v, b')
  {
    ZeroTest(v[0].bits);
    forall x: nat ensures Ahead(v, b, x) <==> Ahead(v, b', x) {
      if Member(v, x) {
        var i :| 0 <= i < |v| && v[i].indx == x / BITMAP_ELEMENT_ALL_BITS && Test(v[i].bits, x % BITMAP_ELEMENT_ALL_BITS);
        assert i != 0;
        assert v[0].indx < v[i].indx;
      }
    }
  }

  /** A zero word can be left. */
  lemma LeaveZero(v: seq<Chunk>, w: nat)
    requires v != [] && Increasing(v) && w < BITMAP_ELEMENT_WORDS && !NonZero(v[0].bits[w])
    ensures Equiv(v, Base(v[0], w), v, Base(v[0], w + 1))
  {
    SkipBits(v, w, Base(v[0], w), Base(v[0], w + 1));
  }

  /** After the last word the rest of the list is ahead, under whatever form it comes. */
  lemma LeaveChunk(v: seq<Chunk>, v': seq<Chunk>)
    requires v != [] && Increasing(v) && v' != [] && Increasing(v') && v[0].indx < v'[0].indx
    requires forall x: nat :: Member(v', x) == Member(v[1..], x)
    ensures Equiv(v, Base(v[0], BITMAP_ELEMENT_WORDS), v', Base(v'[0], 0))
  {
    var b := Base(v[0], BITMAP_ELEMENT_WORDS);
    forall x: nat ensures Ahead(v, b, x) <==> Ahead(v', Base(v'[0], 0), x) {
      AfterFirst(v, x);
      if Member(v', x) {
        var i :| 0 <= i < |v'| && v'[i].indx == x / BITMAP_ELEMENT_ALL_BITS && Test(v'[i].bits, x % BITMAP_ELEMENT_ALL_BITS);
        assert v'[0].indx <= v'[i].indx;
      }
    }
  }

  lemma AfterFirst(v: seq<Chunk>, x: nat)
    requires v != [] && Increasing(v)
    ensures x >= Base(v[0], BITMAP_ELEMENT_WORDS) ==> Member(v, x) == Member(v[1..], x)
  {
    assert v == [v[0]] + v[1..];
    MemberCons(v[0], v[1..], x);
  }

  lemma LeaveLast(v: seq<Chunk>)
    requires v != [] && Increasing(v) && v[1..] == []
    ensures forall x: nat :: !Ahead(v, Base(v[0], BITMAP_ELEMENT_WORDS), x)
  {
    forall x: nat ensures !Ahead(v, Base(v[0], BITMAP_ELEMENT_WORDS), x) {
      AfterFirst(v, x);
    }
  }

  /** The next bit of a word that has one. */
  lemma ShiftOne(v: seq<Chunk>, wordNo: nat, bits: Word, b: nat)
    requires v != [] && Increasing(v) && Aligned(v[0], wordNo, bits, b) && b < Base(v[0], wordNo) + BITMAP_WORD_BITS
    ensures Aligned(v[0], wordNo, ShiftRight(bits, 1), b + 1)
    ensures bits[0] == Member(v, b)
    ensures !bits[0] ==> Equiv(v, b, v, b + 1)
    ensures !bits[0] && NonZero(bits) ==> NonZero(ShiftRight(bits, 1))
  {
    var n := b - Base(v[0], wordNo);
    var word := v[0].bits[wordNo];
    assert ShiftRight(bits, 1) == ShiftRight(word, n + 1);
    assert bits[0] == word[n];
    FirstHas(v, wordNo, n);
    if !bits[0] {
      SkipBits(v, wordNo, b, b + 1);
      if NonZero(bits) {
        var i :| 0 <= i < BITMAP_WORD_BITS && bits[i];
        assert ShiftRight(bits, 1)[i-1];
      }
    }
  }

  /** A word that is not exhausted has not been left. */
  lemma NotPast(c: Chunk, wordNo: nat, bits: Word, b: nat)
    requires Aligned(c, wordNo, bits, b) && NonZero(bits)
    ensures b < Base(c, wordNo) + BITMAP_WORD_BITS
  {
  }

  lemma EquivTrans(v: seq<Chunk>, b: nat, v': seq<Chunk>, b': nat, v'': seq<Chunk>, b'': nat)
    requires Equiv(v, b, v', b') && Equiv(v', b', v'', b'')
    ensures Equiv(v, b, v'', b'')
  {
    hide Ahead;
  }

  // ---------- the list an iterator over two bitmaps runs along ----------

  predicate Paired(a: seq<Chunk>, b: seq<Chunk>, i: nat, j: nat)
    requires i < |a| && j <= |b|
  {
    j < |b| && b[j].indx == a[i].indx
  }

  /** The bits of the current elements: combined if they are a pair; alone, none for an intersection and those of
      the first for a difference. */
  function Current(op: Op, a: seq<Chunk>, b: seq<Chunk>, i: nat, j: nat): Chunk
    requires i < |a| && j <= |b|
  {
    if Paired(a, b, i, j) then Combined(op, a[i], b[j])
    else if op == And then EmptyChunk(a[i].indx)
    else a[i]
  }

  function View(op: Op, a: seq<Chunk>, b: seq<Chunk>, i: nat, j: nat): seq<Chunk>
    requires i < |a| && j <= |b|
  {
    [Current(op, a, b, i, j)] + Rest(op, a, b, i + 1, if Paired(a, b, i, j) then j + 1 else j)
  }

  /** The second position is not before the first. */
  ghost predicate Caught(a: seq<Chunk>, b: seq<Chunk>, i: nat, j: nat)
    requires i < |a| && j <= |b|
  {
    j < |b| ==> a[i].indx <= b[j].indx
  }

  /** A bitmap's list, or the zero element alone. */
  ghost predicate Tidy(a: seq<Chunk>) {
    Canonical(a) || |a| == 1
  }

  lemma SuffixCanonical(a: seq<Chunk>, i: nat, n: nat)
    requires Tidy(a) && i <= |a| && (i > 0 || Canonical(a)) && (i < |a| ==> a[i].indx >= n)
    ensures Canonical(a[i..]) && From(a[i..], n)
  {
  }

  lemma ViewIncreasing(op: Op, a: seq<Chunk>, b: seq<Chunk>, i: nat, j: nat)
    requires Tidy(a) && Tidy(b) && i < |a| && j <= |b| && Caught(a, b, i, j)
    requires Paired(a, b, i, j) || Canonical(b) || j > 0
    ensures Increasing(View(op, a, b, i, j))
  {
    hide Merge, BitsZero, BitsOp;
    var j' := if Paired(a, b, i, j) then j + 1 else j;
    SuffixCanonical(a, i + 1, a[i].indx + 1);
    SuffixCanonical(b, j', a[i].indx + 1);
    MergeCanonical(op, a[i+1..], b[j'..], a[i].indx + 1);
  }

  /** The view has the members of the merge of what is left. */
  lemma ViewMember(op: Op, a: seq<Chunk>, b: seq<Chunk>, i: nat, j: nat, x: nat)
    requires i < |a| && j <= |b| && Caught(a, b, i, j) && (op == And || op == AndCompl)
    ensures Member(View(op, a, b, i, j), x) == Member(Rest(op, a, b, i, j), x)
  {
    hide Rest, Merge, Member, BitsOp, Test, BitsZero;
    var c := Current(op, a, b, i, j);
    var j' := if Paired(a, b, i, j) then j + 1 else j;
    MemberCons(c, Rest(op, a, b, i + 1, j'), x);
    if Paired(a, b, i, j) {
      RestMatch(op, a, b, i, j);
      KeepsMember(!BitsZero(c.bits), c, Rest(op, a, b, i + 1, j'), x);
      if BitsZero(c.bits) {
        ZeroMember(c.indx, c.bits, x);
      }
    } else {
      RestFirst(op, a, b, i, j);
      KeepsMember(op == AndCompl, a[i], Rest(op, a, b, i + 1, j'), x);
      if op == And {
        ZeroMember(c.indx, c.bits, x);
      }
    }
  }
  /** Starting at a bit of the first chunk: the position is passed at once if its word has nothing from there on. */
  lemma Enter(v: seq<Chunk>, start: nat, wordNo: nat, bits: Word)
    requires v != [] && Increasing(v) && v[0].indx == start / BITMAP_ELEMENT_ALL_BITS
    requires wordNo == start / BITMAP_WORD_BITS % BITMAP_ELEMENT_WORDS
    requires bits == ShiftRight(v[0].bits[wordNo], start % BITMAP_WORD_BITS)
    ensures var b := if NonZero(bits) then start else start + 1;
            Iter(v, wordNo, bits, b) && Equiv(v, start, v, b)
  {
    Places(start);
    var n := start % BITMAP_WORD_BITS;
    assert start == Base(v[0], wordNo) + n;
    if !NonZero(bits) {
      assert !bits[0];
      assert bits == ShiftRight(v[0].bits[wordNo], n + 1) by {
        forall m | 0 <= m < BITMAP_WORD_BITS
          ensures bits[m] == ShiftRight(v[0].bits[wordNo], n + 1)[m]
        {
          assert !bits[m];
          if m + 1 + n < BITMAP_WORD_BITS {
            assert !bits[m + 1];
          }
        }
      }
      assert !v[0].bits[wordNo][n];
      SkipBits(v, wordNo, start, start + 1);
    }
  }

  /** Starting at the front of a list that begins beyond the start bit. */
  lemma EnterLater(v: seq<Chunk>, start: nat)
    requires v != [] && Increasing(v) && v[0].indx > start / BITMAP_ELEMENT_ALL_BITS
    ensures Equiv(v, start, v, Base(v[0], 0))
  {
    forall x: nat ensures Ahead(v, start, x) <==> Ahead(v, Base(v[0], 0), x) {
      if Member(v, x) {
        var i :| 0 <= i < |v| && v[i].indx == x / BITMAP_ELEMENT_ALL_BITS && Test(v[i].bits, x % BITMAP_ELEMENT_ALL_BITS);
        assert i > 0 ==> v[0].indx < v[i].indx;
      }
    }
  }

  lemma SuffixMember(a: seq<Chunk>, i: nat, n: nat, x: nat)
    requires i <= |a| && (forall k :: 0 <= k < i ==> a[k].indx < n) && x / BITMAP_ELEMENT_ALL_BITS >= n
    ensures Member(a, x) == Member(a[i..], x)
  {
    MemberSplit(a[..i], a[i..], x);
    assert a == a[..i] + a[i..];
  }

  /** Skipping in both lists what lies before the start bit loses nothing. */
  lemma SkipBoth(op: Op, a: seq<Chunk>, b: seq<Chunk>, start: nat, i: nat, j: nat, x: nat)
    requires Canonical(a) && Canonical(b) && (op == And || op == AndCompl) && i <= |a| && j <= |b|
    requires forall k :: 0 <= k < i ==> a[k].indx < start / BITMAP_ELEMENT_ALL_BITS
    requires (j > 0 ==> i < |a|) && forall k :: 0 <= k < j ==> b[k].indx < a[i].indx
    requires x >= start
    ensures Apply(op, Member(a, x), Member(b, x)) <==> Member(Rest(op, a, b, i, j), x)
  {
    SuffixMember(a, i, start / BITMAP_ELEMENT_ALL_BITS, x);
    SuffixCanonical(a, i, 0);
    SuffixCanonical(b, j, 0);
    MergeMember(op, a[i..], b[j..], x);
    if Member(a[i..], x) {
      var k :| 0 <= k < |a[i..]| && a[i..][k].indx == x / BITMAP_ELEMENT_ALL_BITS &&
               Test(a[i..][k].bits, x % BITMAP_ELEMENT_ALL_BITS);
      assert a[i..][k] == a[i + k];
      assert a[i].indx <= a[i + k].indx;
      SuffixMember(b, j, a[i].indx, x);
    }
  }

  /** A view of one empty chunk has nothing ahead. */
  lemma Nothing(v: seq<Chunk>, b: nat, x: nat)
    requires |v| == 1 && BitsZero(v[0].bits)
    ensures !Ahead(v, b, x)
  {
    ZeroTest(v[0].bits);
  }
  /** Elements of b before the next element of a drop out of an intersection and a difference. */
  lemma {:induction false} RestSkipSecond(op: Op, a: seq<Chunk>, b: seq<Chunk>, i: nat, j: nat, j': nat)
    requires i < |a| && j <= j' <= |b| && (op == And || op == AndCompl)
    requires forall k :: j <= k < j' ==> b[k].indx < a[i].indx
    ensures Rest(op, a, b, i, j) == Rest(op, a, b, i, j')
    decreases j' - j
  {
    if j < j' {
      RestSecond(op, a, b, i, j);
      hide Rest;
      RestSkipSecond(op, a, b, i, j + 1, j');
    }
  }

  /** The rest of the path, however far the second position has moved. */
  lemma PathTail(op: Op, a: seq<Chunk>, b: seq<Chunk>, i: nat, j: nat, j': nat)
    requires i + 1 < |a| && j <= j' <= |b| && (op == And || op == AndCompl) && Canonical(a)
    requires forall k :: j <= k < j' ==> b[k].indx < a[i+1].indx
    requires Paired(a, b, i, j) ==> j < j'
    ensures View(op, a, b, i, j)[1..] == Rest(op, a, b, i + 1, j')
  {
    hide Merge;
    RestSkipSecond(op, a, b, i + 1, if Paired(a, b, i, j) then j + 1 else j, j');
  }

  lemma PathEnd(op: Op, a: seq<Chunk>, b: seq<Chunk>, i: nat, j: nat)
    requires i + 1 == |a| && j <= |b| && (op == And || op == AndCompl)
    ensures View(op, a, b, i, j)[1..] == []
  {
    RestEnd(op, a, b, i + 1, if Paired(a, b, i, j) then j + 1 else j);
  }

  /** In an intersection a pair that is still current counts for nothing in the rest. */
  lemma PathTailAnd(a: seq<Chunk>, b: seq<Chunk>, i: nat, j: nat)
    requires i < |a| && j < |b| && Tidy(a)
    ensures View(And, a, b, i, j)[1..] == Rest(And, a, b, i + 1, j)
  {
    if i + 1 == |a| {
      PathEnd(And, a, b, i, j);
      MergeEmpty(And, a[i+1..], b[j..]);
    } else if Paired(a, b, i, j) {
      RestSecond(And, a, b, i + 1, j);
    }
  }

  lemma ViewMembers(op: Op, a: seq<Chunk>, b: seq<Chunk>, i: nat, j: nat)
    requires i < |a| && j <= |b| && Caught(a, b, i, j) && (op == And || op == AndCompl)
    ensures forall x: nat :: Member(View(op, a, b, i, j), x) == Member(Rest(op, a, b, i, j), x)
  {
    forall x: nat ensures Member(View(op, a, b, i, j), x) == Member(Rest(op, a, b, i, j), x) {
      ViewMember(op, a, b, i, j, x);
    }
  }
  /** A start bit before a pair of different elements can be passed. */
  lemma PassStart(v: seq<Chunk>, start: nat)
    requires v != [] && Increasing(v) && BitsZero(v[0].bits) && start / BITMAP_ELEMENT_ALL_BITS <= v[0].indx
    ensures Equiv(v, start, v, start + 1)
    ensures start + 1 <= Base(v[0], BITMAP_ELEMENT_WORDS)
  {
    ZeroTest(v[0].bits);
    forall x: nat ensures Ahead(v, start, x) <==> Ahead(v, start + 1, x) {
      if Member(v, x) {
        var i :| 0 <= i < |v| && v[i].indx == x / BITMAP_ELEMENT_ALL_BITS && Test(v[i].bits, x % BITMAP_ELEMENT_ALL_BITS);
        assert i != 0;
        assert v[0].indx < v[i].indx;
      }
    }
  }

  /** What is ahead of a new iterator is what qualifies from the start bit on. */
  lemma FromStart(op: Op, a: seq<Chunk>, b: seq<Chunk>, start: nat, i: nat, j: nat, bitNo: nat)
    requires Canonical(a) && Canonical(b) && (op == And || op == AndCompl) && i < |a| && j <= |b|
    requires forall k :: 0 <= k < i ==> a[k].indx < start / BITMAP_ELEMENT_ALL_BITS
    requires forall k :: 0 <= k < j ==> b[k].indx < a[i].indx
    requires Caught(a, b, i, j)
    requires Equiv(View(op, a, b, i, j), start, View(op, a, b, i, j), bitNo)
    ensures forall x: nat :: Ahead(View(op, a, b, i, j), bitNo, x) <==>
              x >= start && Apply(op, Member(a, x), Member(b, x))
  {
    hide Canonical, View, Rest, Member, Apply;
    var v := View(op, a, b, i, j);
    forall x: nat ensures Ahead(v, bitNo, x) <==> x >= start && Apply(op, Member(a, x), Member(b, x)) {
      ViewMember(op, a, b, i, j, x);
      if x >= start {
        SkipBoth(op, a, b, start, i, j, x);
        assert Ahead(v, start, x) <==> Ahead(v, bitNo, x);
      } else {
        assert Ahead(v, start, x) <==> Ahead(v, bitNo, x);
      }
    }
  }

  /** When a list ends before the start bit nothing qualifies, and the zero element has nothing ahead. */
  lemma NothingFromStart(op: Op, a: seq<Chunk>, b: seq<Chunk>, start: nat, i: nat, j: nat, v: seq<Chunk>, bitNo: nat)
    requires Canonical(a) && Canonical(b) && (op == And || op == AndCompl) && i <= |a| && j <= |b|
    requires forall k :: 0 <= k < i ==> a[k].indx < start / BITMAP_ELEMENT_ALL_BITS
    requires (j > 0 ==> i < |a|) && forall k :: 0 <= k < j ==> b[k].indx < a[i].indx
    requires i == |a| || (op == And && j == |b|)
    requires |v| == 1 && BitsZero(v[0].bits)
    ensures forall x: nat :: Ahead(v, bitNo, x) <==> x >= start && Apply(op, Member(a, x), Member(b, x))
  {
    hide Canonical, Rest, Member, Apply, Ahead, BitsZero;
    RestNothing(op, a, b, i, j);
    forall x: nat ensures Ahead(v, bitNo, x) <==> x >= start && Apply(op, Member(a, x), Member(b, x)) {
      Nothing(v, bitNo, x);
      if x >= start {
        NoneQualifies(op, a, b, start, i, j, x);
      }
    }
  }

  lemma RestNothing(op: Op, a: seq<Chunk>, b: seq<Chunk>, i: nat, j: nat)
    requires i <= |a| && j <= |b| && (op == And || op == AndCompl) && (i == |a| || (op == And && j == |b|))
    ensures Rest(op, a, b, i, j) == []
  {
    MergeEmpty(op, a[i..], b[j..]);
  }

  lemma NoneQualifies(op: Op, a: seq<Chunk>, b: seq<Chunk>, start: nat, i: nat, j: nat, x: nat)
    requires Canonical(a) && Canonical(b) && (op == And || op == AndCompl) && i <= |a| && j <= |b| && x >= start
    requires forall k :: 0 <= k < i ==> a[k].indx < start / BITMAP_ELEMENT_ALL_BITS
    requires (j > 0 ==> i < |a|) && forall k :: 0 <= k < j ==> b[k].indx < a[i].indx
    requires Rest(op, a, b, i, j) == []
    ensures !Apply(op, Member(a, x), Member(b, x))
  {
    hide Canonical, Rest, Member, Apply;
    SkipBoth(op, a, b, start, i, j, x);
    NoMembers(x);
  }
}
