/** The lowest set bit of a bitmap. */
module BitScan {
  import opened Chunks
  import opened Elements
  import opened Bitmaps

  function ShiftRight(w: Word, n: nat): (r: Word)
    requires n <= BITMAP_WORD_BITS
    ensures forall i :: 0 <= i < BITMAP_WORD_BITS ==>
              r[i] == if i + n < BITMAP_WORD_BITS then w[i + n] else false
  {
    w[n..] + seq(n, _ => false)
  }

  predicate LowBits(w: Word, n: nat)
    requires n <= BITMAP_WORD_BITS
  {
    exists i :: 0 <= i < n && w[i]
  }

  /** w is word shifted right by n, nothing below n is set in word, and w has a bit below width. */
  ghost predicate Narrowed(word: Word, w: Word, n: nat, width: nat) {
    && n + width <= BITMAP_WORD_BITS
    && w == ShiftRight(word, n)
    && !LowBits(word, n)
    && LowBits(w, width)
  }

  /** One step of the binary search: drop the lower half if it is empty. */
  method Skip(w: Word, n: nat, width: nat, ghost word: Word) returns (w': Word, n': nat)
    requires Narrowed(word, w, n, 2 * width)
    ensures Narrowed(word, w', n', width)
  {
    w', n' := w, n;
    if !LowBits(w, width) {
      w', n' := ShiftRight(w, width), n + width;
      assert w' == ShiftRight(word, n');
      var i :| 0 <= i < 2 * width && w[i];
      assert w'[i - width];
      forall j | 0 <= j < n' ensures !word[j] {
        assert j >= n ==> word[j] == w[j - n];
      }
    }
  }

  method LowestSet(word: Word) returns (n: nat)
    requires NonZero(word)
    ensures n < BITMAP_WORD_BITS && word[n] && !LowBits(word, n)
  {
    var w;
    w, n := word, 0;
    assert w == ShiftRight(word, 0);
    assert LowBits(w, 64);
    w, n := Skip(w, n, 32, word);
    w, n := Skip(w, n, 16, word);
    w, n := Skip(w, n, 8, word);
    w, n := Skip(w, n, 4, word);
    w, n := Skip(w, n, 2, word);
    w, n := Skip(w, n, 1, word);
    assert w[0];
  }

  /** bitmap_first_set_bit. */
  method FirstSetBit(a: Bitmap) returns (r: nat)
    requires a.OnList() && Canonical(a.chunks) && a.elts != []
    ensures Member(a.chunks, r)
    ensures forall x: nat :: Member(a.chunks, x) ==> r <= x
  {
    var elt := a.first;
    assert a.chunks[0] == Chunk(a.elts[0].indx, a.elts[0].bits);
    assert !BitsZero(elt.bits);
    var ix := 0;
    while !NonZero(elt.bits[ix])
      invariant ix < BITMAP_ELEMENT_WORDS
      invariant forall w :: 0 <= w < ix ==> !NonZero(elt.bits[w])
      decreases BITMAP_ELEMENT_WORDS - ix
    {
      ix := ix + 1;
    }
    var n := LowestSet(elt.bits[ix]);
    r := elt.indx * BITMAP_ELEMENT_ALL_BITS + ix * BITMAP_WORD_BITS + n;
    LowestOfFirst(a.chunks, ix, n);
  }

  /** The lowest bit of the first word in use of the first chunk is the lowest of all. */
  lemma LowestOfFirst(s: seq<Chunk>, w: nat, n: nat)
    requires Canonical(s) && s != [] && w < BITMAP_ELEMENT_WORDS && n < BITMAP_WORD_BITS
    requires s[0].bits[w][n] && !LowBits(s[0].bits[w], n)
    requires forall v :: 0 <= v < w ==> !NonZero(s[0].bits[v])
    ensures var r := s[0].indx * BITMAP_ELEMENT_ALL_BITS + w * BITMAP_WORD_BITS + n;
            Member(s, r) && forall x: nat :: Member(s, x) ==> r <= x
  {
    var m := w * BITMAP_WORD_BITS + n;
    var r := s[0].indx * BITMAP_ELEMENT_ALL_BITS + m;
    TestAt(s[0].bits, w, n);
    assert r / BITMAP_ELEMENT_ALL_BITS == s[0].indx && r % BITMAP_ELEMENT_ALL_BITS == m;
    forall x: nat | Member(s, x) ensures r <= x {
      var i :| 0 <= i < |s| && s[i].indx == x / BITMAP_ELEMENT_ALL_BITS && Test(s[i].bits, x % BITMAP_ELEMENT_ALL_BITS);
      if i == 0 {
        var p := x % BITMAP_ELEMENT_ALL_BITS;
        assert s[0].bits[p / BITMAP_WORD_BITS][p % BITMAP_WORD_BITS];
        assert p / BITMAP_WORD_BITS >= w;
      } else {
        assert s[0].indx < s[i].indx;
      }
    }
  }
}
