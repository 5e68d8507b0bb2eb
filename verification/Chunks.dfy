/** Words, chunks and sorted chunk lists: what a sparse bitmap stores, and the set it stands for. */
module Chunks {
  const BITMAP_WORD_BITS: nat := 64
  const BITMAP_ELEMENT_WORDS: nat := 2
  const BITMAP_ELEMENT_ALL_BITS: nat := 128

  /** A machine word, bit by bit, least significant first. */
  type Word = w: seq<bool> | |w| == BITMAP_WORD_BITS witness seq(BITMAP_WORD_BITS, _ => false)

  type Bits = b: seq<Word> | |b| == BITMAP_ELEMENT_WORDS witness [ZeroWord(), ZeroWord()]

  function ZeroWord(): (w: Word)
    ensures forall i :: 0 <= i < BITMAP_WORD_BITS ==> !w[i]
  {
    seq(BITMAP_WORD_BITS, _ => false)
  }

  function Zeros(): (b: Bits)
    ensures BitsZero(b)
  {
    [ZeroWord(), ZeroWord()]
  }

  datatype Op = And | AndCompl | Ior | Xor

  predicate Apply(op: Op, x: bool, y: bool) {
    match op
    case And => x && y
    case AndCompl => x && !y
    case Ior => x || y
    case Xor => x != y
  }

  /** The bitwise operators: each result bit depends on the operand bits at its place. */
  function WordOp(op: Op, x: Word, y: Word): (r: Word)
    ensures forall i :: 0 <= i < BITMAP_WORD_BITS ==> r[i] == Apply(op, x[i], y[i])
  {
    seq(BITMAP_WORD_BITS, i requires 0 <= i < BITMAP_WORD_BITS => Apply(op, x[i], y[i]))
  }

  predicate NonZero(w: Word) {
    exists i :: 0 <= i < BITMAP_WORD_BITS && w[i]
  }

  predicate BitsZero(b: Bits) {
    !NonZero(b[0]) && !NonZero(b[1])
  }

  function BitsOp(op: Op, x: Bits, y: Bits): Bits {
    [WordOp(op, x[0], y[0]), WordOp(op, x[1], y[1])]
  }

  predicate Test(b: Bits, n: nat)
    requires n < BITMAP_ELEMENT_ALL_BITS
  {
    b[n / BITMAP_WORD_BITS][n % BITMAP_WORD_BITS]
  }

  lemma TestOp(op: Op, x: Bits, y: Bits, n: nat)
    requires n < BITMAP_ELEMENT_ALL_BITS
    ensures Test(BitsOp(op, x, y), n) == Apply(op, Test(x, n), Test(y, n))
  {
  }

  lemma ZeroTest(b: Bits)
    ensures BitsZero(b) <==> forall n :: 0 <= n < BITMAP_ELEMENT_ALL_BITS ==> !Test(b, n)
  {
    forall w, i | 0 <= w < 2 && 0 <= i < BITMAP_WORD_BITS && b[w][i]
      ensures exists n :: 0 <= n < BITMAP_ELEMENT_ALL_BITS && Test(b, n)
    {
      TestAt(b, w, i);
    }
  }

  lemma TestAt(b: Bits, w: nat, i: nat)
    requires w < BITMAP_ELEMENT_WORDS && i < BITMAP_WORD_BITS
    ensures w * BITMAP_WORD_BITS + i < BITMAP_ELEMENT_ALL_BITS
    ensures Test(b, w * BITMAP_WORD_BITS + i) == b[w][i]
  {
    var n := w * BITMAP_WORD_BITS + i;
    assert n / BITMAP_WORD_BITS == w && n % BITMAP_WORD_BITS == i;
  }

  /** Chunks that agree on every bit are the same. */
  lemma BitsExtensional(x: Bits, y: Bits)
    requires forall n :: 0 <= n < BITMAP_ELEMENT_ALL_BITS ==> Test(x, n) == Test(y, n)
    ensures x == y
  {
    forall w | 0 <= w < 2 ensures x[w] == y[w] {
      forall i | 0 <= i < BITMAP_WORD_BITS ensures x[w][i] == y[w][i] {
        TestAt(x, w, i);
        TestAt(y, w, i);
      }
    }
  }

  // ---------- lists of chunks ----------

  datatype Chunk = Chunk(indx: nat, bits: Bits)

  /** Strictly increasing chunk numbers, no empty chunk: the form every bitmap list has. */
  ghost predicate Canonical(s: seq<Chunk>) {
    && (forall i, j :: 0 <= i < j < |s| ==> s[i].indx < s[j].indx)
    && (forall i :: 0 <= i < |s| ==> !BitsZero(s[i].bits))
  }

  /** The set of bit numbers that s stands for. */
  ghost predicate Member(s: seq<Chunk>, x: nat) {
    exists i :: 0 <= i < |s| && s[i].indx == x / BITMAP_ELEMENT_ALL_BITS &&
                Test(s[i].bits, x % BITMAP_ELEMENT_ALL_BITS)
  }

  function Keep(c: Chunk): seq<Chunk> {
    if BitsZero(c.bits) then [] else [c]
  }

  /** The operation on two sorted lists, chunk by chunk. */
  function Merge(op: Op, a: seq<Chunk>, b: seq<Chunk>): seq<Chunk>
    decreases |a| + |b|
  {
    if a == [] then (if op == Ior || op == Xor then b else [])
    else if b == [] then (if op == And then [] else a)
    else if a[0].indx < b[0].indx then
      (if op == And then [] else [a[0]]) + Merge(op, a[1..], b)
    else if b[0].indx < a[0].indx then
      (if op == Ior || op == Xor then [b[0]] else []) + Merge(op, a, b[1..])
    else Keep(Chunk(a[0].indx, BitsOp(op, a[0].bits, b[0].bits))) + Merge(op, a[1..], b[1..])
  }

  /** What merging does with the first chunks, as one equation: keep, drop or combine them. */
  lemma MergeStep(op: Op, a: seq<Chunk>, b: seq<Chunk>)
    requires a != [] && b != []
    ensures Merge(op, a, b) ==
      if a[0].indx < b[0].indx then Keeps(op != And, a[0]) + Merge(op, a[1..], b)
      else if b[0].indx < a[0].indx then Keeps(op == Ior || op == Xor, b[0]) + Merge(op, a, b[1..])
      else Keep(Chunk(a[0].indx, BitsOp(op, a[0].bits, b[0].bits))) + Merge(op, a[1..], b[1..])
  {
  }

  function Keeps(keep: bool, c: Chunk): seq<Chunk> {
    if keep then [c] else []
  }

  lemma MergeEmpty(op: Op, a: seq<Chunk>, b: seq<Chunk>)
    requires a == [] || b == []
    ensures Merge(op, a, b) == if op == And then [] else if b == [] then a
                               else if op == AndCompl then [] else b
  {
  }

  /** All chunk numbers in s are at least n. */
  ghost predicate From(s: seq<Chunk>, n: nat) {
    forall i :: 0 <= i < |s| ==> s[i].indx >= n
  }

  lemma CanonicalTail(s: seq<Chunk>)
    requires Canonical(s) && s != []
    ensures Canonical(s[1..]) && From(s[1..], s[0].indx + 1)
  {
  }

  lemma CanonicalCons(c: Chunk, s: seq<Chunk>)
    requires Canonical(s) && From(s, c.indx + 1) && !BitsZero(c.bits)
    ensures Canonical([c] + s)
  {
  }

  lemma MemberCons(c: Chunk, s: seq<Chunk>, x: nat)
    ensures Member([c] + s, x) <==>
      (c.indx == x / BITMAP_ELEMENT_ALL_BITS && Test(c.bits, x % BITMAP_ELEMENT_ALL_BITS)) || Member(s, x)
  {
    var t := [c] + s;
    if c.indx == x / BITMAP_ELEMENT_ALL_BITS && Test(c.bits, x % BITMAP_ELEMENT_ALL_BITS) {
      assert t[0] == c;
    }
    if Member(s, x) {
      var i :| 0 <= i < |s| && s[i].indx == x / BITMAP_ELEMENT_ALL_BITS && Test(s[i].bits, x % BITMAP_ELEMENT_ALL_BITS);
      assert t[i+1] == s[i];
    }
    if Member(t, x) {
      var i :| 0 <= i < |t| && t[i].indx == x / BITMAP_ELEMENT_ALL_BITS && Test(t[i].bits, x % BITMAP_ELEMENT_ALL_BITS);
      assert i == 0 || t[i] == s[i-1];
    }
  }

  lemma NotMemberBelow(s: seq<Chunk>, n: nat, x: nat)
    requires From(s, n) && x / BITMAP_ELEMENT_ALL_BITS < n
    ensures !Member(s, x)
  {
  }

  /** Merging keeps the form and computes the operation on the sets. */
  lemma {:induction false} MergeCanonical(op: Op, a: seq<Chunk>, b: seq<Chunk>, n: nat)
    requires Canonical(a) && Canonical(b) && From(a, n) && From(b, n)
    ensures Canonical(Merge(op, a, b)) && From(Merge(op, a, b), n)
    decreases |a| + |b|
  {
    if a == [] || b == [] {
      MergeEmpty(op, a, b);
    } else {
      MergeStep(op, a, b);
      CanonicalTail(a);
      CanonicalTail(b);
      hide Merge;
      if a[0].indx < b[0].indx {
        MergeCanonical(op, a[1..], b, a[0].indx + 1);
        AddFront(op != And, a[0], Merge(op, a[1..], b), n);
      } else if b[0].indx < a[0].indx {
        MergeCanonical(op, a, b[1..], b[0].indx + 1);
        AddFront(op == Ior || op == Xor, b[0], Merge(op, a, b[1..]), n);
      } else {
        MergeCanonical(op, a[1..], b[1..], a[0].indx + 1);
        var c := Chunk(a[0].indx, BitsOp(op, a[0].bits, b[0].bits));
        AddFront(!BitsZero(c.bits), c, Merge(op, a[1..], b[1..]), n);
      }
    }
  }

  lemma AddFront(keep: bool, c: Chunk, s: seq<Chunk>, n: nat)
    requires Canonical(s) && From(s, c.indx + 1) && c.indx >= n && (keep ==> !BitsZero(c.bits))
    ensures Canonical(Keeps(keep, c) + s) && From(Keeps(keep, c) + s, n)
  {
    hide Canonical, BitsZero;
    if keep {
      CanonicalCons(c, s);
    } else {
      assert Keeps(keep, c) + s == s;
    }
  }

  lemma {:induction false} MergeMember(op: Op, a: seq<Chunk>, b: seq<Chunk>, x: nat)
    requires Canonical(a) && Canonical(b)
    ensures Member(Merge(op, a, b), x) == Apply(op, Member(a, x), Member(b, x))
    decreases |a| + |b|
  {
    hide BitsOp, Canonical, Member, BitsZero, Test;
    if a == [] || b == [] {
      MergeEmpty(op, a, b);
      NoMembers(x);
    } else {
      MergeStep(op, a, b);
      hide Merge;
      CanonicalTail(a);
      CanonicalTail(b);
      TailMember(a, x);
      TailMember(b, x);
      if a[0].indx < b[0].indx {
        MergeMember(op, a[1..], b, x);
        KeepsMember(op != And, a[0], Merge(op, a[1..], b), x);
        FrontOnly(a, b, x);
      } else if b[0].indx < a[0].indx {
        MergeMember(op, a, b[1..], x);
        KeepsMember(op == Ior || op == Xor, b[0], Merge(op, a, b[1..]), x);
        FrontOnly(b, a, x);
      } else {
        MergeMember(op, a[1..], b[1..], x);
        var c := Chunk(a[0].indx, BitsOp(op, a[0].bits, b[0].bits));
        KeepsMember(!BitsZero(c.bits), c, Merge(op, a[1..], b[1..]), x);
        MemberAtFront(a, x);
        MemberAtFront(b, x);
        TestOp(op, a[0].bits, b[0].bits, x % BITMAP_ELEMENT_ALL_BITS);
        ZeroTest(c.bits);
      }
    }
  }

  lemma NoMembers(x: nat)
    ensures !Member([], x)
  {
  }

  lemma KeepsMember(keep: bool, c: Chunk, s: seq<Chunk>, x: nat)
    ensures Member(Keeps(keep, c) + s, x) <==>
      (keep && c.indx == x / BITMAP_ELEMENT_ALL_BITS && Test(c.bits, x % BITMAP_ELEMENT_ALL_BITS)) || Member(s, x)
  {
    if keep {
      MemberCons(c, s, x);
    } else {
      assert Keeps(keep, c) + s == s;
    }
  }

  /** The bits of the first chunk of a, when the chunks of b come later. */
  lemma FrontOnly(a: seq<Chunk>, b: seq<Chunk>, x: nat)
    requires Canonical(a) && Canonical(b) && a != [] && b != [] && a[0].indx < b[0].indx
    ensures x / BITMAP_ELEMENT_ALL_BITS == a[0].indx ==>
              !Member(b, x) && Member(a, x) == Test(a[0].bits, x % BITMAP_ELEMENT_ALL_BITS)
  {
    MemberAtFront(a, x);
  }

  lemma MemberAtFront(s: seq<Chunk>, x: nat)
    requires Canonical(s) && s != []
    ensures x / BITMAP_ELEMENT_ALL_BITS == s[0].indx ==>
              Member(s, x) == Test(s[0].bits, x % BITMAP_ELEMENT_ALL_BITS)
  {
    if x / BITMAP_ELEMENT_ALL_BITS == s[0].indx {
      MemberAt(s, 0, x);
    }
  }

  /** A set has only one canonical list. */
  lemma {:induction false} CanonicalUnique(a: seq<Chunk>, b: seq<Chunk>)
    requires Canonical(a) && Canonical(b)
    requires forall x: nat :: Member(a, x) == Member(b, x)
    ensures a == b
    decreases |a|
  {
    if a == [] || b == [] {
      SomeMember(a);
      SomeMember(b);
    } else {
      SameFront(a, b);
      SameFront(b, a);
      assert a[0] == b[0] by {
        FrontBits(a, b);
      }
      forall x: nat ensures Member(a[1..], x) == Member(b[1..], x) {
        TailMember(a, x);
        TailMember(b, x);
        assert Member(a, x) == Member(b, x);
      }
      CanonicalTail(a);
      CanonicalTail(b);
      CanonicalUnique(a[1..], b[1..]);
      assert a == [a[0]] + a[1..] && b == [b[0]] + b[1..];
    }
  }

  lemma SomeMember(s: seq<Chunk>)
    requires Canonical(s)
    ensures s != [] ==> exists x: nat :: Member(s, x)
    ensures s == [] ==> forall x: nat :: !Member(s, x)
  {
    if s != [] {
      var x := FrontMember(s);
    }
  }

  /** A bit of the first chunk. */
  lemma FrontMember(s: seq<Chunk>) returns (x: nat)
    requires Canonical(s) && s != []
    ensures Member(s, x) && x / BITMAP_ELEMENT_ALL_BITS == s[0].indx
  {
    ZeroTest(s[0].bits);
    var n :| 0 <= n < BITMAP_ELEMENT_ALL_BITS && Test(s[0].bits, n);
    x := s[0].indx * BITMAP_ELEMENT_ALL_BITS + n;
    assert x / BITMAP_ELEMENT_ALL_BITS == s[0].indx && x % BITMAP_ELEMENT_ALL_BITS == n;
  }

  lemma SameFront(a: seq<Chunk>, b: seq<Chunk>)
    requires Canonical(a) && Canonical(b) && a != [] && b != []
    requires forall x: nat :: Member(a, x) == Member(b, x)
    ensures b[0].indx <= a[0].indx
  {
    var x := FrontMember(a);
    assert Member(b, x);
  }

  lemma FrontBits(a: seq<Chunk>, b: seq<Chunk>)
    requires Canonical(a) && Canonical(b) && a != [] && b != [] && a[0].indx == b[0].indx
    requires forall x: nat :: Member(a, x) == Member(b, x)
    ensures a[0].bits == b[0].bits
  {
    forall n | 0 <= n < BITMAP_ELEMENT_ALL_BITS ensures Test(a[0].bits, n) == Test(b[0].bits, n) {
      var x := a[0].indx * BITMAP_ELEMENT_ALL_BITS + n;
      assert x / BITMAP_ELEMENT_ALL_BITS == a[0].indx && x % BITMAP_ELEMENT_ALL_BITS == n;
      MemberAt(a, 0, x);
      MemberAt(b, 0, x);
      assert Member(a, x) == Member(b, x);
    }
    BitsExtensional(a[0].bits, b[0].bits);
  }

  lemma SameIndex(s: seq<Chunk>, i: nat, j: nat)
    requires Canonical(s) && i < |s| && j < |s| && s[i].indx == s[j].indx
    ensures i == j
  {
  }

  /** Membership is decided by the only chunk with the right number. */
  lemma MemberAt(s: seq<Chunk>, i: nat, x: nat)
    requires Canonical(s) && i < |s| && s[i].indx == x / BITMAP_ELEMENT_ALL_BITS
    ensures Member(s, x) == Test(s[i].bits, x % BITMAP_ELEMENT_ALL_BITS)
  {
    if Member(s, x) {
      var j :| 0 <= j < |s| && s[j].indx == x / BITMAP_ELEMENT_ALL_BITS && Test(s[j].bits, x % BITMAP_ELEMENT_ALL_BITS);
      SameIndex(s, i, j);
    }
  }

  lemma TailMember(s: seq<Chunk>, x: nat)
    requires Canonical(s) && s != []
    ensures Member(s[1..], x) <==> Member(s, x) && x / BITMAP_ELEMENT_ALL_BITS != s[0].indx
  {
    assert s == [s[0]] + s[1..];
    MemberCons(s[0], s[1..], x);
    CanonicalTail(s);
    if x / BITMAP_ELEMENT_ALL_BITS == s[0].indx {
      NotMemberBelow(s[1..], s[0].indx + 1, x);
    }
  }
  // ---------- one bit, one chunk ----------

  function EmptyChunk(i: nat): (c: Chunk)
    ensures c.indx == i && BitsZero(c.bits)
  {
    ZeroTest(Zeros());
    Chunk(i, Zeros())
  }

  predicate InChunk(c: Chunk, x: nat) {
    c.indx == x / BITMAP_ELEMENT_ALL_BITS && Test(c.bits, x % BITMAP_ELEMENT_ALL_BITS)
  }

  /** Where a bit number is found: its chunk, its word there and its place in the word. */
  lemma Places(x: nat)
    ensures x / BITMAP_WORD_BITS % BITMAP_ELEMENT_WORDS == x % BITMAP_ELEMENT_ALL_BITS / BITMAP_WORD_BITS
    ensures x % BITMAP_ELEMENT_ALL_BITS % BITMAP_WORD_BITS == x % BITMAP_WORD_BITS
  {
    var q, r := x / BITMAP_ELEMENT_ALL_BITS, x % BITMAP_ELEMENT_ALL_BITS;
    assert x == 128 * q + r;
    assert x / 64 == 2 * q + r / 64;
  }

  /** Store v at place i of word w. */
  function Put(b: Bits, w: nat, i: nat, v: bool): Bits
    requires w < BITMAP_ELEMENT_WORDS && i < BITMAP_WORD_BITS
  {
    b[w := b[w][i := v]]
  }

  lemma TestPut(b: Bits, x: nat, v: bool, m: nat)
    requires m < BITMAP_ELEMENT_ALL_BITS
    ensures Test(Put(b, x / BITMAP_WORD_BITS % BITMAP_ELEMENT_WORDS, x % BITMAP_WORD_BITS, v), m)
            == if m == x % BITMAP_ELEMENT_ALL_BITS then v else Test(b, m)
  {
    Places(x);
    var n := x % BITMAP_ELEMENT_ALL_BITS;
    assert m == m / 64 * 64 + m % 64 && n == n / 64 * 64 + n % 64;
  }

  /** A chunk put in its place adds its bits. */
  lemma InsertMember(s: seq<Chunk>, k: nat, c: Chunk)
    requires Canonical(s) && k <= |s| && !BitsZero(c.bits)
    requires (k > 0 ==> s[k-1].indx < c.indx) && (k < |s| ==> c.indx < s[k].indx)
    ensures Canonical(s[..k] + [c] + s[k..])
    ensures forall x: nat :: Member(s[..k] + [c] + s[k..], x) <==> InChunk(c, x) || Member(s, x)
  {
    hide BitsZero;
    var t := s[..k] + [c] + s[k..];
    CanonicalJoin(s[..k], [c]);
    CanonicalJoin(s[..k] + [c], s[k..]);
    forall x: nat ensures Member(t, x) <==> InChunk(c, x) || Member(s, x) {
      hide Canonical;
      MemberSplit(s[..k] + [c], s[k..], x);
      MemberSplit(s[..k], [c], x);
      MemberSplit(s[..k], s[k..], x);
      assert s[..k] + s[k..] == s;
      MemberCons(c, [], x);
      NoMembers(x);
      assert [c] + [] == [c];
      hide Member;
    }
  }

  lemma CanonicalJoin(s: seq<Chunk>, t: seq<Chunk>)
    requires Canonical(s) && Canonical(t)
    requires s == [] || t == [] || s[|s|-1].indx < t[0].indx
    ensures Canonical(s + t)
  {
    hide BitsZero;
    forall i, j | 0 <= i < j < |s + t| ensures (s + t)[i].indx < (s + t)[j].indx {
      if i < |s| <= j {
        assert s[i].indx <= s[|s|-1].indx < t[0].indx <= t[j - |s|].indx;
      }
    }
  }

  lemma MemberSplit(s: seq<Chunk>, t: seq<Chunk>, x: nat)
    ensures Member(s + t, x) <==> Member(s, x) || Member(t, x)
  {
    hide Test;
    var u := s + t;
    assert forall i :: 0 <= i < |s| ==> u[i] == s[i];
    assert forall i :: 0 <= i < |t| ==> u[|s| + i] == t[i];
  }

  lemma ReplaceMember(s: seq<Chunk>, k: nat, c: Chunk)
    requires Canonical(s) && k < |s| && !BitsZero(c.bits) && c.indx == s[k].indx
    ensures Canonical(s[k := c])
    ensures forall x: nat :: Member(s[k := c], x) <==>
              if x / BITMAP_ELEMENT_ALL_BITS == c.indx then InChunk(c, x) else Member(s, x)
  {
    var t := s[k := c];
    assert Canonical(t);
    forall x: nat
      ensures Member(t, x) <==> if x / BITMAP_ELEMENT_ALL_BITS == c.indx then InChunk(c, x) else Member(s, x)
    {
      if x / BITMAP_ELEMENT_ALL_BITS == c.indx {
        MemberAt(t, k, x);
      } else {
        if Member(s, x) {
          var i :| 0 <= i < |s| && s[i].indx == x / BITMAP_ELEMENT_ALL_BITS && InChunk(s[i], x);
          assert InChunk(t[i], x);
        }
        if Member(t, x) {
          var i :| 0 <= i < |t| && t[i].indx == x / BITMAP_ELEMENT_ALL_BITS && InChunk(t[i], x);
          assert InChunk(s[i], x);
        }
      }
    }
  }

  lemma RemoveMember(s: seq<Chunk>, k: nat)
    requires Canonical(s) && k < |s|
    ensures Canonical(s[..k] + s[k+1..])
    ensures forall x: nat :: Member(s[..k] + s[k+1..], x) <==>
              Member(s, x) && x / BITMAP_ELEMENT_ALL_BITS != s[k].indx
  {
    hide BitsZero;
    var t := s[..k] + s[k+1..];
    assert Canonical(t);
    assert forall i :: 0 <= i < |t| ==> t[i].indx != s[k].indx;
    forall x: nat
      ensures Member(t, x) <==> Member(s, x) && x / BITMAP_ELEMENT_ALL_BITS != s[k].indx
    {
      hide Canonical;
      MemberSplit(s[..k], s[k..], x);
      MemberSplit(s[..k], s[k+1..], x);
      MemberCons(s[k], s[k+1..], x);
      assert s == s[..k] + s[k..] && s[k..] == [s[k]] + s[k+1..];
    }
  }
  /** Storing one bit changes the membership of that bit number and of no other. */
  lemma PutMember(i: nat, b: Bits, bit: nat, v: bool, x: nat)
    requires i == bit / BITMAP_ELEMENT_ALL_BITS
    ensures var c := Put(b, bit / BITMAP_WORD_BITS % BITMAP_ELEMENT_WORDS, bit % BITMAP_WORD_BITS, v);
            InChunk(Chunk(i, c), x) <==> if x == bit then v else InChunk(Chunk(i, b), x)
  {
    TestPut(b, bit, v, x % BITMAP_ELEMENT_ALL_BITS);
    if x / BITMAP_ELEMENT_ALL_BITS == i && x % BITMAP_ELEMENT_ALL_BITS == bit % BITMAP_ELEMENT_ALL_BITS {
      assert x == bit;
    }
  }

  lemma PutNonZero(b: Bits, w: nat, i: nat)
    requires w < BITMAP_ELEMENT_WORDS && i < BITMAP_WORD_BITS
    ensures !BitsZero(Put(b, w, i, true))
  {
    assert Put(b, w, i, true)[w][i];
  }

  lemma ChunkMember(s: seq<Chunk>, k: nat, x: nat)
    requires Canonical(s) && k < |s| && x / BITMAP_ELEMENT_ALL_BITS == s[k].indx
    ensures Member(s, x) == InChunk(s[k], x)
  {
    MemberAt(s, k, x);
  }

  lemma ZeroBits(x: nat, i: nat)
    ensures BitsZero(Zeros()) && !InChunk(Chunk(i, Zeros()), x)
  {
    ZeroTest(Zeros());
  }

  lemma ZeroMember(i: nat, b: Bits, x: nat)
    requires BitsZero(b)
    ensures !InChunk(Chunk(i, b), x)
  {
    ZeroTest(b);
  }
}
