/** Bitmap heads: a doubly linked list of elements, a cursor into it, and the operations on single elements. */
module Bitmaps {
  import opened Chunks
  import opened Elements

  ghost predicate Linked(first: Element?, s: seq<Element>)
    reads s
  {
    first == At(s, 0) && Nexts(s) && Prevs(s) && NoDup(s)
  }

  ghost predicate Ascending(c: seq<Chunk>) {
    forall i, j :: 0 <= i < j < |c| ==> c[i].indx < c[j].indx
  }

  class Bitmap {
    var first: Element?
    var current: Element?
    var indx: nat
    const obstack: Obstack
    ghost var elts: seq<Element>
    ghost var chunks: seq<Chunk>

    /** The elements this bitmap may change: its own and the free ones. */
    ghost function Owned(): set<Element>
      reads this, obstack
    {
      SetOf(elts) + Pool(obstack.lists)
    }

    /** Elements stay in the list or free, and all others that are there now are new. */
    twostate predicate Grows()
      reads this, obstack
    {
      old(Owned()) <= Owned() && forall e :: e in Owned() && e !in old(Owned()) ==> fresh(e)
    }

    /** A well linked list.  The cursor is null exactly when the list is empty. */
    ghost predicate OnList()
      reads this, elts
    {
      Linked(first, elts) && Holds(elts, chunks) && (current == null <==> elts == [])
    }

    /** A well linked list whose elements are not free. */
    ghost predicate Shape()
      reads this, obstack, Owned()
    {
      OnList() && obstack.Valid() && SetOf(elts) !! Pool(obstack.lists)
    }

    ghost predicate CursorIn()
      reads this
    {
      current != null ==> current in elts
    }

    /** The cursor lies in the list and indx is its chunk number. */
    ghost predicate CursorOk()
      reads this, elts
    {
      CursorIn() && (current != null ==> indx == current.indx)
    }

    /** A list that stands for a set, whatever the cursor. */
    ghost predicate ListOk()
      reads this, obstack, Owned()
    {
      Shape() && Canonical(chunks)
    }

    ghost predicate Valid()
      reads this, obstack, Owned()
    {
      ListOk() && CursorOk()
    }

    /** bitmap_initialize: an empty bitmap over an obstack. */
    constructor (o: Obstack)
      requires o.Valid()
      ensures obstack == o && Valid() && elts == []
    {
      first := null;
      current := null;
      indx := 0;
      obstack := o;
      elts := [];
      chunks := [];
    }

    /** Take elt, at position k, out of the list, moving the cursor to a neighbour if it was there. */
    method Detach(elt: Element, ghost k: nat)
      requires OnList() && CursorIn() && k < |elts| && elt == elts[k]
      modifies this, SetOf(elts)`next, SetOf(elts)`prev
      ensures OnList() && elts == Without(old(elts), k) && chunks == Without(old(chunks), k) && SetOf(elts) == SetOf(old(elts)) - {elt}
      ensures CursorIn() && (old(CursorOk()) ==> CursorOk())
    {
      ghost var s := elts;
      Unlink(elt, s, k);
      HoldsWithout(s, chunks, k);
      WithoutSet(s, k);
      if first == elt {
        first := elt.next;
      }
      if current == elt {
        current := if elt.next != null then elt.next else elt.prev;
        if current != null {
          indx := current.indx;
        }
      }
      elts := Without(s, k);
      chunks := Without(chunks, k);
    }

    /** Take elt, at position k, out of the list and put it on the free list. */
    method ElementFree(elt: Element, ghost k: nat)
      requires Shape() && CursorIn() && k < |elts| && elt == elts[k]
      modifies this, obstack, Owned()
      ensures Shape() && elts == Without(old(elts), k)
      ensures chunks == Without(old(chunks), k)
      ensures obstack.lists == [[elt]] + old(obstack.lists) && Owned() == old(Owned())
      ensures CursorIn() && (old(CursorOk()) ==> CursorOk())
    {
      PoolAllocated(obstack.lists);
      Detach(elt, k);
      obstack.Free(elt);
    }

    /** Link node into the list after elt, at position k; a null elt stands for the front. */
    method Attach(node: Element, elt: Element?, ghost k: nat)
      requires OnList() && k <= |elts| && elt == Before(elts, k) && node !in elts
      modifies this, SetOf(elts)`next, SetOf(elts)`prev, node`next, node`prev
      ensures OnList() && elts == With(old(elts), k, node) && SetOf(elts) == SetOf(old(elts)) + {node}
      ensures chunks == With(old(chunks), k, Chunk(node.indx, node.bits))
      ensures current == (if old(current) == null then node else old(current)) && indx == old(indx)
    {
      ghost var s := elts;
      if elt == null {
        if current == null {
          current := node;
        }
        LinkFirst(node, first, s);
        first := node;
      } else {
        LinkAfter(node, elt, s, k);
      }
      HoldsWith(s, chunks, k, node);
      WithSet(s, k, node);
      elts := With(s, k, node);
      chunks := With(chunks, k, Chunk(node.indx, node.bits));
    }

    /** Link node after the last element, which makes it the cursor of an empty list. */
    method AttachLast(node: Element, last: Element?)
      requires OnList() && CursorOk() && last == Before(elts, |elts|) && node !in elts
      modifies this, SetOf(elts)`next, node`next, node`prev
      ensures OnList() && CursorOk() && elts == old(elts) + [node] && SetOf(elts) == SetOf(old(elts)) + {node}
      ensures chunks == old(chunks) + [Chunk(node.indx, node.bits)]
    {
      ghost var s := elts;
      LinkLast(node, last, s);
      HoldsWith(s, chunks, |s|, node);
      WithSet(s, |s|, node);
      assert With(s, |s|, node) == s + [node];
      assert With(chunks, |s|, Chunk(node.indx, node.bits)) == chunks + [Chunk(node.indx, node.bits)];
      if last == null {
        first, current, indx := node, node, node.indx;
      }
      elts := s + [node];
      chunks := chunks + [Chunk(node.indx, node.bits)];
    }

    /** Insert a new element after elt, at position k.  Its chunk number is not set yet. */
    method EltInsertAfter(elt: Element?, ghost k: nat) returns (node: Element)
      requires Shape() && k <= |elts| && elt == Before(elts, k)
      modifies this, obstack, Owned()
      ensures Shape() && elts == With(old(elts), k, node)
      ensures chunks == With(old(chunks), k, Chunk(node.indx, Zeros()))
      ensures Grows()
      ensures current == (if old(current) == null then node else old(current)) && indx == old(indx)
    {
      PoolAllocated(obstack.lists);
      node := obstack.Allocate();
      assert node !in elts;
      PoolAllocated(obstack.lists);
      Attach(node, elt, k);
    }

    /** Give the element at position k a chunk. */
    method Fill(e: Element, i: nat, b: Bits, ghost k: nat)
      requires Shape() && k < |elts| && e == elts[k]
      modifies this`chunks, e`indx, e`bits
      ensures Shape() && chunks == old(chunks)[k := Chunk(i, b)] && e.indx == i && e.bits == b
    {
      e.indx := i;
      e.bits := b;
      chunks := chunks[k := Chunk(i, b)];
    }

    /** End the list before elt, at position k, and take the cursor back if its chunk number is beyond the end. */
    method Cut(elt: Element, ghost k: nat)
      requires OnList() && k < |elts| && elt == elts[k]
      modifies this, SetOf(elts)`next
      ensures OnList() && elts == old(elts)[..k] && chunks == old(chunks)[..k]
      ensures Nexts(old(elts)[k..]) && elt.prev == Before(old(elts), k)
      ensures k == 0 ==> current == null && indx == 0
      ensures (k > 0 && old(current.indx) > old(elts[k-1].indx)
               ==> current == old(elts)[k-1] && indx == current.indx)
      ensures k > 0 && old(current.indx) <= old(elts[k-1].indx) ==> current == old(current) && indx == old(indx)
    {
      ghost var s := elts;
      var prev := elt.prev;
      assert prev == Before(s, k);
      if prev != null {
        prev.next := null;
        if current.indx > prev.indx {
          current := prev;
          indx := prev.indx;
        }
      } else {
        first := null;
        current := null;
        indx := 0;
      }
      elts := s[..k];
      chunks := chunks[..k];
      forall i | 0 <= i < |s[k..]| ensures s[k..][i].next == At(s[k..], i + 1) {
        assert s[k..][i] == s[k + i];
      }
    }

    /** Hand elt, at position k, and everything after it to the free list in one step. */
    method EltClearFrom(elt: Element?, ghost k: nat)
      requires Shape() && k <= |elts| && elt == At(elts, k)
      modifies this, obstack, Owned()
      ensures Shape() && elts == old(elts)[..k] && chunks == old(chunks)[..k]
      ensures obstack.lists == (if elt == null then [] else [old(elts)[k..]]) + old(obstack.lists)
      ensures Owned() == old(Owned())
      ensures elt == null ==> current == old(current) && indx == old(indx)
      ensures elt != null && k == 0 ==> current == null && indx == 0
      ensures (elt != null && k > 0 && old(current.indx) > old(elts[k-1].indx)
               ==> current == old(elts)[k-1] && indx == current.indx)
      ensures (elt != null && k > 0 && old(current.indx) <= old(elts[k-1].indx)
               ==> current == old(current) && indx == old(indx))
      ensures (old(CursorOk()) && (elt != null && k > 0 ==> old(current in elts[..k] || current.indx > elts[k-1].indx))
               ==> CursorOk())
    {
      ghost var s := elts;
      if elt == null {
        assert s[..k] == s && chunks[..k] == chunks;
        return;
      }
      PoolAllocated(obstack.lists);
      SplitSet(s, k);
      Cut(elt, k);
      obstack.FreeList(elt, s[k..]);
    }

    /** bitmap_clear. */
    method Clear()
      requires Shape()
      modifies this, obstack, Owned()
      ensures Valid() && elts == [] && chunks == []
      ensures Owned() == old(Owned())
    {
      if first != null {
        EltClearFrom(first, 0);
      }
    }

    /** Walk forward from e, at position k, until a chunk number of at least i or the last element. */
    method ScanForward(e: Element, i: nat, ghost k: nat) returns (element: Element, ghost m: nat)
      requires OnList() && k < |elts| && e == elts[k] && (k > 0 ==> chunks[k-1].indx < i)
      ensures m < |elts| && element == elts[m]
      ensures m > 0 ==> chunks[m-1].indx < i
      ensures chunks[m].indx >= i || m + 1 == |elts|
    {
      element, m := e, k;
      while element.next != null && element.indx < i
        invariant 0 <= m < |elts| && element == elts[m]
        invariant m > 0 ==> chunks[m-1].indx < i
        decreases |elts| - m
      {
        element := element.next;
        m := m + 1;
      }
    }

    /** Walk backward from e, at position k, until a chunk number of at most i or the first element. */
    method ScanBackward(e: Element, i: nat, ghost k: nat) returns (element: Element, ghost m: nat)
      requires OnList() && k < |elts| && e == elts[k] && (k + 1 < |elts| ==> chunks[k+1].indx > i)
      ensures m < |elts| && element == elts[m]
      ensures m + 1 < |elts| ==> chunks[m+1].indx > i
      ensures chunks[m].indx <= i || m == 0
    {
      element, m := e, k;
      while element.prev != null && element.indx > i
        invariant 0 <= m < |elts| && element == elts[m]
        invariant m + 1 < |elts| ==> chunks[m+1].indx > i
        decreases m
      {
        element := element.prev;
        m := m - 1;
      }
    }

    /** Where the cursor is. */
    ghost function Position(): (k: nat)
      reads this, elts
      requires OnList() && CursorOk() && current != null
      ensures k < |elts| && elts[k] == current && chunks[k].indx == indx
    {
      var k :| 0 <= k < |elts| && elts[k] == current;
      k
    }

    method Point(e: Element, ghost k: nat)
      requires Valid() && k < |elts| && e == elts[k]
      modifies this`current, this`indx
      ensures Valid() && current == e
    {
      current := e;
      indx := e.indx;
    }

    /** The element of chunk i, or one next to its place.  The search starts at the cursor unless the front
        is closer. */
    method Nearest(i: nat) returns (e: Element, ghost k: nat)
      requires OnList() && Canonical(chunks) && CursorOk() && current != null && indx != i
      ensures k < |elts| && e == elts[k]
      ensures e.indx != i ==> NoChunk(chunks, i)
    {
      k := Position();
      if indx < i {
        Below(chunks, k, i);
        e, k := ScanForward(current, i, k);
      } else if indx / 2 < i {
        Above(chunks, k, i);
        e, k := ScanBackward(current, i, k);
      } else {
        e, k := ScanForward(first, i, 0);
      }
      if e.indx != i {
        NoChunkAround(chunks, k, i);
      }
    }

    /** The element of the bit's chunk, if there is one.  The cursor moves to it or next to its place. */
    method FindBit(bit: nat) returns (element: Element?, ghost k: nat)
      requires Valid()
      modifies this`current, this`indx
      ensures Valid()
      ensures element != null ==> k < |elts| == |chunks| && element == elts[k]
      ensures element != null ==> chunks[k] == Chunk(bit / BITMAP_ELEMENT_ALL_BITS, element.bits)
      ensures element == null ==> NoChunk(chunks, bit / BITMAP_ELEMENT_ALL_BITS)
    {
      var i := bit / BITMAP_ELEMENT_ALL_BITS;
      if current == null || indx == i {
        return current, if current == null then 0 else Position();
      }
      PoolAllocated(obstack.lists);
      var e;
      e, k := Nearest(i);
      Point(e, k);
      element := if e.indx != i then null else e;
    }

    /** The position where chunk i belongs, searched backward from the cursor, and the element there. */
    method SlotBefore(i: nat) returns (ptr: Element, ghost k: nat)
      requires OnList() && Canonical(chunks) && CursorOk() && current != null && i < indx && NoChunk(chunks, i)
      ensures k < |elts| && ptr == elts[k] && i < chunks[k].indx && (k > 0 ==> chunks[k-1].indx < i)
    {
      ptr, k := current, Position();
      while ptr.prev != null && ptr.prev.indx > i
        invariant 0 <= k < |elts| && ptr == elts[k] && i < chunks[k].indx
        decreases k
      {
        ptr := ptr.prev;
        k := k - 1;
      }
    }

    /** The position where chunk i belongs, searched forward from the cursor, and the element before it. */
    method SlotAfter(i: nat) returns (ptr: Element, ghost k: nat)
      requires OnList() && Canonical(chunks) && CursorOk() && current != null && i >= indx && NoChunk(chunks, i)
      ensures 0 < k <= |elts| && ptr == elts[k-1] && chunks[k-1].indx < i && (k < |elts| ==> i < chunks[k].indx)
    {
      ptr, k := current, Position() + 1;
      while ptr.next != null && ptr.next.indx < i
        invariant 0 < k <= |elts| && ptr == elts[k-1] && chunks[k-1].indx < i
        decreases |elts| - k
      {
        ptr := ptr.next;
        k := k + 1;
      }
    }

    /** The links that put an element with a new chunk number into its place, next to the cursor if possible. */
    method Place(element: Element) returns (ghost k: nat)
      requires OnList() && Canonical(chunks) && CursorOk() && element !in elts && NoChunk(chunks, element.indx)
      modifies this`first, SetOf(elts)`next, SetOf(elts)`prev, element`next, element`prev
      ensures k <= |elts| && first == With(elts, k, element)[0]
      ensures Nexts(With(elts, k, element)) && Prevs(With(elts, k, element))
      ensures (k > 0 ==> chunks[k-1].indx < element.indx) && (k < |chunks| ==> element.indx < chunks[k].indx)
    {
      var i := element.indx;
      k := 0;
      if first == null {
        element.next, element.prev := null, null;
        first := element;
      } else if i < indx {
        var ptr;
        ptr, k := SlotBefore(i);
        if ptr.prev == null {
          first := element;
        }
        LinkBefore(element, ptr, elts, k);
      } else {
        var ptr;
        ptr, k := SlotAfter(i);
        LinkAfter(element, ptr, elts, k);
      }
    }

    /** Link a new element into the list and point the cursor at it. */
    method ElementLink(element: Element) returns (ghost k: nat)
      requires OnList() && Canonical(chunks) && CursorOk() && element !in elts && NoChunk(chunks, element.indx)
      modifies this, SetOf(elts)`next, SetOf(elts)`prev, element`next, element`prev
      ensures OnList() && CursorOk() && k <= |old(elts)| && elts == With(old(elts), k, element)
      ensures SetOf(elts) == SetOf(old(elts)) + {element}
      ensures chunks == With(old(chunks), k, Chunk(element.indx, element.bits))
      ensures k > 0 ==> old(chunks)[k-1].indx < element.indx
      ensures k < |old(chunks)| ==> element.indx < old(chunks)[k].indx
    {
      ghost var s := elts;
      k := Place(element);
      HoldsWith(s, chunks, k, element);
      WithSet(s, k, element);
      elts := With(s, k, element);
      chunks := With(chunks, k, Chunk(element.indx, element.bits));
      current := element;
      indx := element.indx;
      assert elts[k] == element;
    }

    /** Replace the bits of the element at position k by bits that are not all zero. */
    method Rewrite(e: Element, b: Bits, ghost k: nat)
      requires Valid() && k < |elts| && e == elts[k] && !BitsZero(b)
      modifies this`chunks, e`indx, e`bits
      ensures Valid() && chunks == old(chunks)[k := Chunk(old(chunks)[k].indx, b)]
    {
      ReplaceMember(chunks, k, Chunk(chunks[k].indx, b));
      Fill(e, e.indx, b, k);
    }

    /** Remove the element at position k from a valid list. */
    method Drop(e: Element, ghost k: nat)
      requires Valid() && k < |elts| && e == elts[k]
      modifies this, obstack, Owned()
      ensures Valid() && Owned() == old(Owned()) && chunks == Without(old(chunks), k)
    {
      RemoveMember(chunks, k);
      ElementFree(e, k);
    }

    /** A new element, not yet linked, that holds a chunk. */
    method Create(i: nat, b: Bits) returns (e: Element)
      requires Shape()
      modifies obstack, Pool(obstack.lists)
      ensures Shape() && e !in elts && e !in Pool(obstack.lists) && e.indx == i && e.bits == b
      ensures old(Owned()) <= Owned() + {e}
      ensures forall x :: x in Owned() + {e} && x !in old(Owned()) ==> fresh(x)
      ensures old(CursorOk()) ==> CursorOk()
    {
      PoolAllocated(obstack.lists);
      e := obstack.Allocate();
      PoolAllocated(obstack.lists);
      e.indx := i;
      e.bits := b;
    }

    /** Insert an element for a chunk the list does not have. */
    method AddChunk(i: nat, b: Bits) returns (ghost k: nat)
      requires Valid() && NoChunk(chunks, i) && !BitsZero(b)
      modifies this, obstack, Owned()
      ensures Valid() && Grows()
      ensures k <= |old(chunks)| && chunks == With(old(chunks), k, Chunk(i, b))
      ensures forall x: nat :: Member(chunks, x) <==> InChunk(Chunk(i, b), x) || Member(old(chunks), x)
    {
      hide Member, Canonical, BitsZero, InChunk, Nexts, Prevs, NoDup, FreeOk, Apart;
      ghost var c := chunks;
      var e := Create(i, b);
      PoolAllocated(obstack.lists);
      k := ElementLink(e);
      InsertMember(c, k, Chunk(i, b));
    }

    /** bitmap_set_bit. */
    method SetBit(bit: nat)
      requires Valid()
      modifies this, obstack, Owned()
      ensures Valid() && Grows()
      ensures forall x: nat :: Member(chunks, x) <==> x == bit || Member(old(chunks), x)
    {
      hide Member, Put, Canonical, BitsZero, InChunk, Nexts, Prevs, NoDup, Linked, Holds, FreeOk, Apart;
      ghost var c, o := chunks, Owned();
      ghost var k;
      var ptr;
      PoolAllocated(obstack.lists);
      ptr, k := FindBit(bit);
      assert Owned() == o && chunks == c;
      var wordNum := bit / BITMAP_WORD_BITS % BITMAP_ELEMENT_WORDS;
      var bitNum := bit % BITMAP_WORD_BITS;
      if ptr == null {
        PutNonZero(Zeros(), wordNum, bitNum);
        k := AddChunk(bit / BITMAP_ELEMENT_ALL_BITS, Put(Zeros(), wordNum, bitNum, true));
        SetInNew(c, bit, chunks);
      } else {
        PutNonZero(ptr.bits, wordNum, bitNum);
        var b := Put(ptr.bits, wordNum, bitNum, true);
        Rewrite(ptr, b, k);
        SetInOld(c, k, bit, b, chunks);
      }
    }

    /** Store zero at one place of the element of the bit's chunk, and free it if nothing is left. */
    method ClearIn(ptr: Element, bit: nat, ghost k: nat)
      requires Valid() && k < |elts| == |chunks| && ptr == elts[k]
      requires chunks[k] == Chunk(bit / BITMAP_ELEMENT_ALL_BITS, ptr.bits)
      modifies this, obstack, Owned()
      ensures Valid() && Owned() == old(Owned())
      ensures forall x: nat :: Member(chunks, x) <==> x != bit && Member(old(chunks), x)
    {
      hide Member, Put, Canonical, BitsZero, InChunk, Nexts, Prevs, NoDup, Linked, Holds, FreeOk, Apart;
      ghost var c := chunks;
      var b := Put(ptr.bits, bit / BITMAP_WORD_BITS % BITMAP_ELEMENT_WORDS, bit % BITMAP_WORD_BITS, false);
      if BitsZero(b) {
        Drop(ptr, k);
      } else {
        Rewrite(ptr, b, k);
      }
      ClearInOld(c, k, bit, b, chunks);
    }

    /** bitmap_clear_bit. */
    method ClearBit(bit: nat)
      requires Valid()
      modifies this, obstack, Owned()
      ensures Valid() && Owned() == old(Owned())
      ensures forall x: nat :: Member(chunks, x) <==> x != bit && Member(old(chunks), x)
    {
      hide Member, Canonical, Nexts, Prevs, NoDup, Linked, Holds, FreeOk, Apart;
      ghost var c := chunks;
      ghost var k;
      var ptr;
      ptr, k := FindBit(bit);
      if ptr == null {
        NoChunkMember(c, bit);
      } else {
        ClearIn(ptr, bit, k);
      }
    }

    /** bitmap_bit_p.  The cursor may move, the set does not change. */
    method BitP(bit: nat) returns (r: bool)
      requires Valid()
      modifies this`current, this`indx
      ensures Valid() && r == Member(chunks, bit)
    {
      ghost var k;
      var ptr;
      ptr, k := FindBit(bit);
      if ptr == null {
        return false;
      }
      ChunkMember(chunks, k, bit);
      Places(bit);
      r := ptr.bits[bit / BITMAP_WORD_BITS % BITMAP_ELEMENT_WORDS][bit % BITMAP_WORD_BITS];
    }
  }

  ghost predicate NoChunk(c: seq<Chunk>, i: nat) {
    forall j :: 0 <= j < |c| ==> c[j].indx != i
  }

  lemma NoChunkMember(c: seq<Chunk>, bit: nat)
    requires NoChunk(c, bit / BITMAP_ELEMENT_ALL_BITS)
    ensures !Member(c, bit)
  {
  }

  /** Adding a chunk with one bit to a list without that chunk. */
  lemma SetInNew(c: seq<Chunk>, bit: nat, d: seq<Chunk>)
    requires var b := Put(Zeros(), bit / BITMAP_WORD_BITS % BITMAP_ELEMENT_WORDS, bit % BITMAP_WORD_BITS, true);
             forall x: nat :: Member(d, x) <==> InChunk(Chunk(bit / BITMAP_ELEMENT_ALL_BITS, b), x) || Member(c, x)
    ensures forall x: nat :: Member(d, x) <==> x == bit || Member(c, x)
  {
    hide Member, Put;
    forall x: nat ensures Member(d, x) <==> x == bit || Member(c, x) {
      PutMember(bit / BITMAP_ELEMENT_ALL_BITS, Zeros(), bit, true, x);
      ZeroBits(x, bit / BITMAP_ELEMENT_ALL_BITS);
    }
  }

  lemma SetInOld(c: seq<Chunk>, k: nat, bit: nat, b: Bits, d: seq<Chunk>)
    requires Canonical(c) && k < |c| && c[k].indx == bit / BITMAP_ELEMENT_ALL_BITS
    requires b == Put(c[k].bits, bit / BITMAP_WORD_BITS % BITMAP_ELEMENT_WORDS, bit % BITMAP_WORD_BITS, true)
    requires d == c[k := Chunk(c[k].indx, b)]
    ensures forall x: nat :: Member(d, x) <==> x == bit || Member(c, x)
  {
    PutNonZero(c[k].bits, bit / BITMAP_WORD_BITS % BITMAP_ELEMENT_WORDS, bit % BITMAP_WORD_BITS);
    ReplaceMember(c, k, Chunk(c[k].indx, b));
    forall x: nat ensures Member(d, x) <==> x == bit || Member(c, x) {
      PutMember(c[k].indx, c[k].bits, bit, true, x);
      if x / BITMAP_ELEMENT_ALL_BITS == c[k].indx {
        ChunkMember(c, k, x);
      }
    }
  }

  /** Clearing a bit: without the chunk if that leaves it empty, with the smaller chunk otherwise. */
  lemma ClearInOld(c: seq<Chunk>, k: nat, bit: nat, b: Bits, d: seq<Chunk>)
    requires Canonical(c) && k < |c| && c[k].indx == bit / BITMAP_ELEMENT_ALL_BITS
    requires b == Put(c[k].bits, bit / BITMAP_WORD_BITS % BITMAP_ELEMENT_WORDS, bit % BITMAP_WORD_BITS, false)
    requires d == if BitsZero(b) then Without(c, k) else c[k := Chunk(c[k].indx, b)]
    ensures forall x: nat :: Member(d, x) <==> x != bit && Member(c, x)
  {
    if BitsZero(b) {
      RemoveMember(c, k);
    } else {
      ReplaceMember(c, k, Chunk(c[k].indx, b));
    }
    forall x: nat ensures Member(d, x) <==> x != bit && Member(c, x) {
      PutMember(c[k].indx, c[k].bits, bit, false, x);
      if x / BITMAP_ELEMENT_ALL_BITS == c[k].indx {
        ChunkMember(c, k, x);
        if BitsZero(b) {
          ZeroMember(c[k].indx, b, x);
        }
      }
    }
  }

  lemma Below(c: seq<Chunk>, k: nat, i: nat)
    requires Canonical(c) && k < |c| && c[k].indx <= i
    ensures k > 0 ==> c[k-1].indx < i
  {
  }

  lemma Above(c: seq<Chunk>, k: nat, i: nat)
    requires Canonical(c) && k < |c| && c[k].indx >= i
    ensures k + 1 < |c| ==> c[k+1].indx > i
  {
  }

  /** A list that skips from below i to above i next to position k has no chunk i. */
  lemma NoChunkAround(c: seq<Chunk>, k: nat, i: nat)
    requires Canonical(c) && k < |c| && c[k].indx != i
    requires c[k].indx < i ==> k + 1 == |c| || c[k+1].indx > i
    requires c[k].indx > i ==> k == 0 || c[k-1].indx < i
    ensures NoChunk(c, i)
  {
  }

  lemma SplitSet(s: seq<Element>, k: nat)
    requires NoDup(s) && k <= |s|
    ensures SetOf(s) == SetOf(s[..k]) + SetOf(s[k..]) && SetOf(s[..k]) !! SetOf(s[k..])
    ensures NoDup(s[..k]) && NoDup(s[k..])
  {
    assert s == s[..k] + s[k..];
  }
}
