/** Bitmap elements, the free list of lists on an obstack, and bitmap heads with their cursor. */
module Elements {
  import opened Chunks

  /** A list node.  What a new node holds is undefined. */
  class Element {
    var next: Element?
    var prev: Element?
    var indx: nat
    var bits: Bits

    constructor () {
    }
  }

  /** s is linked through next and ends in null. */
  ghost predicate Nexts(s: seq<Element>)
    reads s
  {
    forall i {:trigger s[i].next} :: 0 <= i < |s| ==> s[i].next == if i + 1 < |s| then s[i+1] else null
  }

  ghost predicate Prevs(s: seq<Element>)
    reads s
  {
    forall i {:trigger s[i].prev} :: 0 <= i < |s| ==> s[i].prev == if i > 0 then s[i-1] else null
  }

  ghost predicate NoDup(s: seq<Element>) {
    forall i, j :: 0 <= i < j < |s| ==> s[i] != s[j]
  }

  ghost function SetOf(s: seq<Element>): set<Element> {
    set e | e in s
  }

  /** The element at position i, or null past the end. */
  ghost function At(s: seq<Element>, i: nat): Element? {
    if i < |s| then s[i] else null
  }

  /** The nodes of s hold the chunks of c. */
  ghost predicate Holds(s: seq<Element>, c: seq<Chunk>)
    reads s
  {
    |c| == |s| && forall i {:trigger s[i].indx} :: 0 <= i < |s| ==> c[i] == Chunk(s[i].indx, s[i].bits)
  }

  /** The element before position k, or null at the front. */
  ghost function Before(s: seq<Element>, k: nat): Element?
    requires k <= |s|
  {
    if k == 0 then null else s[k-1]
  }

  ghost function Without<T>(s: seq<T>, k: nat): (t: seq<T>)
    requires k < |s|
    ensures |t| == |s| - 1
  {
    s[..k] + s[k+1..]
  }

  ghost function With<T>(s: seq<T>, k: nat, x: T): (t: seq<T>)
    requires k <= |s|
    ensures |t| == |s| + 1 && t[k] == x
  {
    s[..k] + [x] + s[k..]
  }

  lemma WithoutSet(s: seq<Element>, k: nat)
    requires NoDup(s) && k < |s|
    ensures NoDup(Without(s, k)) && SetOf(Without(s, k)) == SetOf(s) - {s[k]}
  {
    var t := Without(s, k);
    forall e | e in SetOf(s) - {s[k]} ensures e in t {
      var i :| 0 <= i < |s| && s[i] == e;
      assert e == if i < k then t[i] else t[i-1];
    }
  }

  lemma WithSet(s: seq<Element>, k: nat, x: Element)
    requires NoDup(s) && k <= |s| && x !in s
    ensures NoDup(With(s, k, x)) && SetOf(With(s, k, x)) == SetOf(s) + {x}
  {
    var t := With(s, k, x);
    forall e | e in s ensures e in t {
      var i :| 0 <= i < |s| && s[i] == e;
      assert e == if i < k then t[i] else t[i+1];
    }
    assert t[k] == x;
  }

  /** Link the neighbours of elt, at position k, to each other. */
  method Unlink(elt: Element, ghost s: seq<Element>, ghost k: nat)
    requires k < |s| && elt == s[k] && Nexts(s) && Prevs(s) && NoDup(s)
    modifies SetOf(s)`next, SetOf(s)`prev
    ensures elt.next == At(s, k + 1) && elt.prev == Before(s, k)
    ensures Nexts(Without(s, k)) && Prevs(Without(s, k))
  {
    var next := elt.next;
    var prev := elt.prev;
    if prev != null {
      prev.next := next;
    }
    if next != null {
      next.prev := prev;
    }
    ghost var t := Without(s, k);
    forall i | 0 <= i < |t| ensures t[i].next == At(t, i + 1) {
    }
  }

  /** Link node between elt and the element that follows it at position k. */
  method LinkAfter(node: Element, elt: Element, ghost s: seq<Element>, ghost k: nat)
    requires 0 < k <= |s| && elt == s[k-1] && Nexts(s) && Prevs(s) && NoDup(s) && node !in s
    modifies SetOf(s)`next, SetOf(s)`prev, node`next, node`prev
    ensures Nexts(With(s, k, node)) && Prevs(With(s, k, node))
  {
    node.next := elt.next;
    if node.next != null {
      node.next.prev := node;
    }
    elt.next := node;
    node.prev := elt;
    ghost var t := With(s, k, node);
    forall i | 0 <= i < |t| ensures t[i].next == At(t, i + 1) {
    }
    forall i | 0 <= i < |t| ensures t[i].prev == Before(t, i) {
    }
  }

  method LinkFirst(node: Element, first: Element?, ghost s: seq<Element>)
    requires first == At(s, 0) && Nexts(s) && Prevs(s) && NoDup(s) && node !in s
    modifies SetOf(s)`next, SetOf(s)`prev, node`next, node`prev
    ensures Nexts(With(s, 0, node)) && Prevs(With(s, 0, node))
  {
    node.next := first;
    if node.next != null {
      node.next.prev := node;
    }
    node.prev := null;
    ghost var t := With(s, 0, node);
    forall i | 0 <= i < |t| ensures t[i].next == At(t, i + 1) {
    }
    forall i | 0 <= i < |t| ensures t[i].prev == Before(t, i) {
    }
  }

  /** Link node before elt, which is at position k. */
  method LinkBefore(node: Element, elt: Element, ghost s: seq<Element>, ghost k: nat)
    requires k < |s| && elt == s[k] && Nexts(s) && Prevs(s) && NoDup(s) && node !in s
    modifies SetOf(s)`next, SetOf(s)`prev, node`next, node`prev
    ensures Nexts(With(s, k, node)) && Prevs(With(s, k, node))
  {
    if elt.prev != null {
      elt.prev.next := node;
    }
    node.prev := elt.prev;
    node.next := elt;
    elt.prev := node;
    ghost var t := With(s, k, node);
    forall i | 0 <= i < |t| ensures t[i].next == At(t, i + 1) {
    }
    forall i | 0 <= i < |t| ensures t[i].prev == Before(t, i) {
    }
  }

  /** Link node after the last element. */
  method LinkLast(node: Element, last: Element?, ghost s: seq<Element>)
    requires last == Before(s, |s|) && Nexts(s) && Prevs(s) && NoDup(s) && node !in s
    modifies SetOf(s)`next, node`next, node`prev
    ensures Nexts(With(s, |s|, node)) && Prevs(With(s, |s|, node))
  {
    node.prev := last;
    node.next := null;
    if last != null {
      last.next := node;
    }
  }

  lemma HoldsWithout(s: seq<Element>, c: seq<Chunk>, k: nat)
    requires Holds(s, c) && k < |s|
    ensures Holds(Without(s, k), Without(c, k))
  {
  }

  lemma HoldsWith(s: seq<Element>, c: seq<Chunk>, k: nat, x: Element)
    requires Holds(s, c) && k <= |s|
    ensures Holds(With(s, k, x), With(c, k, Chunk(x.indx, x.bits)))
  {
  }

  // ---------- the free list of lists ----------

  ghost function Pool(lists: seq<seq<Element>>): set<Element> {
    if lists == [] then {} else SetOf(lists[0]) + Pool(lists[1..])
  }

  lemma {:induction false} PoolAllocated(lists: seq<seq<Element>>)
    ensures forall e | e in Pool(lists) :: allocated(e)
  {
    if lists != [] {
      PoolAllocated(lists[1..]);
    }
  }

  /** No element occurs twice in the lists. */
  ghost predicate Apart(lists: seq<seq<Element>>) {
    lists != [] ==> NoDup(lists[0]) && SetOf(lists[0]) !! Pool(lists[1..]) && Apart(lists[1..])
  }

  /** The outer list runs through prev from head, the inner lists through next; the prev links of interior
      elements are undefined. */
  ghost predicate FreeOk(lists: seq<seq<Element>>, head: Element?)
    reads Pool(lists)
  {
    if lists == [] then head == null
    else lists[0] != [] && head == lists[0][0] && lists[0][0] in Pool(lists) && Nexts(lists[0])
         && FreeOk(lists[1..], lists[0][0].prev)
  }

  class Obstack {
    var elements: Element?
    ghost var lists: seq<seq<Element>>

    ghost predicate Valid()
      reads this, Pool(lists)
    {
      FreeOk(lists, elements) && Apart(lists)
    }

    constructor ()
      ensures Valid() && lists == []
    {
      elements := null;
      lists := [];
    }

    /** Take an element from the free list, inner list first, or create one.  Its bits are cleared. */
    method Allocate() returns (e: Element)
      requires Valid()
      modifies this, Pool(lists)
      ensures Valid() && e.bits == Zeros()
      ensures old(Pool(lists)) == {} ==> fresh(e) && Pool(lists) == {}
      ensures old(Pool(lists)) != {} ==> e in old(Pool(lists)) && Pool(lists) == old(Pool(lists)) - {e}
    {
      ghost var l := lists;
      if elements != null {
        e := elements;
        if e.next != null {
          assert e.next == l[0][1];
          elements := e.next;
          elements.prev := e.prev;
          lists := [l[0][1..]] + l[1..];
        } else {
          elements := e.prev;
          lists := l[1..];
        }
      } else {
        e := new Element();
      }
      e.bits := Zeros();
    }

    /** Make elt an inner list of its own at the front. */
    method Free(elt: Element)
      requires Valid() && elt !in Pool(lists)
      modifies this, elt
      ensures Valid() && lists == [[elt]] + old(lists) && Pool(lists) == old(Pool(lists)) + {elt}
    {
      ghost var l := lists;
      elt.next := null;
      elt.prev := elements;
      elements := elt;
      lists := [[elt]] + l;
      assert lists[1..] == l;
    }

    /** Make a whole linked list an inner list, however long it is: only its first element is touched. */
    method FreeList(elt: Element, ghost s: seq<Element>)
      requires Valid() && s != [] && elt == s[0] && Nexts(s) && NoDup(s) && SetOf(s) !! Pool(lists)
      modifies this, elt`prev
      ensures Valid() && lists == [s] + old(lists) && Pool(lists) == old(Pool(lists)) + SetOf(s)
    {
      ghost var l := lists;
      assert elt in SetOf(s);
      elt.prev := elements;
      elements := elt;
      lists := [s] + l;
      assert lists[1..] == l;
    }
  }
}
