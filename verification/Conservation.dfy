/** All bitmaps over one obstack together: no element is lost, shared, or free while it is used. */
module Conservation {
  import opened Chunks
  import opened Elements
  import opened Bitmaps
  import opened SetAlgebra
  import opened IntoAlgebra

  /** The elements of some bitmaps. */
  ghost function Used(bs: seq<Bitmap>): set<Element>
    reads bs
  {
    set k, e | 0 <= k < |bs| && e in SetOf(bs[k].elts) :: e
  }

  /** Every element created over an obstack: those in use and the free ones. */
  ghost function Created(o: Obstack, bs: seq<Bitmap>): set<Element>
    reads o, bs
  {
    Used(bs) + Pool(o.lists)
  }

  /** A bitmap that holds a set and shares no element with the free ones. */
  ghost predicate Belongs(o: Obstack, b: Bitmap)
    reads o, b, SetOf(b.elts)
  {
    b.obstack == o && b.OnList() && Canonical(b.chunks) && SetOf(b.elts) !! Pool(o.lists)
  }

  ghost predicate AllBelong(o: Obstack, bs: seq<Bitmap>)
    reads o, bs, Used(bs)
  {
    forall k :: 0 <= k < |bs| ==> Belongs(o, bs[k])
  }

  ghost predicate NoneShared(bs: seq<Bitmap>)
    reads bs
  {
    forall j, k :: 0 <= j < k < |bs| ==> bs[j] != bs[k] && SetOf(bs[j].elts) !! SetOf(bs[k].elts)
  }

  /** The bitmaps over an obstack: each holds a set, no element lies in two of them, and none in use is free.  Within a
      list, and within the free lists, every element occurs once. */
  ghost predicate Family(o: Obstack, bs: seq<Bitmap>)
    reads o, bs, Created(o, bs)
  {
    o.Valid() && AllBelong(o, bs) && NoneShared(bs)
  }

  /** What was created stays, in use or free; all else is new. */
  twostate predicate Conserved(o: Obstack, bs: seq<Bitmap>)
    reads o, bs
  {
    old(Created(o, bs)) <= Created(o, bs) && forall e :: e in Created(o, bs) && e !in old(Created(o, bs)) ==> fresh(e)
  }

  lemma MemberIs(o: Obstack, bs: seq<Bitmap>, k: nat)
    requires Family(o, bs) && k < |bs|
    ensures bs[k].obstack == o && bs[k].ListOk() && bs[k].Owned() <= Created(o, bs)
  {
    hide Canonical;
    assert Belongs(o, bs[k]);
  }

  /** Another bitmap of the family may be a source. */
  lemma SourceIs(o: Obstack, bs: seq<Bitmap>, k: nat, a: nat)
    requires Family(o, bs) && k < |bs| && a < |bs| && a != k
    ensures bs[k].obstack == o && Source(bs[k], bs[a])
  {
    hide Canonical;
    assert Belongs(o, bs[k]) && Belongs(o, bs[a]);
    if a < k {
      assert SetOf(bs[a].elts) !! SetOf(bs[k].elts);
    } else {
      assert SetOf(bs[k].elts) !! SetOf(bs[a].elts);
    }
  }

  /** The operations that change a bitmap; sources are given by their position in the family. */
  datatype Operation =
    | SetBit(bit: nat) | ClearBit(bit: nat) | Clear | Copy(a: nat)
    | And(a: nat, b: nat) | AndCompl(a: nat, b: nat) | Ior(a: nat, b: nat) | Xor(a: nat, b: nat)
    | AndInto(b: nat) | AndComplInto(b: nat) | IorInto(b: nat) | XorInto(b: nat)

  /** The sources are other bitmaps of the family, and operations that start from the cursor find it in the list. */
  ghost predicate Enabled(bs: seq<Bitmap>, k: nat, op: Operation)
    requires k < |bs|
    reads bs, bs[k].elts
  {
    match op
    case SetBit(_) => bs[k].CursorOk()
    case ClearBit(_) => bs[k].CursorOk()
    case Clear => true
    case Copy(a) => a < |bs| && a != k
    case And(a, b) => a < |bs| && b < |bs| && a != k && b != k
    case AndCompl(a, b) => a < |bs| && b < |bs| && a != k && b != k
    case Ior(a, b) => a < |bs| && b < |bs| && a != k && b != k
    case Xor(a, b) => a < |bs| && b < |bs| && a != k && b != k
    case AndInto(b) => b < |bs| && bs[k].CursorOk()
    case AndComplInto(b) => b < |bs| && bs[k].CursorOk()
    case IorInto(b) => b < |bs| && bs[k].CursorOk()
    case XorInto(b) => b < |bs| && bs[k].CursorOk()
  }

  method Perform(o: Obstack, bs: seq<Bitmap>, k: nat, op: Operation)
    requires Family(o, bs) && k < |bs| && Enabled(bs, k, op)
    modifies bs[k], o, bs[k].Owned()
    ensures bs[k].obstack == o && bs[k].ListOk() && bs[k].Grows()
  {
    hide Canonical, Merge, Member, AllBelong, NoneShared;
    var d := bs[k];
    MemberIs(o, bs, k);
    match op {
      case SetBit(bit) => d.SetBit(bit);
      case ClearBit(bit) => d.ClearBit(bit);
      case Clear => d.Clear();
      case Copy(a) =>
        SourceIs(o, bs, k, a);
        SetAlgebra.Copy(d, bs[a]);
      case And(a, b) =>
        SourceIs(o, bs, k, a);
        SourceIs(o, bs, k, b);
        SetAlgebra.And(d, bs[a], bs[b], 0);
      case AndCompl(a, b) =>
        SourceIs(o, bs, k, a);
        SourceIs(o, bs, k, b);
        SetAlgebra.AndCompl(d, bs[a], bs[b], 0);
      case Ior(a, b) =>
        SourceIs(o, bs, k, a);
        SourceIs(o, bs, k, b);
        var changed := SetAlgebra.Ior(d, bs[a], bs[b], 0);
      case Xor(a, b) =>
        SourceIs(o, bs, k, a);
        SourceIs(o, bs, k, b);
        SetAlgebra.Xor(d, bs[a], bs[b], 0);
      case AndInto(b) =>
        if b != k { SourceIs(o, bs, k, b); }
        IntoAlgebra.AndInto(d, bs[b]);
      case AndComplInto(b) =>
        if b != k { SourceIs(o, bs, k, b); }
        var changed := IntoAlgebra.AndComplInto(d, bs[b]);
      case IorInto(b) =>
        if b != k { SourceIs(o, bs, k, b); }
        var changed := IntoAlgebra.IorInto(d, bs[b]);
      case XorInto(b) =>
        if b != k { SourceIs(o, bs, k, b); }
        IntoAlgebra.XorInto(d, bs[b]);
    }
  }

  /** Every operation on one bitmap keeps the whole family, and loses no element. */
  method Step(o: Obstack, bs: seq<Bitmap>, k: nat, op: Operation)
    requires Family(o, bs) && k < |bs| && Enabled(bs, k, op)
    modifies bs[k], o, bs[k].Owned()
    ensures Family(o, bs) && Conserved(o, bs)
  {
    hide Canonical, Enabled;
    ghost var owned := bs[k].Owned();
    Perform(o, bs, k, op);
    forall j | 0 <= j < |bs| ensures Belongs(o, bs[j]) {
      if j != k {
        assert old(Belongs(o, bs[j]));
      }
    }
  }
}
