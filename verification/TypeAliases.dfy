/** Alias sets of types: get_alias_set and record_component_aliases. */
module TypeAliases {
  import opened AliasSets

  /** Types by main variant, as far as alias sets depend on them.  Base classes are fields. */
  datatype Type =
    | Char(id: nat)
    | Scalar(id: nat)
    | Function(id: nat)
    | Vector(id: nat, elem: Type)
    | Array(id: nat, elem: Type, nonaliased: bool)
    | Complex(id: nat, elem: Type)
    | Record(id: nat, fields: seq<Field>)

  datatype Field = Field(ty: Type, nonaddressable: bool)

  /** Types that get an alias set of their own. */
  predicate Own(t: Type) {
    !t.Char? && !t.Function? && !t.Vector?
  }

  /** The components that a type lets others alias it through. */
  function Parts(t: Type): (p: seq<Type>)
    ensures forall c :: c in p ==> c < t
  {
    match t
    case Array(_, elem, nonaliased) => if nonaliased then [] else [elem]
    case Complex(_, elem) => [elem]
    case Record(_, fields) => Addressable(fields)
    case _ => []
  }

  function Addressable(fields: seq<Field>): (p: seq<Type>)
    ensures forall c :: c in p ==> exists i :: 0 <= i < |fields| && c == fields[i].ty
  {
    if fields == [] then []
    else
      var last := fields[|fields|-1];
      var p := Addressable(fields[..|fields|-1]);
      if last.nonaddressable then p else p + [last.ty]
  }

  /** Type c is a component of t through which t may be aliased: the type of an addressable field, or the type of the
      elements of an array that may be aliased or of the parts of a complex number. */
  ghost predicate Component(t: Type, c: Type): (r: bool)
    ensures r ==> c < t
  {
    match t
    case Record(_, fields) => exists i :: 0 <= i < |fields| && fields[i].ty == c && !fields[i].nonaddressable
    case Array(_, elem, nonaliased) => c == elem && !nonaliased
    case Complex(_, elem) => c == elem
    case _ => false
  }

  lemma {:induction false} AddressableAre(fields: seq<Field>, c: Type)
    ensures c in Addressable(fields) <==> exists i :: 0 <= i < |fields| && fields[i].ty == c && !fields[i].nonaddressable
  {
    if fields != [] {
      var n := |fields| - 1;
      var rest := fields[..n];
      AddressableAre(rest, c);
      assert forall i :: 0 <= i < n ==> rest[i] == fields[i];
      if i :| 0 <= i < |fields| && fields[i].ty == c && !fields[i].nonaddressable {
        assert i == n || rest[i].ty == c;
      }
    }
  }

  /** The parts of a type are exactly these components. */
  lemma PartsAre(t: Type, c: Type)
    ensures c in Parts(t) <==> Component(t, c)
  {
    if t.Record? {
      AddressableAre(t.fields, c);
    }
  }

  type Known = map<Type, nat>

  /** The alias set of a type is settled: fixed by the language, or recorded. */
  predicate Settled(k: Known, t: Type) {
    t.Char? || t in k
  }

  function SetOf(k: Known, t: Type): nat
    requires Settled(k, t)
  {
    if t.Char? then 0 else k[t]
  }

  ghost predicate Shares(k: Known, t: Type)
    requires t in k
  {
    t.Vector? ==> Settled(k, t.elem) && k[t] == SetOf(k, t.elem)
  }

  /** The recorded sets: own sets are different and not 0, functions have 0, vectors the set of their elements. */
  ghost predicate KnownOk(k: Known, last: nat) {
    && (forall t :: t in k ==> k[t] <= last && !t.Char?)
    && (forall t :: t in k && Own(t) ==> k[t] >= 1)
    && (forall t, u :: t in k && u in k && Own(t) && Own(u) && k[t] == k[u] ==> t == u)
    && (forall t :: t in k && t.Function? ==> k[t] == 0)
    && (forall t {:trigger Shares(k, t)} :: t in k ==> Shares(k, t))
  }

  /** The edges from the set of t lead to the sets of p, all settled. */
  ghost predicate LeadsTo(k: Known, e: Edges, t: Type, p: seq<Type>)
    requires t in k
  {
    && (forall c :: c in p ==> Settled(k, c))
    && forall b: nat :: (k[t], b) in e <==> exists c :: c in p && Settled(k, c) && SetOf(k, c) == b
  }

  /** The edges from the set of t lead to the sets of its components, all settled. */
  ghost predicate LeadsToComponents(k: Known, e: Edges, t: Type)
    requires t in k
  {
    && (forall c :: Component(t, c) ==> Settled(k, c))
    && forall b: nat :: (k[t], b) in e <==> exists c :: Component(t, c) && Settled(k, c) && SetOf(k, c) == b
  }

  lemma LeadsToParts(k: Known, e: Edges, t: Type)
    requires t in k
    ensures LeadsTo(k, e, t, Parts(t)) <==> LeadsToComponents(k, e, t)
  {
    hide Parts, Settled, SetOf, Component;
    forall c ensures c in Parts(t) <==> Component(t, c) {
      PartsAre(t, c);
    }
  }

  /** Edges lie between known numbers and do not lead to sets whose components are still being recorded. */
  ghost predicate EdgesOk(e: Edges, last: nat, open: set<nat>) {
    forall a: nat, b: nat :: (a, b) in e ==> 1 <= a <= last && b <= last && b !in open
  }

  /** Types whose sets are not open have all their components recorded. */
  ghost predicate Complete(k: Known, e: Edges, open: set<nat>) {
    forall t :: t in k && Own(t) && k[t] !in open ==> LeadsTo(k, e, t, Parts(t))
  }

  ghost predicate StateOk(k: Known, e: Edges, last: nat, open: set<nat>) {
    && KnownOk(k, last) && EdgesOk(e, last, open) && Complete(k, e, open)
    && (forall s :: s in open ==> 1 <= s <= last)
    && (forall t :: t in k && k[t] in open ==> Own(t))
  }

  /** What later recording keeps: known sets, and the edges from sets known before, except from the set whose
      components are being recorded.  New types are parts of t, or t itself. */
  ghost predicate Extends(t: Type, but: nat, k: Known, e: Edges, last: nat, k': Known, e': Edges, last': nat) {
    && last <= last' && e <= e'
    && (forall u :: u in k ==> u in k' && k'[u] == k[u])
    && (forall u :: u in k' && u !in k ==> (u == t || u < t) && (Own(u) ==> k'[u] > last))
    && (forall a: nat, b: nat :: (a, b) in e' && 1 <= a <= last && a != but ==> (a, b) in e)
  }

  lemma ExtendsTrans(t: Type, but: nat, k: Known, e: Edges, last: nat, k': Known, e': Edges, last': nat,
                     k'': Known, e'': Edges, last'': nat)
    requires Extends(t, but, k, e, last, k', e', last')
    requires Extends(t, but, k', e', last', k'', e'', last'') || Extends(t, 0, k', e', last', k'', e'', last'')
             || Extends(t, last + 1, k', e', last', k'', e'', last'')
    ensures Extends(t, but, k, e, last, k'', e'', last'')
  {
  }

  lemma ExtendsPart(t: Type, c: Type, but: nat, k: Known, e: Edges, last: nat, k': Known, e': Edges, last': nat)
    requires c < t && Extends(c, 0, k, e, last, k', e', last')
    ensures Extends(t, but, k, e, last, k', e', last')
    ensures t !in k ==> t !in k'
  {
  }

  /** Types whose sets are open were known before. */
  lemma OpenKnown(t: Type, but: nat, k: Known, e: Edges, last: nat, k': Known, e': Edges, last': nat, open: set<nat>)
    requires StateOk(k, e, last, open) && StateOk(k', e', last', open) && Extends(t, but, k, e, last, k', e', last')
    ensures forall u :: u in k' && k'[u] in open ==> u in k && k[u] in open
  {
  }

  class Aliases {
    const table: Table
    var known: Known
    var last: nat

    constructor ()
      ensures Valid({})
    {
      table := new Table();
      known := map[];
      last := 0;
    }

    ghost predicate Valid(open: set<nat>)
      reads this, table, table.Entries()
    {
      table.Wf() && table.Exact() && StateOk(known, table.edges, last, open)
    }

    /** The types whose components are being recorded contain t properly. */
    ghost predicate Inside(t: Type, open: set<nat>)
      reads this
    {
      forall u :: u in known && known[u] in open ==> t < u
    }

    /** Settle a type that gets no set of its own. */
    method Share(t: Type, s: nat, ghost open: set<nat>)
      requires Valid(open) && t !in known && s !in open
      requires (t.Function? && s == 0) || (t.Vector? && Settled(known, t.elem) && s == SetOf(known, t.elem))
      modifies this`known
      ensures Valid(open) && known == old(known)[t := s]
      ensures Extends(t, 0, old(known), table.edges, last, known, table.edges, last)
    {
      AddShared(known, table.edges, last, open, t, s);
      known := known[t := s];
    }

    /** get_alias_set for a type. */
    method GetAliasSet(t: Type, ghost open: set<nat>) returns (set1: nat)
      requires Valid(open) && Inside(t, open)
      modifies this`known, this`last, table, table.Entries()
      ensures Valid(open) && Settled(known, t) && set1 == SetOf(known, t) && set1 !in open
      ensures Extends(t, 0, old(known), old(table.edges), old(last), known, table.edges, last)
      ensures forall x :: x in table.Entries() ==> x in old(table.Entries()) || fresh(x)
      decreases t, 3
    {
      hide KnownOk, EdgesOk, Complete, LeadsTo, Extends, Describes;
      KnownSets(known, table.edges, last, open);
      ExtendsSelf(t, 0, known, table.edges, last);
      if t in known {
        return known[t];
      }
      if t.Char? {
        return 0;
      }
      ghost var k, e, l := known, table.edges, last;
      if t.Function? {
        set1 := 0;
        Share(t, set1, open);
      } else if t.Vector? {
        set1 := GetAliasSet(t.elem, open);
        ExtendsPart(t, t.elem, 0, k, e, l, known, table.edges, last);
        ghost var k' := known;
        Share(t, set1, open);
        ExtendsTrans(t, 0, k, e, l, k', table.edges, last, known, table.edges, last);
      } else {
        set1 := last + 1;
        AddOwn(k, e, l, open, t);
        known := known[t := set1];
        last := set1;
        ghost var k' := known;
        RecordComponentAliases(t, set1, open + {set1});
        Close(known, table.edges, last, open, t);
        ExtendsTrans(t, 0, k, e, l, k', e, set1, known, table.edges, last);
      }
    }

    /** record_component_aliases. */
    method RecordComponentAliases(t: Type, superset: nat, ghost open: set<nat>)
      requires Valid(open) && t in known && Own(t) && known[t] == superset && superset in open
      requires LeadsTo(known, table.edges, t, [])
      requires forall u :: u in known && known[u] in open ==> t == u || t < u
      modifies this`known, this`last, table, table.Entries()
      ensures Valid(open) && t in known && LeadsTo(known, table.edges, t, Parts(t))
      ensures LeadsToComponents(known, table.edges, t) && known[t] == superset
      ensures Extends(t, superset, old(known), old(table.edges), old(last), known, table.edges, last)
      ensures forall x :: x in table.Entries() ==> x in old(table.Entries()) || fresh(x)
      decreases t, 2
    {
      hide StateOk, LeadsTo, Extends, Describes;
      ExtendsSelf(t, superset, known, table.edges, last);
      match t {
        case Array(_, elem, nonaliased) =>
          if !nonaliased {
            RecordComponent(t, superset, [], elem, open);
            assert [] + [elem] == [elem];
          }
        case Complex(_, elem) =>
          RecordComponent(t, superset, [], elem, open);
          assert [] + [elem] == [elem];
        case Record(_, fields) =>
          RecordFields(t, superset, fields, open);
        case _ =>
      }
      LeadsToParts(known, table.edges, t);
    }

    /** Find the set of a component and record it. */
    method RecordComponent(t: Type, superset: nat, ghost p: seq<Type>, c: Type, ghost open: set<nat>)
      requires Valid(open) && t in known && Own(t) && known[t] == superset && superset in open
      requires LeadsTo(known, table.edges, t, p) && c < t
      requires forall u :: u in known && known[u] in open ==> t == u || t < u
      modifies this`known, this`last, table, table.Entries()
      ensures Valid(open) && t in known && LeadsTo(known, table.edges, t, p + [c])
      ensures known[t] == superset
      ensures Extends(t, superset, old(known), old(table.edges), old(last), known, table.edges, last)
      ensures forall x :: x in table.Entries() ==> x in old(table.Entries()) || fresh(x)
      decreases c, 4
    {
      hide KnownOk, EdgesOk, Complete, LeadsTo, Describes, Extends;
      ghost var k, e, l := known, table.edges, last;
      KnownSets(k, e, l, open);
      var sub := GetAliasSet(c, open);
      LeadsKept(c, k, e, l, known, table.edges, last, t, p);
      ExtendsPart(t, c, superset, k, e, l, known, table.edges, last);
      ExtendsEdge(t, k, e, l, known, table.edges, last, superset, sub);
      RecordPart(t, superset, sub, p, c, open);
    }

    method RecordFields(t: Type, superset: nat, fields: seq<Field>, ghost open: set<nat>)
      requires t.Record? && t.fields == fields
      requires Valid(open) && t in known && known[t] == superset && superset in open
      requires LeadsTo(known, table.edges, t, [])
      requires forall u :: u in known && known[u] in open ==> t == u || t < u
      modifies this`known, this`last, table, table.Entries()
      ensures Valid(open) && t in known && LeadsTo(known, table.edges, t, Addressable(fields))
      ensures known[t] == superset
      ensures Extends(t, superset, old(known), old(table.edges), old(last), known, table.edges, last)
      ensures forall x :: x in table.Entries() ==> x in old(table.Entries()) || fresh(x)
      decreases t, 1
    {
      hide StateOk, LeadsTo, Describes, Extends;
      ghost var k, e, l := known, table.edges, last;
      ExtendsSelf(t, superset, k, e, l);
      var i := 0;
      while i < |fields|
        invariant 0 <= i <= |fields|
        invariant Valid(open) && t in known && known[t] == superset
        invariant LeadsTo(known, table.edges, t, Addressable(fields[..i]))
        invariant forall u :: u in known && known[u] in open ==> t == u || t < u
        invariant Extends(t, superset, k, e, l, known, table.edges, last)
        invariant forall x :: x in table.Entries() ==> x in old(table.Entries()) || fresh(x)
      {
        assert fields[..i+1][..i] == fields[..i];
        var field := fields[i];
        if !field.nonaddressable {
          ghost var k', e', l' := known, table.edges, last;
          RecordComponent(t, superset, Addressable(fields[..i]), field.ty, open);
          ExtendsTrans(t, superset, k, e, l, k', e', l', known, table.edges, last);
          OpenKnown(t, superset, k', e', l', known, table.edges, last, open);
        }
        i := i + 1;
      }
      assert fields[..|fields|] == fields;
    }

    /** Record one more component of a type whose set is open. */
    method RecordPart(t: Type, set1: nat, sub: nat, ghost p: seq<Type>, c: Type, ghost open: set<nat>)
      requires Valid(open) && t in known && Own(t) && known[t] == set1 && set1 in open
      requires LeadsTo(known, table.edges, t, p)
      requires Settled(known, c) && SetOf(known, c) == sub && sub !in open
      modifies table, table.Entries()
      ensures Valid(open) && LeadsTo(known, table.edges, t, p + [c])
      ensures table.edges == old(table.edges) + {(set1, sub)}
      ensures forall x :: x in table.Entries() ==> x in old(table.Entries()) || fresh(x)
    {
      NothingAbove(table.edges, last, open, set1, sub);
      PartState(known, table.edges, last, open, t, sub, p, c);
      table.RecordAliasSubset(set1, sub);
    }
  }

  lemma KnownSets(k: Known, e: Edges, last: nat, open: set<nat>)
    requires StateOk(k, e, last, open)
    ensures forall t :: t in k ==> k[t] <= last && !t.Char?
    ensures 0 !in open && last + 1 !in open
  {
  }

  lemma ExtendsSelf(t: Type, but: nat, k: Known, e: Edges, last: nat)
    ensures Extends(t, but, k, e, last, k, e, last)
  {
  }

  lemma ExtendsEdge(t: Type, k: Known, e: Edges, last: nat, k': Known, e': Edges, last': nat, superset: nat, sub: nat)
    requires Extends(t, superset, k, e, last, k', e', last')
    ensures Extends(t, superset, k, e, last, k', e' + {(superset, sub)}, last')
  {
  }

  lemma KnownShared(k: Known, last: nat, t: Type, s: nat)
    requires KnownOk(k, last) && t !in k
    requires (t.Function? && s == 0) || (t.Vector? && Settled(k, t.elem) && s == SetOf(k, t.elem))
    ensures KnownOk(k[t := s], last)
  {
    var k' := k[t := s];
    forall u | u in k' ensures Shares(k', u) {
      if u != t {
        assert Shares(k, u);
      }
    }
  }

  lemma KnownOwn(k: Known, last: nat, t: Type)
    requires KnownOk(k, last) && t !in k && Own(t)
    ensures KnownOk(k[t := last + 1], last + 1)
    ensures forall u :: u in k ==> k[u] <= last
  {
    var k' := k[t := last + 1];
    forall u | u in k' ensures Shares(k', u) {
      if u != t {
        assert Shares(k, u);
      }
    }
  }

  /** A type that shares the set of another, or has none. */
  lemma AddShared(k: Known, e: Edges, last: nat, open: set<nat>, t: Type, s: nat)
    requires StateOk(k, e, last, open) && t !in k && s !in open
    requires (t.Function? && s == 0) || (t.Vector? && Settled(k, t.elem) && s == SetOf(k, t.elem))
    ensures StateOk(k[t := s], e, last, open) && Extends(t, 0, k, e, last, k[t := s], e, last)
  {
    hide LeadsTo, KnownOk, SetOf, Settled, EdgesOk;
    KnownShared(k, last, t, s);
    var k' := k[t := s];
    forall u | u in k' && Own(u) && k'[u] !in open ensures LeadsTo(k', e, u, Parts(u)) {
      LeadsGrown(k, e, t, s, u, Parts(u));
    }
  }

  /** Settling one more type does not matter to types whose components are settled. */
  lemma LeadsGrown(k: Known, e: Edges, t: Type, s: nat, u: Type, p: seq<Type>)
    requires t !in k && u in k && LeadsTo(k, e, u, p)
    ensures LeadsTo(k[t := s], e, u, p)
  {
    var k' := k[t := s];
    forall b: nat ensures (k'[u], b) in e <==> exists c :: c in p && Settled(k', c) && SetOf(k', c) == b {
      if c :| c in p && Settled(k, c) && SetOf(k, c) == b {
        assert SetOf(k', c) == b;
      }
    }
  }

  lemma EdgesOwn(k: Known, e: Edges, last: nat, open: set<nat>, t: Type)
    requires EdgesOk(e, last, open) && t !in k
    ensures EdgesOk(e, last + 1, open + {last + 1}) && LeadsTo(k[t := last + 1], e, t, [])
    ensures forall a: nat, b: nat :: (a, b) in e ==> a <= last
  {
  }

  /** A type with a new set of its own, whose components are still to be recorded. */
  lemma AddOwn(k: Known, e: Edges, last: nat, open: set<nat>, t: Type)
    requires StateOk(k, e, last, open) && t !in k && Own(t)
    ensures StateOk(k[t := last + 1], e, last + 1, open + {last + 1})
    ensures LeadsTo(k[t := last + 1], e, t, []) && Extends(t, 0, k, e, last, k[t := last + 1], e, last + 1)
  {
    hide LeadsTo, KnownOk, SetOf, Settled, Parts, EdgesOk;
    KnownOwn(k, last, t);
    EdgesOwn(k, e, last, open, t);
    var k' := k[t := last + 1];
    forall u | u in k' && Own(u) && k'[u] !in open + {last + 1} ensures LeadsTo(k', e, u, Parts(u)) {
      LeadsGrown(k, e, t, last + 1, u, Parts(u));
    }
  }

  /** All components are recorded: the set is no longer open. */
  lemma Close(k: Known, e: Edges, last: nat, open: set<nat>, t: Type)
    requires t in k && Own(t) && StateOk(k, e, last, open + {k[t]}) && LeadsTo(k, e, t, Parts(t))
    ensures StateOk(k, e, last, open)
  {
    forall u | u in k && Own(u) && k[u] !in open ensures LeadsTo(k, e, u, Parts(u)) {
      if k[u] == k[t] {
        assert u == t;
      }
    }
  }

  lemma LeadsKept(c: Type, k: Known, e: Edges, last: nat, k': Known, e': Edges, last': nat, t: Type, p: seq<Type>)
    requires t in k && 1 <= k[t] <= last && LeadsTo(k, e, t, p) && Extends(c, 0, k, e, last, k', e', last')
    ensures t in k' && k'[t] == k[t] && LeadsTo(k', e', t, p)
  {
    forall b: nat ensures (k'[t], b) in e' <==> exists c :: c in p && Settled(k', c) && SetOf(k', c) == b {
      if c :| c in p && Settled(k, c) && SetOf(k, c) == b {
        assert SetOf(k', c) == b;
      }
    }
  }

  /** Nothing reaches an open set, so recording below it keeps the entries exact. */
  lemma NothingAbove(e: Edges, last: nat, open: set<nat>, superset: nat, subset: nat)
    requires EdgesOk(e, last, open) && superset in open
    ensures UpToDate(e, superset, subset)
  {
    forall u: nat ensures !Reach(e, u, superset) {
      LastEdge(e, u, superset);
    }
  }

  lemma PartState(k: Known, e: Edges, last: nat, open: set<nat>, t: Type, sub: nat, p: seq<Type>, c: Type)
    requires StateOk(k, e, last, open) && t in k && Own(t) && k[t] in open && LeadsTo(k, e, t, p)
    requires Settled(k, c) && SetOf(k, c) == sub && sub !in open
    ensures StateOk(k, e + {(k[t], sub)}, last, open) && LeadsTo(k, e + {(k[t], sub)}, t, p + [c])
    ensures k[t] != sub
  {
    var f := e + {(k[t], sub)};
    forall u | u in k && Own(u) && k[u] !in open ensures LeadsTo(k, f, u, Parts(u)) {
      assert LeadsTo(k, e, u, Parts(u));
    }
    forall b: nat ensures (k[t], b) in f <==> exists d :: d in p + [c] && Settled(k, d) && SetOf(k, d) == b {
      assert c in p + [c];
    }
  }
  // ---------- what the recorded sets mean for types ----------

  /** The type whose set a vector shares. */
  function Bare(t: Type): (r: Type)
    ensures !r.Vector? && (r == t || r < t)
  {
    if t.Vector? then Bare(t.elem) else t
  }

  /** Some part of t, however deep, has alias set b. */
  ghost predicate ContainsSet(k: Known, t: Type, b: nat)
    decreases t
  {
    exists c :: Component(t, c) && Settled(k, c) && (SetOf(k, c) == b || ContainsSet(k, Bare(c), b))
  }

  lemma {:induction false} BareSet(k: Known, last: nat, t: Type)
    requires KnownOk(k, last) && Settled(k, t)
    ensures Settled(k, Bare(t)) && SetOf(k, Bare(t)) == SetOf(k, t)
    ensures SetOf(k, t) != 0 ==> Own(Bare(t)) && Bare(t) in k
    decreases t
  {
    if t.Vector? {
      assert Shares(k, t);
      BareSet(k, last, t.elem);
    }
  }

  lemma {:induction false} ContainsReach(k: Known, e: Edges, last: nat, t: Type, b: nat)
    requires StateOk(k, e, last, {}) && t in k && Own(t) && ContainsSet(k, t, b)
    ensures Reach(e, k[t], b)
    decreases t
  {
    var c :| Component(t, c) && Settled(k, c) && (SetOf(k, c) == b || ContainsSet(k, Bare(c), b));
    assert LeadsTo(k, e, t, Parts(t));
    LeadsToParts(k, e, t);
    ReachEdge(e, k[t], SetOf(k, c));
    if SetOf(k, c) != b {
      BareSet(k, last, c);
      NoParts(k, c, b);
      ContainsReach(k, e, last, Bare(c), b);
      ReachTrans(e, k[t], SetOf(k, c), b);
    }
  }

  /** A type with a part has a set of its own or shares one. */
  lemma NoParts(k: Known, c: Type, b: nat)
    requires ContainsSet(k, Bare(c), b)
    ensures Own(Bare(c))
  {
  }

  lemma {:induction false} PathContains(k: Known, e: Edges, last: nat, t: Type, p: seq<nat>)
    requires StateOk(k, e, last, {}) && t in k && Own(t) && IsPath(e, p) && p[0] == k[t]
    ensures ContainsSet(k, t, p[|p|-1])
    decreases |p|
  {
    assert LeadsTo(k, e, t, Parts(t));
    LeadsToParts(k, e, t);
    assert (p[0], p[1]) in e;
    var c :| Component(t, c) && Settled(k, c) && SetOf(k, c) == p[1];
    if |p| > 2 {
      var rest := p[1..];
      assert forall i :: 0 <= i < |rest| ==> rest[i] == p[i+1];
      assert IsPath(e, rest) && (rest[0], rest[1]) in e;
      BareSet(k, last, c);
      PathContains(k, e, last, Bare(c), rest);
    }
  }

  /** The sets below the set of a type are those of its parts. */
  lemma ReachIsContainment(k: Known, e: Edges, last: nat, t: Type, b: nat)
    requires StateOk(k, e, last, {}) && t in k && Own(t)
    ensures Reach(e, k[t], b) <==> ContainsSet(k, t, b)
  {
    if ContainsSet(k, t, b) {
      ContainsReach(k, e, last, t, b);
    }
    if Reach(e, k[t], b) {
      var p :| IsPath(e, p) && p[0] == k[t] && p[|p|-1] == b;
      PathContains(k, e, last, t, p);
    }
  }

  /** Type u is a component of t, however deep. */
  ghost predicate Inside(t: Type, u: Type)
    decreases t
  {
    exists c :: Component(t, c) && (Bare(c) == u || Inside(Bare(c), u))
  }

  /** Some component of t, however deep, is a character or a function, which may be accessed as anything. */
  ghost predicate HoldsAny(t: Type)
    decreases t
  {
    exists c :: Component(t, c) && (Bare(c).Char? || Bare(c).Function? || HoldsAny(Bare(c)))
  }

  lemma SameSet(k: Known, last: nat, c: Type, u: Type)
    requires KnownOk(k, last) && Settled(k, c) && u in k && Own(u)
    ensures SetOf(k, c) == k[u] <==> Bare(c) == u
    ensures SetOf(k, c) == 0 <==> Bare(c).Char? || Bare(c).Function?
    ensures Own(Bare(c)) ==> Bare(c) in k
  {
    BareSet(k, last, c);
  }

  lemma ComponentsSettled(k: Known, e: Edges, last: nat, t: Type)
    requires StateOk(k, e, last, {}) && t in k && Own(t)
    ensures forall c :: Component(t, c) ==> Settled(k, c)
  {
    assert LeadsTo(k, e, t, Parts(t));
    LeadsToParts(k, e, t);
  }

  /** The set of u is below that of t, or 0 is, exactly if u is inside t, or something that may be accessed as anything. */
  lemma {:induction false} ContainsIsInside(k: Known, e: Edges, last: nat, t: Type, u: Type)
    requires StateOk(k, e, last, {}) && t in k && Own(t) && u in k && Own(u)
    ensures ContainsSet(k, t, k[u]) <==> Inside(t, u)
    ensures ContainsSet(k, t, 0) <==> HoldsAny(t)
    decreases t
  {
    ComponentsSettled(k, e, last, t);
    forall c | Component(t, c)
      ensures (SetOf(k, c) == k[u] || ContainsSet(k, Bare(c), k[u])) <==> (Bare(c) == u || Inside(Bare(c), u))
      ensures (SetOf(k, c) == 0 || ContainsSet(k, Bare(c), 0)) <==> (Bare(c).Char? || Bare(c).Function? || HoldsAny(Bare(c)))
    {
      SameSet(k, last, c, u);
      if Own(Bare(c)) {
        ContainsIsInside(k, e, last, Bare(c), u);
      }
    }
  }

  /** alias_sets_conflict_p on the sets of two types: they conflict exactly if the types are the same, one is inside the
      other, or one has a component that may be accessed as anything. */
  method TypesConflict(a: Aliases, t: Type, u: Type) returns (r: bool)
    requires a.Valid({}) && t in a.known && u in a.known && Own(t) && Own(u)
    ensures r <==> t == u || Inside(t, u) || Inside(u, t) || HoldsAny(t) || HoldsAny(u)
  {
    hide Reach, ContainsSet, Inside, HoldsAny, Describes, EdgesOk, Complete;
    var k, s1, s2 := a.known, a.known[t], a.known[u];
    ReachIsContainment(k, a.table.edges, a.last, t, s2);
    ReachIsContainment(k, a.table.edges, a.last, t, 0);
    ReachIsContainment(k, a.table.edges, a.last, u, s1);
    ReachIsContainment(k, a.table.edges, a.last, u, 0);
    ContainsIsInside(k, a.table.edges, a.last, t, u);
    ContainsIsInside(k, a.table.edges, a.last, u, t);
    r := a.table.ConflictP(s1, s2);
  }
}
