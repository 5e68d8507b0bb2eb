/** Alias sets: descendants recorded eagerly, and reachability along the recorded edges. */
module AliasSets {
  /** Alias set numbers; 0 is the set of things that may alias anything. */
  type Edges = set<(nat, nat)>

  ghost predicate IsPath(e: Edges, p: seq<nat>) {
    |p| >= 2 && forall i :: 0 <= i < |p| - 1 ==> (p[i], p[i+1]) in e
  }

  /** b can be reached from a along one or more edges. */
  ghost predicate Reach(e: Edges, a: nat, b: nat) {
    exists p :: IsPath(e, p) && p[0] == a && p[|p|-1] == b
  }

  lemma ReachEdge(e: Edges, a: nat, b: nat)
    requires (a, b) in e
    ensures Reach(e, a, b)
  {
    assert IsPath(e, [a, b]);
  }

  lemma ReachTrans(e: Edges, a: nat, b: nat, c: nat)
    requires Reach(e, a, b) && Reach(e, b, c)
    ensures Reach(e, a, c)
  {
    var p :| IsPath(e, p) && p[0] == a && p[|p|-1] == b;
    var q :| IsPath(e, q) && q[0] == b && q[|q|-1] == c;
    var r := p + q[1..];
    assert forall i :: |p| - 1 <= i < |r| ==> r[i] == q[i - |p| + 1];
    assert IsPath(e, r);
  }

  lemma ReachMore(e: Edges, f: Edges, a: nat, b: nat)
    requires e <= f && Reach(e, a, b)
    ensures Reach(f, a, b)
  {
    var p :| IsPath(e, p) && p[0] == a && p[|p|-1] == b;
    assert IsPath(f, p);
  }

  /** What a new edge from p to q adds: everything that leads to p now leads to q and beyond. */
  lemma ReachAdd(e: Edges, p: nat, q: nat, a: nat, b: nat)
    ensures Reach(e + {(p, q)}, a, b) <==>
              Reach(e, a, b) || ((a == p || Reach(e, a, p)) && (q == b || Reach(e, q, b)))
  {
    var f := e + {(p, q)};
    if Reach(e, a, b) {
      ReachMore(e, f, a, b);
    }
    if (a == p || Reach(e, a, p)) && (q == b || Reach(e, q, b)) {
      ReachEdge(f, p, q);
      if a != p {
        ReachMore(e, f, a, p);
        ReachTrans(f, a, p, q);
      }
      if q != b {
        ReachMore(e, f, q, b);
        ReachTrans(f, a, q, b);
      }
    }
    if Reach(f, a, b) {
      var path :| IsPath(f, path) && path[0] == a && path[|path|-1] == b;
      SplitPath(e, p, q, path);
    }
  }

  /** A path in the larger graph uses the new edge or not; cutting at it leaves paths in the smaller graph. */
  lemma {:induction false} SplitPath(e: Edges, p: nat, q: nat, path: seq<nat>)
    requires IsPath(e + {(p, q)}, path)
    ensures var (a, b) := (path[0], path[|path|-1]);
            Reach(e, a, b) || ((a == p || Reach(e, a, p)) && (q == b || Reach(e, q, b)))
    decreases |path|
  {
    var f := e + {(p, q)};
    var (a, b) := (path[0], path[|path|-1]);
    assert (path[0], path[1]) in f;
    if |path| == 2 {
      if (a, b) in e {
        ReachEdge(e, a, b);
      }
    } else {
      var rest := path[1..];
      assert forall i :: 0 <= i < |rest| ==> rest[i] == path[i+1];
      assert IsPath(f, rest);
      SplitPath(e, p, q, rest);
      var c := rest[0];
      if (a, c) in e {
        ReachEdge(e, a, c);
        if Reach(e, c, b) {
          ReachTrans(e, a, c, b);
        } else if c != p {
          ReachTrans(e, a, c, p);
        }
      } else {
        assert a == p && c == q;
      }
    }
  }

  // ---------- the entries ----------

  class AliasSetEntry {
    var children: set<nat>
    var hasZeroChild: bool

    constructor ()
      ensures children == {} && !hasZeroChild
    {
      children := {};
      hasZeroChild := false;
    }
  }

  class Table {
    var entries: map<nat, AliasSetEntry>
    ghost var edges: Edges

    constructor ()
      ensures Wf() && Exact() && edges == {} && entries == map[]
    {
      entries := map[];
      edges := {};
      new;
      forall a, b ensures !Reach(edges, a, b) {
        NoEdges(edges, a, b);
      }
    }

    /** Every alias set has an entry of its own, 0 has none. */
    ghost predicate Wf()
      reads this
    {
      && 0 !in entries
      && (forall a, b :: a in entries && b in entries && a != b ==> entries[a] != entries[b])
    }

    ghost function Entries(): set<AliasSetEntry>
      reads this
    {
      entries.Values
    }

    /** What the entry of a set says is below it. */
    ghost predicate Below(a: nat, b: nat)
      reads this, Entries()
    {
      a in entries && (if b == 0 then entries[a].hasZeroChild else b in entries[a].children)
    }

    /** All that the entries say. */
    ghost function Descent(): iset<(nat, nat)>
      reads this, Entries()
    {
      iset a: nat, b: nat | Below(a, b) :: (a, b)
    }

    /** The entries say exactly what can be reached. */
    ghost predicate Exact()
      reads this, Entries()
    {
      Describes(Descent(), edges)
    }

    /** The entry of a set, created if there is none. */
    method EntryFor(superset: nat) returns (entry: AliasSetEntry)
      requires Wf() && superset != 0
      modifies this`entries
      ensures Wf() && superset in entries && entries[superset] == entry
      ensures forall a: nat, b: nat :: Below(a, b) <==> old(Below(a, b))
      ensures Entries() <= old(Entries()) + {entry} && (entry in old(Entries()) || fresh(entry))
    {
      if superset in entries {
        entry := entries[superset];
      } else {
        entry := new AliasSetEntry();
        ghost var was := entries;
        entries := entries[superset := entry];
        assert forall a :: a in was ==> entries[a] == was[a];
      }
    }

    /** Enter all children of the subset's entry as children of the superset's. */
    method InsertSubsetChildren(entry: AliasSetEntry, below: AliasSetEntry)
      requires entry != below
      modifies entry`children
      ensures entry.children == old(entry.children) + below.children
    {
      ghost var was := entry.children;
      var left := below.children;
      while left != {}
        invariant left <= below.children
        invariant entry.children == was + (below.children - left)
        decreases left
      {
        var c :| c in left;
        entry.children := entry.children + {c};
        left := left - {c};
      }
    }

    /** Update the entry of superset. */
    method Enter(entry: AliasSetEntry, superset: nat, subset: nat)
      requires Wf() && superset != subset && superset in entries && entries[superset] == entry
      modifies entry
      ensures Descent() == old(Descent()) + Gained(old(Descent()), superset, subset)
    {
      ghost var was := Descent();
      if subset == 0 {
        entry.hasZeroChild := true;
      } else {
        if subset in entries {
          var below := entries[subset];
          if below.hasZeroChild {
            entry.hasZeroChild := true;
          }
          InsertSubsetChildren(entry, below);
        }
        entry.children := entry.children + {subset};
      }
      assert forall a: nat, b: nat :: a != superset ==> (Below(a, b) <==> (a, b) in was);
      assert forall b: nat :: Below(superset, b) <==> (superset, b) in was || b == subset || (subset, b) in was;
    }

    /** record_alias_subset.  Only what the entry of superset says is changed: it gains subset and all that is below
        it.  Entries that were exact stay exact if and only if every other set above superset already had subset
        below it. */
    method RecordAliasSubset(superset: nat, subset: nat)
      requires Wf() && (superset == subset || superset != 0)
      modifies this, Entries()
      ensures Wf()
      ensures superset == subset ==> edges == old(edges) && Descent() == old(Descent())
      ensures (superset != subset
               ==> edges == old(edges) + {(superset, subset)} &&
                   Descent() == old(Descent()) + Gained(old(Descent()), superset, subset))
      ensures old(Exact()) ==> (Exact() <==> superset == subset || UpToDate(old(edges), superset, subset))
      ensures forall x :: x in Entries() ==> x in old(Entries()) || fresh(x)
    {
      if superset == subset {
        return;
      }
      ghost var was := Descent();
      var entry := EntryFor(superset);
      assert Descent() == was;
      Enter(entry, superset, subset);
      ExactAfter(was, edges, superset, subset);
      edges := edges + {(superset, subset)};
    }

    /** alias_sets_conflict_p. */
    method ConflictP(set1: nat, set2: nat) returns (r: bool)
      requires Wf() && Exact()
      ensures r <==> set1 == 0 || set2 == 0 || set1 == set2 || Reach(edges, set1, set2) || Reach(edges, set2, set1)
                     || Reach(edges, set1, 0) || Reach(edges, set2, 0)
    {
      assert forall a: nat, b: nat :: Below(a, b) <==> (a, b) in Descent();
      assert Below(set1, set2) <==> Reach(edges, set1, set2);
      assert Below(set2, set1) <==> Reach(edges, set2, set1);
      assert Below(set1, 0) <==> Reach(edges, set1, 0);
      assert Below(set2, 0) <==> Reach(edges, set2, 0);
      if set1 == 0 || set2 == 0 || set1 == set2 {
        return true;
      }
      if set1 in entries {
        var ase := entries[set1];
        if ase.hasZeroChild || set2 in ase.children {
          return true;
        }
      }
      if set2 in entries {
        var ase := entries[set2];
        if ase.hasZeroChild || set1 in ase.children {
          return true;
        }
      }
      return false;
    }
  }

  /** A path ends with an edge. */
  lemma LastEdge(e: Edges, a: nat, b: nat)
    ensures Reach(e, a, b) ==> exists c: nat :: (c, b) in e
  {
    if Reach(e, a, b) {
      var p :| IsPath(e, p) && p[0] == a && p[|p|-1] == b;
      assert (p[|p|-2], p[|p|-1]) in e;
    }
  }

  /** A path begins with an edge. */
  lemma FirstEdge(e: Edges, a: nat, b: nat)
    ensures Reach(e, a, b) ==> exists c: nat :: (a, c) in e
  {
    if Reach(e, a, b) {
      var p :| IsPath(e, p) && p[0] == a && p[|p|-1] == b;
      assert (p[0], p[1]) in e;
    }
  }

  lemma NoEdges(e: Edges, a: nat, b: nat)
    requires e == {}
    ensures !Reach(e, a, b)
  {
    FirstEdge(e, a, b);
  }

  ghost predicate Describes(d: iset<(nat, nat)>, e: Edges) {
    forall a: nat, b: nat :: (a, b) in d <==> Reach(e, a, b)
  }

  /** What superset gains: subset and what is below it. */
  ghost function Gained(d: iset<(nat, nat)>, superset: nat, subset: nat): iset<(nat, nat)> {
    iset b: nat | b == subset || (subset, b) in d :: (superset, b)
  }

  /** Recording an edge keeps the entries exact if and only if all other sets above superset are up to date. */
  lemma ExactAfter(d: iset<(nat, nat)>, e: Edges, superset: nat, subset: nat)
    requires superset != subset
    ensures Describes(d, e) ==>
              (Describes(d + Gained(d, superset, subset), e + {(superset, subset)}) <==> UpToDate(e, superset, subset))
  {
    var f := e + {(superset, subset)};
    var d' := d + Gained(d, superset, subset);
    if Describes(d, e) {
      forall a: nat, b: nat
        ensures Reach(f, a, b) <==>
                  Reach(e, a, b) || ((a == superset || Reach(e, a, superset)) && (subset == b || Reach(e, subset, b)))
      {
        ReachAdd(e, superset, subset, a, b);
      }
      if UpToDate(e, superset, subset) {
        forall a: nat, b: nat ensures (a, b) in d' <==> Reach(f, a, b) {
          if a != superset && Reach(e, a, superset) && Reach(e, subset, b) {
            ReachTrans(e, a, subset, b);
          }
        }
      } else {
        var u: nat :| u != superset && Reach(e, u, superset) && !Reach(e, u, subset);
        assert (u, subset) !in d' && Reach(f, u, subset);
      }
    }
  }

  /** Every other set that reaches superset already reaches subset. */
  ghost predicate UpToDate(e: Edges, superset: nat, subset: nat) {
    forall u: nat :: u != superset && Reach(e, u, superset) ==> Reach(e, u, subset)
  }

  // ---------- runs of calls ----------

  /** A call records that the second set is below the first; nothing happens if they are the same. */
  type Call = (nat, nat)

  ghost function EdgesAfter(calls: seq<Call>): Edges {
    if calls == [] then {}
    else
      var c := calls[|calls|-1];
      EdgesAfter(calls[..|calls|-1]) + if c.0 == c.1 then {} else {c}
  }

  ghost function DescentAfter(calls: seq<Call>): iset<(nat, nat)> {
    if calls == [] then iset{}
    else
      var c := calls[|calls|-1];
      var d := DescentAfter(calls[..|calls|-1]);
      if c.0 == c.1 then d else d + Gained(d, c.0, c.1)
  }

  /** After the first n calls the entries are exact. */
  ghost predicate ExactAt(calls: seq<Call>, n: nat)
    requires n <= |calls|
  {
    Describes(DescentAfter(calls[..n]), EdgesAfter(calls[..n]))
  }

  /** Call number n comes when every other set above its superset has its subset below it. */
  ghost predicate InTime(calls: seq<Call>, n: nat)
    requires n < |calls|
  {
    calls[n].0 == calls[n].1 || UpToDate(EdgesAfter(calls[..n]), calls[n].0, calls[n].1)
  }

  lemma ExactNext(calls: seq<Call>, n: nat)
    requires n < |calls| && ExactAt(calls, n)
    ensures ExactAt(calls, n + 1) <==> InTime(calls, n)
  {
    hide Describes, UpToDate, Gained;
    var next := calls[..n+1];
    var c := calls[n];
    assert next[..|next|-1] == calls[..n] && next[|next|-1] == c == (c.0, c.1);
    assert EdgesAfter(next) == EdgesAfter(calls[..n]) + if c.0 == c.1 then {} else {(c.0, c.1)};
    assert c.0 == c.1 ==> EdgesAfter(next) == EdgesAfter(calls[..n]);
    if calls[n].0 != calls[n].1 {
      ExactAfter(DescentAfter(calls[..n]), EdgesAfter(calls[..n]), calls[n].0, calls[n].1);
    }
  }

  lemma ExactStart(calls: seq<Call>)
    ensures ExactAt(calls, 0)
  {
    forall a: nat, b: nat ensures !Reach({}, a, b) {
      NoEdges({}, a, b);
    }
  }

  /** The entries are exact throughout a run of calls if and only if every call comes in time. */
  lemma {:induction false} RunExact(calls: seq<Call>, n: nat)
    requires n <= |calls|
    ensures (forall k :: 0 <= k <= n ==> ExactAt(calls, k)) <==> (forall k :: 0 <= k < n ==> InTime(calls, k))
  {
    hide ExactAt, InTime;
    if n == 0 {
      ExactStart(calls);
    } else {
      RunExact(calls, n - 1);
      if ExactAt(calls, n - 1) {
        ExactNext(calls, n - 1);
      }
    }
  }

  /** No call extends a set that an earlier call has put below another one. */
  ghost predicate BottomUp(calls: seq<Call>) {
    forall i, j :: 0 <= i < j < |calls| && calls[i].0 != calls[i].1 && calls[j].0 != calls[j].1 ==> calls[j].0 != calls[i].1
  }

  /** The edges are those of the calls. */
  lemma {:induction false} RecordedEdges(calls: seq<Call>, a: nat, b: nat)
    ensures (a, b) in EdgesAfter(calls) <==> a != b && exists i :: 0 <= i < |calls| && calls[i] == (a, b)
  {
    if calls != [] {
      var n := |calls| - 1;
      RecordedEdges(calls[..n], a, b);
      assert calls == calls[..n] + [calls[n]];
      assert (exists i :: 0 <= i < |calls| && calls[i] == (a, b)) <==> (a, b) in calls;
      assert (exists i :: 0 <= i < n && calls[..n][i] == (a, b)) <==> (a, b) in calls[..n];
    }
  }

  lemma NothingAboveYet(calls: seq<Call>, n: nat, u: nat)
    requires BottomUp(calls) && n < |calls| && calls[n].0 != calls[n].1
    ensures !Reach(EdgesAfter(calls[..n]), u, calls[n].0)
  {
    LastEdge(EdgesAfter(calls[..n]), u, calls[n].0);
    forall c: nat ensures (c, calls[n].0) !in EdgesAfter(calls[..n]) {
      RecordedEdges(calls[..n], c, calls[n].0);
    }
  }

  /** A run from the bottom up ends with exact entries: they say what can be reached along the recorded edges. */
  lemma BottomUpExact(calls: seq<Call>)
    requires BottomUp(calls)
    ensures Describes(DescentAfter(calls), EdgesAfter(calls))
  {
    hide Describes, Reach;
    forall n | 0 <= n < |calls| ensures InTime(calls, n) {
      if calls[n].0 != calls[n].1 {
        forall u: nat ensures !Reach(EdgesAfter(calls[..n]), u, calls[n].0) {
          NothingAboveYet(calls, n, u);
        }
      }
    }
    RunExact(calls, |calls|);
    assert ExactAt(calls, |calls|);
    assert calls[..|calls|] == calls;
  }

  /** From the top down the entries are wrong: after recording 2 below 1 and then 3 below 2, nothing says that 3 is below
      1, although it can be reached. */
  lemma TopDownExample()
    ensures var calls := [(1, 2), (2, 3)];
            (1, 3) !in DescentAfter(calls) && Reach(EdgesAfter(calls), 1, 3)
            && !Describes(DescentAfter(calls), EdgesAfter(calls))
  {
    var calls: seq<Call> := [(1, 2), (2, 3)];
    assert calls[..1] == [(1, 2)] && calls[..1][..0] == [];
    assert DescentAfter([]) == iset{};
    assert DescentAfter([(1, 2)]) == Gained(iset{}, 1, 2);
    assert (1, 3) !in DescentAfter([(1, 2)]);
    assert EdgesAfter([(1, 2)]) == {(1, 2)};
    ReachEdge(EdgesAfter(calls), 1, 2);
    ReachEdge(EdgesAfter(calls), 2, 3);
    ReachTrans(EdgesAfter(calls), 1, 2, 3);
  }

  /** A run of record_alias_subset on a new table. */
  method RecordAll(calls: seq<Call>) returns (t: Table)
    requires forall i :: 0 <= i < |calls| ==> calls[i].0 == calls[i].1 || calls[i].0 != 0
    ensures fresh(t) && t.Wf() && t.edges == EdgesAfter(calls) && t.Descent() == DescentAfter(calls)
    ensures BottomUp(calls) ==> t.Exact()
  {
    t := new Table();
    ghost var d := t.Descent();
    NewDescent(t);
    for n := 0 to |calls|
      invariant t.Wf() && t.edges == EdgesAfter(calls[..n]) && t.Descent() == DescentAfter(calls[..n])
      invariant fresh(t) && forall x :: x in t.Entries() ==> fresh(x)
    {
      assert calls[..n+1][..n] == calls[..n];
      t.RecordAliasSubset(calls[n].0, calls[n].1);
    }
    assert calls[..|calls|] == calls;
    if BottomUp(calls) {
      BottomUpExact(calls);
    }
  }

  lemma NewDescent(t: Table)
    requires t.entries == map[]
    ensures t.Descent() == iset{}
  {
  }
}
