/** Reaching definitions of branch target registers by iteration over gen and kill sets. */
module BtrFlow {
  const ENTRY: int := -1

  /** Control flow as the predecessors of each block; ENTRY may be one of them. */
  datatype Flow = Flow(preds: seq<seq<int>>)

  predicate FlowOk(g: Flow) {
    forall i :: 0 <= i < |g.preds| ==> PredsOk(g.preds[i], |g.preds|)
  }

  predicate PredsOk(preds: seq<int>, n: nat) {
    forall k :: 0 <= k < |preds| ==> preds[k] == ENTRY || 0 <= preds[k] < n
  }

  predicate IsBlock(g: Flow, i: int) {
    0 <= i < |g.preds|
  }

  ghost predicate Edge(g: Flow, a: int, b: int) {
    IsBlock(g, b) && a in g.preds[b]
  }

  /** A walk along edges. */
  ghost predicate IsWalk(g: Flow, p: seq<int>) {
    && p != []
    && (forall i :: 0 <= i < |p| ==> IsBlock(g, p[i]))
    && (forall i {:trigger p[i]} :: 0 < i < |p| ==> Edge(g, p[i-1], p[i]))
  }

  /** p carries d: the first block generates it and no later block kills it. */
  ghost predicate Carries<D>(gen: seq<set<D>>, kill: seq<set<D>>, d: D, p: seq<int>)
    requires forall i :: 0 <= i < |p| ==> 0 <= p[i] < |gen| && 0 <= p[i] < |kill|
    requires p != []
  {
    d in gen[p[0]] && forall i :: 0 < i < |p| ==> d !in kill[p[i]]
  }

  /** d reaches the end of block i. */
  ghost predicate Reaches<D(!new)>(g: Flow, gen: seq<set<D>>, kill: seq<set<D>>, d: D, i: int)
    requires |gen| == |kill| == |g.preds|
  {
    exists p: seq<int> :: IsWalk(g, p) && p[|p|-1] == i && Carries(gen, kill, d, p)
  }

  /** sbitmap_union_of_preds: the union over the predecessors other than ENTRY. */
  function UnionOfPreds<D>(preds: seq<int>, out: seq<set<D>>): (r: set<D>)
    requires PredsOk(preds, |out|)
  {
    if preds == [] then {}
    else (if preds[0] == ENTRY then {} else out[preds[0]]) + UnionOfPreds(preds[1..], out)
  }

  lemma {:induction false} InUnion<D>(preds: seq<int>, out: seq<set<D>>, d: D)
    requires PredsOk(preds, |out|)
    ensures d in UnionOfPreds(preds, out) <==> exists p :: p in preds && p != ENTRY && d in out[p]
  {
    if preds != [] {
      InUnion(preds[1..], out, d);
      assert preds == [preds[0]] + preds[1..];
    }
  }

  /** The right-hand side of the equation of block i. */
  function Equation<D>(g: Flow, gen: seq<set<D>>, kill: seq<set<D>>, out: seq<set<D>>, i: int): set<D>
    requires FlowOk(g) && |gen| == |kill| == |out| == |g.preds| && IsBlock(g, i)
  {
    gen[i] + (UnionOfPreds(g.preds[i], out) - kill[i])
  }

  lemma EquationMonotone<D>(g: Flow, gen: seq<set<D>>, kill: seq<set<D>>, out: seq<set<D>>, out': seq<set<D>>, i: int)
    requires FlowOk(g) && |gen| == |kill| == |out| == |out'| == |g.preds| && IsBlock(g, i)
    requires forall j :: 0 <= j < |out| ==> out[j] <= out'[j]
    ensures Equation(g, gen, kill, out, i) <= Equation(g, gen, kill, out', i)
  {
    forall d | d in UnionOfPreds(g.preds[i], out) ensures d in UnionOfPreds(g.preds[i], out') {
      InUnion(g.preds[i], out, d);
      InUnion(g.preds[i], out', d);
    }
  }

  /** What the iteration keeps: the sets contain gen, are below their equations, and contain only what reaches. */
  ghost predicate Growing<D(!new)>(g: Flow, gen: seq<set<D>>, kill: seq<set<D>>, out: seq<set<D>>)
    requires FlowOk(g) && |gen| == |kill| == |out| == |g.preds|
  {
    forall i :: 0 <= i < |out| ==>
      && gen[i] <= out[i]
      && out[i] <= Equation(g, gen, kill, out, i)
      && forall d :: d in out[i] ==> Reaches(g, gen, kill, d, i)
  }

  lemma StartGrowing<D(!new)>(g: Flow, gen: seq<set<D>>, kill: seq<set<D>>)
    requires FlowOk(g) && |gen| == |kill| == |g.preds|
    ensures Growing(g, gen, kill, gen)
  {
    forall i, d | 0 <= i < |gen| && d in gen[i] ensures Reaches(g, gen, kill, d, i) {
      assert IsWalk(g, [i]) && Carries(gen, kill, d, [i]);
    }
  }

  lemma ExtendReach<D(!new)>(g: Flow, gen: seq<set<D>>, kill: seq<set<D>>, d: D, p: int, i: int)
    requires |gen| == |kill| == |g.preds| && Reaches(g, gen, kill, d, p) && IsBlock(g, p) && Edge(g, p, i)
    requires d !in kill[i]
    ensures Reaches(g, gen, kill, d, i)
  {
    var w :| IsWalk(g, w) && w[|w|-1] == p && Carries(gen, kill, d, w);
    assert IsWalk(g, w + [i]) && Carries(gen, kill, d, w + [i]);
  }

  /** Replacing one set by its equation keeps all that. */
  lemma StepGrowing<D(!new)>(g: Flow, gen: seq<set<D>>, kill: seq<set<D>>, out: seq<set<D>>, i: int)
    requires FlowOk(g) && |gen| == |kill| == |out| == |g.preds| && IsBlock(g, i) && Growing(g, gen, kill, out)
    ensures Growing(g, gen, kill, out[i := Equation(g, gen, kill, out, i)])
    ensures out[i] <= Equation(g, gen, kill, out, i)
  {
    var out' := out[i := Equation(g, gen, kill, out, i)];
    forall j | 0 <= j < |out|
      ensures gen[j] <= out'[j] && out'[j] <= Equation(g, gen, kill, out', j)
      ensures forall d :: d in out'[j] ==> Reaches(g, gen, kill, d, j)
    {
      EquationMonotone(g, gen, kill, out, out', j);
      forall d | d in out'[j] ensures Reaches(g, gen, kill, d, j) {
        if d !in out[j] && d !in gen[j] {
          InUnion(g.preds[j], out, d);
          var p :| p in g.preds[j] && p != ENTRY && d in out[p];
          ExtendReach(g, gen, kill, d, p, j);
        } else if d in gen[j] {
          assert d in out[j];
        }
      }
    }
  }

  /** A solution contains everything that reaches. */
  lemma {:induction false} SolutionReaches<D(!new)>(g: Flow, gen: seq<set<D>>, kill: seq<set<D>>, out: seq<set<D>>,
                                                    d: D, p: seq<int>)
    requires FlowOk(g) && |gen| == |kill| == |out| == |g.preds|
    requires forall i :: 0 <= i < |out| ==> Equation(g, gen, kill, out, i) <= out[i]
    requires IsWalk(g, p) && Carries(gen, kill, d, p)
    ensures d in out[p[|p|-1]]
    decreases |p|
  {
    var i := p[|p|-1];
    if |p| > 1 {
      var q := p[..|p|-1];
      assert IsWalk(g, q) && Carries(gen, kill, d, q);
      SolutionReaches(g, gen, kill, out, d, q);
      assert Edge(g, p[|p|-2], p[|p|-1]);
      InUnion(g.preds[i], out, d);
    }
    assert d in Equation(g, gen, kill, out, i);
  }

  ghost predicate Solves<D>(g: Flow, gen: seq<set<D>>, kill: seq<set<D>>, out: seq<set<D>>)
    requires FlowOk(g) && |gen| == |kill| == |out| == |g.preds|
  {
    forall i :: 0 <= i < |out| ==> out[i] == Equation(g, gen, kill, out, i)
  }

  /** The pairs of a block and a definition that may still be added. */
  ghost function Missing<D>(out: seq<set<D>>, all: set<D>): set<(int, D)> {
    set i, d | 0 <= i < |out| && d in all && d !in out[i] :: (i, d)
  }

  /** compute_out.  A definition is in bb_out[i] exactly if it reaches the end of i, and bb_out is the least
      solution of the equations. */
  method ComputeOut<D(==,!new)>(g: Flow, gen: seq<set<D>>, kill: seq<set<D>>, out: array<set<D>>, ghost all: set<D>)
    requires FlowOk(g) && |gen| == |kill| == out.Length == |g.preds|
    requires forall i :: 0 <= i < |gen| ==> gen[i] <= all
    modifies out
    ensures Solves(g, gen, kill, out[..])
    ensures forall i, d :: 0 <= i < out.Length ==> (d in out[i] <==> Reaches(g, gen, kill, d, i))
  {
    var n := |g.preds|;
    var i := 0;
    while i < n
      invariant 0 <= i <= n && out[..i] == gen[..i]
    {
      out[i] := gen[i];
      i := i + 1;
    }
    assert out[..] == gen;
    StartGrowing(g, gen, kill);
    var changed := true;
    while changed
      invariant Growing(g, gen, kill, out[..])
      invariant forall j :: 0 <= j < n ==> out[j] <= all
      invariant !changed ==> Solves(g, gen, kill, out[..])
      decreases Missing(out[..], all), changed
    {
      ghost var was := out[..];
      changed := Pass(g, gen, kill, out, all);
    }
    forall j, d | 0 <= j < n ensures d in out[j] <==> Reaches(g, gen, kill, d, j) {
      if Reaches(g, gen, kill, d, j) {
        var p :| IsWalk(g, p) && p[|p|-1] == j && Carries(gen, kill, d, p);
        SolutionReaches(g, gen, kill, out[..], d, p);
      }
    }
  }

  /** One pass over all blocks. */
  method Pass<D(==,!new)>(g: Flow, gen: seq<set<D>>, kill: seq<set<D>>, out: array<set<D>>, ghost all: set<D>)
    returns (changed: bool)
    requires FlowOk(g) && |gen| == |kill| == out.Length == |g.preds|
    requires forall i :: 0 <= i < |gen| ==> gen[i] <= all
    requires Growing(g, gen, kill, out[..]) && forall j :: 0 <= j < out.Length ==> out[j] <= all
    modifies out
    ensures Growing(g, gen, kill, out[..]) && forall j :: 0 <= j < out.Length ==> out[j] <= all
    ensures !changed ==> Solves(g, gen, kill, out[..]) && out[..] == old(out[..])
    ensures changed ==> Missing(out[..], all) < Missing(old(out[..]), all)
  {
    hide Equation, Reaches, Growing;
    ghost var was := out[..];
    changed := false;
    for i := 0 to |g.preds|
      invariant Growing(g, gen, kill, out[..]) && forall j :: 0 <= j < out.Length ==> out[j] <= all
      invariant forall j :: 0 <= j < out.Length ==> was[j] <= out[j]
      invariant !changed ==> out[..] == was && forall j :: 0 <= j < i ==> out[j] == Equation(g, gen, kill, was, j)
      invariant changed ==> exists j :: 0 <= j < out.Length && was[j] != out[j]
    {
      ghost var now := out[..];
      StepGrowing(g, gen, kill, now, i);
      EquationWithin(g, gen, kill, now, i, all);
      var bbIn := UnionOfPreds(g.preds[i], out[..]);
      var bbOut := gen[i] + (bbIn - kill[i]);
      EquationIs(g, gen, kill, now, i);
      if bbOut != out[i] {
        changed := true;
        out[i] := bbOut;
        assert out[..] == now[i := bbOut];
        assert was[i] != out[i];
      }
    }
    if changed {
      MissingShrinks(was, out[..], all);
    }
  }

  lemma EquationIs<D>(g: Flow, gen: seq<set<D>>, kill: seq<set<D>>, out: seq<set<D>>, i: int)
    requires FlowOk(g) && |gen| == |kill| == |out| == |g.preds| && IsBlock(g, i)
    ensures Equation(g, gen, kill, out, i) == gen[i] + (UnionOfPreds(g.preds[i], out) - kill[i])
  {
  }

  lemma EquationWithin<D>(g: Flow, gen: seq<set<D>>, kill: seq<set<D>>, out: seq<set<D>>, i: int, all: set<D>)
    requires FlowOk(g) && |gen| == |kill| == |out| == |g.preds| && IsBlock(g, i)
    requires gen[i] <= all && forall j :: 0 <= j < |out| ==> out[j] <= all
    ensures Equation(g, gen, kill, out, i) <= all
  {
    forall d | d in UnionOfPreds(g.preds[i], out) ensures d in all {
      InUnion(g.preds[i], out, d);
    }
  }

  lemma MissingShrinks<D>(was: seq<set<D>>, out: seq<set<D>>, all: set<D>)
    requires |was| == |out| && (forall j :: 0 <= j < |out| ==> was[j] <= out[j] <= all)
    requires exists j :: 0 <= j < |out| && was[j] != out[j]
    ensures Missing(out, all) < Missing(was, all)
  {
    var j :| 0 <= j < |out| && was[j] != out[j];
    var d :| d in out[j] && d !in was[j];
    assert (j, d) in Missing(was, all) && (j, d) !in Missing(out, all);
    assert Missing(out, all) <= Missing(was, all);
  }
  /** What reaches is the least solution of the equations. */
  lemma LeastSolution<D(!new)>(g: Flow, gen: seq<set<D>>, kill: seq<set<D>>, out: seq<set<D>>, other: seq<set<D>>)
    requires FlowOk(g) && |gen| == |kill| == |out| == |other| == |g.preds|
    requires forall i, d :: 0 <= i < |out| ==> (d in out[i] <==> Reaches(g, gen, kill, d, i))
    requires Solves(g, gen, kill, other)
    ensures forall i :: 0 <= i < |out| ==> out[i] <= other[i]
  {
    forall i, d | 0 <= i < |out| && d in out[i] ensures d in other[i] {
      var p :| IsWalk(g, p) && p[|p|-1] == i && Carries(gen, kill, d, p);
      SolutionReaches(g, gen, kill, other, d, p);
    }
  }
}
