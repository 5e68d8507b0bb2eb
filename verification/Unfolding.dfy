/** Copying blocks changes no run of the function: the copies go where their originals go. */
module Unfolding {
  import opened Cfg

  /** The original of a block: itself, or what it was copied from; ENTRY and EXIT stand for themselves. */
  function Original(f: seq<int>, b: int): int {
    if 0 <= b < |f| then f[b] else b
  }

  /** f takes every block of g to its original in g0.  Every edge of g comes from an edge of g0 between the originals,
      and wherever an edge leads from the original, one leads from every copy. */
  ghost predicate FoldOk(g0: Graph, g: Graph, f: seq<int>) {
    && |f| == |g.blocks| >= |g0.blocks|
    && (forall b :: 0 <= b < |g0.blocks| ==> f[b] == b)
    && (forall b :: 0 <= b < |f| ==> IsBlock(g0, f[b]) && g.blocks[b].partition == g0.blocks[f[b]].partition)
    && (forall k :: 0 <= k < |g.edges| ==> EdgeFolds(g0, g, f, k))
    && (forall b, i :: b < |g.blocks| && 0 <= i < |g0.edges| && g0.edges[i].src == Original(f, b) ==>
          EdgeUnfolds(g0, g, f, b, i))
  }

  ghost predicate EdgeFolds(g0: Graph, g: Graph, f: seq<int>, k: nat)
    requires k < |g.edges|
  {
    && g.edges[k].src < |f| && g.edges[k].dest < |f|
    && exists i :: 0 <= i < |g0.edges| && g0.edges[i].src == Original(f, g.edges[k].src)
                   && g0.edges[i].dest == Original(f, g.edges[k].dest)
  }

  ghost predicate EdgeUnfolds(g0: Graph, g: Graph, f: seq<int>, b: int, i: nat)
    requires i < |g0.edges|
  {
    exists k :: 0 <= k < |g.edges| && g.edges[k].src == b && Original(f, g.edges[k].dest) == g0.edges[i].dest
  }

  /** g is g0 with some blocks copied. */
  ghost predicate Unfolds(g0: Graph, g: Graph) {
    exists f: seq<int> :: FoldOk(g0, g, f)
  }

  lemma UnfoldsSelf(g: Graph)
    requires WellFormed(g)
    ensures Unfolds(g, g)
  {
    var f := seq(|g.blocks|, b => b);
    assert forall b :: Original(f, b) == b;
    assert FoldOk(g, g, f);
  }

  /** The edges of a graph after one more copy: those that were there. */
  lemma FoldKept(g0: Graph, g: Graph, h: Graph, f: seq<int>, orig: int, e: nat, k: nat)
    requires FoldOk(g0, g, f) && e < |g.edges| && k < |g.edges| <= |h.edges| && SameEdge(g, h, e, k)
    requires IsBlock(g, orig) && g.edges[e].dest == orig
    ensures EdgeFolds(g0, h, f + [f[orig]], k)
  {
    assert EdgeFolds(g0, g, f, k);
  }

  /** And those of the copy. */
  lemma FoldCopied(g0: Graph, g: Graph, h: Graph, f: seq<int>, orig: int, k: nat, j: nat)
    requires FoldOk(g0, g, f) && IsBlock(g, orig) && k < |h.edges| && j < |g.edges|
    requires h.edges[k].src == |g.blocks| && g.edges[j].src == orig && h.edges[k].dest == g.edges[j].dest
    ensures EdgeFolds(g0, h, f + [f[orig]], k)
  {
    assert EdgeFolds(g0, g, f, j);
  }

  lemma FoldEdge(g0: Graph, g: Graph, h: Graph, f: seq<int>, orig: int, e: nat, k: nat)
    requires FoldOk(g0, g, f) && Duplicated(g, h, orig, e) && g.edges[e].dest == orig && k < |h.edges|
    ensures EdgeFolds(g0, h, f + [f[orig]], k)
  {
    DuplicatedSections(g, h, orig, e);
    hide Duplicated, EdgeFolds, EdgeUnfolds;
    if k < |g.edges| {
      KeptEdge(g, h, orig, e, k);
      FoldKept(g0, g, h, f, orig, e, k);
    } else {
      var j := CopiedFrom(g, h, orig, e, k);
      FoldCopied(g0, g, h, f, orig, k, j);
    }
  }

  /** Where the original of a block leads, the block leads after one more copy. */
  lemma UnfoldEdge(g0: Graph, g: Graph, h: Graph, f: seq<int>, orig: int, e: nat, b: int, i: nat)
    requires FoldOk(g0, g, f) && Duplicated(g, h, orig, e) && g.edges[e].dest == orig
    requires b < |h.blocks| && i < |g0.edges| && g0.edges[i].src == Original(f + [f[orig]], b)
    ensures EdgeUnfolds(g0, h, f + [f[orig]], b, i)
  {
    var f' := f + [f[orig]];
    var b0 := if b == |f| then orig else b;
    assert forall x :: x < |f| ==> Original(f', x) == Original(f, x);
    assert EdgeUnfolds(g0, g, f, b0, i);
    var k :| 0 <= k < |g.edges| && g.edges[k].src == b0 && Original(f, g.edges[k].dest) == g0.edges[i].dest;
    assert EdgeFolds(g0, g, f, k);
    if b == |f| {
      var j :| |g.edges| <= j < |h.edges| && h.edges[j].dest == g.edges[k].dest;
      var from := CopiedFrom(g, h, orig, e, j);
      assert h.edges[j].src == b && Original(f', h.edges[j].dest) == g0.edges[i].dest;
    } else {
      assert SameEdge(g, h, e, k);
      assert h.edges[k].src == b && Original(f', h.edges[k].dest) == g0.edges[i].dest;
    }
  }

  lemma UnfoldsCopy(g0: Graph, g: Graph, h: Graph, orig: int, e: nat)
    requires Unfolds(g0, g) && Duplicated(g, h, orig, e) && g.edges[e].dest == orig
    ensures Unfolds(g0, h)
  {
    var f: seq<int> :| FoldOk(g0, g, f);
    DuplicatedSections(g, h, orig, e);
    hide Duplicated, EdgeFolds, EdgeUnfolds;
    forall k | 0 <= k < |h.edges| ensures EdgeFolds(g0, h, f + [f[orig]], k) {
      FoldEdge(g0, g, h, f, orig, e, k);
    }
    forall b, i | b < |h.blocks| && 0 <= i < |g0.edges| && g0.edges[i].src == Original(f + [f[orig]], b)
      ensures EdgeUnfolds(g0, h, f + [f[orig]], b, i)
    {
      UnfoldEdge(g0, g, h, f, orig, e, b, i);
    }
    assert FoldOk(g0, h, f + [f[orig]]);
  }

  /** The run of originals behind a run. */
  function Originals(f: seq<int>, p: seq<int>): (r: seq<int>)
    ensures |r| == |p| && forall i :: 0 <= i < |p| ==> r[i] == Original(f, p[i])
  {
    seq(|p|, i requires 0 <= i < |p| => Original(f, p[i]))
  }

  /** Every run of the function after copying is, original for original, a run of the function before. */
  lemma WalkFolds(g0: Graph, g: Graph, f: seq<int>, p: seq<int>)
    requires FoldOk(g0, g, f) && IsWalk(g, p)
    ensures IsWalk(g0, Originals(f, p))
  {
    var q := Originals(f, p);
    EdgeDown(g0, g, f, ENTRY, p[0]);
    forall i | 0 < i < |q| ensures HasEdge(g0, q[i-1], q[i]) {
      EdgeDown(g0, g, f, p[i-1], p[i]);
    }
  }

  lemma EdgeDown(g0: Graph, g: Graph, f: seq<int>, a: int, b: int)
    requires FoldOk(g0, g, f) && HasEdge(g, a, b)
    ensures HasEdge(g0, Original(f, a), Original(f, b)) && b < |f|
  {
    var k :| 0 <= k < |g.edges| && g.edges[k].src == a && g.edges[k].dest == b;
    assert EdgeFolds(g0, g, f, k);
  }

  lemma EdgeUp(g0: Graph, g: Graph, f: seq<int>, a: int, b0: int) returns (b: int)
    requires FoldOk(g0, g, f) && a < |f| && HasEdge(g0, Original(f, a), b0)
    ensures HasEdge(g, a, b) && Original(f, b) == b0 && b < |f|
  {
    var i :| 0 <= i < |g0.edges| && g0.edges[i].src == Original(f, a) && g0.edges[i].dest == b0;
    assert EdgeUnfolds(g0, g, f, a, i);
    var k :| 0 <= k < |g.edges| && g.edges[k].src == a && Original(f, g.edges[k].dest) == b0;
    assert EdgeFolds(g0, g, f, k);
    b := g.edges[k].dest;
  }

  /** Every run of the function before copying is still there. */
  lemma {:induction false} WalkUnfolds(g0: Graph, g: Graph, f: seq<int>, q: seq<int>) returns (p: seq<int>)
    requires FoldOk(g0, g, f) && IsWalk(g0, q)
    ensures IsWalk(g, p) && Originals(f, p) == q && p[|p|-1] < |f|
    decreases |q|
  {
    hide FoldOk;
    var n := |q| - 1;
    if n == 0 {
      var b := EdgeUp(g0, g, f, ENTRY, q[0]);
      p := [b];
    } else {
      p := WalkUnfolds(g0, g, f, q[..n]);
      assert Originals(f, p)[n-1] == q[..n][n-1];
      assert HasEdge(g0, q[n-1], q[n]);
      var b := EdgeUp(g0, g, f, p[n-1], q[n]);
      p := p + [b];
    }
  }

  /** g and g0 have the same runs, original for original. */
  ghost predicate RunsAgree(g0: Graph, g: Graph, f: seq<int>) {
    && (forall b :: IsBlock(g0, b) ==> Original(f, b) == b)
    && (forall p :: IsWalk(g, p) ==> IsWalk(g0, Originals(f, p)))
    && (forall q :: IsWalk(g0, q) ==> exists p :: IsWalk(g, p) && Originals(f, p) == q)
  }

  /** Copying changes no run. */
  lemma SameRuns(g0: Graph, g: Graph)
    requires Unfolds(g0, g)
    ensures exists f: seq<int> :: RunsAgree(g0, g, f)
  {
    var f: seq<int> :| FoldOk(g0, g, f);
    assert forall b :: IsBlock(g0, b) ==> Original(f, b) == b;
    hide FoldOk, IsWalk;
    forall p | IsWalk(g, p) ensures IsWalk(g0, Originals(f, p)) {
      WalkFolds(g0, g, f, p);
    }
    forall q | IsWalk(g0, q) ensures exists p :: IsWalk(g, p) && Originals(f, p) == q {
      var p := WalkUnfolds(g0, g, f, q);
    }
    assert RunsAgree(g0, g, f);
  }
}
