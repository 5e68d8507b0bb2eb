/** Dominance over a function whose blocks are all reachable. */
module Dominators {
  import opened BtrFlow
  import opened LiveRanges

  ghost predicate AllReachable(g: Flow) {
    forall b :: IsBlock(g, b) ==> exists p: seq<int> :: EntryWalk(g, p) && p[|p|-1] == b
  }

  /** Two blocks that dominate each other would need ever shorter walks from the entry. */
  lemma {:induction false} NoMutual(g: Flow, a: int, b: int, p: seq<int>)
    requires Dominates(g, a, b) && Dominates(g, b, a) && EntryWalk(g, p) && p[|p|-1] == a
    ensures a == b
    decreases |p|
  {
    hide IsWalk, Dominates;
    if a != b {
      OnPrefix(g, b, a, p, |p| - 1);
      var k :| 0 <= k < |p| && p[k] == b;
      OnPrefix(g, a, b, p, k);
      var i :| 0 <= i <= k && p[i] == a;
      Prefix(g, p, i);
      assert p[..i+1][i] == a;
      NoMutual(g, a, b, p[..i+1]);
    }
  }

  lemma Antisymmetric(g: Flow, a: int, b: int)
    requires AllReachable(g) && Dominates(g, a, b) && Dominates(g, b, a)
    ensures a == b
  {
    hide IsWalk;
    DominatesBlock(g, a, b);
    var p: seq<int> :| EntryWalk(g, p) && p[|p|-1] == a;
    NoMutual(g, a, b, p);
  }

  /** A block has more dominators than another block that dominates it. */
  lemma FewerDominators(g: Flow, doms: seq<set<int>>, a: int, b: int)
    requires AllReachable(g) && DomsOk(g, doms) && IsBlock(g, b) && a in doms[b] && a != b
    ensures IsBlock(g, a) && |doms[a]| < |doms[b]|
  {
    hide AllReachable, Dominates;
    DominatesBlock(g, a, b);
    forall c | c in doms[a] ensures c in doms[b] {
      DominatesTrans(g, c, a, b);
    }
    DominatesSelf(g, b);
    if b in doms[a] {
      Antisymmetric(g, a, b);
    }
    Smaller(doms[a], doms[b]);
  }

  lemma Smaller<T>(s: set<T>, t: set<T>)
    requires s < t
    ensures |s| < |t|
  {
    assert t == s + (t - s);
  }
}
