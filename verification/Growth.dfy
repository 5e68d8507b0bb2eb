/** How a trace grows: which successor is chosen at each of its blocks. */
module Growth {
  import opened Cfg
  import opened Selection

  /** The marks once the blocks of p are in trace id. */
  ghost function Marked(visited: seq<nat>, p: seq<int>, id: nat): (v: seq<nat>)
    ensures |v| == |visited|
  {
    seq(|visited|, b requires 0 <= b < |visited| => if b in p then id else visited[b])
  }

  /** The trace goes on from cur to block next: to the unvisited target of edge best, or, if best skips over a block that
      leads to its target, to such a block. */
  ghost predicate GoesTo(g: Graph, visited: seq<nat>, cur: int, best: int, next: int) {
    && |visited| == |g.blocks| && WellFormed(g) && 0 <= best < |g.edges| && IsBlock(g, g.edges[best].dest)
    && visited[g.edges[best].dest] == 0
    && if exists k :: 0 <= k < |g.edges| && SkipsAhead(g, visited, cur, best, k)
       then exists k :: 0 <= k < |g.edges| && SkipsAhead(g, visited, cur, best, k) && g.edges[k].dest == next
       else next == g.edges[best].dest
  }

  /** The blocks of path have been reached one from the other, by the edges selected at each with the marks of that moment. */
  ghost predicate Grown(g: Graph, visited: seq<nat>, id: nat, r: Round, s: Settings, path: seq<int>, bests: seq<int>) {
    && |bests| <= |path| <= |bests| + 1 && path != []
    && (forall i :: 0 <= i < |bests| ==> Selected(g, Marked(visited, path[..i+1], id), path[i], id, r, s, bests[i]))
    && (forall i :: 0 <= i < |path| - 1 ==> GoesTo(g, Marked(visited, path[..i+1], id), path[i], bests[i], path[i+1]))
  }

  /** The trace is not extended any more: no successor was selected, or one that is in the trace. */
  ghost predicate Closes(g: Graph, visited: seq<nat>, id: nat, best: int) {
    best == -1 || (0 <= best < |g.edges| && 0 <= g.edges[best].dest < |visited| && visited[g.edges[best].dest] == id)
  }

  lemma GrownStart(g: Graph, visited: seq<nat>, id: nat, r: Round, s: Settings, seed: int)
    ensures Grown(g, visited, id, r, s, [seed], []) && visited == Marked(visited, [], id)
  {
  }

  lemma MarkedMore(visited: seq<nat>, path: seq<int>, id: nat)
    requires path != [] && 0 <= path[|path|-1] < |visited|
    ensures Marked(visited, path[..|path|-1], id)[path[|path|-1] := id] == Marked(visited, path, id)
  {
    var n := |path| - 1;
    assert path == path[..n] + [path[n]];
  }

  lemma GrownChoice(g: Graph, visited: seq<nat>, id: nat, r: Round, s: Settings, path: seq<int>, bests: seq<int>, best: int)
    requires Grown(g, visited, id, r, s, path, bests) && |bests| == |path| - 1
    requires Selected(g, Marked(visited, path, id), path[|path|-1], id, r, s, best)
    ensures Grown(g, visited, id, r, s, path, bests + [best])
  {
    hide Selected, GoesTo, Marked;
    assert path[..|path|] == path;
  }

  lemma GrownNext(g: Graph, visited: seq<nat>, id: nat, r: Round, s: Settings, path: seq<int>, bests: seq<int>, next: int)
    requires Grown(g, visited, id, r, s, path, bests) && |bests| == |path|
    requires GoesTo(g, Marked(visited, path, id), path[|path|-1], bests[|path|-1], next)
    ensures Grown(g, visited, id, r, s, path + [next], bests)
  {
    hide Selected, GoesTo, Marked;
    var all := path + [next];
    assert path[..|path|] == path;
    forall i | 0 <= i < |all| - 1
      ensures GoesTo(g, Marked(visited, all[..i+1], id), all[i], bests[i], all[i+1])
      ensures Selected(g, Marked(visited, all[..i+1], id), all[i], id, r, s, bests[i])
    {
      assert all[..i+1] == path[..i+1];
    }
  }
}
