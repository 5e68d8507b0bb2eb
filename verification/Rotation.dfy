/** Loop rotation inside a trace: which loop block becomes the end, and what the links become. */
module Rotation {
  import opened Cfg
  import opened Traces

  /** The best way out of the loop so far: edge number (-1: none), its source block, its weights. */
  datatype Exit = Exit(edge: int, bb: int, freq: int, count: int, preferred: bool)

  /** Edge k can leave trace id by falling through. */
  predicate Leaves(g: Graph, visited: seq<nat>, id: nat, k: int) {
    && 0 <= k < |g.edges| && g.edges[k].dest != EXIT
    && 0 <= g.edges[k].dest < |visited| && visited[g.edges[k].dest] != id
    && g.edges[k].canFallthru && !g.edges[k].complex
  }

  /** The target of edge k is free or starts a trace. */
  predicate Preferred(g: Graph, visited: seq<nat>, startOf: seq<int>, k: int) {
    && 0 <= k < |g.edges| && 0 <= g.edges[k].dest < |visited| == |startOf|
    && (visited[g.edges[k].dest] == 0 || startOf[g.edges[k].dest] >= 0)
  }

  function Consider(g: Graph, visited: seq<nat>, startOf: seq<int>, id: nat, bb: int, k: nat, best: Exit): Exit
    requires k < |g.edges|
  {
    var e := g.edges[k];
    var candidate := Exit(k, bb, EdgeFrequency(g, e), e.count, Preferred(g, visited, startOf, k));
    if e.src != bb || !Leaves(g, visited, id, k) then best
    else if best.preferred then
      if candidate.preferred && (candidate.freq > best.freq || candidate.count > best.count)
      then candidate else best
    else if candidate.preferred || best.edge == -1 || candidate.freq > best.freq || candidate.count > best.count
    then candidate else best
  }

  ghost predicate ExitOk(g: Graph, visited: seq<nat>, startOf: seq<int>, id: nat, c: seq<int>, best: Exit) {
    && -1 <= best.edge
    && (best.edge >= 0 ==> best.edge < |g.edges| && Leaves(g, visited, id, best.edge) && g.edges[best.edge].src == best.bb
                           && best.bb in c && best.preferred == Preferred(g, visited, startOf, best.edge)
                           && best.freq == EdgeFrequency(g, g.edges[best.edge]) && best.count == g.edges[best.edge].count)
    && (best.edge == -1 ==> !best.preferred)
  }

  /** best beats every edge with number below k that leaves the trace from bb. */
  ghost predicate Dominates(g: Graph, visited: seq<nat>, startOf: seq<int>, id: nat, bb: int, k: nat, best: Exit)
    requires k <= |g.edges|
  {
    forall j :: 0 <= j < k && g.edges[j].src == bb && Leaves(g, visited, id, j) ==>
      best.edge >= 0 && (Preferred(g, visited, startOf, j) ==> best.preferred)
  }

  /** Of the edges scanned up to number k of the block at position i, none that comes after best, found at position m,
      and is as preferred, is more frequent or has a higher count. */
  ghost predicate Unbeaten(g: Graph, visited: seq<nat>, startOf: seq<int>, id: nat, c: seq<int>, best: Exit, m: int,
                           i: int, k: int)
  {
    forall x, j :: 0 <= x < |c| && 0 <= j < |g.edges| && (x < i || (x == i && j < k)) && (x > m || (x == m && j > best.edge)) &&
                   g.edges[j].src == c[x] && Leaves(g, visited, id, j) && Preferred(g, visited, startOf, j) == best.preferred ==>
                     EdgeFrequency(g, g.edges[j]) <= best.freq && g.edges[j].count <= best.count
  }

  /** best is an edge of loop c that no later one beats. */
  ghost predicate LastBest(g: Graph, visited: seq<nat>, startOf: seq<int>, id: nat, c: seq<int>, best: Exit) {
    exists m :: 0 <= m < |c| && c[m] == best.bb && Unbeaten(g, visited, startOf, id, c, best, m, |c|, 0)
  }

  lemma StillUnbeaten(g: Graph, visited: seq<nat>, startOf: seq<int>, id: nat, c: seq<int>, best: Exit, m: int, i: int,
                      k: nat)
    requires 0 <= i < |c| && k < |g.edges| && (best.edge >= 0 ==> m <= i && (m == i ==> best.edge < k))
    requires best.edge >= 0 ==> Unbeaten(g, visited, startOf, id, c, best, m, i, k)
    requires best.edge < 0 ==> !best.preferred
    ensures var b := Consider(g, visited, startOf, id, c[i], k, best);
            b.edge >= 0 ==> Unbeaten(g, visited, startOf, id, c, b, if b == best then m else i, i, k + 1)
  {
    hide Leaves, Preferred;
  }

  lemma NextUnbeaten(g: Graph, visited: seq<nat>, startOf: seq<int>, id: nat, c: seq<int>, best: Exit, m: int, i: int)
    ensures Unbeaten(g, visited, startOf, id, c, best, m, i, |g.edges|) ==>
            Unbeaten(g, visited, startOf, id, c, best, m, i + 1, 0)
  {
    hide Leaves, Preferred;
  }

  /** Edge j leaves loop c. */
  ghost predicate IsExit(g: Graph, visited: seq<nat>, id: nat, c: seq<int>, j: int) {
    0 <= j < |g.edges| && Leaves(g, visited, id, j) && g.edges[j].src in c
  }

  /** Exit j is at most as frequent as exit k and has no higher count. */
  predicate Below(g: Graph, j: int, k: int)
    requires 0 <= j < |g.edges| && 0 <= k < |g.edges|
  {
    EdgeFrequency(g, g.edges[j]) <= EdgeFrequency(g, g.edges[k]) && g.edges[j].count <= g.edges[k].count
  }

  /** No exit as preferred as j is more frequent than j or has a higher count. */
  ghost predicate Greatest(g: Graph, visited: seq<nat>, startOf: seq<int>, id: nat, c: seq<int>, j: int) {
    IsExit(g, visited, id, c, j) &&
    forall k :: IsExit(g, visited, id, c, k) && Preferred(g, visited, startOf, k) == Preferred(g, visited, startOf, j) ==>
                  Below(g, k, j)
  }

  /** Frequency and count order the exits of the loop alike. */
  ghost predicate Alike(g: Graph, visited: seq<nat>, id: nat, c: seq<int>) {
    forall j, k :: IsExit(g, visited, id, c, j) && IsExit(g, visited, id, c, k) ==> Below(g, j, k) || Below(g, k, j)
  }

  /** Of the exits scanned so far that are as preferred as best, none is above best; unless all, this is said of the
      greatest ones only. */
  ghost predicate Bounded(g: Graph, visited: seq<nat>, startOf: seq<int>, id: nat, c: seq<int>, best: Exit, i: int, k: int,
                          all: bool)
  {
    forall x, j :: 0 <= x < |c| && 0 <= j < |g.edges| && (x < i || (x == i && j < k)) && g.edges[j].src == c[x] &&
                   Leaves(g, visited, id, j) && Preferred(g, visited, startOf, j) == best.preferred &&
                   (all || Greatest(g, visited, startOf, id, c, j)) ==>
                     EdgeFrequency(g, g.edges[j]) <= best.freq && g.edges[j].count <= best.count
  }

  lemma StillBounded(g: Graph, visited: seq<nat>, startOf: seq<int>, id: nat, c: seq<int>, best: Exit, i: int, k: nat)
    requires 0 <= i < |c| && k < |g.edges| && ExitOk(g, visited, startOf, id, c, best)
    requires best.edge >= 0 ==> Bounded(g, visited, startOf, id, c, best, i, k, Alike(g, visited, id, c))
    requires forall j :: 0 <= j < i ==> Dominates(g, visited, startOf, id, c[j], |g.edges|, best)
    requires Dominates(g, visited, startOf, id, c[i], k, best)
    ensures var b := Consider(g, visited, startOf, id, c[i], k, best);
            b.edge >= 0 ==> Bounded(g, visited, startOf, id, c, b, i, k + 1, Alike(g, visited, id, c))
  {
    hide Leaves, Preferred, EdgeFrequency;
    var b := Consider(g, visited, startOf, id, c[i], k, best);
    var all := Alike(g, visited, id, c);
    if b != best {
      assert b.edge == k && IsExit(g, visited, id, c, k);
      forall x, j | 0 <= x < |c| && 0 <= j < |g.edges| && (x < i || (x == i && j < k + 1)) && g.edges[j].src == c[x] &&
                    Leaves(g, visited, id, j) && Preferred(g, visited, startOf, j) == b.preferred &&
                    (all || Greatest(g, visited, startOf, id, c, j))
        ensures EdgeFrequency(g, g.edges[j]) <= b.freq && g.edges[j].count <= b.count
      {
        if x < i {
          assert Dominates(g, visited, startOf, id, c[x], |g.edges|, best);
        }
        if j != k && b.preferred == best.preferred {
          assert IsExit(g, visited, id, c, best.edge) && IsExit(g, visited, id, c, j);
          assert all ==> Below(g, k, best.edge) || Below(g, best.edge, k);
        }
      }
    }
  }

  lemma NextBounded(g: Graph, visited: seq<nat>, startOf: seq<int>, id: nat, c: seq<int>, best: Exit, i: int, all: bool)
    requires Bounded(g, visited, startOf, id, c, best, i, |g.edges|, all)
    ensures Bounded(g, visited, startOf, id, c, best, i + 1, 0, all)
  {
    hide Leaves, Preferred, EdgeFrequency, Greatest;
  }

  /** The chosen exit is greatest if and only if some exit is, and always if both orders agree. */
  ghost predicate GreatestIfAny(g: Graph, visited: seq<nat>, startOf: seq<int>, id: nat, c: seq<int>, best: Exit) {
    && (Greatest(g, visited, startOf, id, c, best.edge) <==>
        exists j :: Greatest(g, visited, startOf, id, c, j) && Preferred(g, visited, startOf, j) == best.preferred)
    && (Alike(g, visited, id, c) ==> Greatest(g, visited, startOf, id, c, best.edge))
  }

  lemma BoundedGreatest(g: Graph, visited: seq<nat>, startOf: seq<int>, id: nat, c: seq<int>, best: Exit)
    requires ExitOk(g, visited, startOf, id, c, best) && best.edge >= 0
    requires Bounded(g, visited, startOf, id, c, best, |c|, 0, Alike(g, visited, id, c))
    ensures GreatestIfAny(g, visited, startOf, id, c, best)
  {
    hide Leaves, Preferred, EdgeFrequency;
    var all := Alike(g, visited, id, c);
    assert IsExit(g, visited, id, c, best.edge);
    forall j | IsExit(g, visited, id, c, j) && Preferred(g, visited, startOf, j) == best.preferred &&
               (all || Greatest(g, visited, startOf, id, c, j))
      ensures Below(g, j, best.edge)
    {
      var x :| 0 <= x < |c| && c[x] == g.edges[j].src;
    }
    if j :| Greatest(g, visited, startOf, id, c, j) && Preferred(g, visited, startOf, j) == best.preferred {
      assert Below(g, j, best.edge);
      forall k | IsExit(g, visited, id, c, k) && Preferred(g, visited, startOf, k) == best.preferred
        ensures Below(g, k, best.edge)
      {
        assert Below(g, k, j);
      }
    }
  }

  /** Otherwise the choice depends on the order: of an exit of frequency 10 and count 0 and one of frequency 5 and
      count 1, the one scanned later is chosen. */
  lemma ChoiceDependsOnOrder(block: Block)
    ensures var b := block.(frequency := 10000);
            var often := Edge(0, 1, true, false, false, false, 10, 0);
            var counted := Edge(0, 2, true, false, false, false, 5, 1);
            var none := Exit(-1, NIL, -1, -1, false);
            var g := Graph([b, b, b], [often, counted], 0);
            var h := Graph([b, b, b], [counted, often], 0);
            && EdgeFrequency(g, often) == 10 && EdgeFrequency(g, counted) == 5
            && g.edges[Consider(g, [1, 0, 0], [-1, -1, -1], 1, 0, 1,
                                Consider(g, [1, 0, 0], [-1, -1, -1], 1, 0, 0, none)).edge] == counted
            && h.edges[Consider(h, [1, 0, 0], [-1, -1, -1], 1, 0, 1,
                                Consider(h, [1, 0, 0], [-1, -1, -1], 1, 0, 0, none)).edge] == often
  {
  }

  /** Choose the block of loop c (linked through aux into a cycle) that should end the trace. */
  method ChooseLoopEnd(g: Graph, aux: seq<int>, visited: seq<nat>, startOf: seq<int>, header: int, id: nat,
                       ghost c: seq<int>)
    returns (best: Exit)
    requires |aux| == |visited| == |startOf| == |g.blocks| && WellFormed(g)
    requires |c| > 0 && c[0] == header && Linked(aux, c) && Distinct(c) && aux[c[|c|-1]] == header
    ensures ExitOk(g, visited, startOf, id, c, best)
    ensures forall i :: 0 <= i < |c| ==> Dominates(g, visited, startOf, id, c[i], |g.edges|, best)
    ensures best.edge >= 0 ==> LastBest(g, visited, startOf, id, c, best)
    ensures best.edge >= 0 ==> GreatestIfAny(g, visited, startOf, id, c, best)
  {
    hide Unbeaten, Bounded, GreatestIfAny, Alike;
    best := Exit(-1, NIL, -1, -1, false);
    var bb := header;
    ghost var i, m := 0, 0;
    while true
      invariant 0 <= i < |c| && bb == c[i]
      invariant ExitOk(g, visited, startOf, id, c, best)
      invariant forall j :: 0 <= j < i ==> Dominates(g, visited, startOf, id, c[j], |g.edges|, best)
      invariant best.edge >= 0 ==> 0 <= m < i && c[m] == best.bb && Unbeaten(g, visited, startOf, id, c, best, m, i, 0)
      invariant best.edge >= 0 ==> Bounded(g, visited, startOf, id, c, best, i, 0, Alike(g, visited, id, c))
      decreases |c| - i
    {
      for k := 0 to |g.edges|
        invariant ExitOk(g, visited, startOf, id, c, best)
        invariant forall j :: 0 <= j < i ==> Dominates(g, visited, startOf, id, c[j], |g.edges|, best)
        invariant Dominates(g, visited, startOf, id, bb, k, best)
        invariant best.edge >= 0 ==> 0 <= m <= i && c[m] == best.bb && (m == i ==> best.edge < k) &&
                                     Unbeaten(g, visited, startOf, id, c, best, m, i, k)
        invariant best.edge >= 0 ==> Bounded(g, visited, startOf, id, c, best, i, k, Alike(g, visited, id, c))
      {
        StillUnbeaten(g, visited, startOf, id, c, best, m, i, k);
        StillBounded(g, visited, startOf, id, c, best, i, k);
        ghost var was := best;
        best := Consider(g, visited, startOf, id, bb, k, best);
        m := if best == was then m else i;
      }
      NextUnbeaten(g, visited, startOf, id, c, best, m, i);
      if best.edge >= 0 {
        NextBounded(g, visited, startOf, id, c, best, i, Alike(g, visited, id, c));
      }
      bb := aux[bb];
      i := i + 1;
      if bb == header {
        assert i == |c|;
        break;
      }
    }
    if best.edge >= 0 {
      BoundedGreatest(g, visited, startOf, id, c, best);
    }
  }

  /** The trace path with its final loop (from position h) shifted so that it ends at position j. */
  function Rotated(path: seq<int>, h: nat, j: nat): seq<int>
    requires h <= j < |path|
  {
    path[..h] + path[j+1..] + path[h..j+1]
  }

  /** Where the block at position x of the rotated path was before. */
  function Unrotate(h: nat, j: nat, n: nat, x: nat): (y: nat)
    requires h <= j < n && x < n
    ensures y < n
  {
    if x < h then x
    else if x < h + (n - j - 1) then j + 1 + (x - h)
    else h + (x - h - (n - j - 1))
  }

  lemma RotatedAt(path: seq<int>, h: nat, j: nat, x: nat)
    requires h <= j < |path| && x < |path|
    ensures |Rotated(path, h, j)| == |path|
    ensures Rotated(path, h, j)[x] == path[Unrotate(h, j, |path|, x)]
  {
  }

  /** Rotation keeps the prefix, permutes the rest and ends at path[j]. */
  lemma RotatedSpec(path: seq<int>, h: nat, j: nat)
    requires h <= j < |path|
    ensures var r := Rotated(path, h, j);
      && |r| == |path| && r[..h] == path[..h] && r[|r|-1] == path[j]
      && multiset(r) == multiset(path)
  {
    assert path == path[..h] + (path[h..j+1] + path[j+1..]);
  }

  lemma RotatedDistinct(path: seq<int>, h: nat, j: nat)
    requires h <= j < |path| && Distinct(path)
    ensures Distinct(Rotated(path, h, j))
  {
    var r := Rotated(path, h, j);
    forall x, y | 0 <= x < y < |r| ensures r[x] != r[y] {
      RotatedAt(path, h, j, x);
      RotatedAt(path, h, j, y);
    }
  }

  lemma RotatedElements(path: seq<int>, h: nat, j: nat, b: int)
    requires h <= j < |path|
    ensures b in Rotated(path, h, j) <==> b in path
  {
    RotatedSpec(path, h, j);
    assert b in Rotated(path, h, j) <==> b in multiset(Rotated(path, h, j));
    assert b in path <==> b in multiset(path);
  }

  lemma Inside(aux: seq<int>, path: seq<int>)
    requires Linked(aux, path)
    ensures forall i :: 0 <= i < |path| ==> 0 <= path[i] < |aux|
  {
  }

  /** The links after rotation: path is linked and its last block points back at path[h]; the block
      before the loop is redirected past path[j], where the trace is cut. */
  lemma RotatedLinked(aux: seq<int>, path: seq<int>, h: nat, j: nat)
    requires h <= j < |path| && h < |path| - 1
    requires Linked(aux, path) && Distinct(path) && aux[path[|path|-1]] == path[h]
    ensures var r := Rotated(path, h, j);
      var a1 := if h == 0 then aux else aux[path[h-1] := aux[path[j]]];
      Linked(a1[path[j] := NIL], r) && r[0] == (if h == 0 then aux[path[j]] else path[0])
  {
    hide Linked, Distinct;
    Inside(aux, path);
    var pre, back, front := path[..h], path[j+1..], path[h..j+1];
    var a1 := if h == 0 then aux else aux[path[h-1] := aux[path[j]]];
    var a2 := a1[path[j] := NIL];
    LoopRelinked(aux, path, h, j, a2);
    LoopJoints(aux, path, h, j, a2);
    var loop := back + front;
    if |back| > 0 {
      LinkedConcat(a2, back, front);
    } else {
      assert loop == front;
    }
    assert loop[0] == aux[path[j]];
    if h > 0 {
      LinkedConcat(a2, pre, loop);
      assert Rotated(path, h, j) == pre + loop;
    } else {
      assert Rotated(path, h, j) == loop;
    }
  }

  /** The links at the joints of the rotated path. */
  lemma LoopJoints(aux: seq<int>, path: seq<int>, h: nat, j: nat, a2: seq<int>)
    requires h <= j < |path| && h < |path| - 1
    requires Linked(aux, path) && Distinct(path) && aux[path[|path|-1]] == path[h]
    requires a2 == (if h == 0 then aux else aux[path[h-1] := aux[path[j]]])[path[j] := NIL]
    ensures aux[path[j]] == if j + 1 < |path| then path[j+1] else path[h]
    ensures h > 0 ==> a2[path[h-1]] == aux[path[j]]
    ensures j + 1 < |path| ==> a2[path[|path|-1]] == path[h]
  {
  }

  lemma LoopRelinked(aux: seq<int>, path: seq<int>, h: nat, j: nat, a2: seq<int>)
    requires h <= j < |path| && h < |path| - 1
    requires Linked(aux, path) && Distinct(path)
    requires a2 == (if h == 0 then aux else aux[path[h-1] := aux[path[j]]])[path[j] := NIL]
    ensures Linked(a2, path[..h]) && Linked(a2, path[j+1..]) && Linked(a2, path[h..j+1])
  {
    LinkedSlice(aux, path, 0, h);
    LinkedSlice(aux, path, j + 1, |path|);
    LinkedSlice(aux, path, h, j + 1);
    var a1 := if h == 0 then aux else aux[path[h-1] := aux[path[j]]];
    if h > 0 {
      LinkedUpdate(aux, path[..h], path[h-1], aux[path[j]]);
      LinkedUpdate(aux, path[j+1..], path[h-1], aux[path[j]]);
      LinkedUpdate(aux, path[h..j+1], path[h-1], aux[path[j]]);
    }
    LinkedUpdate(a1, path[..h], path[j], NIL);
    LinkedUpdate(a1, path[j+1..], path[j], NIL);
    LinkedUpdate(a1, path[h..j+1], path[j], NIL);
  }
}
