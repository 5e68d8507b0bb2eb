/** Traces as the pass stores them (first and last block, linked through aux) and the
    invariants that relate them to the visited marks, the heaps and the flow graph. */
module Traces {
  import opened Cfg
  import opened Unfolding

  datatype Trace = Trace(first: int, last: int, round: nat, length: nat)

  datatype HeapRef = NoHeap | InHeap(id: nat)

  // ---------- sequences of blocks linked through aux ----------

  ghost predicate Linked(aux: seq<int>, c: seq<int>) {
    && (forall i :: 0 <= i < |c| ==> 0 <= c[i] < |aux|)
    && (forall i {:trigger aux[c[i]]} :: 0 <= i < |c| - 1 ==> aux[c[i]] == c[i+1])
  }

  ghost predicate Distinct(c: seq<int>) {
    forall i, j :: 0 <= i < j < |c| ==> c[i] != c[j]
  }

  lemma LinkedConcat(aux: seq<int>, a: seq<int>, b: seq<int>)
    requires Linked(aux, a) && Linked(aux, b) && |a| > 0 && |b| > 0
    requires aux[a[|a|-1]] == b[0]
    ensures Linked(aux, a + b)
  {
    var c := a + b;
    forall i {:trigger aux[c[i]]} | 0 <= i < |c| - 1
      ensures aux[c[i]] == c[i+1]
    {
      if i < |a| - 1 {
        assert c[i] == a[i] && c[i+1] == a[i+1];
      } else if i == |a| - 1 {
        assert c[i] == a[|a|-1] && c[i+1] == b[0];
      } else {
        assert c[i] == b[i-|a|] && c[i+1] == b[i-|a|+1];
      }
    }
  }

  lemma LinkedSlice(aux: seq<int>, c: seq<int>, lo: nat, hi: nat)
    requires Linked(aux, c) && lo <= hi <= |c|
    ensures Linked(aux, c[lo..hi])
  {
    var s := c[lo..hi];
    forall i {:trigger aux[s[i]]} | 0 <= i < |s| - 1
      ensures aux[s[i]] == s[i+1]
    {
      assert s[i] == c[lo+i] && s[i+1] == c[lo+i+1];
    }
  }

  /** Changing the link of a block that is not followed by another one in c leaves c linked. */
  lemma LinkedUpdate(aux: seq<int>, c: seq<int>, x: int, v: int)
    requires Linked(aux, c) && 0 <= x < |aux|
    requires forall i :: 0 <= i < |c| - 1 ==> c[i] != x
    ensures Linked(aux[x := v], c)
  {
  }

  lemma LinkedGrow(aux: seq<int>, c: seq<int>, v: int)
    requires Linked(aux, c)
    ensures Linked(aux + [v], c)
  {
  }

  // ---------- finished traces ----------

  /** c is the finished trace number id: linked, ended by NIL, all its blocks visited in it,
      and all in one section. */
  ghost predicate ChainOk(g: Graph, aux: seq<int>, visited: seq<nat>, c: seq<int>, id: nat)
    requires |aux| == |visited| == |g.blocks|
  {
    && |c| > 0 && Linked(aux, c) && Distinct(c)
    && aux[c[|c|-1]] == NIL
    && (forall i :: 0 <= i < |c| ==> visited[c[i]] == id)
    && (forall i :: 0 <= i < |c| ==> g.blocks[c[i]].partition == g.blocks[c[0]].partition)
  }

  /** The finished chains: every one is in order, a block visited in trace k+1 lies in chains[k],
      and unvisited blocks have no link. */
  ghost predicate ChainsOk(g: Graph, aux: seq<int>, visited: seq<nat>, chains: seq<seq<int>>)
    requires |aux| == |visited| == |g.blocks|
  {
    && (forall k :: 0 <= k < |chains| ==> ChainOk(g, aux, visited, chains[k], k + 1))
    && (forall b :: 0 <= b < |visited| && 0 < visited[b] <= |chains| ==> b in chains[visited[b]-1])
    && (forall b :: 0 <= b < |visited| && visited[b] == 0 ==> aux[b] == NIL)
  }

  /** Insert block dup (the next free number) after position h-1 of chain c. */
  lemma ChainInsert(g: Graph, aux: seq<int>, visited: seq<nat>, c: seq<int>, id: nat, h: nat, g': Graph)
    requires |aux| == |visited| == |g.blocks| && |g'.blocks| == |g.blocks| + 1
    requires ChainOk(g, aux, visited, c, id) && 0 < h <= |c|
    requires forall b :: 0 <= b < |aux| ==> g'.blocks[b].partition == g.blocks[b].partition
    requires g'.blocks[|aux|].partition == g.blocks[c[0]].partition
    ensures ChainOk(g', (aux + [aux[c[h-1]]])[c[h-1] := |aux|], visited + [id],
                    c[..h] + [|aux|] + c[h..], id)
  {
    var dup, prev := |aux|, c[h-1];
    var grown := aux + [aux[prev]];
    var a' := grown[prev := dup];
    LinkedSlice(aux, c, 0, h);
    LinkedSlice(aux, c, h, |c|);
    LinkedUpdate(grown, c[..h], prev, dup);
    LinkedUpdate(grown, c[h..], prev, dup);
    LinkedConcat(a', c[..h], [dup]);
    assert h < |c| ==> aux[prev] == c[h];
    hide Linked;
    if h < |c| {
      LinkedConcat(a', c[..h] + [dup], c[h..]);
    } else {
      assert c[..h] + [dup] + c[h..] == c[..h] + [dup];
    }
  }

  /** Whatever happens to blocks outside the finished chains leaves those chains in order: blocks may
      be added, visited or relinked as long as they end up in a later trace. */
  lemma ChainsOkFrame(g: Graph, aux: seq<int>, visited: seq<nat>, chains: seq<seq<int>>,
                      g': Graph, aux': seq<int>, visited': seq<nat>)
    requires |aux| == |visited| == |g.blocks| <= |g'.blocks| == |aux'| == |visited'|
    requires ChainsOk(g, aux, visited, chains)
    requires forall b :: 0 <= b < |aux| ==> g'.blocks[b].partition == g.blocks[b].partition
    requires forall b :: 0 <= b < |aux| ==>
               visited'[b] == visited[b] || (visited[b] == 0 && visited'[b] > |chains|)
    requires forall b :: 0 <= b < |aux| ==> aux'[b] == aux[b] || visited'[b] > |chains|
    requires forall b :: |aux| <= b < |aux'| ==> visited'[b] > |chains|
    ensures ChainsOk(g', aux', visited', chains)
  {
    forall k | 0 <= k < |chains|
      ensures ChainOk(g', aux', visited', chains[k], k + 1)
    {
      var c := chains[k];
      assert ChainOk(g, aux, visited, c, k + 1);
      forall i | 0 <= i < |c|
        ensures visited'[c[i]] == k + 1 && aux'[c[i]] == aux[c[i]]
      {
        assert visited[c[i]] == k + 1;
      }
    }
  }

  /** The traces array and the start/end tables describe the chains. */
  ghost predicate TablesOk(traces: seq<Trace>, startOf: seq<int>, endOf: seq<int>, chains: seq<seq<int>>)
  {
    && |traces| >= |chains| && |startOf| == |endOf|
    && (forall k :: 0 <= k < |chains| ==> TraceOk(traces[k], startOf, endOf, chains[k], k))
    && (forall b :: 0 <= b < |startOf| ==>
          -1 <= startOf[b] < |chains| && (startOf[b] >= 0 ==> traces[startOf[b]].first == b))
    && (forall b :: 0 <= b < |endOf| ==>
          -1 <= endOf[b] < |chains| && (endOf[b] >= 0 ==> traces[endOf[b]].last == b))
  }

  ghost predicate TraceOk(t: Trace, startOf: seq<int>, endOf: seq<int>, c: seq<int>, k: int) {
    && |c| > 0 && t.first == c[0] && t.last == c[|c|-1]
    && 0 <= t.first < |startOf| && 0 <= t.last < |endOf|
    && startOf[t.first] == k && endOf[t.last] == k
    && t.length <= |c| <= t.length + 1
  }

  /** The ends of a new trace are not the ends of an older one. */
  lemma NewEnds(g: Graph, aux: seq<int>, visited: seq<nat>, traces: seq<Trace>, startOf: seq<int>,
                endOf: seq<int>, chains: seq<seq<int>>, chain: seq<int>, k: nat)
    requires |aux| == |visited| == |g.blocks|
    requires ChainsOk(g, aux, visited, chains) && TablesOk(traces, startOf, endOf, chains)
    requires ChainOk(g, aux, visited, chain, |chains| + 1) && k < |chains|
    ensures traces[k].first != chain[0] && traces[k].last != chain[|chain|-1]
  {
    assert TraceOk(traces[k], startOf, endOf, chains[k], k) && ChainOk(g, aux, visited, chains[k], k + 1);
    assert visited[traces[k].first] == k + 1 && visited[traces[k].last] == k + 1;
  }

  /** Entering a finished trace into the tables. */
  lemma TablesFinish(traces: seq<Trace>, startOf: seq<int>, endOf: seq<int>, chains: seq<seq<int>>,
                     chain: seq<int>, t: Trace)
    requires TablesOk(traces, startOf, endOf, chains) && |traces| == |chains| + 1
    requires |chain| > 0 && 0 <= chain[0] < |startOf| && 0 <= chain[|chain|-1] < |endOf|
    requires t.first == chain[0] && t.last == chain[|chain|-1] && t.length <= |chain| <= t.length + 1
    requires forall k :: 0 <= k < |chains| ==> traces[k].first != t.first && traces[k].last != t.last
    ensures TablesOk(traces[|chains| := t], startOf[t.first := |chains|], endOf[t.last := |chains|],
                     chains + [chain])
  {
    var n := |chains|;
    var startOf', endOf' := startOf[t.first := n], endOf[t.last := n];
    forall k | 0 <= k < n
      ensures TraceOk(traces[k], startOf', endOf', chains[k], k)
    {
      assert TraceOk(traces[k], startOf, endOf, chains[k], k);
    }
    assert TraceOk(t, startOf', endOf', chain, n);
    assert forall k :: 0 <= k < n ==> (chains + [chain])[k] == chains[k] && traces[n := t][k] == traces[k];
  }

  lemma ChainsFinish(g: Graph, aux: seq<int>, visited: seq<nat>, chains: seq<seq<int>>, chain: seq<int>)
    requires |aux| == |visited| == |g.blocks|
    requires ChainsOk(g, aux, visited, chains) && ChainOk(g, aux, visited, chain, |chains| + 1)
    requires forall b :: 0 <= b < |visited| && visited[b] == |chains| + 1 ==> b in chain
    ensures ChainsOk(g, aux, visited, chains + [chain])
  {
  }

  lemma TablesOkGrow(traces: seq<Trace>, startOf: seq<int>, endOf: seq<int>, chains: seq<seq<int>>)
    requires TablesOk(traces, startOf, endOf, chains)
    ensures TablesOk(traces, startOf + [-1], endOf + [-1], chains)
  {
    forall k | 0 <= k < |chains|
      ensures TraceOk(traces[k], startOf + [-1], endOf + [-1], chains[k], k)
    {
      assert TraceOk(traces[k], startOf, endOf, chains[k], k);
    }
  }

  // ---------- heaps and the frontier ----------

  ghost predicate HeapsOk(visited: seq<nat>, heapOf: seq<HeapRef>, heapId: nat,
                          heap: map<int, int>, newHeap: map<int, int>)
  {
    && |heapOf| == |visited|
    && (forall b :: b in heap ==> 0 <= b < |visited| && visited[b] == 0)
    && (forall b :: b in newHeap ==> 0 <= b < |visited| && visited[b] == 0)
    && (forall b :: 0 <= b < |heapOf| ==> (b in heap <==> heapOf[b] == InHeap(heapId)))
    && (forall b :: 0 <= b < |heapOf| ==> (b in newHeap <==> heapOf[b] == InHeap(heapId + 1)))
    && (forall b :: 0 <= b < |heapOf| ==>
          heapOf[b] == NoHeap || heapOf[b] == InHeap(heapId) || heapOf[b] == InHeap(heapId + 1))
  }

  lemma HeapsOkGrow(visited: seq<nat>, heapOf: seq<HeapRef>, heapId: nat,
                    heap: map<int, int>, newHeap: map<int, int>, id: nat)
    requires HeapsOk(visited, heapOf, heapId, heap, newHeap)
    ensures HeapsOk(visited + [id], heapOf + [NoHeap], heapId, heap, newHeap)
  {
  }

  /** A new key for a waiting block, or a new waiting block. */
  lemma HeapsOkPut(visited: seq<nat>, heapOf: seq<HeapRef>, heapId: nat,
                   heap: map<int, int>, newHeap: map<int, int>, d: nat, key: int)
    requires HeapsOk(visited, heapOf, heapId, heap, newHeap) && d < |visited| && visited[d] == 0
    ensures heapOf[d] == InHeap(heapId) <==> d in heap
    ensures heapOf[d] != NoHeap && heapOf[d] != InHeap(heapId) <==> d in newHeap
    ensures d in heap ==> HeapsOk(visited, heapOf, heapId, heap[d := key], newHeap)
    ensures d in newHeap ==> HeapsOk(visited, heapOf, heapId, heap, newHeap[d := key])
    ensures heapOf[d] == NoHeap ==>
              HeapsOk(visited, heapOf[d := InHeap(heapId)], heapId, heap[d := key], newHeap) &&
              HeapsOk(visited, heapOf[d := InHeap(heapId + 1)], heapId, heap, newHeap[d := key])
  {
  }

  /** Counting another block of the trace under construction. */
  lemma TablesOkCount(traces: seq<Trace>, startOf: seq<int>, endOf: seq<int>, chains: seq<seq<int>>,
                      t: Trace)
    requires TablesOk(traces, startOf, endOf, chains) && |traces| > |chains|
    ensures TablesOk(traces[|chains| := t], startOf, endOf, chains)
  {
  }

  /** Block d needs no more attention from its predecessors: it is laid out or waits in a heap. */
  ghost predicate Covered(visited: seq<nat>, heap: map<int, int>, newHeap: map<int, int>, d: int) {
    d == EXIT || (0 <= d < |visited| && (visited[d] != 0 || d in heap || d in newHeap))
  }

  ghost predicate Source(visited: seq<nat>, b: int) {
    b == ENTRY || (0 <= b < |visited| && visited[b] != 0)
  }

  /** Every successor of a finished block is covered. */
  ghost predicate Frontier(g: Graph, visited: seq<nat>, heap: map<int, int>, newHeap: map<int, int>) {
    forall k :: 0 <= k < |g.edges| && Source(visited, g.edges[k].src) ==>
      Covered(visited, heap, newHeap, g.edges[k].dest)
  }

  /** The same while block bb is about to be visited: bb itself, and a block that only bb leads to
      (the join block left aside when its other predecessor was chosen first), may be missing. */
  ghost predicate FrontierBut(g: Graph, visited: seq<nat>, heap: map<int, int>, newHeap: map<int, int>,
                              bb: int)
  {
    forall k :: 0 <= k < |g.edges| && Source(visited, g.edges[k].src) ==>
      var d := g.edges[k].dest;
      Covered(visited, heap, newHeap, d) || d == bb || HasEdge(g, bb, d)
  }

  ghost function Unvisited(visited: seq<nat>): set<int> {
    set b | 0 <= b < |visited| && visited[b] == 0
  }

  /** Every edge of the original graph g0 is still there in g; where it has been redirected to a copy, its
      original target has been visited.  Otherwise g is g0 with some blocks copied. */
  ghost predicate Retargeted(g0: Graph, g: Graph, visited: seq<nat>) {
    && WellFormed(g0) && |g0.edges| <= |g.edges| && |g0.blocks| <= |visited|
    && (forall k :: 0 <= k < |g0.edges| ==> KeepsTarget(g0, g, visited, k))
    && SectionsFrom(g0, g) && Unfolds(g0, g)
  }

  /** Copies lie in the section of an original block. */
  ghost predicate SectionsFrom(g0: Graph, g: Graph) {
    forall b :: IsBlock(g, b) ==> HasSection(g0, g.blocks[b].partition)
  }

  ghost predicate HasSection(g: Graph, section: Partition) {
    exists b :: IsBlock(g, b) && g.blocks[b].partition == section
  }

  lemma SectionsFromCopy(g0: Graph, g: Graph, h: Graph, orig: int, e: nat)
    requires SectionsFrom(g0, g) && Duplicated(g, h, orig, e)
    ensures SectionsFrom(g0, h)
  {
    DuplicatedSections(g, h, orig, e);
    hide Duplicated;
    forall b | IsBlock(h, b) ensures HasSection(g0, h.blocks[b].partition) {
      assert if b < |g.blocks| then IsBlock(g, b) else HasSection(g0, g.blocks[orig].partition);
    }
  }

  ghost predicate KeepsTarget(g0: Graph, g: Graph, visited: seq<nat>, k: nat)
    requires k < |g0.edges| <= |g.edges|
  {
    && g.edges[k].src == g0.edges[k].src
    && (g.edges[k].dest == g0.edges[k].dest
        || (0 <= g0.edges[k].dest < |g0.blocks| <= |visited| && visited[g0.edges[k].dest] != 0))
  }

  /** The copies made so far, numbered from n on, are all visited. */
  ghost predicate CopiesVisited(n: nat, visited: seq<nat>) {
    forall b :: n <= b < |visited| ==> visited[b] != 0
  }

  lemma RetargetedVisit(g0: Graph, g: Graph, visited: seq<nat>, b: nat, id: nat)
    requires Retargeted(g0, g, visited) && b < |visited| && id > 0
    ensures Retargeted(g0, g, visited[b := id])
  {
    var v := visited[b := id];
    forall k | 0 <= k < |g0.edges| ensures KeepsTarget(g0, g, v, k) {
      assert KeepsTarget(g0, g, visited, k);
    }
  }

  lemma RetargetedCopy(g0: Graph, g: Graph, h: Graph, orig: int, e: nat, visited: seq<nat>, id: nat)
    requires Retargeted(g0, g, visited) && Duplicated(g, h, orig, e) && g.edges[e].dest == orig
    requires 0 <= orig < |g0.blocks| ==> visited[orig] != 0
    ensures Retargeted(g0, h, visited + [id])
  {
    SectionsFromCopy(g0, g, h, orig, e);
    UnfoldsCopy(g0, g, h, orig, e);
    hide SectionsFrom, Unfolds;
    var v := visited + [id];
    forall k | 0 <= k < |g0.edges| ensures KeepsTarget(g0, h, v, k) {
      assert KeepsTarget(g0, g, visited, k) && SameEdge(g, h, e, k);
    }
  }

  /** What is closed in the present graph is closed in the original one. */
  lemma FrontierOriginal(g0: Graph, g: Graph, visited: seq<nat>)
    requires Retargeted(g0, g, visited) && Frontier(g, visited, map[], map[])
    ensures |g0.blocks| <= |visited| && Frontier(g0, visited, map[], map[])
  {
    forall k | 0 <= k < |g0.edges| && Source(visited, g0.edges[k].src)
      ensures Covered(visited, map[], map[], g0.edges[k].dest)
    {
      assert KeepsTarget(g0, g, visited, k);
      assert Covered(visited, map[], map[], g.edges[k].dest);
    }
  }

  /** With both heaps empty the frontier is closed, so everything reachable has been visited. */
  lemma {:induction false} WalkVisited(g: Graph, visited: seq<nat>, p: seq<int>)
    requires |visited| >= |g.blocks|
    requires Frontier(g, visited, map[], map[])
    requires IsWalk(g, p) && forall x :: x in p ==> IsBlock(g, x)
    ensures IsBlock(g, p[|p|-1]) && visited[p[|p|-1]] != 0
  {
    var l := p[|p|-1];
    assert l in p;
    if |p| == 1 {
      var k :| 0 <= k < |g.edges| && g.edges[k].src == ENTRY && g.edges[k].dest == p[0];
      assert Covered(visited, map[], map[], g.edges[k].dest);
    } else {
      var q := p[..|p|-1];
      forall i | 0 < i < |q| ensures HasEdge(g, q[i-1], q[i]) {
        assert HasEdge(g, p[i-1], p[i]);
      }
      WalkVisited(g, visited, q);
      assert HasEdge(g, p[|p|-2], l);
      var k :| 0 <= k < |g.edges| && g.edges[k].src == p[|p|-2] && g.edges[k].dest == l;
      assert Covered(visited, map[], map[], g.edges[k].dest);
    }
  }

  lemma ReachableVisited(g: Graph, visited: seq<nat>)
    requires |visited| >= |g.blocks|
    requires Frontier(g, visited, map[], map[])
    ensures forall b :: Reachable(g, b) ==> visited[b] != 0
  {
    forall b | Reachable(g, b) ensures visited[b] != 0 {
      var p :| IsWalk(g, p) && (forall x :: x in p ==> IsBlock(g, x)) && p[|p|-1] == b;
      WalkVisited(g, visited, p);
    }
  }

  /** Duplicating a visited block, the copy being visited at once, keeps the frontier closed. */
  lemma FrontierDuplicated(g: Graph, h: Graph, orig: int, e: nat, visited: seq<nat>, id: nat,
                           heap: map<int, int>, newHeap: map<int, int>)
    requires |visited| == |g.blocks| && WellFormed(g) && Duplicated(g, h, orig, e) && id > 0
    requires visited[orig] != 0
    requires Frontier(g, visited, heap, newHeap)
    ensures Frontier(h, visited + [id], heap, newHeap)
  {
    DuplicatedSections(g, h, orig, e);
    hide Duplicated;
    var v := visited + [id];
    forall k | 0 <= k < |h.edges| && Source(v, h.edges[k].src)
      ensures Covered(v, heap, newHeap, h.edges[k].dest)
    {
      if k < |g.edges| {
        KeptEdge(g, h, orig, e, k);
        if k != e {
          assert Covered(visited, heap, newHeap, g.edges[k].dest);
        }
      } else {
        var i := CopiedFrom(g, h, orig, e, k);
        assert Covered(visited, heap, newHeap, g.edges[i].dest);
      }
    }
  }
}
