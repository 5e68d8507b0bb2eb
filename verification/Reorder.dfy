/** The block-reordering pass: trace construction in rounds, then connection of the traces. */
module Reordering {
  import opened Cfg
  import opened Unfolding
  import opened Traces
  import opened Selection
  import opened Rotation
  import opened Growth

  /** The block seen when the last block of path (not yet visited) is about to join trace id:
      path[..done] is what the trace holds so far. */
  ghost predicate PathOk(g: Graph, aux: seq<int>, visited: seq<nat>, path: seq<int>, done: int, id: nat)
    requires |aux| == |visited| == |g.blocks|
  {
    && |path| > 0 && 0 <= done <= |path| <= done + 1
    && Linked(aux, path) && Distinct(path)
    && aux[path[|path|-1]] == NIL
    && (forall i :: 0 <= i < done ==> visited[path[i]] == id)
    && (done < |path| ==> visited[path[done]] == 0)
    && (forall b :: 0 <= b < |visited| && visited[b] == id ==> b in path[..done])
    && (forall i :: 0 <= i < |path| ==> g.blocks[path[i]].partition == g.blocks[path[0]].partition)
    && (forall i :: 0 < i < |path| ==> HasEdge(g, path[i-1], path[i]))
  }

  /** Trace number |traces| is under construction along path; the earlier ones are in chains. */
  ghost predicate BuildingState(g: Graph, aux: seq<int>, visited: seq<nat>, startOf: seq<int>, endOf: seq<int>,
                                traces: seq<Trace>, chains: seq<seq<int>>, path: seq<int>, done: int)
  {
    && |aux| == |visited| == |startOf| == |endOf| == |g.blocks|
    && ChainsOk(g, aux, visited, chains)
    && TablesOk(traces, startOf, endOf, chains)
    && |traces| == |chains| + 1
    && (forall b :: 0 <= b < |visited| ==> visited[b] <= |traces|)
    && PathOk(g, aux, visited, path, done, |traces|)
    && traces[|chains|].first == path[0]
  }

  lemma EnterState(g: Graph, aux: seq<int>, visited: seq<nat>, startOf: seq<int>, endOf: seq<int>,
                   traces: seq<Trace>, chains: seq<seq<int>>, path: seq<int>)
    requires BuildingState(g, aux, visited, startOf, endOf, traces, chains, path, |path| - 1)
    ensures 0 <= path[|path|-1] < |visited| && visited[path[|path|-1]] == 0 && |traces| > 0
    ensures BuildingState(g, aux, visited[path[|path|-1] := |traces|], startOf, endOf, traces, chains, path, |path|)
  {
    hide TablesOk;
    ChainsOkFrame(g, aux, visited, chains, g, aux, visited[path[|path|-1] := |traces|]);
    PathOkEnter(g, aux, visited, path, |traces|);
  }

  class Reorder {
    const s: Settings
    /** The graph that the pass was given; g is the present one. */
    ghost const g0: Graph
    var g: Graph
    var aux: seq<int>
    var visited: seq<nat>
    var startOf: seq<int>
    var endOf: seq<int>
    var heapOf: seq<HeapRef>
    var heapId: nat
    var heap: map<int, int>
    var newHeap: map<int, int>
    var traces: seq<Trace>
    var maxEntryFrequency: int
    var maxEntryCount: int
    /** chains[k] lists the blocks of the finished trace k in order. */
    ghost var chains: seq<seq<int>>
    /** No block has been copied so far. */
    ghost var pristine: bool
    /** The traces are being connected; copies are now marked with a trace number counted from zero. */
    ghost var connecting: bool

    ghost predicate Sized()
      reads this
    {
      && |aux| == |visited| == |startOf| == |endOf| == |heapOf| == |g.blocks|
      && WellFormed(g) && CrossingMarked(g)
      && (forall k :: 0 <= k < |g.edges| ==> g.edges[k].probability >= 0)
    }

    ghost predicate Heaps()
      reads this
    {
      && Sized() && Retargeted(g0, g, visited) && HeapsOk(visited, heapOf, heapId, heap, newHeap)
      && (pristine ==> FreshKeys(g, endOf, heap, newHeap))
      && (connecting || CopiesVisited(|g0.blocks|, visited))
    }

    /** Between two traces: the finished ones are in order. */
    ghost predicate Valid()
      reads this
    {
      && Heaps()
      && ChainsOk(g, aux, visited, chains)
      && TablesOk(traces, startOf, endOf, chains)
      && |traces| == |chains|
      && (forall b :: 0 <= b < |visited| ==> visited[b] <= |chains|)
    }

    /** While trace number |traces| is built along path. */
    ghost predicate Building(path: seq<int>, done: int)
      reads this
    {
      Heaps() && BuildingState(g, aux, visited, startOf, endOf, traces, chains, path, done)
    }

    /** The pass starts on a graph in which no block has been visited or linked. */
    constructor (g: Graph, s: Settings)
      requires WellFormed(g) && CrossingMarked(g)
      requires forall k :: 0 <= k < |g.edges| ==> g.edges[k].probability >= 0
      ensures Valid() && this.g0 == this.g == g && this.s == s && traces == [] && chains == [] && pristine && !connecting
      ensures heap == map[] && newHeap == map[]
      ensures visited == seq(|g.blocks|, _ => 0)
    {
      UnfoldsSelf(g);
      this.g0, this.g, this.s := g, g, s;
      aux := seq(|g.blocks|, _ => NIL);
      visited := seq(|g.blocks|, _ => 0);
      startOf := seq(|g.blocks|, _ => -1);
      endOf := seq(|g.blocks|, _ => -1);
      heapOf := seq(|g.blocks|, _ => NoHeap);
      heapId, heap, newHeap := 0, map[], map[];
      traces, chains, pristine, connecting := [], [], true, false;
      maxEntryFrequency, maxEntryCount := 0, 0;
    }

    /** Take a block with the smallest key out of the heap. */
    method ExtractMin() returns (bb: int)
      requires Heaps() && heap.Keys != {}
      modifies `heap, `heapOf
      ensures Heaps() && bb in old(heap)
      ensures heap == old(heap) - {bb} && heapOf == old(heapOf)[bb := NoHeap]
      ensures forall b :: b in old(heap) ==> old(heap)[bb] <= old(heap)[b]
      ensures pristine ==> forall b :: b in old(heap) ==> BbToKey(g, endOf, bb) <= BbToKey(g, endOf, b)
      ensures pristine && FrequenciesOk(g) ==> forall b :: b in old(heap) ==> !Sooner(g, endOf, b, bb)
    {
      hide FrequenciesOk, Sooner, BbToKey;
      ghost var m := MinExists(heap);
      bb :| bb in heap && forall b :: b in heap ==> heap[bb] <= heap[b];
      if pristine && FrequenciesOk(g) {
        forall b | b in heap ensures !Sooner(g, endOf, b, bb) {
          KeysOrder(g, endOf, b, bb);
        }
      }
      heap := heap - {bb};
      heapOf := heapOf[bb := NoHeap];
    }

    /** Mark bb as visited in trace id and take it out of whatever heap it is in. */
    method MarkBbVisited(bb: int, id: nat)
      requires Heaps() && IsBlock(g, bb) && id > 0
      modifies `visited, `heap, `newHeap, `heapOf
      ensures Heaps()
      ensures visited == old(visited)[bb := id]
      ensures heap == old(heap) - {bb} && newHeap == old(newHeap) - {bb}
    {
      hide Retargeted, WellFormed, CrossingMarked, BbToKey;
      RetargetedVisit(g0, g, visited, bb, id);
      visited := visited[bb := id];
      if heapOf[bb] == InHeap(heapId) {
        heap := heap - {bb};
      } else if heapOf[bb] != NoHeap {
        newHeap := newHeap - {bb};
      }
      heapOf := heapOf[bb := NoHeap];
    }

    /** Put the unvisited block d, reached by edge e, into a heap, or refresh its key there. */
    method PushBlock(e: Edge, r: Round)
      requires Heaps() && IsBlock(g, e.dest) && visited[e.dest] == 0
      modifies `heap, `newHeap, `heapOf
      ensures Heaps()
      ensures var d := e.dest;
        var next := d in old(newHeap) || (d !in old(heap) && WeakEdge(g, e, r) && PushToNextRoundP(g, d, r));
        var key := BbToKey(g, endOf, d);
        && heap == (if next then old(heap) else old(heap)[d := key])
        && newHeap == (if next then old(newHeap)[d := key] else old(newHeap))
    {
      hide FreshKeys, WellFormed, CrossingMarked, BbToKey, WeakEdge, PushToNextRoundP, Retargeted, CopiesVisited,
           HeapsOk;
      var d, key := e.dest, BbToKey(g, endOf, e.dest);
      HeapsOkPut(visited, heapOf, heapId, heap, newHeap, d, key);
      if pristine {
        FreshKeysPut(g, endOf, heap, newHeap, d);
      }
      if heapOf[d] == InHeap(heapId) {
        if key != heap[d] {
          heap := heap[d := key];
        }
      } else if heapOf[d] != NoHeap {
        if key != newHeap[d] {
          newHeap := newHeap[d := key];
        }
      } else if WeakEdge(g, e, r) && PushToNextRoundP(g, d, r) {
        newHeap := newHeap[d := key];
        heapOf := heapOf[d := InHeap(heapId + 1)];
      } else {
        heap := heap[d := key];
        heapOf := heapOf[d := InHeap(heapId)];
      }
    }

    /** Edge k takes a block into the heaps when bb has been visited and best was chosen. */
    ghost predicate Pushes(bb: int, best: int, k: int)
      reads this
    {
      && 0 <= k < |g.edges| && g.edges[k].src == bb && k != best
      && 0 <= g.edges[k].dest < |visited| && visited[g.edges[k].dest] == 0
    }

    /** Put every unvisited successor of bb, except along best, into the heaps. */
    method PushSuccessors(bb: int, best: int, r: Round)
      requires Heaps() && IsBlock(g, bb)
      modifies `heap, `newHeap, `heapOf
      ensures Heaps()
      ensures old(heap.Keys) <= heap.Keys && old(newHeap.Keys) <= newHeap.Keys
      ensures forall k :: Pushes(bb, best, k) ==> g.edges[k].dest in heap.Keys + newHeap.Keys
      ensures forall b :: b in heap.Keys + newHeap.Keys && b !in old(heap.Keys + newHeap.Keys) ==>
                exists k :: Pushes(bb, best, k) && g.edges[k].dest == b
      ensures forall b :: b in newHeap && b !in old(newHeap) ==> IsBlock(g, b) && PushToNextRoundP(g, b, r)
      ensures forall b :: b in heap && b !in old(heap) ==> TakenUp(g, b, r)
    {
      hide FreshKeys, CrossingMarked, HeapsOk, Retargeted, CopiesVisited, BbToKey, WeakEdge, PushToNextRoundP;
      for k := 0 to |g.edges|
        invariant Heaps()
        invariant old(heap.Keys) <= heap.Keys && old(newHeap.Keys) <= newHeap.Keys
        invariant forall j :: 0 <= j < k && Pushes(bb, best, j) ==> g.edges[j].dest in heap.Keys + newHeap.Keys
        invariant forall b :: b in heap.Keys + newHeap.Keys && b !in old(heap.Keys + newHeap.Keys) ==>
                    exists j :: Pushes(bb, best, j) && g.edges[j].dest == b
        invariant forall b :: b in newHeap && b !in old(newHeap) ==> IsBlock(g, b) && PushToNextRoundP(g, b, r)
        invariant forall b :: b in heap && b !in old(heap) ==> TakenUp(g, b, r)
      {
        var e := g.edges[k];
        if e.src == bb && k != best && e.dest != EXIT && visited[e.dest] == 0 {
          assert Pushes(bb, best, k);
          PushBlock(e, r);
        }
      }
    }

    /** Nothing reached from a visited block is forgotten, except possibly the target of edge best. */
    ghost predicate FrontierPast(best: int)
      reads this
    {
      FrontierUpTo(g, visited, heap, newHeap, best)
    }

    /** The last block of path joins the trace. */
    method Enter(ghost path: seq<int>, cur: int)
      requires Building(path, |path| - 1) && cur == path[|path|-1]
      requires FrontierBut(g, visited, heap, newHeap, cur)
      modifies `visited, `heap, `newHeap, `heapOf
      ensures Building(path, |path|)
      ensures visited == old(visited)[cur := |traces|]
      ensures Unvisited(visited) == old(Unvisited(visited)) - {cur} && cur in old(Unvisited(visited))
      ensures newHeap.Keys <= old(newHeap.Keys) && heap.Keys <= old(heap.Keys)
      ensures forall k :: 0 <= k < |g.edges| && Source(visited, g.edges[k].src) ==>
                Covered(visited, heap, newHeap, g.edges[k].dest) || HasEdge(g, cur, g.edges[k].dest)
    {
      hide BuildingState, HeapsOk, Retargeted, FreshKeys, WellFormed, CrossingMarked, FrontierBut;
      EnterState(g, aux, visited, startOf, endOf, traces, chains, path);
      MarkBbVisited(cur, |traces|);
      FrontierEnter(g, old(visited), old(heap), old(newHeap), cur, |traces|);
    }

    /** One more block in the trace under construction. */
    method CountBlock()
      requires TablesOk(traces, startOf, endOf, chains) && |traces| == |chains| + 1
      modifies `traces
      ensures TablesOk(traces, startOf, endOf, chains)
      ensures var t := old(traces)[|chains|];
        traces == old(traces)[|chains| := t.(length := t.length + 1)]
    {
      var t := |traces| - 1;
      var counted := traces[t].(length := traces[t].length + 1);
      TablesOkCount(traces, startOf, endOf, chains, counted);
      traces := traces[t := counted];
    }

    method CountVisited(ghost path: seq<int>)
      requires Building(path, |path|)
      modifies `traces
      ensures Building(path, |path|) && |traces| == old(|traces|) && |traces| > |chains|
      ensures traces[|chains|].length == old(traces[|chains|].length) + 1
    {
      hide ChainsOk, TablesOk, HeapsOk, Retargeted, FreshKeys, WellFormed, CrossingMarked, PathOk;
      CountBlock();
    }

    /** Choose the successor of cur and put its other successors into the heaps. */
    method Spread(ghost path: seq<int>, cur: int, r: Round) returns (best: int)
      requires Building(path, |path|) && cur == path[|path|-1]
      requires forall k :: 0 <= k < |g.edges| && Source(visited, g.edges[k].src) ==>
                Covered(visited, heap, newHeap, g.edges[k].dest) || HasEdge(g, cur, g.edges[k].dest)
      modifies `heap, `newHeap, `heapOf
      ensures Building(path, |path|) && FrontierPast(best)
      ensures best == -1 ==> Frontier(g, visited, heap, newHeap)
      ensures best == -1 || (Admissible(g, visited, cur, |traces|, best) &&
                             Suitable(g, visited, cur, |traces|, r, best))
      ensures best >= 0 && visited[g.edges[best].dest] != 0 ==> Frontier(g, visited, heap, newHeap)
      ensures forall b :: b in newHeap && b !in old(newHeap) ==> PushToNextRound(g, b, r)
      ensures forall b :: b in heap && b !in old(heap) ==> TakenUp(g, b, r)
      ensures Selected(g, visited, cur, |traces|, r, s, best)
    {
      assert IsBlock(g, cur);
      hide ChainsOk, TablesOk, HeapsOk, Retargeted, FreshKeys, CrossingMarked, PathOk, Suitable, PushToNextRoundP,
           CopiesVisited, BuildingState, TakenUp, Selected;
      best := SelectSuccessor(g, visited, cur, |traces|, r, s);
      PushSuccessors(cur, best, r);
      assert forall k :: (0 <= k < |g.edges| && g.edges[k].src == cur && k != best && g.edges[k].dest != EXIT
                          && IsBlock(g, g.edges[k].dest) && visited[g.edges[k].dest] == 0) ==>
                         Pushes(cur, best, k);
      hide Frontier, FrontierUpTo;
      FrontierSpread(g, visited, old(heap), old(newHeap), heap, newHeap, cur, best);
    }

    /** Link the next block after cur: the target of best, or a block that leads to it. */
    method Extend(ghost path: seq<int>, cur: int, best: int) returns (next: int)
      requires Building(path, |path|) && cur == path[|path|-1] && FrontierPast(best)
      requires 0 <= best < |g.edges| && g.edges[best].src == cur && IsBlock(g, g.edges[best].dest)
      requires visited[g.edges[best].dest] == 0
      requires g.blocks[g.edges[best].dest].partition == g.blocks[cur].partition
      modifies `aux
      ensures Building(path + [next], |path|)
      ensures FrontierBut(g, visited, heap, newHeap, next)
      ensures next == g.edges[best].dest || SkipsAheadTo(g, visited, cur, best, next)
      ensures GoesTo(g, visited, cur, best, next)
    {
      hide HeapsOk, Retargeted, FreshKeys, BuildingState;
      PathEnd(g, aux, visited, startOf, endOf, traces, chains, path);
      var chosen := Reselect(g, visited, cur, best);
      next := g.edges[chosen].dest;
      ExtendState(g, aux, visited, startOf, endOf, traces, chains, path, chosen);
      aux := aux[cur := next];
      FrontierExtend(g, visited, heap, newHeap, g.edges[best].dest, next);
    }

    /** Copy block orig, redirect edge e to the copy, and link the copy after bb in trace id. */
    method CopyBb(orig: int, e: nat, bb: int, id: nat) returns (dup: int)
      requires Heaps() && IsBlock(g, orig) && IsBlock(g, bb)
      requires e < |g.edges| && g.edges[e].dest == orig
      requires (orig < |g0.blocks| ==> visited[orig] != 0) && (connecting || id > 0)
      modifies `g, `visited, `aux, `startOf, `endOf, `heapOf, `pristine
      ensures Heaps() && !pristine
      ensures dup == |old(g).blocks| && Duplicated(old(g), g, orig, e) && g == DuplicateBlock(old(g), orig, e, bb)
      ensures visited == old(visited) + [id]
      ensures aux == (old(aux) + [old(aux)[bb]])[bb := dup]
      ensures startOf == old(startOf) + [-1] && endOf == old(endOf) + [-1]
      ensures heapOf == old(heapOf) + [NoHeap]
    {
      hide FreshKeys, WellFormed, CrossingMarked, HeapsOk, Retargeted, Duplicated, DuplicateBlock;
      dup := |g.blocks|;
      HeapsOkGrow(visited, heapOf, heapId, heap, newHeap, id);
      ghost var before := g;
      g := Duplicate(g, orig, e, bb);
      RetargetedCopy(g0, before, g, orig, e, visited, id);
      visited := visited + [id];
      aux := (aux + [aux[bb]])[bb := dup];
      startOf := startOf + [-1];
      endOf := endOf + [-1];
      heapOf := heapOf + [NoHeap];
      pristine := false;
    }

    /** The blocks of trace number |traces| are final and in order. */
    ghost predicate Finished(chain: seq<int>)
      reads this
    {
      && Heaps()
      && ChainsOk(g, aux, visited, chains)
      && TablesOk(traces, startOf, endOf, chains)
      && |traces| == |chains| + 1
      && (forall b :: 0 <= b < |visited| ==> visited[b] <= |traces|)
      && ChainOk(g, aux, visited, chain, |traces|)
      && (forall b :: 0 <= b < |visited| && visited[b] == |traces| ==> b in chain)
      && traces[|chains|].first == chain[0]
    }

    /** Copy the visited block orig into the finished trace, after position h-1 of its chain. */
    method CopyIntoChain(orig: int, e: nat, bb: int, ghost chain: seq<int>, ghost h: nat) returns (dup: int)
      requires Finished(chain) && 0 < h <= |chain| && bb == chain[h-1]
      requires Frontier(g, visited, heap, newHeap)
      requires e < |g.edges| && g.edges[e].dest == orig && IsBlock(g, orig) && visited[orig] == |traces|
      modifies `g, `visited, `aux, `startOf, `endOf, `heapOf, `pristine
      ensures Finished(chain[..h] + [dup] + chain[h..])
      ensures Frontier(g, visited, heap, newHeap)
      ensures dup == |old(g).blocks| && Duplicated(old(g), g, orig, e)
      ensures visited == old(visited) + [|traces|]
    {
      hide ChainsOk, TablesOk, HeapsOk, Retargeted, Frontier, FreshKeys, WellFormed, CrossingMarked, Linked, Distinct,
           Duplicated, ChainOk;
      CopySource(orig, chain, h);
      dup := CopyBb(orig, e, bb, |traces|);
      DuplicatedSections(old(g), g, orig, e);
      ChainInsert(old(g), old(aux), old(visited), chain, |traces|, h, g);
      ChainsOkFrame(old(g), old(aux), old(visited), chains, g, aux, visited);
      TablesOkGrow(traces, old(startOf), old(endOf), chains);
      FrontierDuplicated(old(g), g, orig, e, old(visited), |traces|, heap, newHeap);
    }

    lemma CopySource(orig: int, chain: seq<int>, h: nat)
      requires Finished(chain) && 0 < h <= |chain| && IsBlock(g, orig) && visited[orig] == |traces|
      ensures orig in chain && IsBlock(g, chain[h-1]) && visited[chain[h-1]] == |traces| > |chains|
      ensures g.blocks[orig].partition == g.blocks[chain[0]].partition
    {
      hide ChainsOk, TablesOk, HeapsOk, Retargeted, FreshKeys, WellFormed, CrossingMarked;
      var i :| 0 <= i < |chain| && chain[i] == orig;
    }

    /** Find the block of the trace before header. */
    method FindPrev(header: int, ghost path: seq<int>, ghost h: nat) returns (prev: int)
      requires |traces| > 0 && 0 < h < |path| && path[h] == header && path[0] == traces[|traces|-1].first
      requires Linked(aux, path) && Distinct(path)
      ensures prev == path[h-1]
    {
      prev := traces[|traces|-1].first;
      ghost var i := 0;
      while aux[prev] != header
        invariant 0 <= i < h && prev == path[i]
        decreases h - i
      {
        assert aux[path[i]] == path[i+1];
        prev := aux[prev];
        i := i + 1;
      }
      assert aux[path[i]] == path[i+1];
    }

    /** Cut the cycle open after its block at position j: the links of the rotated trace. */
    method Relink(header: int, bestBb: int, ghost path: seq<int>, ghost h: nat, ghost j: nat)
      returns (prev: int)
      requires Sized() && |traces| == |chains| + 1 && 0 <= h <= j < |path| && h < |path| - 1
      requires traces[|chains|].first == path[0] && path[h] == header && path[j] == bestBb
      requires Linked(aux, path) && Distinct(path) && aux[path[|path|-1]] == header
      modifies `aux, `traces
      ensures aux == (if h == 0 then old(aux) else old(aux)[path[h-1] := old(aux)[bestBb]])[bestBb := NIL]
      ensures prev == if h == 0 then NIL else path[h-1]
      ensures traces == old(traces)[|chains| := old(traces)[|chains|].(first := Rotated(path, h, j)[0])]
    {
      RotatedLinked(aux, path, h, j);
      var n := |traces| - 1;
      if header == traces[n].first {
        traces := traces[n := traces[n].(first := aux[bestBb])];
        prev := NIL;
      } else {
        prev := FindPrev(header, path, h);
        aux := aux[prev := aux[bestBb]];
      }
      aux := aux[bestBb := NIL];
    }

    /** The header copy that rotate_loop inserts: when the block before the loop only leads to the
        header, and the header is a small block ending in a conditional jump. */
    predicate WantsHeaderCopy(prev: int)
      reads this
      requires Sized()
    {
      && SingleSucc(g, prev)
      && var e := FirstSuccEdge(g, prev, 0);
      e >= 0 && IsBlock(g, g.edges[e].dest)
      && var header := g.edges[e].dest;
      && g.blocks[header].endsInCondJump
      && CopyBbP(g, header, false, s.jumpLength, s.growFactor)
      && !g.blocks[header].crossingNote
    }

    /** path is the complete trace, its last block cur linked back to header at position h. */
    ghost predicate Cyclic(path: seq<int>, h: int, header: int, cur: int)
      reads this
    {
      && Heaps() && |path| > 1 && cur == path[|path|-1] && 0 <= cur < |aux|
      && BuildingState(g, aux[cur := NIL], visited, startOf, endOf, traces, chains, path, |path|)
      && 0 <= h < |path| - 1 && path[h] == header && aux[cur] == header
    }

    lemma CyclicLinked(path: seq<int>, h: int, header: int, cur: int)
      requires Cyclic(path, h, header, cur)
      ensures Linked(aux, path) && Distinct(path)
      ensures aux[path[|path|-1]] == header
    {
      LinkedUpdate(aux[cur := NIL], path, cur, header);
      assert aux[cur := NIL][cur := header] == aux;
    }

    method ChooseEnd(header: int, cur: int, ghost path: seq<int>, ghost h: nat)
      returns (bestBb: int, found: bool, ghost j: nat)
      requires Cyclic(path, h, header, cur)
      ensures h <= j < |path| && bestBb == path[j]
      ensures EndsAtExit(g, visited, startOf, |traces|, path, h, j, found)
    {
      hide BuildingState, HeapsOk, Retargeted, FreshKeys, CrossingMarked, Leaves, Preferred, LastBest, GreatestIfAny;
      CyclicLinked(path, h, header, cur);
      LinkedSlice(aux, path, h, |path|);
      ghost var loop := path[h..];
      var best := ChooseLoopEnd(g, aux, visited, startOf, header, |traces|, loop);
      found := best.edge >= 0;
      bestBb := if found then best.bb else cur;
      j := |path| - 1;
      if best.edge >= 0 {
        ghost var i :| 0 <= i < |loop| && loop[i] == bestBb;
        j := h + i;
      }
      forall i | h <= i < |path| ensures Dominates(g, visited, startOf, |traces|, path[i], |g.edges|, best) {
        assert path[i] == loop[i-h];
      }
    }

    /** Cut the cycle after bestBb. */
    method Cut(header: int, cur: int, bestBb: int, ghost path: seq<int>, ghost h: nat, ghost j: nat)
      returns (prev: int)
      requires Cyclic(path, h, header, cur) && h <= j < |path| && bestBb == path[j]
      modifies `aux, `traces
      ensures Finished(Rotated(path, h, j)) && |traces| == old(|traces|)
      ensures traces[|chains|].length == old(traces[|chains|].length)
      ensures prev == if h == 0 then NIL else path[h-1]
    {
      hide HeapsOk, Retargeted, FreshKeys, ChainsOk, TablesOk, Linked, Distinct, ChainOk, Rotated;
      CyclicLinked(path, h, header, cur);
      prev := Relink(header, bestBb, path, h, j);
      CutTables(old(traces), startOf, endOf, chains, traces[|chains|]);
      assert traces == old(traces)[|chains| := traces[|chains|]];
      CutChains(g, old(aux)[cur := NIL], visited, chains, aux, path);
      CutChain(g, old(aux), visited, path, h, j, |traces|);
    }

    /** Rotate the loop that starts at header and ends the trace, so that the best way out leaves from
        its last block; then perhaps copy the header before it. */
    method RotateLoop(header: int, cur: int, ghost path: seq<int>, ghost h: nat)
      returns (last: int, ghost chain: seq<int>, ghost j: nat, ghost found: bool)
      requires Cyclic(path, h, header, cur) && Frontier(g, visited, heap, newHeap)
      modifies `g, `visited, `aux, `startOf, `endOf, `heapOf, `pristine, `traces
      ensures Finished(chain) && Frontier(g, visited, heap, newHeap)
      ensures last == chain[|chain|-1] && |traces| == old(|traces|)
      ensures traces[|chains|].length == old(traces[|chains|].length)
      ensures visited == old(visited) || visited == old(visited) + [|traces|]
      ensures h <= j < |path| && last == path[j] && LoopChain(path, h, j, old(|g.blocks|), chain)
      ensures |path| <= |chain| <= |path| + 1
      ensures EndsAtExit(old(g), old(visited), old(startOf), |traces|, path, h, j, found)
      ensures |chain| == |path| + 1 <==> found && h > 0 && old(WantsHeaderCopy(path[h-1]))
    {
      hide ChainsOk, TablesOk, HeapsOk, Retargeted, CopiesVisited, FreshKeys, Frontier, EndsAtExit, Rotated, Finished, CopyBbP;
      ghost var enters := h > 0 ==> HasEdge(g, path[h-1], header);
      assert enters;
      var exits;
      last, exits, j := ChooseEnd(header, cur, path, h);
      found := exits;
      chain := Rotated(path, h, j);
      RotatedSpec(path, h, j);
      var prev := Cut(header, cur, last, path, h, j);
      if exits && prev != NIL {
        assert chain[h-1] == chain[..h][h-1] == path[..h][h-1];
        chain := CopyHeader(header, prev, chain, h);
      }
    }

    /** Try to get rid of the jump from prev, before the rotated loop, to the loop header. */
    method CopyHeader(header: int, prev: int, ghost chain0: seq<int>, ghost h: nat) returns (ghost chain: seq<int>)
      requires Finished(chain0) && Frontier(g, visited, heap, newHeap) && 0 < h < |chain0| && prev == chain0[h-1]
      requires HasEdge(g, prev, header) && IsBlock(g, header) && visited[header] == |traces|
      modifies `g, `visited, `aux, `startOf, `endOf, `heapOf, `pristine
      ensures Finished(chain) && Frontier(g, visited, heap, newHeap) && chain[|chain|-1] == chain0[|chain0|-1]
      ensures if chain == chain0 then visited == old(visited) else visited == old(visited) + [|traces|]
      ensures chain == if old(WantsHeaderCopy(prev)) then chain0[..h] + [old(|g.blocks|)] + chain0[h..] else chain0
    {
      hide ChainsOk, TablesOk, HeapsOk, Retargeted, CopiesVisited, FreshKeys, Frontier, CopyBbP, Duplicated, HasEdge,
           ChainOk, WellFormed, CrossingMarked;
      chain := chain0;
      if WantsHeaderCopy(prev) {
        var e := FirstSuccEdge(g, prev, 0);
        OnlySuccessor(g, prev, header, e);
        var dup := CopyIntoChain(header, e, prev, chain, h);
        chain := chain[..h] + [dup] + chain[h..];
      }
    }

    /** Copy the loop header d, the target of edge e, to the end of the trace. */
    method CopyAtEnd(d: int, e: nat, cur: int, ghost path: seq<int>) returns (dup: int)
      requires Building(path, |path|) && cur == path[|path|-1] && Frontier(g, visited, heap, newHeap)
      requires e < |g.edges| && g.edges[e].dest == d && IsBlock(g, d) && visited[d] == |traces|
      modifies `g, `visited, `aux, `startOf, `endOf, `heapOf, `pristine, `traces
      ensures Finished(path + [dup]) && Frontier(g, visited, heap, newHeap) && |traces| == old(|traces|)
      ensures traces[|chains|].length == old(traces[|chains|].length) + 1
      ensures dup == |old(g).blocks| && visited == old(visited) + [|traces|]
    {
      hide ChainsOk, TablesOk, HeapsOk, Retargeted, FreshKeys, Frontier, BuildingState, Finished, Duplicated, Sized;
      BuildingFinished(path);
      dup := CopyIntoChain(d, e, cur, path, |path|);
      assert path[..|path|] + [dup] + path[|path|..] == path + [dup];
      CountFinished(path + [dup]);
    }

    /** One more block in the finished trace. */
    method CountFinished(ghost chain: seq<int>)
      requires Finished(chain)
      modifies `traces
      ensures Finished(chain) && |traces| == old(|traces|) > |chains|
      ensures traces[|chains|].length == old(traces[|chains|].length) + 1
    {
      hide ChainsOk, TablesOk, HeapsOk, Retargeted, FreshKeys, ChainOk, WellFormed, CrossingMarked;
      CountBlock();
    }

    /** The trace has run into itself along edge best: rotate a loop that is executed often, copy the
        header of a rare one, or leave it. */
    method CloseLoop(cur: int, best: int, ghost path: seq<int>) returns (last: int, ghost chain: seq<int>)
      requires Building(path, |path|) && cur == path[|path|-1] && Frontier(g, visited, heap, newHeap)
      requires traces[|chains|].length == |path|
      requires 0 <= best < |g.edges| && g.edges[best].src == cur && IsBlock(g, g.edges[best].dest)
      requires visited[g.edges[best].dest] == |traces|
      modifies `g, `visited, `aux, `startOf, `endOf, `heapOf, `pristine, `traces
      ensures Finished(chain) && Frontier(g, visited, heap, newHeap)
      ensures last == chain[|chain|-1] && |traces| == old(|traces|)
      ensures traces[|chains|].length <= |chain| <= traces[|chains|].length + 1
      ensures visited == old(visited) || visited == old(visited) + [|traces|]
      ensures Unvisited(visited) == old(Unvisited(visited))
      ensures !Rotates(old(g), s, best) && !CopiesEnd(old(g), s, best) ==> chain == path && g == old(g)
      ensures CopiesEnd(old(g), s, best) ==> chain == path + [old(|g.blocks|)]
      ensures Rotates(old(g), s, best) ==> exists h, j, found ::
                0 <= h <= j < |path| && path[h] == old(g).edges[best].dest && LoopChain(path, h, j, old(|g.blocks|), chain)
                && EndsAtExit(old(g), old(visited), old(startOf), |traces|, path, h, j, found)
    {
      hide ChainsOk, TablesOk, HeapsOk, Retargeted, FreshKeys, Frontier, EndsAtExit, Rotated, Finished, LoopChain,
           CopyBbP, WellFormed, CrossingMarked;
      last, chain := cur, path;
      var d := g.edges[best].dest;
      BuildingFinished(path);
      if d != cur {
        if EdgeFrequency(g, g.edges[best]) > CDiv(4 * g.blocks[d].frequency, 5) {
          if d != s.firstBb {
            ghost var h := LinkBack(d, cur, path);
            ghost var j, found;
            last, chain, j, found := RotateLoop(d, cur, path, h);
          }
        } else if SingleSucc(g, cur) && CopyBbP(g, d, !s.optimizeSize, s.jumpLength, s.growFactor) {
          last := CopyAtEnd(d, best, cur, path);
          chain := path + [last];
        }
      }
    }

    lemma BuildingFinished(path: seq<int>)
      requires Building(path, |path|)
      ensures Finished(path) && |path| > 0 && |traces| == |chains| + 1
    {
      hide ChainsOk, TablesOk, HeapsOk, Retargeted, FreshKeys;
      assert path[..|path|] == path;
    }

    /** Link the end of the trace back to its block d. */
    method LinkBack(d: int, cur: int, ghost path: seq<int>) returns (ghost h: nat)
      requires Building(path, |path|) && cur == path[|path|-1]
      requires IsBlock(g, d) && visited[d] == |traces| && d != cur
      modifies `aux
      ensures Cyclic(path, h, d, cur)
    {
      hide ChainsOk, TablesOk, HeapsOk, Retargeted, FreshKeys;
      assert path[..|path|] == path;
      h :| 0 <= h < |path| && path[h] == d;
      aux := aux[cur := d];
      assert aux[cur := NIL] == old(aux);
    }

    /** The trace ended at bb: its waiting successors may now deserve a smaller key. */
    method RecountKeys(bb: int)
      requires Sized() && HeapsOk(visited, heapOf, heapId, heap, newHeap) && IsBlock(g, bb)
      modifies `heap, `newHeap
      ensures HeapsOk(visited, heapOf, heapId, heap, newHeap)
      ensures Rekeyed(bb, |g.edges|, old(heap), heap) && Rekeyed(bb, |g.edges|, old(newHeap), newHeap)
    {
      hide WellFormed, CrossingMarked, BbToKey, Rekeyed;
      Unkeyed(bb, heap);
      Unkeyed(bb, newHeap);
      for k := 0 to |g.edges|
        invariant HeapsOk(visited, heapOf, heapId, heap, newHeap)
        invariant Rekeyed(bb, k, old(heap), heap) && Rekeyed(bb, k, old(newHeap), newHeap)
      {
        ghost var h, n := heap, newHeap;
        var d := g.edges[k].dest;
        if g.edges[k].src == bb && IsBlock(g, d) && visited[d] == 0 && heapOf[d] != NoHeap {
          var key := BbToKey(g, endOf, d);
          if heapOf[d] == InHeap(heapId) {
            heap := heap[d := key];
          } else {
            newHeap := newHeap[d := key];
          }
        }
        RekeyedStep(bb, k, old(heap), h, heap);
        RekeyedStep(bb, k, old(newHeap), n, newHeap);
      }
    }

    lemma Unkeyed(bb: int, h: map<int, int>)
      ensures Rekeyed(bb, 0, h, h)
    {
    }

    lemma NextTarget(bb: int, k: nat)
      requires k < |g.edges|
      ensures forall b :: TargetOf(bb, k + 1, b) <==> TargetOf(bb, k, b) || (g.edges[k].src == bb && g.edges[k].dest == b)
    {
    }

    lemma RekeyedStep(bb: int, k: nat, h0: map<int, int>, h: map<int, int>, h': map<int, int>)
      requires k < |g.edges| && Rekeyed(bb, k, h0, h)
      requires var d := g.edges[k].dest;
               h' == if g.edges[k].src == bb && IsBlock(g, d) && d in h then h[d := BbToKey(g, endOf, d)] else h
      ensures Rekeyed(bb, k + 1, h0, h')
    {
      hide BbToKey, TargetOf;
      var d := g.edges[k].dest;
      NextTarget(bb, k);
      forall b | b in h' && !TargetOf(bb, k + 1, b) ensures h'[b] == h0[b] {
        assert b != d || g.edges[k].src != bb;
      }
    }

    /** One of the first k edges leads from bb to b. */
    ghost predicate TargetOf(bb: int, k: int, b: int)
      reads `g
      requires 0 <= k <= |g.edges|
    {
      exists j :: 0 <= j < k && g.edges[j].src == bb && g.edges[j].dest == b
    }

    /** Heap h is h0 with up-to-date keys for the targets of the first k edges where these leave bb, and the old keys
        for all others. */
    ghost predicate Rekeyed(bb: int, k: int, h0: map<int, int>, h: map<int, int>)
      reads `g, `endOf
      requires 0 <= k <= |g.edges|
    {
      && h.Keys == h0.Keys
      && (forall b :: b in h && !TargetOf(bb, k, b) ==> h[b] == h0[b])
      && (forall j :: 0 <= j < k && g.edges[j].src == bb && g.edges[j].dest in h && IsBlock(g, g.edges[j].dest) ==>
            h[g.edges[j].dest] == BbToKey(g, endOf, g.edges[j].dest))
    }

    lemma KeysAfterFinish(last: int, n: nat, endOf0: seq<int>, h0: map<int, int>, h: map<int, int>)
      requires Sized() && IsBlock(g, last) && |endOf0| == |endOf| && endOf == endOf0[last := n]
      requires Rekeyed(last, |g.edges|, h0, h)
      requires forall b :: b in h0 && IsBlock(g, b) ==> h0[b] == BbToKey(g, endOf0, b)
      ensures forall b :: b in h && IsBlock(g, b) ==> h[b] == BbToKey(g, endOf, b)
    {
      forall b | b in h && IsBlock(g, b) ensures h[b] == BbToKey(g, endOf, b) {
        if k :| 0 <= k < |g.edges| && g.edges[k].src == last && g.edges[k].dest == b {
          assert h[g.edges[k].dest] == BbToKey(g, endOf, g.edges[k].dest);
        } else {
          PriorityFrame(g, endOf0, last, n, b, |g.edges|);
        }
      }
    }

    lemma FinishTables(last: int, chain: seq<int>)
      requires Finished(chain) && last == chain[|chain|-1]
      requires traces[|chains|].length <= |chain| <= traces[|chains|].length + 1
      ensures IsBlock(g, last) && IsBlock(g, traces[|chains|].first)
      ensures ChainsOk(g, aux, visited, chains + [chain])
      ensures var t := traces[|chains|].(last := last);
        TablesOk(traces[|chains| := t], startOf[t.first := |chains|], endOf[t.last := |chains|], chains + [chain])
    {
      hide HeapsOk, Retargeted, FreshKeys, WellFormed, CrossingMarked;
      var t := traces[|chains|].(last := last);
      ChainsFinish(g, aux, visited, chains, chain);
      forall k | 0 <= k < |chains| ensures traces[k].first != t.first && traces[k].last != t.last {
        NewEnds(g, aux, visited, traces, startOf, endOf, chains, chain, k);
      }
      TablesFinish(traces, startOf, endOf, chains, chain, t);
    }

    /** Record the end of the trace under construction. */
    method FinishTrace(last: int, ghost chain: seq<int>)
      requires Finished(chain) && last == chain[|chain|-1] && Frontier(g, visited, heap, newHeap)
      requires traces[|chains|].length <= |chain| <= traces[|chains|].length + 1
      modifies `startOf, `endOf, `traces, `heap, `newHeap, `chains
      ensures Valid() && Frontier(g, visited, heap, newHeap)
      ensures chains == old(chains) + [chain]
      ensures heap.Keys == old(heap.Keys) && newHeap.Keys == old(newHeap.Keys)
    {
      hide ChainsOk, TablesOk, ChainOk, WellFormed, CrossingMarked, BbToKey, HeapsOk, Retargeted, CopiesVisited, Frontier;
      FinishTables(last, chain);
      var n := |traces| - 1;
      traces := traces[n := traces[n].(last := last)];
      startOf := startOf[traces[n].first := n];
      endOf := endOf[last := n];
      RecountKeys(last);
      if pristine {
        KeysAfterFinish(last, n, old(endOf), old(heap), heap);
        KeysAfterFinish(last, n, old(endOf), old(newHeap), newHeap);
      }
      FrontierKeys(g, visited, old(heap), old(newHeap), heap, newHeap);
      chains := chains + [chain];
    }

    /** Start trace number |traces| at the unvisited block seed. */
    method StartTrace(seed: int, r: Round)
      requires Valid() && IsBlock(g, seed) && visited[seed] == 0
      modifies `traces
      ensures Building([seed], 0) && |traces| == |chains| + 1 && traces[|chains|].length == 0
      ensures traces == old(traces) + [Trace(seed, seed, r.number, 0)]
    {
      hide HeapsOk, Retargeted, FreshKeys, WellFormed, CrossingMarked;
      traces := traces + [Trace(seed, seed, r.number, 0)];
    }

    /** Build one trace from seed: extend it along the best edges until there is none or it meets itself. */
    method BuildTrace(seed: int, r: Round)
      requires Valid() && IsBlock(g, seed) && visited[seed] == 0
      requires FrontierBut(g, visited, heap, newHeap, seed)
      modifies `g, `visited, `aux, `startOf, `endOf, `heapOf, `heap, `newHeap, `pristine, `traces, `chains
      ensures Valid() && Frontier(g, visited, heap, newHeap)
      ensures old(chains) <= chains && |chains| == |old(chains)| + 1
      ensures Unvisited(visited) < old(Unvisited(visited))
      ensures forall b :: b in newHeap && b !in old(newHeap) ==> PushToNextRound(old(g), b, r)
      ensures Built(old(Now()), Now(), r, s, seed)
    {
      hide Valid, Finished, Building, Growing, Chosen, Over, Frontier, FrontierBut, FrontierUpTo, PushToNextRound, TakenUp, Built,
           ClosedAs, Closes, Unvisited, Grown, GoesTo, Marked, Rotates, CopiesEnd, LoopChain, EndsAtExit, SkipsAheadTo;
      ghost var was := Now();
      StartTrace(seed, r);
      var cur := seed;
      ghost var path, bests: seq<int>, chain := [seed], [], [seed];
      StartGrowing(was, seed, r);
      while true
        invariant Growing(was, seed, r, path, bests, cur)
        decreases Unvisited(visited)
      {
        var best;
        best, bests := ChooseNext(was, seed, r, path, bests, cur);
        ChosenMeans(was, seed, r, path, bests, cur, best);
        ghost var now := visited;
        if best == -1 {
          OverPlain(was, seed, r, path, bests, cur);
          chain := path;
          break;
        } else if visited[g.edges[best].dest] == |traces| {
          cur, chain := CloseLoop(cur, best, path);
          ClosedLoop(was.g, now, was.startOf, |was.chains| + 1, s, path, best, chain);
          OverLoop(was, seed, r, path, bests, cur, chain, now);
          break;
        } else {
          cur := Extend(path, cur, best);
          path := path + [cur];
          GrowingOn(was, seed, r, path, bests, cur);
        }
      }
      Conclude(was, seed, r, path, bests, cur, chain);
    }

    /** The blocks of the trace are final: the chain, which the path has become, only has to be recorded. */
    ghost predicate Over(was: Stage, seed: int, r: Round, path: seq<int>, bests: seq<int>, cur: int, chain: seq<int>)
      reads this
    {
      var id := |was.chains| + 1;
      && Finished(chain) && cur == chain[|chain|-1] && Frontier(g, visited, heap, newHeap) && chains == was.chains
      && |traces| == id && traces[|chains|].length <= |chain| <= traces[|chains|].length + 1
      && |path| == |bests| > 0 && path[0] == seed && Grown(was.g, was.visited, id, r, s, path, bests)
      && Closes(was.g, Marked(was.visited, path, id), id, bests[|bests|-1])
      && ClosedAs(was.g, Marked(was.visited, path, id), was.startOf, id, s, path, bests[|bests|-1], chain)
      && (visited == Marked(was.visited, path, id) || visited == Marked(was.visited, path, id) + [id])
      && Unvisited(visited) < Unvisited(was.visited)
      && (forall b :: b in newHeap && b !in was.newHeap ==> PushToNextRound(was.g, b, r))
      && (forall b :: b in heap && b !in was.heap ==> TakenUp(was.g, b, r))
    }

    lemma OverPlain(was: Stage, seed: int, r: Round, path: seq<int>, bests: seq<int>, cur: int)
      requires Chosen(was, seed, r, path, bests, cur, -1)
      ensures Over(was, seed, r, path, bests, cur, path)
    {
      hide Building, Finished, Frontier, FrontierPast, FrontierUpTo, Grown, Marked, PushToNextRound, TakenUp, ClosedAs, Closes,
           Unvisited;
      BuildingFinished(path);
      ClosedPlain(was.g, visited, was.startOf, |was.chains| + 1, s, path);
    }

    lemma OverLoop(was: Stage, seed: int, r: Round, path: seq<int>, bests: seq<int>, cur: int, chain: seq<int>, now: seq<nat>)
      requires Finished(chain) && cur == chain[|chain|-1] && Frontier(g, visited, heap, newHeap) && chains == was.chains
      requires |traces| == |was.chains| + 1 && traces[|chains|].length <= |chain| <= traces[|chains|].length + 1
      requires |path| == |bests| > 0 && path[0] == seed && Grown(was.g, was.visited, |was.chains| + 1, r, s, path, bests)
      requires now == Marked(was.visited, path, |was.chains| + 1) && Closes(was.g, now, |was.chains| + 1, bests[|bests|-1])
      requires ClosedAs(was.g, now, was.startOf, |was.chains| + 1, s, path, bests[|bests|-1], chain)
      requires visited == now || visited == now + [|was.chains| + 1]
      requires Unvisited(visited) < Unvisited(was.visited)
      requires forall b :: b in newHeap && b !in was.newHeap ==> PushToNextRound(was.g, b, r)
      requires forall b :: b in heap && b !in was.heap ==> TakenUp(was.g, b, r)
      ensures Over(was, seed, r, path, bests, cur, chain)
    {
      hide Building, Finished, Frontier, Grown, Marked, PushToNextRound, TakenUp, ClosedAs, Closes, Unvisited;
    }

    /** Record the trace. */
    method Conclude(ghost was: Stage, ghost seed: int, ghost r: Round, ghost path: seq<int>, ghost bests: seq<int>, cur: int,
                    ghost chain: seq<int>)
      requires Over(was, seed, r, path, bests, cur, chain)
      modifies `startOf, `endOf, `traces, `heap, `newHeap, `chains
      ensures Valid() && Frontier(g, visited, heap, newHeap)
      ensures chains == was.chains + [chain] && Unvisited(visited) < Unvisited(was.visited)
      ensures forall b :: b in newHeap && b !in was.newHeap ==> PushToNextRound(was.g, b, r)
      ensures Built(was, Now(), r, s, seed)
    {
      hide Valid, Finished, Frontier, Grown, Marked, PushToNextRound, TakenUp, ClosedAs, Closes, Unvisited, Built;
      FinishTrace(cur, chain);
      ItIsBuilt(was, Now(), r, s, seed, path, bests, chain, |was.chains| + 1);
    }

    /** While a trace is built from seed: its blocks so far and the edges chosen at them. */
    ghost predicate Along(was: Stage, seed: int, r: Round, path: seq<int>, bests: seq<int>)
      reads this
    {
      && path != [] && path[0] == seed && chains == was.chains && g == was.g && startOf == was.startOf
      && |traces| == |chains| + 1 && |was.visited| == |visited| == |g.blocks|
      && Grown(g, was.visited, |traces|, r, s, path, bests)
      && (forall b :: b in newHeap && b !in was.newHeap ==> PushToNextRound(g, b, r))
      && (forall b :: b in heap && b !in was.heap ==> TakenUp(g, b, r))
    }

    /** The last block has still to join the trace. */
    ghost predicate Growing(was: Stage, seed: int, r: Round, path: seq<int>, bests: seq<int>, cur: int)
      reads this
    {
      && Along(was, seed, r, path, bests) && |bests| == |path| - 1 && cur == path[|path|-1]
      && Building(path, |path| - 1) && FrontierBut(g, visited, heap, newHeap, cur)
      && traces[|chains|].length == |path| - 1 && visited == Marked(was.visited, path[..|path|-1], |traces|)
      && Unvisited(visited) <= Unvisited(was.visited)
    }

    /** A successor has been chosen for the last block, or none. */
    ghost predicate Chosen(was: Stage, seed: int, r: Round, path: seq<int>, bests: seq<int>, cur: int, best: int)
      reads this
    {
      && Along(was, seed, r, path, bests) && |bests| == |path| && bests[|path|-1] == best && cur == path[|path|-1]
      && Building(path, |path|) && FrontierPast(best)
      && traces[|chains|].length == |path| && visited == Marked(was.visited, path, |traces|)
      && Unvisited(visited) < Unvisited(was.visited)
      && (best == -1 ==> Frontier(g, visited, heap, newHeap))
      && (best == -1 || Admissible(g, visited, cur, |traces|, best))
      && (best >= 0 && visited[g.edges[best].dest] != 0 ==> Frontier(g, visited, heap, newHeap))
    }

    lemma StartGrowing(was: Stage, seed: int, r: Round)
      requires was == Now() && Building([seed], 0) && |traces| == |chains| + 1 && traces[|chains|].length == 0
      requires FrontierBut(g, visited, heap, newHeap, seed)
      ensures Growing(was, seed, r, [seed], [], seed)
    {
      hide Heaps, BuildingState, FrontierBut, Grown, Marked;
      GrownStart(g, visited, |traces|, r, s, seed);
      assert [seed][..0] == [];
      assert |visited| == |g.blocks| by {
        BlocksMarked([seed], 0);
      }
    }

    lemma BlocksMarked(path: seq<int>, done: int)
      requires Building(path, done)
      ensures |visited| == |g.blocks|
    {
      hide Heaps, ChainsOk, TablesOk, PathOk;
    }

    /** The last block joins the trace, its successor is chosen, and its other successors are put into the heaps. */
    method ChooseNext(ghost was: Stage, ghost seed: int, r: Round, ghost path: seq<int>, ghost bests0: seq<int>, cur: int)
      returns (best: int, ghost bests: seq<int>)
      requires Growing(was, seed, r, path, bests0, cur)
      modifies `visited, `heap, `newHeap, `heapOf, `traces
      ensures Chosen(was, seed, r, path, bests, cur, best)
      ensures Unvisited(visited) < old(Unvisited(visited))
    {
      hide Heaps, BuildingState, FrontierBut, Frontier, Grown, Marked, Selected, PushToNextRound, TakenUp, Suitable, FrontierUpTo,
           WellFormed;
      assert 0 <= cur < |visited| by {
        EnterBlock(path);
      }
      MarkedMore(was.visited, path, |traces|);
      Enter(path, cur);
      CountVisited(path);
      best := Spread(path, cur, r);
      GrownChoice(g, was.visited, |traces|, r, s, path, bests0, best);
      bests := bests0 + [best];
    }

    lemma ChosenMeans(was: Stage, seed: int, r: Round, path: seq<int>, bests: seq<int>, cur: int, best: int)
      requires Chosen(was, seed, r, path, bests, cur, best)
      ensures path != [] && path[0] == seed && chains == was.chains && g == was.g && startOf == was.startOf
      ensures |traces| == |chains| + 1 && |was.visited| == |visited| == |g.blocks| && |bests| == |path|
      ensures bests[|path|-1] == best && cur == path[|path|-1] && Building(path, |path|) && FrontierPast(best)
      ensures traces[|chains|].length == |path| && visited == Marked(was.visited, path, |traces|)
      ensures Unvisited(visited) < Unvisited(was.visited) && Grown(g, was.visited, |traces|, r, s, path, bests)
      ensures best == -1 ==> Frontier(g, visited, heap, newHeap)
      ensures best == -1 || Admissible(g, visited, cur, |traces|, best)
      ensures best >= 0 && visited[g.edges[best].dest] != 0 ==> Frontier(g, visited, heap, newHeap)
      ensures forall b :: b in newHeap && b !in was.newHeap ==> PushToNextRound(g, b, r)
      ensures forall b :: b in heap && b !in was.heap ==> TakenUp(g, b, r)
    {
      hide Heaps, BuildingState, Frontier, FrontierUpTo, Grown, Marked, PushToNextRound, TakenUp, Admissible;
    }

    lemma GrowingOn(was: Stage, seed: int, r: Round, path: seq<int>, bests: seq<int>, cur: int)
      requires |path| > 1 && cur == path[|path|-1] && path[0] == seed && |bests| == |path| - 1
      requires chains == was.chains && g == was.g && startOf == was.startOf && |traces| == |chains| + 1
      requires |was.visited| == |visited| == |g.blocks| && Building(path, |path| - 1) && FrontierBut(g, visited, heap, newHeap, cur)
      requires traces[|chains|].length == |path| - 1 && visited == Marked(was.visited, path[..|path|-1], |traces|)
      requires Unvisited(visited) <= Unvisited(was.visited)
      requires Grown(g, was.visited, |traces|, r, s, path[..|path|-1], bests)
      requires GoesTo(g, visited, path[|path|-2], bests[|path|-2], cur)
      requires forall b :: b in newHeap && b !in was.newHeap ==> PushToNextRound(g, b, r)
      requires forall b :: b in heap && b !in was.heap ==> TakenUp(g, b, r)
      ensures Growing(was, seed, r, path, bests, cur)
    {
      hide Heaps, BuildingState, FrontierBut, Grown, Marked, PushToNextRound, TakenUp, GoesTo;
      assert path == path[..|path|-1] + [cur];
      GrownNext(g, was.visited, |traces|, r, s, path[..|path|-1], bests, cur);
    }

    ghost function Now(): Stage
      reads this
    {
      Stage(g, visited, startOf, endOf, heap, newHeap, chains)
    }

    lemma EnterBlock(path: seq<int>)
      requires Building(path, |path| - 1)
      ensures 0 <= path[|path|-1] < |visited|
    {
    }

    /** Send bb, just taken out of the heap, to the next round. */
    method Postpone(bb: int)
      requires Valid() && IsBlock(g, bb) && visited[bb] == 0 && heapOf[bb] == NoHeap
      modifies `newHeap, `heapOf
      ensures Valid() && newHeap == old(newHeap)[bb := BbToKey(g, endOf, bb)]
    {
      hide ChainsOk, TablesOk, WellFormed, CrossingMarked, FreshKeys, BbToKey;
      if pristine {
        FreshKeysPut(g, endOf, heap, newHeap, bb);
      }
      newHeap := newHeap[bb := BbToKey(g, endOf, bb)];
      heapOf := heapOf[bb := InHeap(heapId + 1)];
    }

    /** Start the next seed of the round: the waiting block with the smallest key is postponed, or a
        trace is built from it. */
    method NextSeed(r: Round)
      requires Valid() && Frontier(g, visited, heap, newHeap) && heap.Keys != {}
      modifies `g, `visited, `aux, `startOf, `endOf, `heapOf, `heap, `newHeap, `pristine, `traces, `chains
      ensures Valid() && Frontier(g, visited, heap, newHeap)
      ensures old(chains) <= chains
      ensures (Unvisited(visited) == old(Unvisited(visited)) && chains == old(chains) && |heap| < |old(heap)|) ||
              (Unvisited(visited) < old(Unvisited(visited)) && |chains| == |old(chains)| + 1)
      ensures r.number + 1 >= r.rounds ==> newHeap.Keys <= old(newHeap.Keys)
      ensures SeedStep(old(Now()), Now(), r, s)
    {
      hide ChainsOk, TablesOk, WellFormed, CrossingMarked, FreshKeys, BbToKey, Frontier, FrontierBut, Built, Sooner;
      ghost var was := Now();
      var bb := ExtractMin();
      assert |heap| < |old(heap)| by {
        assert old(heap).Keys == heap.Keys + {bb};
      }
      FrontierExtract(g, visited, old(heap), newHeap, bb);
      if PushToNextRound(g, bb, r) {
        FrontierPostpone(g, visited, old(heap), newHeap, bb, BbToKey(g, endOf, bb));
        Postpone(bb);
        assert SeedIs(was, Now(), r, s, bb);
      } else {
        BuildTrace(bb, r);
        assert SeedIs(was, Now(), r, s, bb);
        if r.number + 1 >= r.rounds {
          forall b | b in newHeap ensures b in old(newHeap) {
            assert b in old(newHeap) || PushToNextRound(old(g), b, r);
          }
        }
      }
    }

    /** One round: build traces until no block waits in this round's heap; the next round's heap
        takes its place. */
    method FindTraces1Round(r: Round) returns (ghost stages: seq<Stage>)
      requires Valid() && Frontier(g, visited, heap, newHeap) && newHeap == map[]
      modifies `g, `visited, `aux, `startOf, `endOf, `heapOf, `heap, `newHeap, `heapId, `pristine, `traces, `chains
      ensures Valid() && Frontier(g, visited, heap, newHeap) && newHeap == map[]
      ensures old(chains) <= chains
      ensures |chains| + |Unvisited(visited)| <= |old(chains)| + |old(Unvisited(visited))|
      ensures r.number + 1 >= r.rounds ==> heap == map[]
      ensures stages != [] && RoundRun(stages, r, s) && stages[0] == old(Now()) && Now() == Turned(stages[|stages|-1])
    {
      hide ChainsOk, TablesOk, WellFormed, CrossingMarked, FreshKeys, BbToKey, Frontier, FrontierBut, HeapsOk, Retargeted, SeedStep, TablesOk, Unvisited;
      stages := [Now()];
      while heap.Keys != {}
        invariant stages != [] && stages[0] == old(Now()) && stages[|stages|-1] == Now()
        invariant forall i :: 0 <= i < |stages| - 1 ==> SeedStep(stages[i], stages[i+1], r, s)
        invariant Valid() && Frontier(g, visited, heap, newHeap) && old(chains) <= chains
        invariant |chains| + |Unvisited(visited)| <= |old(chains)| + |old(Unvisited(visited))|
        invariant r.number + 1 >= r.rounds ==> newHeap.Keys == {}
        decreases Unvisited(visited), |heap|
      {
        ghost var u := Unvisited(visited);
        NextSeed(r);
        stages := stages + [Now()];
        SmallerSet(Unvisited(visited), u);
      }
      RoundEnds(g, visited, heapOf, heapId, endOf, heap, newHeap);
      heap := newHeap;
      newHeap := map[];
      heapId := heapId + 1;
    }

    /** Put the entry points of the function into the first heap. */
    method InsertEntries()
      requires Valid() && heap == map[] && newHeap == map[]
      requires forall b :: 0 <= b < |visited| ==> visited[b] == 0
      requires forall i, j :: 0 <= i < j < |g.edges| && g.edges[i].src == g.edges[j].src == ENTRY ==>
                 g.edges[i].dest != g.edges[j].dest
      modifies `heap, `heapOf, `maxEntryFrequency, `maxEntryCount
      ensures Valid() && Frontier(g, visited, heap, newHeap) && newHeap == map[]
      ensures forall b :: b in heap <==> exists j :: 0 <= j < |g.edges| && g.edges[j].src == ENTRY && g.edges[j].dest == b
      ensures EntryMax(g, maxEntryFrequency, maxEntryCount, |g.edges|)
    {
      hide ChainsOk, TablesOk, CrossingMarked, BbToKey, FreshKeys, HeapsOk, Retargeted, CopiesVisited, Frontier, EntryMax, Valid;
      EntriesAre();
      NoMax();
      NoEntries(g);
      for k := 0 to |g.edges|
        invariant Valid() && newHeap == map[] && g == old(g)
        invariant EntryMax(g, maxEntryFrequency, maxEntryCount, k)
        invariant forall j :: 0 <= j < k && g.edges[j].src == ENTRY ==> g.edges[j].dest in heap
        invariant forall b :: b in heap ==> exists j :: 0 <= j < k && g.edges[j].src == ENTRY && g.edges[j].dest == b
      {
        ghost var f, c := maxEntryFrequency, maxEntryCount;
        if g.edges[k].src == ENTRY {
          var d := g.edges[k].dest;
          InsertEntry(d);
          NoteMax(d);
        }
        EntryMaxMore(g, f, c, maxEntryFrequency, maxEntryCount, k);
      }
      EntriesAre();
      FrontierStart(g, visited, heap, newHeap);
    }

    method NoMax()
      requires Valid()
      modifies `maxEntryFrequency, `maxEntryCount
      ensures Valid() && maxEntryFrequency == maxEntryCount == 0
    {
      hide ChainsOk, TablesOk, WellFormed, CrossingMarked, BbToKey, FreshKeys, HeapsOk, Retargeted, CopiesVisited;
      maxEntryFrequency, maxEntryCount := 0, 0;
    }

    /** Remember the frequency and the count of an entry block if they are the greatest so far. */
    method NoteMax(d: int)
      requires Valid() && IsBlock(g, d)
      modifies `maxEntryFrequency, `maxEntryCount
      ensures Valid()
      ensures maxEntryFrequency == if g.blocks[d].frequency > old(maxEntryFrequency) then g.blocks[d].frequency else old(maxEntryFrequency)
      ensures maxEntryCount == if g.blocks[d].count > old(maxEntryCount) then g.blocks[d].count else old(maxEntryCount)
    {
      hide ChainsOk, TablesOk, WellFormed, CrossingMarked, BbToKey, FreshKeys, HeapsOk, Retargeted, CopiesVisited;
      if g.blocks[d].frequency > maxEntryFrequency {
        maxEntryFrequency := g.blocks[d].frequency;
      }
      if g.blocks[d].count > maxEntryCount {
        maxEntryCount := g.blocks[d].count;
      }
    }

    lemma EntriesAre()
      requires Valid()
      ensures WellFormed(g) && |visited| == |g.blocks|
    {
    }

    method InsertEntry(d: int)
      requires Valid() && IsBlock(g, d) && visited[d] == 0 && d !in heap && newHeap == map[]
      modifies `heap, `heapOf
      ensures Valid() && heap == old(heap)[d := BbToKey(g, endOf, d)]
    {
      hide ChainsOk, TablesOk, CrossingMarked, BbToKey, FreshKeys;
      if pristine {
        FreshKeysPut(g, endOf, heap, newHeap, d);
      }
      heap := heap[d := BbToKey(g, endOf, d)];
      heapOf := heapOf[d := InHeap(heapId)];
    }

    /** The rounds, with falling thresholds. */
    method RunRounds() returns (ghost rounds: seq<seq<Stage>>)
      requires Valid() && Frontier(g, visited, heap, newHeap) && newHeap == map[]
      modifies `g, `visited, `aux, `startOf, `endOf, `heapOf, `heap, `newHeap, `heapId, `pristine, `traces, `chains
      ensures Valid() && Frontier(g, visited, heap, newHeap) && heap == map[] && newHeap == map[]
      ensures |chains| + |Unvisited(visited)| <= |old(chains)| + |old(Unvisited(visited))|
      ensures AllRounds(rounds, N_ROUNDS - 1, maxEntryFrequency, maxEntryCount, s)
      ensures |rounds| == N_ROUNDS - 1 && rounds[0] != [] && rounds[0][0] == old(Now())
      ensures rounds[N_ROUNDS-2] != [] && Now() == Turned(rounds[N_ROUNDS-2][|rounds[N_ROUNDS-2]|-1])
    {
      hide Valid, Frontier, RoundRun, Unvisited;
      rounds := [];
      ghost var start := Now();
      var n := N_ROUNDS - 1;
      for i := 0 to n
        invariant Valid() && Frontier(g, visited, heap, newHeap) && newHeap == map[]
        invariant |chains| + |Unvisited(visited)| <= |old(chains)| + |old(Unvisited(visited))|
        invariant i == n ==> heap == map[]
        invariant AllRounds(rounds, i, maxEntryFrequency, maxEntryCount, s)
        invariant i > 0 ==> rounds[0][0] == start
        invariant Now() == if i == 0 then start else Turned(rounds[i-1][|rounds[i-1]|-1])
      {
        var r := Round(i, n, CDiv(REG_BR_PROB_BASE * BRANCH_THRESHOLD[i], 1000),
                       CDiv(maxEntryFrequency * EXEC_THRESHOLD[i], 1000),
                       CountThreshold(maxEntryCount, EXEC_THRESHOLD[i]));
        ghost var stages := FindTraces1Round(r);
        rounds := rounds + [stages];
      }
    }

    /** Split the whole reachable graph into traces, in rounds of falling thresholds. */
    method FindTraces() returns (ghost rounds: seq<seq<Stage>>)
      requires Valid() && heap == map[] && newHeap == map[] && chains == []
      requires forall b :: 0 <= b < |visited| ==> visited[b] == 0
      requires forall i, j :: 0 <= i < j < |g.edges| && g.edges[i].src == g.edges[j].src == ENTRY ==>
                 g.edges[i].dest != g.edges[j].dest
      modifies this
      ensures Valid() && heap == map[] && newHeap == map[] && Frontier(g, visited, map[], map[])
      ensures forall b :: Reachable(g, b) || Reachable(g0, b) ==> IsBlock(g, b) && visited[b] != 0
      ensures forall b :: IsBlock(g, b) && visited[b] != 0 ==> InOneChain(chains, b)
      ensures forall k, b :: 0 <= k < |chains| && b in chains[k] ==> IsBlock(g, b) && InOneChain(chains, b)
      ensures |traces| == |chains| <= old(|g.blocks|) && connecting == old(connecting)
      ensures EntryMax(old(g), maxEntryFrequency, maxEntryCount, |old(g).edges|)
      ensures AllRounds(rounds, N_ROUNDS - 1, maxEntryFrequency, maxEntryCount, s) && StartsAtEntries(old(Now()), rounds[0][0])
      ensures Now() == Turned(rounds[N_ROUNDS-2][|rounds[N_ROUNDS-2]|-1])
    {
      hide ChainsOk, TablesOk, WellFormed, CrossingMarked, FreshKeys, BbToKey, Frontier, HeapsOk, Retargeted, AllRounds, EntryMax,
           StartsAtEntries, Enters;
      InsertEntries();
      EntriesWait(old(Now()), Now());
      rounds := RunRounds();
      ReachableVisited(g, visited);
      FrontierOriginal(g0, g, visited);
      ReachableVisited(g0, visited);
      VisitedInOneChain(g, aux, visited, chains);
      UnvisitedBound(old(visited));
    }
  }

  /** Block b lies in exactly one chain, at exactly one place. */
  ghost predicate InOneChain(chains: seq<seq<int>>, b: int) {
    exists k, i :: 0 <= k < |chains| && 0 <= i < |chains[k]| && chains[k][i] == b &&
                   forall k', i' :: 0 <= k' < |chains| && 0 <= i' < |chains[k']| && chains[k'][i'] == b ==>
                                    k' == k && i' == i
  }

  lemma BlockInOneChain(g: Graph, aux: seq<int>, visited: seq<nat>, chains: seq<seq<int>>, b: int, k: nat,
                        i: nat)
    requires |aux| == |visited| == |g.blocks| && ChainsOk(g, aux, visited, chains)
    requires k < |chains| && i < |chains[k]| && chains[k][i] == b
    ensures IsBlock(g, b) && InOneChain(chains, b)
  {
    assert ChainOk(g, aux, visited, chains[k], k + 1);
    assert visited[b] == k + 1;
    forall k', i' | 0 <= k' < |chains| && 0 <= i' < |chains[k']| && chains[k'][i'] == b
      ensures k' == k && i' == i
    {
      assert ChainOk(g, aux, visited, chains[k'], k' + 1);
      assert visited[chains[k'][i']] == k' + 1;
    }
  }

  lemma VisitedInOneChain(g: Graph, aux: seq<int>, visited: seq<nat>, chains: seq<seq<int>>)
    requires |aux| == |visited| == |g.blocks| && ChainsOk(g, aux, visited, chains)
    requires forall b :: 0 <= b < |visited| ==> visited[b] <= |chains|
    ensures forall b :: IsBlock(g, b) && visited[b] != 0 ==> InOneChain(chains, b)
    ensures forall k, b :: 0 <= k < |chains| && b in chains[k] ==> IsBlock(g, b) && InOneChain(chains, b)
  {
    hide ChainOk, InOneChain;
    forall b | IsBlock(g, b) && visited[b] != 0
      ensures InOneChain(chains, b)
    {
      var k := visited[b] - 1;
      var i :| 0 <= i < |chains[k]| && chains[k][i] == b;
      BlockInOneChain(g, aux, visited, chains, b, k, i);
    }
    forall k, b | 0 <= k < |chains| && b in chains[k]
      ensures IsBlock(g, b) && InOneChain(chains, b)
    {
      var i :| 0 <= i < |chains[k]| && chains[k][i] == b;
      BlockInOneChain(g, aux, visited, chains, b, k, i);
    }
  }

  function Range(n: nat): (r: set<int>)
    ensures |r| == n && forall b :: b in r <==> 0 <= b < n
  {
    if n == 0 then {} else Range(n - 1) + {n - 1}
  }

  lemma UnvisitedBound(visited: seq<nat>)
    ensures |Unvisited(visited)| <= |visited|
  {
    SmallerSet(Unvisited(visited), Range(|visited|));
  }

  lemma SmallerSet(a: set<int>, b: set<int>)
    requires a <= b
    ensures |a| <= |b| && (a != b ==> |a| < |b|)
  {
    assert b == a + (b - a);
    assert |b| == |a| + |b - a|;
    if a != b {
      assert b - a != {};
    }
  }

  lemma FrontierExtract(g: Graph, visited: seq<nat>, heap: map<int, int>, newHeap: map<int, int>, bb: int)
    requires Frontier(g, visited, heap, newHeap)
    ensures FrontierBut(g, visited, heap - {bb}, newHeap, bb)
  {
  }

  lemma FrontierPostpone(g: Graph, visited: seq<nat>, heap: map<int, int>, newHeap: map<int, int>, bb: int,
                         key: int)
    requires Frontier(g, visited, heap, newHeap)
    ensures Frontier(g, visited, heap - {bb}, newHeap[bb := key])
  {
    forall k | 0 <= k < |g.edges| && Source(visited, g.edges[k].src)
      ensures Covered(visited, heap - {bb}, newHeap[bb := key], g.edges[k].dest)
    {
      assert Covered(visited, heap, newHeap, g.edges[k].dest);
    }
  }

  lemma RoundEnds(g: Graph, visited: seq<nat>, heapOf: seq<HeapRef>, heapId: nat, endOf: seq<int>,
                  heap: map<int, int>, newHeap: map<int, int>)
    requires HeapsOk(visited, heapOf, heapId, heap, newHeap) && heap.Keys == {}
    ensures HeapsOk(visited, heapOf, heapId + 1, newHeap, map[])
    ensures Frontier(g, visited, heap, newHeap) ==> Frontier(g, visited, newHeap, map[])
    ensures FreshKeys(g, endOf, heap, newHeap) ==> FreshKeys(g, endOf, newHeap, map[])
  {
  }

  /** Block b of the graph waits for the next round. */
  predicate PushToNextRound(g: Graph, b: int, r: Round) {
    IsBlock(g, b) && PushToNextRoundP(g, b, r)
  }

  lemma OnlySuccessor(g: Graph, b: int, d: int, e: int)
    requires SingleSucc(g, b) && HasEdge(g, b, d) && 0 <= e < |g.edges| && g.edges[e].src == b
    ensures g.edges[e].dest == d
  {
    var k :| 0 <= k < |g.edges| && g.edges[k].src == b && g.edges[k].dest == d;
    SingleSuccUnique(g, b, |g.edges|, k, e);
  }

  lemma CutTables(traces: seq<Trace>, startOf: seq<int>, endOf: seq<int>, chains: seq<seq<int>>, t: Trace)
    requires TablesOk(traces, startOf, endOf, chains) && |traces| > |chains|
    ensures TablesOk(traces[|chains| := t], startOf, endOf, chains)
  {
    TablesOkCount(traces, startOf, endOf, chains, t);
  }

  /** Relinking blocks of the trace under construction. */
  lemma CutChains(g: Graph, aux: seq<int>, visited: seq<nat>, chains: seq<seq<int>>, aux': seq<int>,
                  path: seq<int>)
    requires |aux| == |visited| == |g.blocks| == |aux'|
    requires ChainsOk(g, aux, visited, chains)
    requires forall b :: b in path ==> 0 <= b < |visited| && visited[b] == |chains| + 1
    requires forall b :: 0 <= b < |aux| && b !in path ==> aux'[b] == aux[b]
    ensures ChainsOk(g, aux', visited, chains)
  {
    ChainsOkFrame(g, aux, visited, chains, g, aux', visited);
  }

  lemma CutChain(g: Graph, aux: seq<int>, visited: seq<nat>, path: seq<int>, h: nat, j: nat, id: nat)
    requires |aux| == |visited| == |g.blocks| && h <= j < |path| && h < |path| - 1
    requires Linked(aux, path) && Distinct(path) && aux[path[|path|-1]] == path[h]
    requires forall i :: 0 <= i < |path| ==> visited[path[i]] == id
    requires forall i :: 0 <= i < |path| ==> g.blocks[path[i]].partition == g.blocks[path[0]].partition
    requires forall b :: 0 <= b < |visited| && visited[b] == id ==> b in path
    ensures var a := (if h == 0 then aux else aux[path[h-1] := aux[path[j]]])[path[j] := NIL];
      ChainOk(g, a, visited, Rotated(path, h, j), id)
    ensures forall b :: 0 <= b < |visited| && visited[b] == id ==> b in Rotated(path, h, j)
  {
    RotatedLinked(aux, path, h, j);
    RotatedDistinct(path, h, j);
    RotatedSpec(path, h, j);
    forall i | 0 <= i < |path| ensures Rotated(path, h, j)[i] in path {
      RotatedElements(path, h, j, Rotated(path, h, j)[i]);
    }
    forall b | b in path ensures b in Rotated(path, h, j) {
      RotatedElements(path, h, j, b);
    }
  }

  /** The finished trace is the rotated path, or that with the copy dup between prefix and loop. */
  ghost predicate LoopChain(path: seq<int>, h: nat, j: nat, dup: int, chain: seq<int>)
    requires h <= j < |path|
  {
    var r := Rotated(path, h, j);
    chain == r || (h > 0 && chain == r[..h] + [dup] + r[h..])
  }

  /** The loop closed by edge k has at least four iterations and does not start the function: it is rotated. */
  predicate Rotates(g: Graph, s: Settings, k: int)
    requires 0 <= k < |g.edges| && IsBlock(g, g.edges[k].dest)
  {
    var e := g.edges[k];
    e.dest != e.src && EdgeFrequency(g, e) > CDiv(4 * g.blocks[e.dest].frequency, 5) && e.dest != s.firstBb
  }

  /** The loop closed by edge k is a rare one whose header is copied to its end. */
  predicate CopiesEnd(g: Graph, s: Settings, k: int)
    requires 0 <= k < |g.edges| && IsBlock(g, g.edges[k].dest)
  {
    var e := g.edges[k];
    && e.dest != e.src && EdgeFrequency(g, e) <= CDiv(4 * g.blocks[e.dest].frequency, 5)
    && SingleSucc(g, e.src) && CopyBbP(g, e.dest, !s.optimizeSize, s.jumpLength, s.growFactor)
  }

  /** Of the times that the header is entered more than four fifths come over the edge that closes the loop, or not. */
  lemma LoopKinds(g: Graph, s: Settings, k: int)
    requires 0 <= k < |g.edges| && IsBlock(g, g.edges[k].dest) && g.blocks[g.edges[k].dest].frequency >= 0
    ensures var e := g.edges[k];
            var often := 5 * EdgeFrequency(g, e) > 4 * g.blocks[e.dest].frequency;
            && (Rotates(g, s, k) <==> often && e.dest != e.src && e.dest != s.firstBb)
            && (CopiesEnd(g, s, k) <==> !often && e.dest != e.src && SingleSucc(g, e.src)
                                        && CopyBbP(g, e.dest, !s.optimizeSize, s.jumpLength, s.growFactor))
  {
    hide EdgeFrequency;
    var x, f := EdgeFrequency(g, g.edges[k]), 4 * g.blocks[g.edges[k].dest].frequency;
    assert f == 5 * (f / 5) + f % 5 && CDiv(f, 5) == f / 5;
  }

  /** The block at position j can leave the trace, over a preferred edge if the loop has one and over one that no
      later edge beats; only when no loop block can leave does the trace keep its end. */
  ghost predicate EndsAtExit(g: Graph, visited: seq<nat>, startOf: seq<int>, id: nat, path: seq<int>, h: nat,
                             j: nat, found: bool)
    requires h <= j < |path|
  {
    if !found then
      j == |path| - 1 && forall i :: h <= i < |path| ==>
        Dominates(g, visited, startOf, id, path[i], |g.edges|, Exit(-1, NIL, -1, -1, false))
    else
      (exists best: Exit :: best.edge >= 0 && best.bb == path[j] &&
          ExitOk(g, visited, startOf, id, path, best) && LastBest(g, visited, startOf, id, path[h..], best) &&
          GreatestIfAny(g, visited, startOf, id, path[h..], best) &&
          forall i :: h <= i < |path| ==> Dominates(g, visited, startOf, id, path[i], |g.edges|, best))
  }

  // ---------- the stages of trace construction ----------

  /** The graph, the marks, where traces start and end, the heaps, and the finished traces. */
  datatype Stage = Stage(g: Graph, visited: seq<nat>, startOf: seq<int>, endOf: seq<int>, heap: map<int, int>,
                         newHeap: map<int, int>, chains: seq<seq<int>>)

  /** Some edge takes b up in this round. */
  ghost predicate TakenUp(g: Graph, b: int, r: Round) {
    IsBlock(g, b) && exists k :: 0 <= k < |g.edges| && g.edges[k].dest == b && !(WeakEdge(g, g.edges[k], r) && PushToNextRoundP(g, b, r))
  }

  /** What becomes of the blocks of a trace: they are the chain as they are, or its loop is rotated or its header copied. */
  ghost predicate ClosedAs(g: Graph, visited: seq<nat>, startOf: seq<int>, id: nat, s: Settings, path: seq<int>, best: int,
                           chain: seq<int>)
  {
    if !(0 <= best < |g.edges| && IsBlock(g, g.edges[best].dest)) then chain == path
    else
      && (!Rotates(g, s, best) && !CopiesEnd(g, s, best) ==> chain == path)
      && (CopiesEnd(g, s, best) ==> chain == path + [|g.blocks|])
      && (Rotates(g, s, best) ==> exists h, j, found ::
            0 <= h <= j < |path| && path[h] == g.edges[best].dest && LoopChain(path, h, j, |g.blocks|, chain)
            && EndsAtExit(g, visited, startOf, id, path, h, j, found))
  }

  lemma ClosedPlain(g: Graph, visited: seq<nat>, startOf: seq<int>, id: nat, s: Settings, path: seq<int>)
    ensures ClosedAs(g, visited, startOf, id, s, path, -1, path) && Closes(g, visited, id, -1)
  {
  }

  lemma ClosedLoop(g: Graph, visited: seq<nat>, startOf: seq<int>, id: nat, s: Settings, path: seq<int>, best: int,
                   chain: seq<int>)
    requires 0 <= best < |g.edges| && IsBlock(g, g.edges[best].dest) && g.edges[best].dest < |visited|
    requires visited[g.edges[best].dest] == id
    requires !Rotates(g, s, best) && !CopiesEnd(g, s, best) ==> chain == path
    requires CopiesEnd(g, s, best) ==> chain == path + [|g.blocks|]
    requires Rotates(g, s, best) ==> exists h, j, found ::
               0 <= h <= j < |path| && path[h] == g.edges[best].dest && LoopChain(path, h, j, |g.blocks|, chain)
               && EndsAtExit(g, visited, startOf, id, path, h, j, found)
    ensures ClosedAs(g, visited, startOf, id, s, path, best, chain) && Closes(g, visited, id, best)
  {
    hide Rotates, CopiesEnd, EndsAtExit, LoopChain;
  }

  /** The waiting block bb, which has the least key, is sent to the next round, or a trace is built from it. */
  ghost predicate SeedIs(a: Stage, b: Stage, r: Round, s: Settings, bb: int) {
    && bb in a.heap && IsBlock(a.g, bb) && (forall x :: x in a.heap ==> a.heap[bb] <= a.heap[x])
    && if PushToNextRound(a.g, bb, r)
       then b == a.(heap := a.heap - {bb}, newHeap := a.newHeap[bb := BbToKey(a.g, a.endOf, bb)])
       else Built(a.(heap := a.heap - {bb}), b, r, s, bb)
  }

  ghost predicate SeedStep(a: Stage, b: Stage, r: Round, s: Settings) {
    exists bb :: SeedIs(a, b, r, s, bb)
  }

  /** A round: seed after seed until none waits. */
  ghost predicate RoundRun(stages: seq<Stage>, r: Round, s: Settings) {
    && stages != [] && (forall i :: 0 <= i < |stages| - 1 ==> SeedStep(stages[i], stages[i+1], r, s))
    && stages[|stages|-1].heap.Keys == {}
  }

  /** The next round's heap takes the place of this round's. */
  ghost function Turned(a: Stage): Stage {
    a.(heap := a.newHeap, newHeap := map[])
  }

  /** The thresholds of round i. */
  function RoundOf(i: nat, maxFrequency: int, maxCount: int): Round
    requires i < N_ROUNDS
  {
    Round(i, N_ROUNDS - 1, CDiv(REG_BR_PROB_BASE * BRANCH_THRESHOLD[i], 1000), CDiv(maxFrequency * EXEC_THRESHOLD[i], 1000),
          CountThreshold(maxCount, EXEC_THRESHOLD[i]))
  }

  /** The first n rounds, each from where the one before has ended. */
  ghost predicate AllRounds(rounds: seq<seq<Stage>>, n: nat, maxFrequency: int, maxCount: int, s: Settings) {
    && |rounds| == n <= N_ROUNDS
    && (forall i :: 0 <= i < n ==> rounds[i] != [] && RoundRun(rounds[i], RoundOf(i, maxFrequency, maxCount), s))
    && (forall i :: 0 < i < n ==> rounds[i][0] == Turned(rounds[i-1][|rounds[i-1]|-1]))
  }

  /** The blocks that ENTRY leads to wait, and nothing else has changed. */
  ghost predicate StartsAtEntries(a: Stage, b: Stage) {
    && b == a.(heap := b.heap)
    && forall x :: x in b.heap <==> exists j :: 0 <= j < |a.g.edges| && a.g.edges[j].src == ENTRY && a.g.edges[j].dest == x
  }

  lemma EntriesWait(a: Stage, b: Stage)
    requires b == a.(heap := b.heap)
    requires forall x :: x in b.heap <==> exists j :: 0 <= j < |a.g.edges| && a.g.edges[j].src == ENTRY && a.g.edges[j].dest == x
    ensures StartsAtEntries(a, b)
  {
  }

  /** The greatest frequency and the greatest count of a block that one of the first n edges enters from ENTRY (0: none). */
  ghost predicate EntryMax(g: Graph, f: int, c: int, n: int) {
    && f >= 0 && c >= 0
    && (forall k :: 0 <= k < n && Enters(g, k) ==> g.blocks[g.edges[k].dest].frequency <= f && g.blocks[g.edges[k].dest].count <= c)
    && (f == 0 || exists k :: 0 <= k < n && Enters(g, k) && g.blocks[g.edges[k].dest].frequency == f)
    && (c == 0 || exists k :: 0 <= k < n && Enters(g, k) && g.blocks[g.edges[k].dest].count == c)
  }

  /** Edge k leads from ENTRY to a block. */
  predicate Enters(g: Graph, k: int) {
    0 <= k < |g.edges| && g.edges[k].src == ENTRY && IsBlock(g, g.edges[k].dest)
  }

  lemma NoEntries(g: Graph)
    ensures EntryMax(g, 0, 0, 0)
  {
  }

  lemma EntryMaxMore(g: Graph, f: int, c: int, f': int, c': int, n: nat)
    requires EntryMax(g, f, c, n) && n < |g.edges|
    requires Enters(g, n) ==> && f' == (if g.blocks[g.edges[n].dest].frequency > f then g.blocks[g.edges[n].dest].frequency else f)
                              && c' == (if g.blocks[g.edges[n].dest].count > c then g.blocks[g.edges[n].dest].count else c)
    requires !Enters(g, n) ==> f' == f && c' == c
    ensures EntryMax(g, f', c', n + 1)
  {
  }

  /** One trace has been built from seed. */
  ghost predicate Built(a: Stage, b: Stage, r: Round, s: Settings, seed: int) {
    exists path: seq<int>, bests: seq<int> :: BuiltAlong(a, b, r, s, seed, path, bests)
  }

  ghost predicate BuiltAlong(a: Stage, b: Stage, r: Round, s: Settings, seed: int, path: seq<int>, bests: seq<int>) {
    var id := |a.chains| + 1;
    && |path| == |bests| > 0 && path[0] == seed && Grown(a.g, a.visited, id, r, s, path, bests)
    && Closes(a.g, Marked(a.visited, path, id), id, bests[|bests|-1])
    && (b.visited == Marked(a.visited, path, id) || b.visited == Marked(a.visited, path, id) + [id])
    && |b.chains| == |a.chains| + 1 && b.chains[..|a.chains|] == a.chains
    && ClosedAs(a.g, Marked(a.visited, path, id), a.startOf, id, s, path, bests[|bests|-1], b.chains[|a.chains|])
    && (forall x :: x in b.newHeap && x !in a.newHeap ==> PushToNextRound(a.g, x, r))
    && (forall x :: x in b.heap && x !in a.heap ==> TakenUp(a.g, x, r))
  }

  lemma ItIsBuilt(a: Stage, b: Stage, r: Round, s: Settings, seed: int, path: seq<int>, bests: seq<int>, chain: seq<int>,
                  id: nat)
    requires id == |a.chains| + 1 && |path| == |bests| > 0 && path[0] == seed && Grown(a.g, a.visited, id, r, s, path, bests)
    requires Closes(a.g, Marked(a.visited, path, id), id, bests[|bests|-1])
    requires b.visited == Marked(a.visited, path, id) || b.visited == Marked(a.visited, path, id) + [id]
    requires b.chains == a.chains + [chain]
    requires ClosedAs(a.g, Marked(a.visited, path, id), a.startOf, id, s, path, bests[|bests|-1], chain)
    requires forall x :: x in b.newHeap && x !in a.newHeap ==> PushToNextRound(a.g, x, r)
    requires forall x :: x in b.heap && x !in a.heap ==> TakenUp(a.g, x, r)
    ensures Built(a, b, r, s, seed)
  {
    hide Grown, Closes, ClosedAs, Marked, PushToNextRound, TakenUp;
    assert BuiltAlong(a, b, r, s, seed, path, bests);
  }

  /** DuplicateBlock, known only by what it does to the flow graph. */
  method Duplicate(g: Graph, orig: int, e: nat, after: int) returns (h: Graph)
    requires WellFormed(g) && CrossingMarked(g) && IsBlock(g, orig) && e < |g.edges| && g.edges[e].dest == orig
    requires forall k :: 0 <= k < |g.edges| ==> g.edges[k].probability >= 0
    ensures h == DuplicateBlock(g, orig, e, after)
    ensures Duplicated(g, h, orig, e) && WellFormed(h) && CrossingMarked(h) && |h.blocks| == |g.blocks| + 1
    ensures forall k :: 0 <= k < |h.edges| ==> h.edges[k].probability >= 0
  {
    h := DuplicateBlock(g, orig, e, after);
    DuplicateBlockDuplicates(g, orig, e, after);
    DuplicatedWellFormed(g, h, orig, e);
    DuplicatedCrossing(g, h, orig, e);
    DuplicatedProbabilities(g, h, orig, e);
  }

  /** Some block that best skips over is next. */
  ghost predicate SkipsAheadTo(g: Graph, visited: seq<nat>, bb: int, best: int, next: int)
    requires |visited| == |g.blocks| && WellFormed(g)
    requires 0 <= best < |g.edges| && IsBlock(g, g.edges[best].dest)
  {
    exists k :: 0 <= k < |g.edges| && g.edges[k].dest == next && SkipsAhead(g, visited, bb, best, k)
  }

  lemma PathEnd(g: Graph, aux: seq<int>, visited: seq<nat>, startOf: seq<int>, endOf: seq<int>, traces: seq<Trace>,
                chains: seq<seq<int>>, path: seq<int>)
    requires BuildingState(g, aux, visited, startOf, endOf, traces, chains, path, |path|)
    ensures |aux| == |visited| == |g.blocks| && |path| > 0 && IsBlock(g, path[|path|-1])
  {
    hide ChainsOk, TablesOk;
  }

  /** The block that edge k leads to is linked after the path. */
  lemma ExtendState(g: Graph, aux: seq<int>, visited: seq<nat>, startOf: seq<int>, endOf: seq<int>, traces: seq<Trace>,
                    chains: seq<seq<int>>, path: seq<int>, k: int)
    requires BuildingState(g, aux, visited, startOf, endOf, traces, chains, path, |path|) && |path| > 0
    requires 0 <= k < |g.edges| && g.edges[k].src == path[|path|-1] && IsBlock(g, g.edges[k].dest)
    requires |visited| == |g.blocks| && visited[g.edges[k].dest] == 0
    requires IsBlock(g, path[|path|-1]) && g.blocks[g.edges[k].dest].partition == g.blocks[path[|path|-1]].partition
    ensures |aux| == |g.blocks|
    ensures BuildingState(g, aux[path[|path|-1] := g.edges[k].dest], visited, startOf, endOf, traces, chains,
                          path + [g.edges[k].dest], |path|)
  {
    hide TablesOk, ChainsOk;
    var cur, next := path[|path|-1], g.edges[k].dest;
    assert HasEdge(g, cur, next);
    ChainsOkFrame(g, aux, visited, chains, g, aux[cur := next], visited);
    PathOkExtend(g, aux, visited, path, next, |traces|);
  }

  lemma PathOkExtend(g: Graph, aux: seq<int>, visited: seq<nat>, path: seq<int>, next: int, id: nat)
    requires |aux| == |visited| == |g.blocks| && id > 0
    requires PathOk(g, aux, visited, path, |path|, id)
    requires IsBlock(g, next) && visited[next] == 0 && aux[next] == NIL
    requires HasEdge(g, path[|path|-1], next)
    requires g.blocks[next].partition == g.blocks[path[|path|-1]].partition
    ensures PathOk(g, aux[path[|path|-1] := next], visited, path + [next], |path|, id)
  {
    var cur := path[|path|-1];
    var aux' := aux[cur := next];
    var p := path + [next];
    LinkedUpdate(aux, path, cur, next);
    LinkedConcat(aux', path, [next]);
    assert p[..|path|] == path && path[..|path|] == path;
    forall i | 0 < i < |p| ensures HasEdge(g, p[i-1], p[i]) {
      if i < |path| {
        assert p[i-1] == path[i-1] && p[i] == path[i];
      }
    }
  }

  ghost predicate FrontierUpTo(g: Graph, visited: seq<nat>, heap: map<int, int>, newHeap: map<int, int>,
                               best: int)
  {
    forall k :: 0 <= k < |g.edges| && Source(visited, g.edges[k].src) ==>
      var d := g.edges[k].dest;
      Covered(visited, heap, newHeap, d) || (0 <= best < |g.edges| && d == g.edges[best].dest)
  }

  lemma FrontierSpread(g: Graph, visited: seq<nat>, h0: map<int, int>, n0: map<int, int>, h: map<int, int>,
                       n: map<int, int>, cur: int, best: int)
    requires h0.Keys <= h.Keys && n0.Keys <= n.Keys && |visited| == |g.blocks| && WellFormed(g)
    requires forall k :: 0 <= k < |g.edges| && Source(visited, g.edges[k].src) ==>
               Covered(visited, h0, n0, g.edges[k].dest) || HasEdge(g, cur, g.edges[k].dest)
    requires forall k :: 0 <= k < |g.edges| && g.edges[k].src == cur && k != best && g.edges[k].dest != EXIT
                         && IsBlock(g, g.edges[k].dest) && visited[g.edges[k].dest] == 0 ==>
               g.edges[k].dest in h.Keys + n.Keys
    ensures FrontierUpTo(g, visited, h, n, best)
    ensures best == -1 ==> Frontier(g, visited, h, n)
    ensures 0 <= best < |g.edges| && IsBlock(g, g.edges[best].dest) && visited[g.edges[best].dest] != 0 ==>
              Frontier(g, visited, h, n)
  {
    forall k | 0 <= k < |g.edges| && Source(visited, g.edges[k].src)
      ensures Covered(visited, h, n, g.edges[k].dest) ||
              (0 <= best < |g.edges| && g.edges[k].dest == g.edges[best].dest)
    {
      var d := g.edges[k].dest;
      if !Covered(visited, h0, n0, d) {
        var j :| 0 <= j < |g.edges| && g.edges[j].src == cur && g.edges[j].dest == d;
      }
    }
  }

  lemma FrontierExtend(g: Graph, visited: seq<nat>, heap: map<int, int>, newHeap: map<int, int>, d: int,
                       next: int)
    requires forall k :: 0 <= k < |g.edges| && Source(visited, g.edges[k].src) ==>
               Covered(visited, heap, newHeap, g.edges[k].dest) || g.edges[k].dest == d
    requires next == d || HasEdge(g, next, d)
    ensures FrontierBut(g, visited, heap, newHeap, next)
  {
  }

  lemma FrontierKeys(g: Graph, visited: seq<nat>, heap: map<int, int>, newHeap: map<int, int>, heap': map<int, int>,
                     newHeap': map<int, int>)
    requires Frontier(g, visited, heap, newHeap) && heap'.Keys == heap.Keys && newHeap'.Keys == newHeap.Keys
    ensures Frontier(g, visited, heap', newHeap')
  {
    forall k | 0 <= k < |g.edges| && Source(visited, g.edges[k].src)
      ensures Covered(visited, heap', newHeap', g.edges[k].dest)
    {
      assert Covered(visited, heap, newHeap, g.edges[k].dest);
      assert forall b :: (b in heap <==> b in heap'.Keys) && (b in newHeap <==> b in newHeap'.Keys);
    }
  }

  lemma FrontierStart(g: Graph, visited: seq<nat>, heap: map<int, int>, newHeap: map<int, int>)
    requires |visited| == |g.blocks| && forall b :: 0 <= b < |visited| ==> visited[b] == 0
    requires WellFormed(g) && forall j :: 0 <= j < |g.edges| && g.edges[j].src == ENTRY ==> g.edges[j].dest in heap
    ensures Frontier(g, visited, heap, newHeap)
  {
  }

  lemma PathOkEnter(g: Graph, aux: seq<int>, visited: seq<nat>, path: seq<int>, id: nat)
    requires |aux| == |visited| == |g.blocks|
    requires PathOk(g, aux, visited, path, |path| - 1, id)
    ensures PathOk(g, aux, visited[path[|path|-1] := id], path, |path|, id)
  {
    hide HasEdge;
    var cur := path[|path|-1];
    var v := visited[cur := id];
    assert path[..|path|] == path;
    forall b | 0 <= b < |v| && v[b] == id ensures b in path[..|path|] {
      if b != cur {
        assert b in path[..|path|-1];
      }
    }
  }

  lemma FrontierEnter(g: Graph, visited: seq<nat>, heap: map<int, int>, newHeap: map<int, int>, cur: int,
                      id: nat)
    requires 0 <= cur < |visited| && id > 0
    requires FrontierBut(g, visited, heap, newHeap, cur)
    ensures var v := visited[cur := id];
            forall k :: 0 <= k < |g.edges| && Source(v, g.edges[k].src) ==>
              Covered(v, heap - {cur}, newHeap - {cur}, g.edges[k].dest) || HasEdge(g, cur, g.edges[k].dest)
  {
  }

  lemma EmptySet<T>(s: set<T>)
    requires forall x :: x !in s
    ensures s == {}
  {
    assert s == {};
  }

  lemma AnyElement(s: set<int>)
    requires s != {}
    ensures exists x :: x in s
  {
    if forall x :: x !in s {
      EmptySet(s);
    }
  }

  lemma {:induction false} MinExists(h: map<int, int>) returns (m: int)
    requires h.Keys != {}
    ensures m in h && forall c :: c in h ==> h[m] <= h[c]
  {
    AnyElement(h.Keys);
    var x :| x in h.Keys;
    var rest := h - {x};
    m := x;
    if rest.Keys != {} {
      var n := MinExists(rest);
      if h[n] < h[x] {
        m := n;
      }
    }
    forall c | c in h ensures h[m] <= h[c] {
      assert c == x || c in rest.Keys;
    }
  }
}
