/** The whole pass, and the check that the layout changes section at most once. */
module Pass {
  import opened Cfg
  import opened Unfolding
  import opened Traces
  import opened Selection
  import opened Layout
  import opened Reordering
  import opened Connection

  /** Position i starts a section different from that of its predecessor. */
  predicate Switches(g: Graph, layout: seq<int>, i: int) {
    && 0 < i < |layout| && IsBlock(g, layout[i-1]) && IsBlock(g, layout[i])
    && g.blocks[layout[i-1]].partition != g.blocks[layout[i]].partition
  }

  ghost predicate SwitchesAtMostOnce(g: Graph, layout: seq<int>) {
    forall i, j :: Switches(g, layout, i) && Switches(g, layout, j) ==> i == j
  }

  lemma OneSectionNoSwitch(g: Graph, layout: seq<int>, cut: nat, a: Partition, b: Partition, i: nat)
    requires cut <= |layout| && TwoSections(g, layout, cut, a, b) && 0 < i < |layout| && i != cut
    ensures !Switches(g, layout, i)
  {
    if i < cut {
      assert layout[i-1] in layout[..cut] && layout[i] in layout[..cut];
    } else {
      assert layout[i-1] == layout[cut..][i-1-cut] && layout[i] == layout[cut..][i-cut];
    }
  }

  lemma TwoSectionsSwitchOnce(g: Graph, layout: seq<int>, cut: nat, a: Partition, b: Partition)
    requires cut <= |layout| && TwoSections(g, layout, cut, a, b)
    ensures SwitchesAtMostOnce(g, layout)
  {
    hide TwoSections;
    forall i | 0 < i < |layout| && i != cut ensures !Switches(g, layout, i) {
      OneSectionNoSwitch(g, layout, cut, a, b, i);
    }
  }

  /** The block after position i of a chained layout. */
  lemma NextBlock(g: Graph, aux: seq<int>, layout: seq<int>, i: nat)
    requires |aux| == |g.blocks| && Chained(aux, layout) && i < |layout|
    ensures IsBlock(g, layout[i])
    ensures aux[layout[i]] == if i + 1 < |layout| then layout[i+1] else NIL
  {
  }

  /** Walk the chain of blocks from first and report whether the section changes twice. */
  method VerifyHotColdBlockGrouping(g: Graph, aux: seq<int>, first: int, ghost layout: seq<int>)
    returns (err: bool)
    requires |aux| == |g.blocks| && Chained(aux, layout) && layout[0] == first
    requires forall i :: 0 <= i < |layout| && IsBlock(g, layout[i]) ==> g.blocks[layout[i]].partition != Unpartitioned
    ensures err <==> !SwitchesAtMostOnce(g, layout)
  {
    NextBlock(g, aux, layout, 0);
    hide Chained;
    err := false;
    var switched, current := false, Unpartitioned;
    var bb := first;
    ghost var i := 0;
    ghost var at := 0;
    while bb != NIL
      invariant 0 <= i <= |layout| && bb == (if i < |layout| then layout[i] else NIL)
      invariant i < |layout| ==> IsBlock(g, bb)
      invariant i == 0 <==> current == Unpartitioned
      invariant switched ==> Switches(g, layout, at) && at < i
      invariant !switched ==> forall j :: 0 <= j < i ==> !Switches(g, layout, j)
      invariant !err ==> forall j :: 0 <= j < i && Switches(g, layout, j) ==> j == at
      invariant !err && i > 0 ==> IsBlock(g, layout[i-1]) && current == g.blocks[layout[i-1]].partition
      invariant err ==> switched && !SwitchesAtMostOnce(g, layout)
      decreases |layout| - i
    {
      NextBlock(g, aux, layout, i);
      if i + 1 < |layout| {
        NextBlock(g, aux, layout, i + 1);
      }
      assert !err && i > 0 ==> (Switches(g, layout, i) <==> g.blocks[bb].partition != current);
      if current == Unpartitioned {
        current := g.blocks[bb].partition;
      }
      if g.blocks[bb].partition != current {
        if switched {
          err := true;
        } else {
          switched := true;
          at := i;
          current := g.blocks[bb].partition;
        }
      }
      bb := aux[bb];
      i := i + 1;
    }
  }

  /** With every block hot or cold, every trace is in one of the two sections laid out. */
  lemma EveryTracePlaceable(g0: Graph, g: Graph, chains: seq<seq<int>>, k: nat)
    requires SectionsFrom(g0, g) && k < |chains|
    requires forall j :: 0 <= j < |chains| ==> |chains[j]| > 0 && IsBlock(g, chains[j][0])
    requires forall b :: IsBlock(g0, b) ==> g0.blocks[b].partition != Unpartitioned
    ensures Placeable(g, chains, true, k)
  {
    assert HasSection(g0, g.blocks[chains[0][0]].partition) && HasSection(g0, g.blocks[chains[k][0]].partition);
  }

  /** The blocks of the layout, given that every trace has been placed. */
  lemma LayoutComplete(g: Graph, mark: seq<nat>, layout: seq<int>, ks: set<int>, n: nat)
    requires ClosedOver(g, mark) && Holds(layout, mark, ks, |g.blocks|) && |mark| <= |g.blocks|
    requires forall k :: 0 <= k < n ==> k in ks
    requires forall c :: 0 <= c < |mark| ==> mark[c] <= n
    ensures forall b :: b in layout <==> Known(mark, b) && IsBlock(g, b)
    ensures forall b :: Reachable(g, b) ==> b in layout
  {
    forall b | Reachable(g, b) ensures b in layout {
      var w :| IsWalk(g, w) && (forall x :: x in w ==> IsBlock(g, x)) && w[|w|-1] == b;
      WalkKnown(g, mark, w);
    }
  }

  /** Every trace starts at a block of the graph. */
  lemma ChainStarts(g: Graph, aux: seq<int>, visited: seq<nat>, chains: seq<seq<int>>)
    requires |aux| == |visited| == |g.blocks| && ChainsOk(g, aux, visited, chains)
    ensures forall j :: 0 <= j < |chains| ==> |chains[j]| > 0 && IsBlock(g, chains[j][0])
  {
    forall j | 0 <= j < |chains| ensures |chains[j]| > 0 && IsBlock(g, chains[j][0]) {
      assert ChainOk(g, aux, visited, chains[j], j + 1);
    }
  }

  /** Connect the traces of a function whose reachable blocks have all been visited. */
  method ConnectAll(p: Reorder, ghost original: Graph) returns (ghost layout: seq<int>)
    requires p.Valid() && Frontier(p.g, p.visited, map[], map[]) && |p.traces| > 0 && p.g0 == original
    requires forall b :: Reachable(original, b) ==> IsBlock(p.g, b) && p.visited[b] != 0
    requires !p.connecting
    requires p.s.partitioning ==> forall b :: IsBlock(original, b) ==> original.blocks[b].partition != Unpartitioned
    modifies p`g, p`visited, p`aux, p`startOf, p`endOf, p`heapOf, p`pristine, p`traces, p`connecting
    ensures Chained(p.aux, layout) && |p.traces| > 0 && layout[0] == p.traces[0].first
    ensures |p.aux| == |p.g.blocks| >= |original.blocks|
    ensures forall b :: b in layout ==> IsBlock(p.g, b)
    ensures forall b :: Reachable(original, b) || Reachable(p.g, b) ==> b in layout
    ensures forall b :: |original.blocks| <= b < |p.g.blocks| ==> b in layout
    ensures p.s.partitioning ==> SwitchesAtMostOnce(p.g, layout)
    ensures Unfolds(original, p.g)
  {
    ghost var mark, g1, chains, ks, cut := p.visited, p.g, p.chains, {}, 0;
    Ready(p);
    hide *;
    ghost var turns, places;
    layout, ks, cut, turns, places := ConnectTraces(p);
    assert p.chains == chains;
    UnfoldsNow(p);
    Conclude(original, g1, p.g, p.s.partitioning, mark, chains, layout, ks, cut);
  }

  lemma UnfoldsNow(p: Reorder)
    requires p.Heaps()
    ensures Unfolds(p.g0, p.g)
  {
    hide Unfolds, HeapsOk, FreshKeys;
  }

  /** What trace construction leaves behind, as far as it matters for the layout. */
  lemma Ready(p: Reorder)
    requires p.Valid() && !p.connecting
    ensures |p.traces| == |p.chains| && |p.g0.blocks| <= |p.visited| == |p.g.blocks|
    ensures SectionsFrom(p.g0, p.g) && CopiesVisited(|p.g0.blocks|, p.visited)
    ensures forall j :: 0 <= j < |p.chains| ==> |p.chains[j]| > 0 && IsBlock(p.g, p.chains[j][0])
    ensures forall c :: 0 <= c < |p.visited| ==> p.visited[c] <= |p.chains|
  {
    hide TablesOk, HeapsOk, FreshKeys;
    ChainStarts(p.g, p.aux, p.visited, p.chains);
  }

  lemma Conclude(g0: Graph, g1: Graph, g: Graph, partitioning: bool, mark: seq<nat>, chains: seq<seq<int>>,
                 layout: seq<int>, ks: set<int>, cut: nat)
    requires SectionsFrom(g0, g1) && CopiesVisited(|g0.blocks|, mark) && |g0.blocks| <= |mark| <= |g.blocks|
    requires forall j :: 0 <= j < |chains| ==> |chains[j]| > 0 && IsBlock(g1, chains[j][0])
    requires forall c :: 0 <= c < |mark| ==> mark[c] <= |chains|
    requires partitioning ==> forall b :: IsBlock(g0, b) ==> g0.blocks[b].partition != Unpartitioned
    requires forall k :: 0 <= k < |chains| ==> (k in ks <==> Placeable(g1, chains, partitioning, k))
    requires ClosedOver(g, mark) && Holds(layout, mark, ks, |g.blocks|)
    requires partitioning ==> cut <= |layout| && TwoSections(g, layout, cut, Section(g, chains, 0), Flip(Section(g, chains, 0)))
    ensures forall b :: b in layout <==> IsBlock(g, b) && Known(mark, b)
    ensures forall b :: Reachable(g, b) ==> b in layout
    ensures forall b :: |g0.blocks| <= b < |g.blocks| ==> b in layout
    ensures partitioning ==> SwitchesAtMostOnce(g, layout)
  {
    hide SectionsFrom, Placeable, ClosedOver, Holds, TwoSections, Section, Reachable, SwitchesAtMostOnce;
    if partitioning {
      TwoSectionsSwitchOnce(g, layout, cut, Section(g, chains, 0), Flip(Section(g, chains, 0)));
    }
    forall k | 0 <= k < |chains| ensures k in ks {
      PlaceableHere(g0, g1, chains, partitioning, k);
    }
    LayoutComplete(g, mark, layout, ks, |chains|);
    assert forall b :: |g0.blocks| <= b < |g.blocks| ==> Known(mark, b);
  }

  lemma PlaceableHere(g0: Graph, g: Graph, chains: seq<seq<int>>, partitioning: bool, k: nat)
    requires SectionsFrom(g0, g) && k < |chains|
    requires forall j :: 0 <= j < |chains| ==> |chains[j]| > 0 && IsBlock(g, chains[j][0])
    requires partitioning ==> forall b :: IsBlock(g0, b) ==> g0.blocks[b].partition != Unpartitioned
    ensures Placeable(g, chains, partitioning, k)
  {
    if partitioning {
      EveryTracePlaceable(g0, g, chains, k);
    }
  }

  /** Reorder the blocks of a function: the final chain starts with the first trace, holds every reachable
      block and every copy exactly once, and with partitioning changes section at most once; and the function has the
      same runs as before, when copies stand for their originals. */
  method ReorderBasicBlocks(g: Graph, s: Settings) returns (p: Reorder, ghost layout: seq<int>)
    requires WellFormed(g) && CrossingMarked(g)
    requires forall k :: 0 <= k < |g.edges| ==> g.edges[k].probability >= 0
    requires forall i, j :: 0 <= i < j < |g.edges| && g.edges[i].src == g.edges[j].src == ENTRY ==>
               g.edges[i].dest != g.edges[j].dest
    requires exists b :: Reachable(g, b)
    requires s.partitioning ==> forall b :: IsBlock(g, b) ==> g.blocks[b].partition != Unpartitioned
    ensures fresh(p) && |p.aux| == |p.g.blocks| >= |g.blocks| && |p.traces| > 0
    ensures Chained(p.aux, layout) && layout[0] == p.traces[0].first
    ensures forall b :: b in layout ==> IsBlock(p.g, b)
    ensures forall b :: Reachable(g, b) || Reachable(p.g, b) ==> b in layout
    ensures forall b :: |g.blocks| <= b < |p.g.blocks| ==> b in layout
    ensures s.partitioning ==> SwitchesAtMostOnce(p.g, layout)
    ensures exists f: seq<int> :: RunsAgree(g, p.g, f)
  {
    hide Unfolds, RunsAgree, Reachable, WellFormed, CrossingMarked, Reorder.Valid, Reorder.Heaps, Frontier, Chained, SwitchesAtMostOnce;
    p := new Reorder(g, s);
    ghost var rounds := p.FindTraces();
    ghost var b :| Reachable(g, b);
    assert InOneChain(p.chains, b);
    layout := ConnectAll(p, g);
    SameRuns(g, p.g);
  }
}
