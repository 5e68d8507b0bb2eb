/** The search for a block whose copy joins two traces. */
module CopyPlans {
  import opened Cfg
  import opened Traces
  import opened Selection

  /** Edge k leads from block b to the start of a trace that is still free, by falling through. */
  predicate ToFreeStart(g: Graph, startOf: seq<int>, connected: seq<bool>, part: Partition, b: int, k: int) {
    && 0 <= k < |g.edges| && g.edges[k].src == b && IsBlock(g, g.edges[k].dest)
    && g.edges[k].dest < |startOf| && g.edges[k].canFallthru && !g.edges[k].complex
    && 0 <= startOf[g.edges[k].dest] < |connected| && !connected[startOf[g.edges[k].dest]]
    && g.blocks[g.edges[k].dest].partition == part
  }

  /** The search for a block whose copy would join the trace that ends at b to another one: the edge to
      the block (-1: none so far) and where the copy would lead (a block, EXIT, or NIL). */
  datatype CopyPlan = CopyPlan(best: int, next: int)

  /** Edge e2, leaving the target of an edge out of the trace, makes a copy of that target useful. */
  predicate LeadsOn(g: Graph, traces: seq<Trace>, startOf: seq<int>, connected: seq<bool>, part: Partition,
                    freqTh: int, countTh: int, e2: int, best2: int, best2Len: int)
    requires 0 <= e2 < |g.edges| && -1 <= best2 < |g.edges| && |traces| == |connected|
  {
    || g.edges[e2].dest == EXIT
    || (&& ToFreeStart(g, startOf, connected, part, g.edges[e2].src, e2)
        && EdgeFrequency(g, g.edges[e2]) >= freqTh && g.edges[e2].count >= countTh
        && (|| best2 == -1 || g.edges[e2].probability > g.edges[best2].probability
            || (g.edges[e2].probability == g.edges[best2].probability &&
                traces[startOf[g.edges[e2].dest]].length > best2Len)))
  }

  /** A plan that the search may return: an edge that falls through out of b, and a continuation that is
      open: EXIT, nothing, or the start of a free trace of the section. */
  ghost predicate PlanOk(g: Graph, startOf: seq<int>, connected: seq<bool>, part: Partition, b: int,
                         plan: CopyPlan)
  {
    && -1 <= plan.best < |g.edges|
    && (plan.best >= 0 ==> g.edges[plan.best].src == b && IsBlock(g, g.edges[plan.best].dest)
                           && g.edges[plan.best].canFallthru && !g.edges[plan.best].complex)
    && (plan.next == NIL || plan.next == EXIT
        || (IsBlock(g, plan.next) && plan.next < |startOf| && 0 <= startOf[plan.next] < |connected|
            && !connected[startOf[plan.next]] && g.blocks[plan.next].partition == part))
  }

  // ---------- what the search finds ----------

  /** The search from block b: the graph, the traces, where they start, which are connected, and the thresholds. */
  datatype Search = Search(g: Graph, traces: seq<Trace>, startOf: seq<int>, connected: seq<bool>, part: Partition, b: int,
                           freqTh: int, countTh: int)

  ghost predicate SearchOk(s: Search) {
    && |s.traces| == |s.connected| && |s.startOf| == |s.g.blocks| && WellFormed(s.g) && IsBlock(s.g, s.b)
    && (forall d :: 0 <= d < |s.startOf| ==> -1 <= s.startOf[d] < |s.traces|)
  }

  /** The best edge with number below n that leads on from block d (-1: none). */
  function Onward(s: Search, d: int, n: nat): (r: int)
    requires n <= |s.g.edges| && |s.traces| == |s.connected|
    ensures -1 <= r < n
    ensures r >= 0 ==> s.g.edges[r].src == d &&
                       (s.g.edges[r].dest == EXIT || ToFreeStart(s.g, s.startOf, s.connected, s.part, d, r))
  {
    if n == 0 then -1
    else
      var r := Onward(s, d, n - 1);
      if s.g.edges[n-1].src == d
         && LeadsOn(s.g, s.traces, s.startOf, s.connected, s.part, s.freqTh, s.countTh, n - 1, r, OnwardLength(s, r))
      then n - 1 else r
  }

  function OnwardLength(s: Search, r: int): int {
    if !(0 <= r < |s.g.edges|) then 0
    else if s.g.edges[r].dest == EXIT then INT_MAX
    else if 0 <= s.g.edges[r].dest < |s.startOf| && 0 <= s.startOf[s.g.edges[r].dest] < |s.traces|
    then s.traces[s.startOf[s.g.edges[r].dest]].length
    else 0
  }

  /** Edge k falls through out of the end of the trace. */
  predicate Candidate(s: Search, k: int) {
    && 0 <= k < |s.g.edges| && s.g.edges[k].src == s.b && s.g.edges[k].dest != EXIT
    && s.g.edges[k].canFallthru && !s.g.edges[k].complex
  }

  /** The target of edge k is a trace of one block. */
  predicate OneBlock(s: Search, k: int) {
    && 0 <= k < |s.g.edges| && 0 <= s.g.edges[k].dest < |s.startOf|
    && 0 <= s.startOf[s.g.edges[k].dest] < |s.traces| && s.traces[s.startOf[s.g.edges[k].dest]].length == 1
  }

  /** Edge k leads to a block worth copying: a trace of one block, or one that leads on. */
  ghost predicate Acceptable(s: Search, k: int)
    requires |s.traces| == |s.connected|
  {
    Candidate(s, k) && (OneBlock(s, k) || Onward(s, s.g.edges[k].dest, |s.g.edges|) >= 0)
  }

  /** The search accepts edge k: it is more probable than all acceptable edges before it. */
  ghost predicate Record(s: Search, k: int)
    requires |s.traces| == |s.connected|
  {
    Acceptable(s, k) && forall j :: 0 <= j < k && Acceptable(s, j) ==> s.g.edges[j].probability < s.g.edges[k].probability
  }

  /** Edge k is accepted for what its target leads to. */
  ghost predicate Finds(s: Search, k: int)
    requires |s.traces| == |s.connected|
  {
    Record(s, k) && !OneBlock(s, k)
  }

  /** Where a copy of the target of edge k leads: nowhere in particular if that is a trace of one block. */
  ghost function Own(s: Search, k: int): int
    requires |s.traces| == |s.connected| && Acceptable(s, k)
  {
    if OneBlock(s, k) then NIL else s.g.edges[Onward(s, s.g.edges[k].dest, |s.g.edges|)].dest
  }

  /** The plan after the edges below n: the first most probable acceptable edge, and the block found for the last
      accepted edge that was not accepted for being a trace of one block. */
  ghost predicate PlanIs(s: Search, plan: CopyPlan, n: int)
    requires |s.traces| == |s.connected|
  {
    && (if plan.best == -1 then forall j :: 0 <= j < n ==> !Acceptable(s, j)
        else 0 <= plan.best < n && Record(s, plan.best) &&
             forall j :: 0 <= j < n && Acceptable(s, j) ==> s.g.edges[j].probability <= s.g.edges[plan.best].probability)
    && (if plan.next == NIL then forall j :: 0 <= j < n ==> !Finds(s, j)
        else exists j :: LastFound(s, j, n) && plan.next == Own(s, j))
  }

  /** Edge j is the last below n that was accepted for what its target leads to. */
  ghost predicate LastFound(s: Search, j: int, n: int)
    requires |s.traces| == |s.connected|
  {
    0 <= j < n && Finds(s, j) && forall i :: j < i < n ==> !Finds(s, i)
  }

  /** The block found belongs to an earlier edge: the chosen one leads to a trace of one block, and before it an edge was
      accepted for what its target leads to. */
  ghost predicate Stale(s: Search, best: int)
    requires |s.traces| == |s.connected|
  {
    OneBlock(s, best) && exists j :: 0 <= j < best && Finds(s, j)
  }

  /** One more edge that is not accepted. */
  lemma PlanSkips(s: Search, plan: CopyPlan, k: nat)
    requires SearchOk(s) && k < |s.g.edges| && PlanIs(s, plan, k)
    requires !Acceptable(s, k) || (plan.best >= 0 && s.g.edges[k].probability <= s.g.edges[plan.best].probability)
    ensures PlanIs(s, plan, k + 1)
  {
    hide Onward, Acceptable, OneBlock;
    if plan.best >= 0 {
      assert Acceptable(s, plan.best);
    }
    assert !Finds(s, k);
    if plan.next != NIL {
      var j :| LastFound(s, j, k) && plan.next == Own(s, j);
      assert LastFound(s, j, k + 1);
    }
  }

  /** One more edge that is accepted. */
  lemma PlanTakes(s: Search, plan: CopyPlan, k: nat)
    requires SearchOk(s) && k < |s.g.edges| && PlanIs(s, plan, k) && Acceptable(s, k)
    requires plan.best == -1 || s.g.edges[k].probability > s.g.edges[plan.best].probability
    ensures PlanIs(s, CopyPlan(k, if OneBlock(s, k) then plan.next else Own(s, k)), k + 1)
  {
    OwnIsThere(s, k);
    hide Onward, Acceptable, OneBlock, Own;
    assert Record(s, k);
    if OneBlock(s, k) {
      if plan.next != NIL {
        var j :| LastFound(s, j, k) && plan.next == Own(s, j);
        assert LastFound(s, j, k + 1);
      }
    } else {
      assert LastFound(s, k, k + 1);
    }
  }

  /** What is found for an edge is EXIT or a block, to which the target of the edge leads. */
  lemma OwnIsThere(s: Search, k: int)
    requires SearchOk(s) && Acceptable(s, k)
    ensures Own(s, k) == NIL <==> OneBlock(s, k)
    ensures Own(s, k) != NIL ==> HasEdge(s.g, s.g.edges[k].dest, Own(s, k))
  {
  }

  /** The plan is what it would be if the block found were forgotten whenever another edge is tried, if and only if
      the chosen edge is not stale; and then the block copied leads to the block that is joined after it. */
  lemma PlanExact(s: Search, plan: CopyPlan)
    requires SearchOk(s) && PlanIs(s, plan, |s.g.edges|) && plan.best >= 0
    ensures Acceptable(s, plan.best)
    ensures plan.next == Own(s, plan.best) <==> !Stale(s, plan.best)
    ensures !Stale(s, plan.best) && plan.next != NIL ==> HasEdge(s.g, s.g.edges[plan.best].dest, plan.next)
    ensures Stale(s, plan.best) ==> plan.next != NIL && exists j :: 0 <= j < plan.best && Finds(s, j) && plan.next == Own(s, j)
  {
    OwnIsThere(s, plan.best);
    hide Onward, Own, OneBlock, Acceptable, HasEdge;
    if plan.next != NIL {
      var j :| LastFound(s, j, |s.g.edges|) && plan.next == Own(s, j);
      assert Record(s, j);
      OwnIsThere(s, j);
      assert j <= plan.best by {
        assert Acceptable(s, j) && Acceptable(s, plan.best);
      }
    }
    if !OneBlock(s, plan.best) {
      assert Finds(s, plan.best);
    }
  }

  /** The traces 0 1 4, 3, 5 and 2, of which the last one is free.  Block 5, the end of a trace, leads to block 1, which
      leads to block 2, and more probably to block 3, a trace of one block. */
  function StaleSearch(block: Block): Search {
    var edges := [Edge(ENTRY, 0, true, false, false, false, 10000, 0), Edge(0, 1, true, false, false, false, 10000, 0),
                  Edge(1, 4, true, false, false, false, 6000, 0), Edge(1, 2, true, false, false, false, 4000, 0),
                  Edge(2, EXIT, true, false, false, false, 10000, 0), Edge(4, 3, true, false, false, false, 10000, 0),
                  Edge(3, 5, true, false, false, false, 10000, 0), Edge(5, 1, true, false, false, false, 3000, 0),
                  Edge(5, 3, true, false, false, false, 6000, 0)];
    Search(Graph([block, block, block, block, block, block], edges, 1000),
           [Trace(0, 4, 0, 3), Trace(3, 3, 0, 1), Trace(5, 5, 0, 1), Trace(2, 2, 0, 1)],
           [0, -1, 3, 1, -1, 2], [true, true, true, false], Unpartitioned, 5, 0, 0)
  }

  /** These are the tables of such traces, and every block is in one of them. */
  lemma StaleTables(block: Block)
    ensures var s := StaleSearch(block);
            var chains := [[0, 1, 4], [3], [5], [2]];
            && TablesOk(s.traces, s.startOf, [-1, -1, 3, 1, 0, 2], chains)
            && (forall b :: IsBlock(s.g, b) ==> exists k :: 0 <= k < |chains| && b in chains[k])
  {
    var s := StaleSearch(block);
    var endOf := [-1, -1, 3, 1, 0, 2];
    var c0, c1, c2, c3 := [0, 1, 4], [3], [5], [2];
    var chains := [c0, c1, c2, c3];
    assert c0[2] == 4;
    assert TraceOk(s.traces[0], s.startOf, endOf, c0, 0);
    assert TraceOk(s.traces[1], s.startOf, endOf, c1, 1);
    assert TraceOk(s.traces[2], s.startOf, endOf, c2, 2);
    assert TraceOk(s.traces[3], s.startOf, endOf, c3, 3);
    assert 0 in chains[0] && 1 in chains[0] && 4 in chains[0] && 3 in chains[1] && 5 in chains[2] && 2 in chains[3];
  }

  /** Every block is reached. */
  lemma StaleReached(block: Block)
    ensures var g := StaleSearch(block).g; IsWalk(g, [0, 1, 4, 3, 5]) && IsWalk(g, [0, 1, 2])
  {
    var g := StaleSearch(block).g;
    StaleEdge(block, 0, ENTRY, 0);
    StaleEdge(block, 1, 0, 1);
    StaleEdge(block, 2, 1, 4);
    StaleEdge(block, 3, 1, 2);
    StaleEdge(block, 5, 4, 3);
    StaleEdge(block, 6, 3, 5);
    hide StaleSearch, HasEdge;
  }

  lemma StaleEdge(block: Block, k: nat, a: int, b: int)
    requires k < 9 && StaleSearch(block).g.edges[k].src == a && StaleSearch(block).g.edges[k].dest == b
    ensures HasEdge(StaleSearch(block).g, a, b)
  {
  }

  lemma StaleOnward(block: Block)
    requires block.partition == Unpartitioned && block.frequency == 1000
    ensures var s := StaleSearch(block); SearchOk(s) && |s.g.edges| == 9 && Onward(s, 1, 9) == 3
  {
    var s := StaleSearch(block);
    assert Onward(s, 1, 0) == -1;
    assert Onward(s, 1, 1) == -1;
    assert Onward(s, 1, 2) == -1;
    assert Onward(s, 1, 3) == -1;
    assert EdgeFrequency(s.g, s.g.edges[3]) == 400;
    assert ToFreeStart(s.g, s.startOf, s.connected, s.part, 1, 3);
    assert Onward(s, 1, 4) == 3;
    assert Onward(s, 1, 5) == 3;
    assert Onward(s, 1, 6) == 3;
    assert Onward(s, 1, 7) == 3;
    assert Onward(s, 1, 8) == 3;
  }

  /** Block 3 has two predecessors and may be copied. */
  lemma StaleCopied(block: Block, grow: bool, jumpLength: nat, growFactor: nat)
    requires block.frequency == 1000 && block.duplicable && block.size == 0
    ensures CopyBbP(StaleSearch(block).g, 3, grow, jumpLength, growFactor)
  {
    var g := StaleSearch(block).g;
    assert CountPreds(g, 3, 6) >= 1;
    assert CountPreds(g, 3, 7) >= 1;
    assert CountPreds(g, 3, 8) >= 1;
    assert CountPreds(g, 3, 9) >= 2;
    assert CountSuccs(g, 3, 0) == 0;
    assert CountSuccs(g, 3, 1) <= 1;
    assert CountSuccs(g, 3, 3) <= 3;
    assert CountSuccs(g, 3, 5) <= 5;
    assert CountSuccs(g, 3, 6) <= 6;
    assert CountSuccs(g, 3, 7) <= 7;
    assert CountSuccs(g, 3, 8) <= 8;
    assert g.edges[8].src == 5;
    assert 0 <= jumpLength * growFactor;
  }

  /** There block 3 is copied after block 5, and the trace of block 2 put after the copy, although block 3 does not lead
      there. */
  lemma StaleExample(block: Block, plan: CopyPlan)
    requires block.partition == Unpartitioned && block.frequency == 1000 && block.duplicable && block.size == 0
    requires PlanIs(StaleSearch(block), plan, 9)
    ensures var s := StaleSearch(block);
            && plan == CopyPlan(8, 2) && s.g.edges[8].dest == 3 && Stale(s, plan.best) && !HasEdge(s.g, 3, 2)
            && forall grow: bool, jumpLength: nat, growFactor: nat :: CopyBbP(s.g, 3, grow, jumpLength, growFactor)
  {
    hide Onward, CopyBbP;
    StaleOnward(block);
    forall grow: bool, jumpLength: nat, growFactor: nat
      ensures CopyBbP(StaleSearch(block).g, 3, grow, jumpLength, growFactor)
    {
      StaleCopied(block, grow, jumpLength, growFactor);
    }
    var s := StaleSearch(block);
    assert !OneBlock(s, 7) && Acceptable(s, 7) && OneBlock(s, 8) && Acceptable(s, 8);
    assert forall k :: 0 <= k < 7 ==> !Candidate(s, k);
    assert Record(s, 7) && Finds(s, 7);
    assert Record(s, 8);
    assert Own(s, 7) == 2;
    if plan.next != NIL {
      var j :| LastFound(s, j, 9) && plan.next == Own(s, j);
      assert j == 7;
    }
  }

  /** Find a block whose copy joins the trace that ends with b to another one. */
  method PlanCopy(g: Graph, traces: seq<Trace>, startOf: seq<int>, connected: seq<bool>, part: Partition, b: int,
                  freqTh: int, countTh: int)
    returns (plan: CopyPlan)
    requires |traces| == |connected| && |startOf| == |g.blocks| && WellFormed(g) && IsBlock(g, b)
    requires forall d :: 0 <= d < |startOf| ==> -1 <= startOf[d] < |traces|
    ensures PlanOk(g, startOf, connected, part, b, plan)
    ensures PlanIs(Search(g, traces, startOf, connected, part, b, freqTh, countTh), plan, |g.edges|)
  {
    hide PlanIs, Onward, Own, Record, Acceptable;
    var s := Search(g, traces, startOf, connected, part, b, freqTh, countTh);
    plan := CopyPlan(-1, NIL);
    NoPlan(s);
    for k := 0 to |g.edges|
      invariant PlanOk(g, startOf, connected, part, b, plan) && PlanIs(s, plan, k)
    {
      var e := g.edges[k];
      ghost var was := plan;
      Accepts(s, k);
      if e.src == b && e.dest != EXIT && e.canFallthru && !e.complex
         && (plan.best == -1 || e.probability > g.edges[plan.best].probability) {
        if startOf[e.dest] >= 0 && traces[startOf[e.dest]].length == 1 {
          PlanTakes(s, plan, k);
          plan := plan.(best := k);
          continue;
        }
        plan := ScanTarget(s, k, plan);
      } else {
        PlanSkips(s, plan, k);
      }
    }
  }

  lemma NoPlan(s: Search)
    requires |s.traces| == |s.connected|
    ensures PlanIs(s, CopyPlan(-1, NIL), 0)
  {
  }

  lemma Accepts(s: Search, k: nat)
    requires SearchOk(s) && k < |s.g.edges|
    ensures Acceptable(s, k) <==> Candidate(s, k) && (OneBlock(s, k) || Onward(s, s.g.edges[k].dest, |s.g.edges|) >= 0)
    ensures Acceptable(s, k) && !OneBlock(s, k) ==> Own(s, k) == s.g.edges[Onward(s, s.g.edges[k].dest, |s.g.edges|)].dest
  {
    hide Onward;
  }

  /** Look for an edge that leads on from the target of edge k; the block it leads to becomes the one found. */
  method ScanTarget(s: Search, k: nat, plan0: CopyPlan) returns (plan: CopyPlan)
    requires SearchOk(s) && k < |s.g.edges| && PlanOk(s.g, s.startOf, s.connected, s.part, s.b, plan0)
    requires PlanIs(s, plan0, k) && Candidate(s, k) && !OneBlock(s, k)
    requires plan0.best == -1 || s.g.edges[k].probability > s.g.edges[plan0.best].probability
    ensures PlanOk(s.g, s.startOf, s.connected, s.part, s.b, plan) && PlanIs(s, plan, k + 1)
  {
    hide PlanIs, Own, Record, Acceptable;
    plan := plan0;
    var d := s.g.edges[k].dest;
    var best2, best2Len := -1, 0;
    for k2 := 0 to |s.g.edges|
      invariant PlanOk(s.g, s.startOf, s.connected, s.part, s.b, plan)
      invariant best2 == Onward(s, d, k2) && best2Len == OnwardLength(s, best2)
      invariant plan == if best2 == -1 then plan0 else CopyPlan(k, s.g.edges[best2].dest)
    {
      if s.g.edges[k2].src == d
         && LeadsOn(s.g, s.traces, s.startOf, s.connected, s.part, s.freqTh, s.countTh, k2, best2, best2Len) {
        plan := CopyPlan(k, s.g.edges[k2].dest);
        best2 := k2;
        best2Len := if s.g.edges[k2].dest != EXIT then s.traces[s.startOf[s.g.edges[k2].dest]].length else INT_MAX;
      }
    }
    Accepts(s, k);
    if best2 == -1 {
      PlanSkips(s, plan0, k);
    } else {
      PlanTakes(s, plan0, k);
    }
  }
}
