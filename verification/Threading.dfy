/** How the traces are threaded: the steps of connect_traces, as a relation between places. */
module Threading {
  import opened Cfg
  import opened Traces
  import opened Selection
  import opened CopyPlans

  /** Edge k enters block d from the end of a trace that is still free, by falling through. */
  predicate FromFreeEnd(g: Graph, endOf: seq<int>, connected: seq<bool>, part: Partition, d: int, k: int) {
    && 0 <= k < |g.edges| && g.edges[k].dest == d && IsBlock(g, g.edges[k].src)
    && g.edges[k].src < |endOf| && g.edges[k].canFallthru && !g.edges[k].complex
    && 0 <= endOf[g.edges[k].src] < |connected| && !connected[endOf[g.edges[k].src]]
    && g.blocks[g.edges[k].src].partition == part
  }

  /** Edge i, reaching a trace of length li, is at least as good as edge j, reaching one of length lj. */
  predicate NoWorse(g: Graph, i: int, li: int, j: int, lj: int)
    requires 0 <= i < |g.edges| && 0 <= j < |g.edges|
  {
    g.edges[i].probability > g.edges[j].probability ||
    (g.edges[i].probability == g.edges[j].probability && li >= lj)
  }

  /** The graph and the tables at some moment, which traces are connected, and the blocks laid out so far. */
  datatype Place = Place(g: Graph, startOf: seq<int>, endOf: seq<int>, traces: seq<Trace>, connected: seq<bool>,
                         layout: seq<int>)

  /** The compiler settings and the thresholds for copying. */
  datatype Policy = Policy(w: Settings, freqTh: int, countTh: int)

  // ---------- going on from the last block laid out ----------

  function LastBlock(s: Place): int
    requires s.layout != []
  {
    s.layout[|s.layout|-1]
  }

  /** Edge k falls through from the last block to the start of a free trace of the section. */
  predicate Onto(s: Place, part: Partition, k: int) {
    s.layout != [] && ToFreeStart(s.g, s.startOf, s.connected, part, LastBlock(s), k)
  }

  /** Edge best falls through from block b to the start of a free trace, and no such edge is better. */
  ghost predicate BestOutOf(g: Graph, traces: seq<Trace>, startOf: seq<int>, connected: seq<bool>, part: Partition, b: int,
                            best: int)
  {
    && |traces| == |connected| && ToFreeStart(g, startOf, connected, part, b, best)
    && forall k :: ToFreeStart(g, startOf, connected, part, b, k) ==>
         NoWorse(g, best, traces[startOf[g.edges[best].dest]].length, k, traces[startOf[g.edges[k].dest]].length)
  }

  ghost predicate NoneOutOf(g: Graph, startOf: seq<int>, connected: seq<bool>, part: Partition, b: int) {
    forall k :: !ToFreeStart(g, startOf, connected, part, b, k)
  }

  ghost predicate BestOnto(s: Place, part: Partition, best: int) {
    s.layout != [] && BestOutOf(s.g, s.traces, s.startOf, s.connected, part, LastBlock(s), best)
  }

  lemma BestIsOnto(s: Place, part: Partition, best: int)
    requires BestOnto(s, part, best)
    ensures Onto(s, part, best)
  {
  }

  /** The trace that starts at block d is appended. */
  ghost predicate Appends(s: Place, s': Place, chains: seq<seq<int>>, d: int, middle: seq<int>) {
    && 0 <= d < |s.startOf| && 0 <= s.startOf[d] < |s.connected| == |chains| && !s.connected[s.startOf[d]]
    && chains[s.startOf[d]] != [] && chains[s.startOf[d]][0] == d
    && s'.connected == s.connected[s.startOf[d] := true] && s'.layout == s.layout + middle + chains[s.startOf[d]]
  }

  /** The trace that a best edge leads to is appended. */
  ghost predicate Follows(s: Place, s': Place, part: Partition, chains: seq<seq<int>>, best: int) {
    && BestOnto(s, part, best) && Appends(s, s', chains, s.g.edges[best].dest, [])
    && s' == s.(connected := s'.connected, layout := s'.layout)
  }

  function SearchAt(s: Place, part: Partition, w: Policy): Search
    requires s.layout != []
  {
    Search(s.g, s.traces, s.startOf, s.connected, part, LastBlock(s), w.freqTh, w.countTh)
  }

  /** The target of edge e may be copied; it may be larger if the edge is taken often enough. */
  predicate Copyable(g: Graph, w: Policy, e: int)
    requires 0 <= e < |g.edges| && IsBlock(g, g.edges[e].dest)
  {
    CopyBbP(g, g.edges[e].dest,
            !w.w.optimizeSize && EdgeFrequency(g, g.edges[e]) >= w.freqTh && g.edges[e].count >= w.countTh,
            w.w.jumpLength, w.w.growFactor)
  }

  /** A copy is called for: the traces are not partitioned, nothing can be appended directly, and the plan that the search
      makes is to copy a block that may be copied. */
  ghost predicate CallsFor(s: Place, part: Partition, w: Policy, plan: CopyPlan) {
    && !w.w.partitioning && s.layout != [] && |s.traces| == |s.connected| && (forall k :: !Onto(s, part, k))
    && PlanIs(SearchAt(s, part, w), plan, |s.g.edges|) && 0 <= plan.best < |s.g.edges|
    && IsBlock(s.g, s.g.edges[plan.best].dest) && Copyable(s.g, w, plan.best)
  }

  /** The block is copied after the last one, and the trace of the block found, if any, is appended. */
  ghost predicate Copies(s: Place, s': Place, part: Partition, w: Policy, chains: seq<seq<int>>, plan: CopyPlan) {
    && CallsFor(s, part, w, plan)
    && s'.g == DuplicateBlock(s.g, s.g.edges[plan.best].dest, plan.best, LastBlock(s))
    && s'.startOf == s.startOf + [-1] && s'.endOf == s.endOf + [-1] && |s'.traces| == |s.traces|
    && (forall k :: 0 <= k < |s.traces| ==> s'.traces[k] == s.traces[k].(last := s'.traces[k].last))
    && if plan.next >= 0 then Appends(s, s', chains, plan.next, [|s.g.blocks|])
       else s'.connected == s.connected && s'.layout == s.layout + [|s.g.blocks|]
  }

  /** One step that lets the search for successors go on. */
  ghost predicate GoesOn(s: Place, s': Place, part: Partition, w: Policy, chains: seq<seq<int>>) {
    || (exists best :: Follows(s, s', part, chains, best))
    || (exists plan: CopyPlan :: plan.next >= 0 && Copies(s, s', part, w, chains, plan))
  }

  /** The search for successors ends: nothing can be appended and no copy is called for, or after a copy with no trace to
      follow it. */
  ghost predicate Stops(s: Place, s': Place, part: Partition, w: Policy, chains: seq<seq<int>>) {
    || (s' == s && s.layout != [] && (forall k :: !Onto(s, part, k)) && forall plan :: !CallsFor(s, part, w, plan))
    || (exists plan: CopyPlan :: plan.next < 0 && Copies(s, s', part, w, chains, plan))
  }

  ghost predicate Onwards(run: seq<Place>, part: Partition, w: Policy, chains: seq<seq<int>>) {
    run != [] && forall i :: 0 <= i < |run| - 1 ==> GoesOn(run[i], run[i+1], part, w, chains)
  }

  lemma OneMorePlace(run: seq<Place>, part: Partition, w: Policy, chains: seq<seq<int>>, s: Place)
    requires Onwards(run, part, w, chains) && GoesOn(run[|run|-1], s, part, w, chains)
    ensures Onwards(run + [s], part, w, chains)
  {
    hide GoesOn;
  }

  /** Whenever an edge falls through from the last block to the start of a free trace, the next block laid out is the target
      of one that no other such edge beats. */
  lemma NextIsBest(run: seq<Place>, part: Partition, w: Policy, chains: seq<seq<int>>, i: nat)
    requires Onwards(run, part, w, chains) && i + 1 < |run| && exists k :: Onto(run[i], part, k)
    ensures exists best :: BestOnto(run[i], part, best) && |run[i].layout| < |run[i+1].layout|
                           && run[i+1].layout[|run[i].layout|] == run[i].g.edges[best].dest
  {
    hide BestOnto, PlanIs, Onto;
    assert GoesOn(run[i], run[i+1], part, w, chains);
    var best :| Follows(run[i], run[i+1], part, chains, best);
    assert BestOnto(run[i], part, best);
  }

  lemma {:induction false} LayoutGrows(run: seq<Place>, part: Partition, w: Policy, chains: seq<seq<int>>, i: nat, j: nat)
    requires Onwards(run, part, w, chains) && i <= j < |run|
    ensures run[i].layout <= run[j].layout
  {
    hide BestOnto, PlanIs, Copyable, CallsFor;
    if i < j {
      LayoutGrows(run, part, w, chains, i, j - 1);
      assert GoesOn(run[j-1], run[j], part, w, chains);
    }
  }

  lemma StopGrows(s: Place, s': Place, part: Partition, w: Policy, chains: seq<seq<int>>)
    requires Stops(s, s', part, w, chains)
    ensures s.layout <= s'.layout
  {
    hide BestOnto, PlanIs, Copyable, CallsFor;
  }

  /** A copy is made exactly when one is called for. */
  lemma CopiedExactly(s: Place, s': Place, part: Partition, w: Policy, chains: seq<seq<int>>)
    requires GoesOn(s, s', part, w, chains) || Stops(s, s', part, w, chains)
    ensures (exists plan :: CallsFor(s, part, w, plan)) <==> exists plan :: Copies(s, s', part, w, chains, plan)
  {
    hide PlanIs, Copyable, DuplicateBlock, Onto, Follows;
    if best :| Follows(s, s', part, chains, best) {
      forall plan ensures !CallsFor(s, part, w, plan) {
        NotBoth(s, s', part, w, chains, best, plan);
      }
    }
  }

  lemma NotBoth(s: Place, s': Place, part: Partition, w: Policy, chains: seq<seq<int>>, best: int, plan: CopyPlan)
    requires Follows(s, s', part, chains, best)
    ensures !CallsFor(s, part, w, plan)
  {
    BestIsOnto(s, part, best);
  }

  /** Where the search for successors has ended, no edge falls through from the last block to the start of a free trace,
      unless that block is a copy after which no trace was to follow. */
  lemma NothingLeft(s: Place, s': Place, part: Partition, w: Policy, chains: seq<seq<int>>)
    requires Stops(s, s', part, w, chains)
    ensures s' == s || exists plan: CopyPlan :: plan.next < 0 && CallsFor(s, part, w, plan) && LastBlockIs(s', |s.g.blocks|)
    ensures s' == s ==> forall k :: !Onto(s', part, k)
  {
    hide Onto, PlanIs, Copyable;
  }

  predicate LastBlockIs(s: Place, b: int) {
    s.layout != [] && LastBlock(s) == b
  }

  // ---------- what leads to the first block of a trace ----------

  /** The traces us connected, too. */
  ghost function Joined(connected: seq<bool>, us: seq<nat>): (r: seq<bool>)
    ensures |r| == |connected|
  {
    seq(|connected|, k requires 0 <= k < |connected| => connected[k] || k in us)
  }

  /** The blocks of the traces us, the last of them first. */
  ghost function Fronts(chains: seq<seq<int>>, us: seq<nat>): seq<int> {
    if us == [] || us[|us|-1] >= |chains| then [] else chains[us[|us|-1]] + Fronts(chains, us[..|us|-1])
  }

  /** Edge best falls through from the end of a free trace to block d, and no such edge is better. */
  ghost predicate BestInto(g: Graph, traces: seq<Trace>, endOf: seq<int>, connected: seq<bool>, part: Partition, d: int,
                           best: int)
  {
    && |traces| == |connected| && FromFreeEnd(g, endOf, connected, part, d, best)
    && forall k :: FromFreeEnd(g, endOf, connected, part, d, k) ==>
         NoWorse(g, best, traces[endOf[g.edges[best].src]].length, k, traces[endOf[g.edges[k].src]].length)
  }

  ghost predicate NoneInto(g: Graph, endOf: seq<int>, connected: seq<bool>, part: Partition, d: int) {
    forall k :: !FromFreeEnd(g, endOf, connected, part, d, k)
  }

  /** Trace v is put before trace u: one that a best edge to the first block of u comes from. */
  ghost predicate Precedes(s: Place, connected: seq<bool>, part: Partition, u: nat, v: nat) {
    && 0 < u < |s.traces|
    && exists best :: BestInto(s.g, s.traces, s.endOf, connected, part, s.traces[u].first, best)
                      && s.endOf[s.g.edges[best].src] == v
  }

  /** Trace us[0] is connected, and the others put before it, each before the one that precedes it in us. */
  ghost predicate Backwards(s: Place, part: Partition, us: seq<nat>) {
    && us != [] && (forall j :: 0 <= j < |us| ==> us[j] < |s.traces|)
    && forall j :: 0 < j < |us| ==> Precedes(s, Joined(s.connected, us[..j]), part, us[j-1], us[j])
  }

  /** No free trace leads to the foremost one, or that is the first of all. */
  ghost predicate Foremost(s: Place, part: Partition, us: seq<nat>) {
    us != [] && us[|us|-1] < |s.traces| &&
    (us[|us|-1] == 0 || NoneInto(s.g, s.endOf, Joined(s.connected, us), part, s.traces[us[|us|-1]].first))
  }

  lemma OneMoreBefore(s: Place, part: Partition, us: seq<nat>, v: nat)
    requires Backwards(s, part, us) && v < |s.traces| && Precedes(s, Joined(s.connected, us), part, us[|us|-1], v)
    ensures Backwards(s, part, us + [v])
  {
    hide Precedes, Joined;
    var all := us + [v];
    forall j | 0 < j < |all| ensures Precedes(s, Joined(s.connected, all[..j]), part, all[j-1], all[j]) {
      if j < |us| {
        assert all[..j] == us[..j];
      } else {
        assert all[..j] == us;
      }
    }
  }

  // ---------- the turn of a trace, and the whole ----------

  /** A turn: the section, the trace and those put before it, and the places while successors are sought. */
  datatype Turn = Turn(part: Partition, us: seq<nat>, run: seq<Place>)

  ghost predicate TurnOk(s: Place, u: Turn, s': Place, w: Policy, chains: seq<seq<int>>) {
    && Backwards(s, u.part, u.us) && Foremost(s, u.part, u.us)
    && u.us[0] < |s.connected| && !s.connected[u.us[0]]
    && Onwards(u.run, u.part, w, chains)
    && u.run[0] == s.(connected := Joined(s.connected, u.us), layout := s.layout + Fronts(chains, u.us))
    && Stops(u.run[|u.run|-1], s', u.part, w, chains)
  }

  /** Turn after turn, from one place to another. */
  ghost predicate Threaded(s: Place, turns: seq<Turn>, places: seq<Place>, s': Place, w: Policy, chains: seq<seq<int>>) {
    && |places| == |turns| + 1 && places[0] == s && places[|turns|] == s'
    && forall i :: 0 <= i < |turns| ==> TurnOk(places[i], turns[i], places[i+1], w, chains)
  }

  lemma OneMoreTurn(s: Place, turns: seq<Turn>, places: seq<Place>, s': Place, w: Policy, chains: seq<seq<int>>, u: Turn,
                    s'': Place)
    requires Threaded(s, turns, places, s', w, chains) && TurnOk(s', u, s'', w, chains)
    ensures Threaded(s, turns + [u], places + [s''], s'', w, chains)
  {
    hide TurnOk;
  }

  lemma {:induction false} PlacesGrow(s: Place, turns: seq<Turn>, places: seq<Place>, s': Place, w: Policy,
                                      chains: seq<seq<int>>, i: nat, j: nat)
    requires Threaded(s, turns, places, s', w, chains) && i <= j < |places|
    ensures places[i].layout <= places[j].layout
  {
    if i < j {
      PlacesGrow(s, turns, places, s', w, chains, i, j - 1);
      assert TurnOk(places[j-1], turns[j-1], places[j], w, chains);
      var run := turns[j-1].run;
      hide BestOnto, PlanIs, Backwards, Foremost, Fronts, Joined, GoesOn, Stops;
      LayoutGrows(run, turns[j-1].part, w, chains, 0, |run| - 1);
      StopGrows(run[|run|-1], places[j], turns[j-1].part, w, chains);
    }
  }

  /** In the final layout, whenever an edge fell through from the block just laid out to the start of a trace that was free
      then, the block that follows is the target of one that no other such edge beats. */
  lemma LayoutFollowsBest(s: Place, turns: seq<Turn>, places: seq<Place>, s': Place, w: Policy, chains: seq<seq<int>>,
                          i: nat, j: nat)
    requires Threaded(s, turns, places, s', w, chains) && i < |turns| && j < |turns[i].run|
    requires exists k :: Onto(turns[i].run[j], turns[i].part, k)
    ensures var here := turns[i].run[j];
            && here.layout <= s'.layout && |here.layout| < |s'.layout|
            && exists best :: BestOnto(here, turns[i].part, best) && s'.layout[|here.layout|] == here.g.edges[best].dest
  {
    var u := turns[i];
    assert TurnOk(places[i], u, places[i+1], w, chains);
    hide BestOnto, Onto, PlanIs, Backwards, Foremost, Fronts, Joined, GoesOn, TurnOk, Threaded;
    PlacesGrow(s, turns, places, s', w, chains, i + 1, |turns|);
    LayoutGrows(u.run, u.part, w, chains, j, |u.run| - 1);
    StopGrows(u.run[|u.run|-1], places[i+1], u.part, w, chains);
    if j == |u.run| - 1 {
      NothingLeft(u.run[j], places[i+1], u.part, w, chains);
      assert false;
    } else {
      NextIsBest(u.run, u.part, w, chains, j);
      LayoutGrows(u.run, u.part, w, chains, j + 1, |u.run| - 1);
    }
  }
}
