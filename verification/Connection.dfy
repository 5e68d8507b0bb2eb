/** Connecting the traces into one chain of blocks. */
module Connection {
  import opened Cfg
  import opened Traces
  import opened Selection
  import opened Layout
  import opened CopyPlans
  import opened Threading
  import opened Reordering

  const DUPLICATION_THRESHOLD := 100

  function Flip(p: Partition): Partition {
    if p == Hot then Cold else Hot
  }

  /** The most probable edge into d from the end of a free trace, the longer trace on ties (-1: none). */
  method BestPredecessor(g: Graph, traces: seq<Trace>, endOf: seq<int>, connected: seq<bool>, part: Partition,
                         d: int)
    returns (best: int)
    requires |traces| == |connected|
    ensures best == -1 || FromFreeEnd(g, endOf, connected, part, d, best)
    ensures if best == -1 then NoneInto(g, endOf, connected, part, d)
            else BestInto(g, traces, endOf, connected, part, d, best)
  {
    best := -1;
    var bestLen := 0;
    for k := 0 to |g.edges|
      invariant best == -1 || (FromFreeEnd(g, endOf, connected, part, d, best) &&
                               bestLen == traces[endOf[g.edges[best].src]].length)
      invariant forall j :: 0 <= j < k && FromFreeEnd(g, endOf, connected, part, d, j) ==>
                  best >= 0 && NoWorse(g, best, bestLen, j, traces[endOf[g.edges[j].src]].length)
    {
      if FromFreeEnd(g, endOf, connected, part, d, k) {
        var e := g.edges[k];
        var len := traces[endOf[e.src]].length;
        if best == -1 || e.probability > g.edges[best].probability
           || (e.probability == g.edges[best].probability && len > bestLen) {
          best, bestLen := k, len;
        }
      }
    }
  }

  /** The most probable edge from b to the start of a free trace, the longer trace on ties (-1: none). */
  method BestSuccessor(g: Graph, traces: seq<Trace>, startOf: seq<int>, connected: seq<bool>, part: Partition,
                       b: int)
    returns (best: int)
    requires |traces| == |connected|
    ensures best == -1 || ToFreeStart(g, startOf, connected, part, b, best)
    ensures if best == -1 then NoneOutOf(g, startOf, connected, part, b)
            else BestOutOf(g, traces, startOf, connected, part, b, best)
  {
    best := -1;
    var bestLen := 0;
    for k := 0 to |g.edges|
      invariant best == -1 || (ToFreeStart(g, startOf, connected, part, b, best) &&
                               bestLen == traces[startOf[g.edges[best].dest]].length)
      invariant forall j :: 0 <= j < k && ToFreeStart(g, startOf, connected, part, b, j) ==>
                  best >= 0 && NoWorse(g, best, bestLen, j, traces[startOf[g.edges[j].dest]].length)
    {
      if ToFreeStart(g, startOf, connected, part, b, k) {
        var e := g.edges[k];
        var len := traces[startOf[e.dest]].length;
        if best == -1 || e.probability > g.edges[best].probability
           || (e.probability == g.edges[best].probability && len > bestLen) {
          best, bestLen := k, len;
        }
      }
    }
  }

  // ---------- the state while traces are being connected ----------

  /** The tables still describe the chains that trace construction left. */
  ghost predicate Base(g: Graph, aux: seq<int>, startOf: seq<int>, endOf: seq<int>, traces: seq<Trace>,
                       chains: seq<seq<int>>, connected: seq<bool>, mark: seq<nat>)
  {
    && |aux| == |startOf| == |endOf| == |g.blocks| >= |mark|
    && Marked(mark, chains)
    && TracesLinked(aux, traces, chains, connected)
    && EndsOk(startOf, endOf, chains)
    && Homogeneous(g, mark, chains)
    && ClosedOver(g, mark)
  }

  /** Block b belongs to a trace, or is a copy. */
  predicate Known(mark: seq<nat>, b: int) {
    (0 <= b < |mark| && mark[b] > 0) || b >= |mark|
  }

  /** Control that enters the function never leaves the traces and their copies. */
  ghost predicate ClosedOver(g: Graph, mark: seq<nat>) {
    forall k :: 0 <= k < |g.edges| && (g.edges[k].src == ENTRY || Known(mark, g.edges[k].src)) ==>
      g.edges[k].dest == EXIT || Known(mark, g.edges[k].dest)
  }

  lemma ClosedDuplicated(g: Graph, h: Graph, orig: int, e: nat, mark: seq<nat>)
    requires ClosedOver(g, mark) && Duplicated(g, h, orig, e) && |mark| <= |g.blocks| && Known(mark, orig)
    ensures ClosedOver(h, mark)
  {
    forall k | 0 <= k < |h.edges| && (h.edges[k].src == ENTRY || Known(mark, h.edges[k].src))
      ensures h.edges[k].dest == EXIT || Known(mark, h.edges[k].dest)
    {
      if k < |g.edges| {
        KeptEdge(g, h, orig, e, k);
      } else {
        var i := CopiedFrom(g, h, orig, e, k);
      }
    }
  }

  lemma {:induction false} WalkKnown(g: Graph, mark: seq<nat>, p: seq<int>)
    requires ClosedOver(g, mark) && IsWalk(g, p) && forall x :: x in p ==> IsBlock(g, x)
    ensures Known(mark, p[|p|-1])
  {
    var l := p[|p|-1];
    assert l in p;
    if |p| == 1 {
      var k :| 0 <= k < |g.edges| && g.edges[k].src == ENTRY && g.edges[k].dest == p[0];
    } else {
      var q := p[..|p|-1];
      forall i | 0 < i < |q| ensures HasEdge(g, q[i-1], q[i]) {
        assert HasEdge(g, p[i-1], p[i]);
      }
      WalkKnown(g, mark, q);
      assert HasEdge(g, p[|p|-2], l);
      var k :| 0 <= k < |g.edges| && g.edges[k].src == p[|p|-2] && g.edges[k].dest == l;
    }
  }

  /** Every chain lies in one section. */
  ghost predicate Homogeneous(g: Graph, mark: seq<nat>, chains: seq<seq<int>>)
    requires |mark| <= |g.blocks|
  {
    forall b :: 0 <= b < |mark| && 0 < mark[b] <= |chains| && |chains[mark[b]-1]| > 0 ==>
      var h := chains[mark[b]-1][0];
      IsBlock(g, h) && g.blocks[b].partition == g.blocks[h].partition
  }

  /** Exactly the traces in ks are connected. */
  ghost predicate ConnectedAre(connected: seq<bool>, ks: set<int>) {
    forall k :: 0 <= k < |connected| ==> (connected[k] <==> k in ks)
  }

  ghost function Free(connected: seq<bool>): set<int> {
    set k | 0 <= k < |connected| && !connected[k]
  }

  ghost predicate AllIn(g: Graph, part: seq<int>, section: Partition) {
    forall b :: b in part ==> IsBlock(g, b) && g.blocks[b].partition == section
  }

  lemma ChainedFrame(aux: seq<int>, aux': seq<int>, part: seq<int>)
    requires Chained(aux, part) && |aux| <= |aux'|
    requires forall b :: b in part ==> 0 <= b < |aux| && aux'[b] == aux[b]
    ensures Chained(aux', part)
  {
    forall i {:trigger aux'[part[i]]} | 0 <= i < |part| - 1 ensures aux'[part[i]] == part[i+1] {
      assert part[i] in part && aux[part[i]] == part[i+1];
    }
    assert part[|part|-1] in part;
  }

  /** One step backwards: the free trace k, whose last block is x, is put before the segment seg. */
  lemma StepBack(g: Graph, aux: seq<int>, startOf: seq<int>, endOf: seq<int>, traces: seq<Trace>,
                 chains: seq<seq<int>>, connected: seq<bool>, mark: seq<nat>, seg: seq<int>, ks: set<int>,
                 k: nat, x: int)
    requires Base(g, aux, startOf, endOf, traces, chains, connected, mark)
    requires k < |chains| && !connected[k] && k !in ks && 0 <= x < |endOf| && endOf[x] == k
    requires Chained(aux, seg) && Holds(seg, mark, ks, |mark|)
    ensures Base(g, aux[x := seg[0]], startOf, endOf, traces, chains, connected[k := true], mark)
    ensures Chained(aux[x := seg[0]], chains[k] + seg) && Holds(chains[k] + seg, mark, ks + {k}, |mark|)
    ensures x < |mark| <= |aux| && mark[x] == k + 1 && x in chains[k] && traces[k].first == chains[k][0]
  {
    hide MarkedChain, Marked, TracesLinked, Holds, Linked, Distinct, EndsOk, Homogeneous, ClosedOver;
    FreeChain(g, aux, startOf, endOf, traces, chains, connected, mark, k);
    EndMarked(startOf, endOf, chains, mark, k, x);
    JoinBefore(aux, chains[k], seg, mark, {k}, ks);
    assert {k} + ks == ks + {k};
    TracesLength(aux, traces, chains, connected);
    TracesRelaxed(aux, traces, chains, connected, k);
    TracesRelinked(aux, traces, chains, connected[k := true], mark, x, seg[0]);
  }

  lemma TracesLength(aux: seq<int>, traces: seq<Trace>, chains: seq<seq<int>>, connected: seq<bool>)
    requires TracesLinked(aux, traces, chains, connected)
    ensures |traces| == |chains| == |connected|
  {
  }

  /** The block recorded as the end of trace k is the last of its chain. */
  lemma EndMarked(startOf: seq<int>, endOf: seq<int>, chains: seq<seq<int>>, mark: seq<nat>, k: nat, x: int)
    requires EndsOk(startOf, endOf, chains) && Marked(mark, chains) && 0 <= x < |endOf| && endOf[x] == k < |chains|
    ensures |chains[k]| > 0 && chains[k][|chains[k]|-1] == x && x in chains[k]
    ensures x < |mark| && mark[x] == k + 1
  {
    assert MarkedChain(mark, chains[k], k);
  }

  lemma TracesRelaxed(aux: seq<int>, traces: seq<Trace>, chains: seq<seq<int>>, connected: seq<bool>, k: nat)
    requires TracesLinked(aux, traces, chains, connected) && k < |connected|
    ensures TracesLinked(aux, traces, chains, connected[k := true])
  {
    forall i | 0 <= i < |chains| ensures TraceLinked(aux, traces[i], chains[i], connected[k := true][i]) {
      assert TraceLinked(aux, traces[i], chains[i], connected[i]);
    }
  }

  lemma BaseRelaxed(g: Graph, aux: seq<int>, startOf: seq<int>, endOf: seq<int>, traces: seq<Trace>,
                    chains: seq<seq<int>>, connected: seq<bool>, mark: seq<nat>, k: nat)
    requires Base(g, aux, startOf, endOf, traces, chains, connected, mark) && k < |connected|
    ensures Base(g, aux, startOf, endOf, traces, chains, connected[k := true], mark)
  {
    hide Marked, Homogeneous;
    TracesRelaxed(aux, traces, chains, connected, k);
  }

  /** A free trace is a part of its own. */
  lemma FreeChain(g: Graph, aux: seq<int>, startOf: seq<int>, endOf: seq<int>, traces: seq<Trace>,
                  chains: seq<seq<int>>, connected: seq<bool>, mark: seq<nat>, k: nat)
    requires Base(g, aux, startOf, endOf, traces, chains, connected, mark)
    requires k < |chains| && !connected[k]
    ensures Chained(aux, chains[k]) && Holds(chains[k], mark, {k}, |mark|)
    ensures traces[k].first == chains[k][0] && traces[k].last == chains[k][|chains[k]|-1]
  {
    assert TraceLinked(aux, traces[k], chains[k], connected[k]);
    assert MarkedChain(mark, chains[k], k);
    ChainHolds(mark, chains, k);
  }

  ghost predicate BaseOf(p: Reorder, connected: array<bool>, mark: seq<nat>)
    reads p, connected
  {
    && |p.traces| == |p.chains| == connected.Length
    && mark <= p.visited && |p.g0.blocks| <= |mark|
    && Base(p.g, p.aux, p.startOf, p.endOf, p.traces, p.chains, connected[..], mark)
  }

  /** The place where the threading is. */
  ghost function Here(p: Reorder, connected: array<bool>, layout: seq<int>): Place
    reads p, connected
  {
    Place(p.g, p.startOf, p.endOf, p.traces, connected[..], layout)
  }

  lemma FreeShrinks(connected: seq<bool>, k: nat)
    requires k < |connected| && !connected[k]
    ensures Free(connected[k := true]) < Free(connected)
  {
    assert k in Free(connected) && k !in Free(connected[k := true]);
  }

  lemma FirstSegment(g: Graph, aux: seq<int>, startOf: seq<int>, endOf: seq<int>, traces: seq<Trace>,
                     chains: seq<seq<int>>, connected: seq<bool>, mark: seq<nat>, t: nat)
    requires Base(g, aux, startOf, endOf, traces, chains, connected, mark) && t < |chains|
    ensures |chains[t]| > 0 && traces[t].first == chains[t][0] && Holds(chains[t], mark, {t}, |mark|)
  {
    assert TraceLinked(aux, traces[t], chains[t], connected[t]);
    ChainHolds(mark, chains, t);
  }

  /** A trace that ends with block x of a section lies in that section; it ends at its last block. */
  lemma ChainIn(g: Graph, aux: seq<int>, startOf: seq<int>, endOf: seq<int>, traces: seq<Trace>,
                chains: seq<seq<int>>, connected: seq<bool>, mark: seq<nat>, k: nat, x: int, section: Partition)
    requires Base(g, aux, startOf, endOf, traces, chains, connected, mark) && k < |chains|
    requires |chains[k]| > 0 && x in chains[k] && 0 <= x < |g.blocks| && g.blocks[x].partition == section
    ensures AllIn(g, chains[k], section)
  {
    assert MarkedChain(mark, chains[k], k);
  }

  /** Trace t has just been connected: put free traces before it as long as one leads to the front. */
  method FindPredecessors(p: Reorder, connected: array<bool>, part: Partition, t: nat, ghost mark: seq<nat>,
                          ghost ks0: set<int>, ghost here: Place)
    returns (t2: nat, ghost seg: seq<int>, ghost ks: set<int>, ghost us: seq<nat>)
    requires BaseOf(p, connected, mark) && t < |p.chains| && connected[t]
    requires Chained(p.aux, p.chains[t]) && p.traces[t].first == p.chains[t][0]
    requires ConnectedAre(connected[..], ks0 + {t}) && t !in ks0
    requires here.g == p.g && here.endOf == p.endOf && here.traces == p.traces && connected[..] == Joined(here.connected, [t])
    modifies p`aux, connected
    ensures Fronted(p, connected, part, t, mark, ks0, here, old(p.aux), t2, seg, ks, us) && Foremost(here, part, us)
  {
    hide Base, BaseOf, AllIn, ConnectedAre, Chained, Holds, Backwards, Joined, Fronts, Foremost, Precedes, BestInto, NoneInto, Fronted;
    t2 := t;
    seg, ks := p.chains[t], {t};
    us := [t];
    ghost var aux := p.aux;
    FirstFronted(p, connected, part, t, mark, ks0, here);
    while t2 > 0
      invariant Fronted(p, connected, part, t, mark, ks0, here, aux, t2, seg, ks, us)
      decreases Free(connected[..])
    {
      FrontedSizes(p, connected, part, t, mark, ks0, here, aux, t2, seg, ks, us);
      var best := BestPredecessor(p.g, p.traces, p.endOf, connected[..], part, p.traces[t2].first);
      if best == -1 {
        NoneBefore(here, part, us);
        break;
      }
      t2, seg, ks, us := PutBefore(p, connected, part, t, mark, ks0, here, aux, t2, seg, ks, us, best);
    }
    if t2 == 0 {
      FrontedSizes(p, connected, part, t, mark, ks0, here, aux, t2, seg, ks, us);
      FrontBefore(here, part, us);
    }
  }

  /** While traces are put before trace t: the segment seg, made of the traces ks, starts with trace t2. */
  ghost predicate Fronted(p: Reorder, connected: array<bool>, part: Partition, t: nat, mark: seq<nat>, ks0: set<int>,
                          here: Place, aux: seq<int>, t2: nat, seg: seq<int>, ks: set<int>, us: seq<nat>)
    reads p, connected
  {
    && BaseOf(p, connected, mark)
    && FrontedParts(p.g, p.aux, p.endOf, p.traces, p.chains, connected[..], part, t, mark, ks0, here, aux, t2, seg, ks, us)
  }

  ghost predicate FrontedParts(g: Graph, aux': seq<int>, endOf: seq<int>, traces: seq<Trace>, chains: seq<seq<int>>,
                               connected: seq<bool>, part: Partition, t: nat, mark: seq<nat>, ks0: set<int>, here: Place,
                               aux: seq<int>, t2: nat, seg: seq<int>, ks: set<int>, us: seq<nat>)
  {
    && |traces| == |chains| && t2 < |chains| && t < |chains| && |chains[t]| > 0
    && Chained(aux', seg) && Holds(seg, mark, ks, |mark|) && |seg| > 0
    && seg[0] == traces[t2].first && seg[|seg|-1] == chains[t][|chains[t]|-1]
    && ks0 !! ks && t in ks && ConnectedAre(connected, ks0 + ks)
    && |aux'| == |aux| && (forall b :: 0 <= b < |aux| && aux'[b] != aux[b] ==> b in seg)
    && (forall b :: b in chains[t] ==> b in seg)
    && (AllIn(g, chains[t], part) ==> AllIn(g, seg, part))
    && (t == 0 ==> t2 == 0)
    && here.g == g && here.endOf == endOf && here.traces == traces && |here.connected| == |here.traces|
    && us != [] && us[0] == t && us[|us|-1] == t2 && Backwards(here, part, us)
    && connected == Joined(here.connected, us) && seg == Fronts(chains, us)
  }

  lemma FirstFronted(p: Reorder, connected: array<bool>, part: Partition, t: nat, mark: seq<nat>, ks0: set<int>, here: Place)
    requires BaseOf(p, connected, mark) && t < |p.chains| && connected[t]
    requires Chained(p.aux, p.chains[t]) && p.traces[t].first == p.chains[t][0]
    requires ConnectedAre(connected[..], ks0 + {t}) && t !in ks0
    requires here.g == p.g && here.endOf == p.endOf && here.traces == p.traces && connected[..] == Joined(here.connected, [t])
    ensures Fronted(p, connected, part, t, mark, ks0, here, p.aux, t, p.chains[t], {t}, [t])
  {
    hide Base, Chained, Holds, ConnectedAre, Backwards, Joined, Fronts, AllIn;
    FirstSegment(p.g, p.aux, p.startOf, p.endOf, p.traces, p.chains, connected[..], mark, t);
    FirstBefore(here, part, p.chains, t);
  }

  lemma FrontedSizes(p: Reorder, connected: array<bool>, part: Partition, t: nat, mark: seq<nat>, ks0: set<int>,
                     here: Place, aux: seq<int>, t2: nat, seg: seq<int>, ks: set<int>, us: seq<nat>)
    requires Fronted(p, connected, part, t, mark, ks0, here, aux, t2, seg, ks, us)
    ensures t2 < |p.traces| == connected.Length == |p.chains| == |here.traces| == |here.connected|
    ensures here.g == p.g && here.endOf == p.endOf && here.traces == p.traces && connected[..] == Joined(here.connected, us)
    ensures us != [] && us[|us|-1] == t2 && Backwards(here, part, us)
  {
    hide Base, Chained, Holds, ConnectedAre, Backwards, Joined, Fronts, AllIn;
  }

  lemma FrontedMeans(p: Reorder, connected: array<bool>, part: Partition, t: nat, mark: seq<nat>, ks0: set<int>,
                     here: Place, aux: seq<int>, t2: nat, seg: seq<int>, ks: set<int>, us: seq<nat>)
    requires Fronted(p, connected, part, t, mark, ks0, here, aux, t2, seg, ks, us)
    ensures BaseOf(p, connected, mark) && t2 < |p.chains| && t < |p.chains| && |p.chains[t]| > 0
    ensures Chained(p.aux, seg) && Holds(seg, mark, ks, |mark|) && |seg| > 0
    ensures seg[0] == p.traces[t2].first && seg[|seg|-1] == p.chains[t][|p.chains[t]|-1]
    ensures ks0 !! ks && t in ks && ConnectedAre(connected[..], ks0 + ks)
    ensures |p.aux| == |aux| && (forall b :: 0 <= b < |aux| && p.aux[b] != aux[b] ==> b in seg)
    ensures forall b :: b in p.chains[t] ==> b in seg
    ensures AllIn(p.g, p.chains[t], part) ==> AllIn(p.g, seg, part)
    ensures t == 0 ==> t2 == 0
    ensures us != [] && us[0] == t && Backwards(here, part, us)
    ensures connected[..] == Joined(here.connected, us) && seg == Fronts(p.chains, us)
  {
    hide Base, Chained, Holds, ConnectedAre, Backwards, Joined, Fronts, AllIn;
  }

  /** The trace that edge best comes from is put before the segment. */
  method PutBefore(p: Reorder, connected: array<bool>, part: Partition, ghost t: nat, ghost mark: seq<nat>,
                   ghost ks0: set<int>, ghost here: Place, ghost aux: seq<int>, t20: nat, ghost seg0: seq<int>,
                   ghost ks1: set<int>, ghost us0: seq<nat>, best: int)
    returns (t2: nat, ghost seg: seq<int>, ghost ks: set<int>, ghost us: seq<nat>)
    requires Fronted(p, connected, part, t, mark, ks0, here, aux, t20, seg0, ks1, us0) && t20 > 0
    requires FromFreeEnd(p.g, p.endOf, connected[..], part, p.traces[t20].first, best)
    requires BestInto(p.g, p.traces, p.endOf, connected[..], part, p.traces[t20].first, best)
    modifies p`aux, connected
    ensures Fronted(p, connected, part, t, mark, ks0, here, aux, t2, seg, ks, us)
    ensures Free(connected[..]) < Free(old(connected[..]))
  {
    hide Base, Chained, Holds, Backwards, Joined, Fronts, Foremost, Precedes, BestInto;
    var src := p.g.edges[best].src;
    var k := p.endOf[src];
    ghost var c := connected[..];
    StepBack(p.g, p.aux, p.startOf, p.endOf, p.traces, p.chains, c, mark, seg0, ks1, k, src);
    ChainIn(p.g, p.aux, p.startOf, p.endOf, p.traces, p.chains, c, mark, k, src, part);
    FreeShrinks(c, k);
    StepBefore(here, part, us0, best, k, p.chains);
    p.aux := p.aux[src := p.g.edges[best].dest];
    t2 := k;
    connected[k] := true;
    assert connected[..] == c[k := true];
    seg := p.chains[k] + seg0;
    ks := ks1 + {k};
    us := us0 + [k];
  }

  lemma FirstBefore(s: Place, part: Partition, chains: seq<seq<int>>, t: nat)
    requires t < |s.traces| && t < |chains|
    ensures Backwards(s, part, [t]) && Fronts(chains, [t]) == chains[t]
  {
  }

  lemma NoneBefore(s: Place, part: Partition, us: seq<nat>)
    requires Backwards(s, part, us)
    requires NoneInto(s.g, s.endOf, Joined(s.connected, us), part, s.traces[us[|us|-1]].first)
    ensures Foremost(s, part, us)
  {
  }

  lemma FrontBefore(s: Place, part: Partition, us: seq<nat>)
    requires Backwards(s, part, us) && us[|us|-1] == 0
    ensures Foremost(s, part, us)
  {
  }

  lemma StepBefore(s: Place, part: Partition, us: seq<nat>, best: int, v: nat, chains: seq<seq<int>>)
    requires Backwards(s, part, us) && us[|us|-1] > 0 && v < |s.traces| == |s.connected| == |chains|
    requires BestInto(s.g, s.traces, s.endOf, Joined(s.connected, us), part, s.traces[us[|us|-1]].first, best)
    requires s.endOf[s.g.edges[best].src] == v
    ensures Backwards(s, part, us + [v]) && Joined(s.connected, us + [v]) == Joined(s.connected, us)[v := true]
    ensures Fronts(chains, us + [v]) == chains[v] + Fronts(chains, us)
  {
    OneMoreBefore(s, part, us, v);
    assert (us + [v])[..|us|] == us;
  }

  /** The last block of trace t: its own last block, or the newest copy after it. */
  ghost predicate EndOf(traces: seq<Trace>, chains: seq<seq<int>>, mark: seq<nat>, t: int, x: int) {
    && 0 <= t < |chains| == |traces| && |chains[t]| > 0 && traces[t].last == x
    && (x >= |mark| || x == chains[t][|chains[t]|-1])
  }

  /** The layout so far: linked, made of the traces in ks and of all copies, ending with trace t. */
  ghost predicate Laid(aux: seq<int>, layout: seq<int>, traces: seq<Trace>, chains: seq<seq<int>>, mark: seq<nat>,
                       ks: set<int>, t: int)
  {
    && Chained(aux, layout) && Holds(layout, mark, ks, |aux|)
    && EndOf(traces, chains, mark, t, layout[|layout|-1])
  }

  /** Appending part, made of the traces in ls, to the layout. */
  lemma AppendPart(g: Graph, aux: seq<int>, startOf: seq<int>, endOf: seq<int>, traces: seq<Trace>,
                   chains: seq<seq<int>>, connected: seq<bool>, mark: seq<nat>, layout: seq<int>, ks: set<int>,
                   t: nat, part: seq<int>, ls: set<int>, t': nat)
    requires Base(g, aux, startOf, endOf, traces, chains, connected, mark)
    requires Laid(aux, layout, traces, chains, mark, ks, t) && t in ks && connected[t]
    requires Chained(aux, part) && Holds(part, mark, ls, |mark|) && ks !! ls
    requires EndOf(traces, chains, mark, t', part[|part|-1])
    ensures 0 <= traces[t].last < |aux|
    ensures var aux' := aux[traces[t].last := part[0]];
      && Base(g, aux', startOf, endOf, traces, chains, connected, mark)
      && Laid(aux', layout + part, traces, chains, mark, ks + ls, t')
  {
    assert |part| > 0;
    hide Homogeneous, Holds, Chained, TracesLinked, Marked;
    Join(aux, layout, part, mark, ks, ls, |aux|);
    EndRelinked(aux, traces, chains, connected, mark, layout, t, part[0]);
  }

  lemma EndRelinked(aux: seq<int>, traces: seq<Trace>, chains: seq<seq<int>>, connected: seq<bool>,
                    mark: seq<nat>, layout: seq<int>, t: nat, v: int)
    requires Marked(mark, chains) && TracesLinked(aux, traces, chains, connected) && |mark| <= |aux|
    requires Chained(aux, layout) && EndOf(traces, chains, mark, t, layout[|layout|-1]) && connected[t]
    ensures 0 <= traces[t].last < |aux| && TracesLinked(aux[traces[t].last := v], traces, chains, connected)
  {
    hide TracesLinked;
    assert MarkedChain(mark, chains[t], t);
    TracesRelinked(aux, traces, chains, connected, mark, traces[t].last, v);
  }

  /** The chains after a copy is linked behind the end of trace t. */
  lemma CopyLinks(aux: seq<int>, traces: seq<Trace>, chains: seq<seq<int>>, connected: seq<bool>, mark: seq<nat>,
                  layout: seq<int>, t: nat)
    requires Marked(mark, chains) && TracesLinked(aux, traces, chains, connected) && |mark| <= |aux|
    requires Chained(aux, layout) && EndOf(traces, chains, mark, t, layout[|layout|-1]) && t < |connected| && connected[t]
    ensures 0 <= traces[t].last < |aux|
    ensures TracesLinked((aux + [aux[traces[t].last]])[traces[t].last := |aux|],
                         traces[t := traces[t].(last := |aux|)], chains, connected)
  {
    hide Marked, TracesLinked, Chained;
    EndRelinked(aux, traces, chains, connected, mark, layout, t, |aux|);
    var x := traces[t].last;
    CopyTraces(aux[x := |aux|], traces, chains, connected, t, aux[x]);
    assert (aux + [aux[x]])[x := |aux|] == aux[x := |aux|] + [aux[x]];
  }

  /** A copy at the end of trace t leaves the chains alone. */
  lemma CopyBase(g: Graph, aux: seq<int>, startOf: seq<int>, endOf: seq<int>, traces: seq<Trace>,
                 chains: seq<seq<int>>, connected: seq<bool>, mark: seq<nat>, layout: seq<int>, ks: set<int>,
                 t: nat, h: Graph, orig: int, e: nat)
    requires Base(g, aux, startOf, endOf, traces, chains, connected, mark)
    requires t < |connected| && connected[t]
    requires Laid(aux, layout, traces, chains, mark, ks, t) && Duplicated(g, h, orig, e)
    requires g.edges[e].src == traces[t].last && g.edges[e].dest == orig
    ensures 0 <= traces[t].last < |aux|
    ensures var x := traces[t].last;
      Base(h, (aux + [aux[x]])[x := |aux|], startOf + [-1], endOf + [-1],
           traces[t := traces[t].(last := |aux|)], chains, connected, mark)
  {
    hide Duplicated, Marked, TracesLinked, EndsOk, Homogeneous, Holds, Chained, ClosedOver;
    DuplicatedSections(g, h, orig, e);
    TargetKnown(g, aux, startOf, endOf, traces, chains, connected, mark, t, e);
    ClosedDuplicated(g, h, orig, e, mark);
    CopyLinks(aux, traces, chains, connected, mark, layout, t);
    TablesGrow(g, h, startOf, endOf, chains, mark);
  }

  /** The edges at the end of a trace lead to known blocks. */
  lemma TargetKnown(g: Graph, aux: seq<int>, startOf: seq<int>, endOf: seq<int>, traces: seq<Trace>,
                    chains: seq<seq<int>>, connected: seq<bool>, mark: seq<nat>, t: nat, e: nat)
    requires Base(g, aux, startOf, endOf, traces, chains, connected, mark) && t < |chains|
    requires EndOf(traces, chains, mark, t, traces[t].last)
    requires e < |g.edges| && g.edges[e].src == traces[t].last && IsBlock(g, g.edges[e].dest)
    ensures Known(mark, g.edges[e].dest)
  {
    assert MarkedChain(mark, chains[t], t);
  }

  lemma TablesGrow(g: Graph, h: Graph, startOf: seq<int>, endOf: seq<int>, chains: seq<seq<int>>, mark: seq<nat>)
    requires EndsOk(startOf, endOf, chains) && |mark| <= |g.blocks| <= |h.blocks| && Homogeneous(g, mark, chains)
    requires forall b :: IsBlock(g, b) ==> h.blocks[b].partition == g.blocks[b].partition
    ensures EndsOk(startOf + [-1], endOf + [-1], chains) && Homogeneous(h, mark, chains)
  {
    forall b | 0 <= b < |mark| && 0 < mark[b] <= |chains| && |chains[mark[b]-1]| > 0
      ensures var front := chains[mark[b]-1][0];
        IsBlock(h, front) && h.blocks[b].partition == h.blocks[front].partition
    {
      assert IsBlock(g, b) && IsBlock(g, chains[mark[b]-1][0]);
    }
  }

  lemma CopyTraces(aux: seq<int>, traces: seq<Trace>, chains: seq<seq<int>>, connected: seq<bool>, t: nat, v: int)
    requires TracesLinked(aux, traces, chains, connected) && t < |connected| && connected[t]
    ensures TracesLinked(aux + [v], traces[t := traces[t].(last := |aux|)], chains, connected)
  {
    var traces' := traces[t := traces[t].(last := |aux|)];
    forall k | 0 <= k < |chains|
      ensures TraceLinked(aux + [v], traces'[k], chains[k], connected[k])
    {
      assert TraceLinked(aux, traces[k], chains[k], connected[k]);
      LinkedGrow(aux, chains[k], v);
    }
  }

  lemma CopyLaid(g: Graph, aux: seq<int>, startOf: seq<int>, endOf: seq<int>, traces: seq<Trace>,
                 chains: seq<seq<int>>, connected: seq<bool>, mark: seq<nat>, layout: seq<int>, ks: set<int>,
                 t: nat)
    requires Base(g, aux, startOf, endOf, traces, chains, connected, mark)
    requires Laid(aux, layout, traces, chains, mark, ks, t)
    ensures 0 <= traces[t].last < |aux| == |g.blocks|
    ensures var x := traces[t].last;
      Laid((aux + [aux[x]])[x := |aux|], layout + [|aux|], traces[t := traces[t].(last := |aux|)], chains, mark,
           ks, t)
  {
    hide Marked, TracesLinked, EndsOk, Homogeneous;
    assert layout[|layout|-1] in layout;
    AppendCopy(aux, layout, mark, ks);
  }

  lemma TargetVisited(p: Reorder, connected: array<bool>, e: nat, t: nat, mark: seq<nat>, layout: seq<int>,
                      ks: set<int>)
    requires BaseOf(p, connected, mark) && t < |p.chains| && |p.visited| == |p.g.blocks|
    requires Laid(p.aux, layout, p.traces, p.chains, mark, ks, t)
    requires e < |p.g.edges| && IsBlock(p.g, p.g.edges[e].dest) && p.g.edges[e].src == p.traces[t].last
    ensures p.g.edges[e].dest < |p.g0.blocks| ==> p.visited[p.g.edges[e].dest] != 0
  {
    hide Base;
    TargetKnown(p.g, p.aux, p.startOf, p.endOf, p.traces, p.chains, connected[..], mark, t, e);
  }

  /** Copy the target of edge e to the end of trace t. */
  method CopyOnto(p: Reorder, connected: array<bool>, e: nat, t: nat, ghost mark: seq<nat>,
                  ghost layout: seq<int>, ghost ks: set<int>)
    returns (dup: int)
    requires p.Heaps() && p.connecting && BaseOf(p, connected, mark) && t < |p.chains| && connected[t]
    requires Laid(p.aux, layout, p.traces, p.chains, mark, ks, t)
    requires e < |p.g.edges| && IsBlock(p.g, p.g.edges[e].dest) && p.g.edges[e].src == p.traces[t].last
    modifies p`g, p`visited, p`aux, p`startOf, p`endOf, p`heapOf, p`pristine, p`traces
    ensures p.Heaps() && BaseOf(p, connected, mark)
    ensures Laid(p.aux, layout + [dup], p.traces, p.chains, mark, ks, t)
    ensures dup == |old(p.g).blocks| && Duplicated(old(p.g), p.g, old(p.g).edges[e].dest, e)
    ensures p.startOf == old(p.startOf) + [-1] && p.endOf == old(p.endOf) + [-1]
    ensures p.g == DuplicateBlock(old(p.g), old(p.g).edges[e].dest, e, old(p.traces)[t].last)
    ensures p.traces == old(p.traces)[t := old(p.traces)[t].(last := dup)]
    ensures forall b :: IsBlock(old(p.g), b) ==>
              IsBlock(p.g, b) && p.g.blocks[b].partition == old(p.g).blocks[b].partition
  {
    hide HeapsOk, Retargeted, FreshKeys, WellFormed, CrossingMarked, Base, Laid, Duplicated, DuplicateBlock;
    TargetVisited(p, connected, e, t, mark, layout, ks);
    CopyLaid(p.g, p.aux, p.startOf, p.endOf, p.traces, p.chains, connected[..], mark, layout, ks, t);
    dup := p.CopyBb(p.g.edges[e].dest, e, p.traces[t].last, t);
    DuplicatedSections(old(p.g), p.g, old(p.g).edges[e].dest, e);
    CopyBase(old(p.g), old(p.aux), old(p.startOf), old(p.endOf), p.traces, p.chains, connected[..], mark, layout,
             ks, t, p.g, old(p.g).edges[e].dest, e);
    p.traces := p.traces[t := p.traces[t].(last := dup)];
  }

  /** Connect the free trace t2 after the layout, which ends with trace t. */
  method ConnectTrace(p: Reorder, connected: array<bool>, t: nat, t2: nat, ghost mark: seq<nat>,
                      ghost layout: seq<int>, ghost ks: set<int>)
    requires p.Heaps() && BaseOf(p, connected, mark) && t < |p.chains| && t2 < |p.chains|
    requires connected[t] && !connected[t2] && ConnectedAre(connected[..], ks)
    requires Laid(p.aux, layout, p.traces, p.chains, mark, ks, t)
    modifies p`aux, connected
    ensures p.Heaps() && BaseOf(p, connected, mark) && ConnectedAre(connected[..], ks + {t2})
    ensures Laid(p.aux, layout + p.chains[t2], p.traces, p.chains, mark, ks + {t2}, t2)
    ensures connected[..] == old(connected[..])[t2 := true]
  {
    hide HeapsOk, Retargeted, FreshKeys, WellFormed, CrossingMarked, Base, Laid, Chained, Holds;
    ghost var c := connected[..];
    FreeChain(p.g, p.aux, p.startOf, p.endOf, p.traces, p.chains, c, mark, t2);
    AppendPart(p.g, p.aux, p.startOf, p.endOf, p.traces, p.chains, c, mark, layout, ks, t, p.chains[t2], {t2}, t2);
    p.aux := p.aux[p.traces[t].last := p.traces[t2].first];
    BaseRelaxed(p.g, p.aux, p.startOf, p.endOf, p.traces, p.chains, c, mark, t2);
    connected[t2] := true;
    assert connected[..] == c[t2 := true];
  }

  /** The free trace that starts at block d of a section lies in that section. */
  lemma StartIn(g: Graph, aux: seq<int>, startOf: seq<int>, endOf: seq<int>, traces: seq<Trace>,
                chains: seq<seq<int>>, connected: seq<bool>, mark: seq<nat>, d: int, section: Partition)
    requires Base(g, aux, startOf, endOf, traces, chains, connected, mark)
    requires IsBlock(g, d) && startOf[d] >= 0 && g.blocks[d].partition == section
    ensures startOf[d] < |chains| && AllIn(g, chains[startOf[d]], section)
    ensures chains[startOf[d]] != [] && chains[startOf[d]][0] == d
  {
    ChainIn(g, aux, startOf, endOf, traces, chains, connected, mark, startOf[d], d, section);
  }

  lemma BaseSizes(g: Graph, aux: seq<int>, startOf: seq<int>, endOf: seq<int>, traces: seq<Trace>,
                  chains: seq<seq<int>>, connected: seq<bool>, mark: seq<nat>)
    requires Base(g, aux, startOf, endOf, traces, chains, connected, mark)
    ensures |aux| == |startOf| == |endOf| == |g.blocks| >= |mark|
    ensures forall d :: 0 <= d < |startOf| ==> -1 <= startOf[d] < |traces|
  {
  }

  lemma LaidEnd(aux: seq<int>, layout: seq<int>, traces: seq<Trace>, chains: seq<seq<int>>, mark: seq<nat>,
                ks: set<int>, t: int)
    requires Laid(aux, layout, traces, chains, mark, ks, t)
    ensures 0 <= t < |traces| && 0 <= traces[t].last < |aux| && layout != [] && layout[|layout|-1] == traces[t].last
  {
    assert layout[|layout|-1] in layout;
  }

  /** While traces are connected after one another: the layout ends with trace t. */
  ghost predicate Laying(p: Reorder, connected: array<bool>, part: Partition, mark: seq<nat>, g0: Graph, ks0: set<int>,
                         t: nat, layout: seq<int>, ks: set<int>, added: seq<int>)
    reads p, connected
  {
    && p.Heaps() && p.connecting && BaseOf(p, connected, mark) && t < |p.chains|
    && Laid(p.aux, layout, p.traces, p.chains, mark, ks, t)
    && t in ks && ks0 <= ks && ConnectedAre(connected[..], ks)
    && (p.s.partitioning ==> p.g == g0 && AllIn(p.g, added, part))
  }

  lemma LayingSizes(p: Reorder, connected: array<bool>, part: Partition, mark: seq<nat>, g0: Graph, ks0: set<int>,
                    t: nat, layout: seq<int>, ks: set<int>, added: seq<int>)
    requires Laying(p, connected, part, mark, g0, ks0, t, layout, ks, added)
    ensures p.Heaps() && t < |p.traces| == connected.Length == |p.chains| && IsBlock(p.g, p.traces[t].last)
    ensures layout != [] && layout[|layout|-1] == p.traces[t].last && |p.startOf| == |p.g.blocks|
    ensures forall d :: 0 <= d < |p.startOf| ==> -1 <= p.startOf[d] < |p.traces|
  {
    hide Base, Laid, Reorder.Heaps, AllIn, ConnectedAre;
    LaidEnd(p.aux, layout, p.traces, p.chains, mark, ks, t);
    BaseSizes(p.g, p.aux, p.startOf, p.endOf, p.traces, p.chains, connected[..], mark);
  }

  /** The copy of the target of edge e is put after the layout. */
  method CopyHere(p: Reorder, connected: array<bool>, part: Partition, e: nat, t: nat, ghost mark: seq<nat>, ghost g0: Graph,
                  ghost ks0: set<int>, ghost layout0: seq<int>, ghost ks: set<int>, ghost added0: seq<int>)
    returns (ghost layout: seq<int>, ghost added: seq<int>)
    requires Laying(p, connected, part, mark, g0, ks0, t, layout0, ks, added0) && !p.s.partitioning
    requires e < |p.g.edges| && t < |p.traces| && IsBlock(p.g, p.g.edges[e].dest) && p.g.edges[e].src == p.traces[t].last
    modifies p`g, p`visited, p`aux, p`startOf, p`endOf, p`heapOf, p`pristine, p`traces
    ensures Laying(p, connected, part, mark, g0, ks0, t, layout, ks, added)
    ensures layout == layout0 + [|old(p.g).blocks|] && added == added0 + [|old(p.g).blocks|]
    ensures p.g == DuplicateBlock(old(p.g), old(p.g).edges[e].dest, e, old(p.traces)[t].last)
    ensures p.startOf == old(p.startOf) + [-1] && p.endOf == old(p.endOf) + [-1]
    ensures |p.traces| == |old(p.traces)| &&
            forall k :: 0 <= k < |p.traces| ==> p.traces[k] == old(p.traces)[k].(last := p.traces[k].last)
    ensures forall b :: IsBlock(old(p.g), b) ==>
              IsBlock(p.g, b) && p.g.blocks[b].partition == old(p.g).blocks[b].partition
    ensures connected[..] == old(connected[..])
  {
    hide Base, Laid, Reorder.Heaps, Duplicated, DuplicateBlock, AllIn, ConnectedAre;
    assert connected[t] by {
      Connected(connected[..], ks, t);
    }
    var dup := CopyOnto(p, connected, e, t, mark, layout0, ks);
    layout, added := layout0 + [dup], added0 + [dup];
  }

  lemma Connected(connected: seq<bool>, ks: set<int>, t: nat)
    requires ConnectedAre(connected, ks) && t in ks && t < |connected|
    ensures connected[t]
  {
  }

  /** The free trace that starts at block d is put after the layout. */
  method ConnectNext(p: Reorder, connected: array<bool>, part: Partition, d: int, t: nat, ghost mark: seq<nat>,
                     ghost g0: Graph, ghost ks0: set<int>, ghost layout0: seq<int>, ghost ks1: set<int>, ghost added0: seq<int>)
    returns (next: nat, ghost layout: seq<int>, ghost ks: set<int>, ghost added: seq<int>)
    requires Laying(p, connected, part, mark, g0, ks0, t, layout0, ks1, added0)
    requires IsBlock(p.g, d) && d < |p.startOf| && 0 <= p.startOf[d] < connected.Length && !connected[p.startOf[d]]
    requires p.g.blocks[d].partition == part
    modifies p`aux, connected
    ensures Laying(p, connected, part, mark, g0, ks0, next, layout, ks, added)
    ensures next == p.startOf[d] && next < |p.chains| && p.chains[next] != [] && p.chains[next][0] == d
    ensures layout == layout0 + p.chains[next] && added == added0 + p.chains[next]
    ensures connected[..] == old(connected[..])[next := true]
    ensures Free(connected[..]) < Free(old(connected[..]))
  {
    hide Base, Laid, Reorder.Heaps, AllIn, ConnectedAre;
    ghost var c := connected[..];
    next := p.startOf[d];
    StartIn(p.g, p.aux, p.startOf, p.endOf, p.traces, p.chains, c, mark, d, part);
    assert connected[t] by {
      Connected(c, ks1, t);
    }
    ConnectTrace(p, connected, t, next, mark, layout0, ks1);
    FreeShrinks(c, next);
    AllInConcat(p.g, added0, p.chains[next], part);
    layout, added, ks := layout0 + p.chains[next], added0 + p.chains[next], ks1 + {next};
  }

  /** From one place the search for successors has come to another one. */
  ghost predicate RunTo(run: seq<Place>, part: Partition, w: Policy, chains: seq<seq<int>>, s: Place, s': Place) {
    Onwards(run, part, w, chains) && run[0] == s && run[|run|-1] == s'
  }

  lemma RunFollows(run: seq<Place>, part: Partition, w: Policy, chains: seq<seq<int>>, s: Place, a: Place, b: Place, best: int)
    requires RunTo(run, part, w, chains, s, a) && Follows(a, b, part, chains, best)
    ensures RunTo(run + [b], part, w, chains, s, b)
  {
    hide Follows;
    OneMorePlace(run, part, w, chains, b);
  }

  lemma RunCopies(run: seq<Place>, part: Partition, w: Policy, chains: seq<seq<int>>, s: Place, a: Place, b: Place,
                  plan: CopyPlan)
    requires RunTo(run, part, w, chains, s, a) && Copies(a, b, part, w, chains, plan) && plan.next >= 0
    ensures RunTo(run + [b], part, w, chains, s, b)
  {
    hide Copies;
    OneMorePlace(run, part, w, chains, b);
  }

  /** The trace found for edge best has been appended. */
  lemma FollowsIs(a: Place, b: Place, part: Partition, chains: seq<seq<int>>, best: int, t: int)
    requires BestOnto(a, part, best) && |chains| == |a.connected| && t == a.startOf[a.g.edges[best].dest]
    requires chains[t] != [] && chains[t][0] == a.g.edges[best].dest
    requires b == a.(connected := a.connected[t := true], layout := a.layout + chains[t])
    ensures Follows(a, b, part, chains, best)
  {
    assert a.layout + [] == a.layout;
  }

  /** A block has been copied, and the trace found for it appended. */
  lemma CopiesIs(a: Place, mid: Place, b: Place, part: Partition, w: Policy, chains: seq<seq<int>>, plan: CopyPlan, t: int)
    requires CallsFor(a, part, w, plan) && |chains| == |a.connected|
    requires mid.g == DuplicateBlock(a.g, a.g.edges[plan.best].dest, plan.best, LastBlock(a))
    requires mid.startOf == a.startOf + [-1] && mid.endOf == a.endOf + [-1] && |mid.traces| == |a.traces|
    requires forall k :: 0 <= k < |a.traces| ==> mid.traces[k] == a.traces[k].(last := mid.traces[k].last)
    requires mid.connected == a.connected && mid.layout == a.layout + [|a.g.blocks|]
    requires plan.next < 0 ==> b == mid
    requires plan.next >= 0 ==>
               && plan.next < |a.startOf| && t == a.startOf[plan.next] && 0 <= t < |chains| && !a.connected[t]
               && chains[t] != [] && chains[t][0] == plan.next
               && b == mid.(connected := mid.connected[t := true], layout := mid.layout + chains[t])
    ensures Copies(a, b, part, w, chains, plan)
  {
    hide CallsFor, DuplicateBlock;
    assert (a.layout + [|a.g.blocks|]) == mid.layout;
  }

  /** Connect free traces after trace t0 as long as one continues the chain, directly or over the copy
      of a block. */
  method FindSuccessors(p: Reorder, connected: array<bool>, part: Partition, t0: nat, freqTh: int, countTh: int,
                        ghost mark: seq<nat>, ghost layout0: seq<int>, ghost ks0: set<int>)
    returns (lastTrace: nat, ghost layout: seq<int>, ghost ks: set<int>, ghost added: seq<int>, ghost run: seq<Place>)
    requires p.Heaps() && p.connecting && BaseOf(p, connected, mark) && t0 < |p.chains|
    requires Laid(p.aux, layout0, p.traces, p.chains, mark, ks0, t0)
    requires t0 in ks0 && ConnectedAre(connected[..], ks0)
    modifies p`g, p`visited, p`aux, p`startOf, p`endOf, p`heapOf, p`pristine, p`traces, connected
    ensures Laying(p, connected, part, mark, old(p.g), ks0, lastTrace, layout, ks, added) && layout == layout0 + added
    ensures Onwards(run, part, Policy(p.s, freqTh, countTh), p.chains) && run[0] == old(Here(p, connected, layout0))
    ensures Stops(run[|run|-1], Here(p, connected, layout), part, Policy(p.s, freqTh, countTh), p.chains)
  {
    hide Base, BaseOf, Laid, Laying, Reorder.Heaps, DuplicateBlock, AllIn, ConnectedAre, CopyBbP, PlanIs, RunTo, Follows,
         Copies, BestOutOf, NoneOutOf, CallsFor, Stops, Onwards;
    ghost var w, s := Policy(p.s, freqTh, countTh), Here(p, connected, layout0);
    ghost var g0 := p.g;
    lastTrace, layout, ks := t0, layout0, ks0;
    added := [];
    run := [s];
    StartLaying(p, connected, part, mark, ks0, t0, layout0);
    StartRun(part, w, p.chains, s);
    while true
      invariant Laying(p, connected, part, mark, g0, ks0, lastTrace, layout, ks, added) && layout == layout0 + added
      invariant RunTo(run, part, w, p.chains, s, Here(p, connected, layout))
      decreases Free(connected[..])
    {
      ghost var here := Here(p, connected, layout);
      LayingSizes(p, connected, part, mark, g0, ks0, lastTrace, layout, ks, added);
      var best := BestSuccessor(p.g, p.traces, p.startOf, connected[..], part, p.traces[lastTrace].last);
      if best >= 0 {
        lastTrace, layout, ks, added := ConnectNext(p, connected, part, p.g.edges[best].dest, lastTrace, mark, g0, ks0, layout,
                                                    ks, added);
        FollowsIs(here, Here(p, connected, layout), part, p.chains, best, lastTrace);
        RunFollows(run, part, w, p.chains, s, here, Here(p, connected, layout), best);
        run := run + [Here(p, connected, layout)];
      } else {
        var plan := SafePlan(p, connected, part, p.traces[lastTrace].last, freqTh, countTh, layout);
        if plan.best < 0 {
          assert here == Here(p, connected, layout);
          StopIs(run, part, w, p.chains, s, here);
          break;
        }
        layout, added := CopyHere(p, connected, part, plan.best, lastTrace, mark, g0, ks0, layout, ks, added);
        ghost var mid := Here(p, connected, layout);
        if plan.next < 0 {
          CopiesIs(here, mid, mid, part, w, p.chains, plan, 0);
          StopsAfterCopy(run, part, w, p.chains, s, here, mid, plan);
          break;
        }
        lastTrace, layout, ks, added := ConnectNext(p, connected, part, plan.next, lastTrace, mark, g0, ks0, layout, ks, added);
        CopiesIs(here, mid, Here(p, connected, layout), part, w, p.chains, plan, lastTrace);
        RunCopies(run, part, w, p.chains, s, here, Here(p, connected, layout), plan);
        run := run + [Here(p, connected, layout)];
      }
    }
  }

  lemma StartLaying(p: Reorder, connected: array<bool>, part: Partition, mark: seq<nat>, ks0: set<int>, t: nat, layout: seq<int>)
    requires p.Heaps() && p.connecting && BaseOf(p, connected, mark) && t < |p.chains|
    requires Laid(p.aux, layout, p.traces, p.chains, mark, ks0, t)
    requires t in ks0 && ConnectedAre(connected[..], ks0)
    ensures Laying(p, connected, part, mark, p.g, ks0, t, layout, ks0, [])
  {
    hide Base, BaseOf, Laid, Reorder.Heaps, ConnectedAre;
  }

  lemma StartRun(part: Partition, w: Policy, chains: seq<seq<int>>, s: Place)
    ensures RunTo([s], part, w, chains, s, s)
  {
  }

  lemma StopIs(run: seq<Place>, part: Partition, w: Policy, chains: seq<seq<int>>, s: Place, here: Place)
    requires RunTo(run, part, w, chains, s, here) && here.layout != []
    requires NoneOutOf(here.g, here.startOf, here.connected, part, LastBlock(here))
    requires forall q :: !CallsFor(here, part, w, q)
    ensures Onwards(run, part, w, chains) && run[0] == s && Stops(run[|run|-1], here, part, w, chains)
  {
    hide CallsFor, GoesOn, ToFreeStart;
  }

  lemma StopsAfterCopy(run: seq<Place>, part: Partition, w: Policy, chains: seq<seq<int>>, s: Place, here: Place, s': Place,
                       plan: CopyPlan)
    requires RunTo(run, part, w, chains, s, here) && Copies(here, s', part, w, chains, plan) && plan.next < 0
    ensures Onwards(run, part, w, chains) && run[0] == s && Stops(run[|run|-1], s', part, w, chains)
  {
    hide Copies, GoesOn;
  }

  /** The plan, unless copying is off (with partitioning) or the block is too large to be copied. */
  method SafePlan(p: Reorder, connected: array<bool>, part: Partition, b: int, freqTh: int, countTh: int,
                  ghost layout: seq<int>)
    returns (plan: CopyPlan)
    requires p.Heaps() && |p.traces| == connected.Length && IsBlock(p.g, b)
    requires forall d :: 0 <= d < |p.startOf| ==> -1 <= p.startOf[d] < |p.traces|
    requires layout != [] && layout[|layout|-1] == b && NoneOutOf(p.g, p.startOf, connected[..], part, b)
    ensures PlanOk(p.g, p.startOf, connected[..], part, b, plan)
    ensures p.s.partitioning ==> plan.best == -1
    ensures plan.best >= 0 ==> CallsFor(Here(p, connected, layout), part, Policy(p.s, freqTh, countTh), plan)
    ensures plan.best < 0 ==> forall q :: !CallsFor(Here(p, connected, layout), part, Policy(p.s, freqTh, countTh), q)
  {
    hide PlanIs, CopyBbP, Reorder.Heaps;
    assert p.Sized() by {
      HeapsSized(p);
    }
    plan := PlanCopy(p.g, p.traces, p.startOf, connected[..], part, b, freqTh, countTh);
    ghost var all := plan;
    if p.s.partitioning || plan.best == -1
       || !CopyBbP(p.g, p.g.edges[plan.best].dest,
                   !p.s.optimizeSize && EdgeFrequency(p.g, p.g.edges[plan.best]) >= freqTh
                   && p.g.edges[plan.best].count >= countTh,
                   p.s.jumpLength, p.s.growFactor) {
      plan := plan.(best := -1);
    }
    CallIs(Here(p, connected, layout), part, Policy(p.s, freqTh, countTh), all);
  }

  lemma HeapsSized(p: Reorder)
    requires p.Heaps()
    ensures p.Sized()
  {
  }

  /** The plan that the search makes is carried out exactly if its block may be copied. */
  lemma CallIs(s: Place, part: Partition, w: Policy, plan: CopyPlan)
    requires s.layout != [] && |s.traces| == |s.connected| && NoneOutOf(s.g, s.startOf, s.connected, part, LastBlock(s))
    requires PlanIs(SearchAt(s, part, w), plan, |s.g.edges|) && -1 <= plan.best < |s.g.edges|
    requires plan.best >= 0 ==> IsBlock(s.g, s.g.edges[plan.best].dest)
    ensures CallsFor(s, part, w, plan) <==> !w.w.partitioning && plan.best >= 0 && Copyable(s.g, w, plan.best)
    ensures !CallsFor(s, part, w, plan) ==> forall q :: !CallsFor(s, part, w, q)
  {
    hide ToFreeStart, Copyable;
    assert forall k :: !Onto(s, part, k);
    forall q | CallsFor(s, part, w, q) ensures q.best == plan.best {
      PlanUnique(SearchAt(s, part, w), plan, q);
    }
  }

  /** All plans are to copy the same block. */
  lemma PlanUnique(s: Search, plan: CopyPlan, q: CopyPlan)
    requires |s.traces| == |s.connected| && PlanIs(s, plan, |s.g.edges|) && PlanIs(s, q, |s.g.edges|)
    requires -1 <= q.best < |s.g.edges|
    ensures q.best == plan.best
  {
    hide Acceptable, Finds, LastFound, Own;
    if plan.best >= 0 {
      assert Acceptable(s, plan.best);
    }
    if q.best >= 0 {
      assert Acceptable(s, q.best);
    }
  }

  lemma AllInConcat(g: Graph, a: seq<int>, b: seq<int>, section: Partition)
    ensures AllIn(g, [], section)
    ensures AllIn(g, a, section) && AllIn(g, b, section) ==> AllIn(g, a + b, section)
  {
  }

  /** Nothing is laid out yet, or the layout ends with trace lastTrace. */
  ghost predicate LaidSoFar(aux: seq<int>, layout: seq<int>, traces: seq<Trace>, chains: seq<seq<int>>,
                            mark: seq<nat>, ks: set<int>, lastTrace: int)
  {
    if lastTrace == -1 then layout == [] && ks == {} && |aux| == |mark|
    else lastTrace in ks && Laid(aux, layout, traces, chains, mark, ks, lastTrace)
  }

  /** Putting segments together elsewhere does not disturb the layout. */
  lemma LaidFrame(aux: seq<int>, aux': seq<int>, layout: seq<int>, traces: seq<Trace>, chains: seq<seq<int>>,
                  mark: seq<nat>, ks: set<int>, t: int, seg: seq<int>, ls: set<int>)
    requires Laid(aux, layout, traces, chains, mark, ks, t) && |aux'| == |aux|
    requires Holds(seg, mark, ls, |mark|) && ks !! ls
    requires forall b :: 0 <= b < |aux| && aux'[b] != aux[b] ==> b in seg
    ensures Laid(aux', layout, traces, chains, mark, ks, t)
  {
    forall b | b in layout ensures 0 <= b < |aux| && aux'[b] == aux[b] {
      assert b !in seg;
    }
    ChainedFrame(aux, aux', layout);
  }

  lemma SegmentEnd(g: Graph, aux: seq<int>, startOf: seq<int>, endOf: seq<int>, traces: seq<Trace>,
                   chains: seq<seq<int>>, connected: seq<bool>, mark: seq<nat>, t: nat)
    requires Base(g, aux, startOf, endOf, traces, chains, connected, mark) && t < |chains| && !connected[t]
    ensures |chains[t]| > 0 && EndOf(traces, chains, mark, t, chains[t][|chains[t]|-1])
  {
    assert TraceLinked(aux, traces[t], chains[t], connected[t]);
  }

  /** Put the free trace t and the free traces that lead to it after the layout. */
  method ConnectBefore(p: Reorder, connected: array<bool>, part: Partition, t: nat, last0: int, ghost mark: seq<nat>,
                       ghost layout0: seq<int>, ghost ks0: set<int>)
    returns (ghost layout: seq<int>, ghost ks: set<int>, ghost seg: seq<int>, ghost us: seq<nat>)
    requires p.Heaps() && p.connecting && BaseOf(p, connected, mark) && t < |p.chains| && -1 <= last0 < |p.chains|
    requires !connected[t] && ConnectedAre(connected[..], ks0) && t !in ks0
    requires LaidSoFar(p.aux, layout0, p.traces, p.chains, mark, ks0, last0)
    requires p.s.partitioning ==> AllIn(p.g, p.chains[t], part)
    modifies p`aux, connected
    ensures p.Heaps() && BaseOf(p, connected, mark) && layout == layout0 + seg
    ensures Laid(p.aux, layout, p.traces, p.chains, mark, ks, t) && t in ks && ks0 <= ks && ConnectedAre(connected[..], ks)
    ensures (p.s.partitioning ==> AllIn(p.g, seg, part)) && |seg| > 0
    ensures t == 0 && last0 == -1 ==> layout[0] == p.chains[0][0]
    ensures us != [] && us[0] == t && seg == Fronts(p.chains, us) && connected[..] == Joined(old(connected[..]), us)
    ensures Backwards(old(Here(p, connected, layout0)), part, us) && Foremost(old(Here(p, connected, layout0)), part, us)
  {
    hide Base, Laid, Holds, Chained, HeapsOk, Retargeted, FreshKeys, WellFormed, CrossingMarked, CopiesVisited, AllIn, Fronted,
         Backwards, Foremost, Fronts, ConnectedAre;
    ghost var c, here := connected[..], Here(p, connected, layout0);
    FreeChain(p.g, p.aux, p.startOf, p.endOf, p.traces, p.chains, c, mark, t);
    SegmentEnd(p.g, p.aux, p.startOf, p.endOf, p.traces, p.chains, c, mark, t);
    BaseRelaxed(p.g, p.aux, p.startOf, p.endOf, p.traces, p.chains, c, mark, t);
    OneConnected(c, ks0, t);
    connected[t] := true;
    assert connected[..] == c[t := true];
    ghost var ls;
    ghost var a := p.aux;
    var t2;
    t2, seg, ls, us := FindPredecessors(p, connected, part, t, mark, ks0, here);
    FrontedMeans(p, connected, part, t, mark, ks0, here, a, t2, seg, ls, us);
    layout, ks := layout0 + seg, ks0 + ls;
    if last0 >= 0 {
      LastConnected(p.aux, layout0, p.traces, p.chains, mark, ks0, last0, connected[..], ls);
      LaidFrame(a, p.aux, layout0, p.traces, p.chains, mark, ks0, last0, seg, ls);
      AppendPart(p.g, p.aux, p.startOf, p.endOf, p.traces, p.chains, connected[..], mark, layout0, ks0, last0,
                 seg, ls, t);
      p.aux := p.aux[p.traces[last0].last := p.traces[t2].first];
    } else {
      assert layout0 + seg == seg && ks0 + ls == ls;
      FirstLaid(p.aux, seg, p.traces, p.chains, mark, ls, t);
    }
  }

  lemma OneConnected(connected: seq<bool>, ks: set<int>, t: nat)
    requires ConnectedAre(connected, ks) && t < |connected|
    ensures ConnectedAre(connected[t := true], ks + {t}) && connected[t := true] == Joined(connected, [t])
  {
  }

  lemma LastConnected(aux: seq<int>, layout: seq<int>, traces: seq<Trace>, chains: seq<seq<int>>, mark: seq<nat>,
                      ks: set<int>, last: int, connected: seq<bool>, ls: set<int>)
    requires last in ks && 0 <= last < |connected| && ConnectedAre(connected, ks + ls)
    ensures connected[last]
  {
  }

  /** Lay out the free trace t: the free traces that lead to it, itself, and the traces that continue it. */
  method ConnectFrom(p: Reorder, connected: array<bool>, part: Partition, t: nat, last0: int, freqTh: int,
                     countTh: int, ghost mark: seq<nat>, ghost layout0: seq<int>, ghost ks0: set<int>)
    returns (lastTrace: nat, ghost layout: seq<int>, ghost ks: set<int>, ghost added: seq<int>, ghost turn: Turn)
    requires p.Heaps() && p.connecting && BaseOf(p, connected, mark) && t < |p.chains| && -1 <= last0 < |p.chains|
    requires !connected[t] && ConnectedAre(connected[..], ks0) && t !in ks0
    requires LaidSoFar(p.aux, layout0, p.traces, p.chains, mark, ks0, last0)
    requires p.s.partitioning ==> AllIn(p.g, p.chains[t], part)
    modifies p`g, p`visited, p`aux, p`startOf, p`endOf, p`heapOf, p`pristine, p`traces, connected
    ensures p.Heaps() && BaseOf(p, connected, mark) && lastTrace < |p.chains|
    ensures LaidSoFar(p.aux, layout, p.traces, p.chains, mark, ks, lastTrace) && layout == layout0 + added
    ensures t in ks && ks0 <= ks && ConnectedAre(connected[..], ks)
    ensures p.s.partitioning ==> p.g == old(p.g) && AllIn(p.g, added, part)
    ensures |layout| > 0
    ensures t == 0 && last0 == -1 ==> layout[0] == p.chains[0][0]
    ensures turn.part == part && turn.us != [] && turn.us[0] == t
    ensures TurnOk(old(Here(p, connected, layout0)), turn, Here(p, connected, layout), Policy(p.s, freqTh, countTh), p.chains)
  {
    hide Base, BaseOf, Laid, LaidSoFar, Holds, Chained, Reorder.Heaps, AllIn, Laying, Backwards, Foremost, Fronts, Joined,
         ConnectedAre, Onwards, Stops;
    ghost var here, seg, us := Here(p, connected, layout0), [], [];
    BaseCount(p, connected, mark);
    layout, ks, seg, us := ConnectBefore(p, connected, part, t, last0, mark, layout0, ks0);
    ghost var more, run;
    ghost var l1, k1 := layout, ks;
    lastTrace, layout, ks, more, run := FindSuccessors(p, connected, part, t, freqTh, countTh, mark, l1, k1);
    LayingMeans(p, connected, part, mark, here.g, k1, lastTrace, layout, ks, more);
    added := seg + more;
    AllInConcat(p.g, seg, more, part);
    assert layout0 + seg + more == layout0 + added;
    turn := Turn(part, us, run);
    ItsTurn(here, turn, Here(p, connected, layout), Policy(p.s, freqTh, countTh), p.chains);
  }

  lemma BaseCount(p: Reorder, connected: array<bool>, mark: seq<nat>)
    requires BaseOf(p, connected, mark)
    ensures |p.traces| == |p.chains| == connected.Length
  {
  }

  lemma LayingMeans(p: Reorder, connected: array<bool>, part: Partition, mark: seq<nat>, g0: Graph, ks0: set<int>,
                    t: nat, layout: seq<int>, ks: set<int>, added: seq<int>)
    requires Laying(p, connected, part, mark, g0, ks0, t, layout, ks, added)
    ensures p.Heaps() && BaseOf(p, connected, mark) && t < |p.chains| && |layout| > 0
    ensures LaidSoFar(p.aux, layout, p.traces, p.chains, mark, ks, t) && t in ks && ks0 <= ks && ConnectedAre(connected[..], ks)
    ensures p.s.partitioning ==> p.g == g0 && AllIn(p.g, added, part)
  {
    hide Base, BaseOf, Reorder.Heaps, ConnectedAre, AllIn, Holds, EndOf;
  }

  lemma ItsTurn(s: Place, u: Turn, s': Place, w: Policy, chains: seq<seq<int>>)
    requires Backwards(s, u.part, u.us) && Foremost(s, u.part, u.us) && u.us != []
    requires u.us[0] < |s.connected| && !s.connected[u.us[0]] && Onwards(u.run, u.part, w, chains)
    requires u.run[0] == s.(connected := Joined(s.connected, u.us), layout := s.layout + Fronts(chains, u.us))
    requires Stops(u.run[|u.run|-1], s', u.part, w, chains)
    ensures TurnOk(s, u, s', w, chains)
  {
    hide Backwards, Foremost, Onwards, Joined, Fronts, Stops;
  }

  lemma FirstLaid(aux: seq<int>, seg: seq<int>, traces: seq<Trace>, chains: seq<seq<int>>, mark: seq<nat>,
                  ks: set<int>, t: int)
    requires Chained(aux, seg) && Holds(seg, mark, ks, |mark|) && |aux| == |mark|
    requires EndOf(traces, chains, mark, t, seg[|seg|-1])
    ensures Laid(aux, seg, traces, chains, mark, ks, t)
  {
  }

  /** The layout before position cut lies in section a, from there on in section b. */
  ghost predicate TwoSections(g: Graph, layout: seq<int>, cut: nat, a: Partition, b: Partition)
    requires cut <= |layout|
  {
    AllIn(g, layout[..cut], a) && AllIn(g, layout[cut..], b)
  }

  lemma GrowSections(g: Graph, layout: seq<int>, cut: nat, a: Partition, b: Partition, added: seq<int>, first: bool)
    requires cut <= |layout| && TwoSections(g, layout, cut, a, b)
    requires AllIn(g, added, if first then a else b) && (first ==> cut == |layout|)
    ensures TwoSections(g, layout + added, if first then |layout + added| else cut, a, b)
  {
    var l := layout + added;
    if first {
      assert l[..|l|] == l;
    } else {
      assert l[..cut] == layout[..cut] && l[cut..] == layout[cut..] + added;
    }
  }

  /** The section of a trace is that of its first block. */
  ghost function Section(g: Graph, chains: seq<seq<int>>, k: int): Partition {
    if 0 <= k < |chains| && |chains[k]| > 0 && IsBlock(g, chains[k][0]) then g.blocks[chains[k][0]].partition
    else Unpartitioned
  }

  /** Section looks only at original blocks, whose sections copies do not change. */
  lemma SectionIs(g: Graph, aux: seq<int>, startOf: seq<int>, endOf: seq<int>, traces: seq<Trace>,
                  chains: seq<seq<int>>, connected: seq<bool>, mark: seq<nat>, k: nat)
    requires Base(g, aux, startOf, endOf, traces, chains, connected, mark) && k < |chains|
    ensures IsBlock(g, traces[k].first) && g.blocks[traces[k].first].partition == Section(g, chains, k)
    ensures AllIn(g, chains[k], Section(g, chains, k))
  {
    assert TraceLinked(aux, traces[k], chains[k], connected[k]) && MarkedChain(mark, chains[k], k);
    ChainIn(g, aux, startOf, endOf, traces, chains, connected, mark, k, chains[k][0], Section(g, chains, k));
  }

  lemma InitialClosed(g: Graph, visited: seq<nat>)
    requires |visited| == |g.blocks| && WellFormed(g) && Frontier(g, visited, map[], map[])
    ensures ClosedOver(g, visited)
  {
    forall k | 0 <= k < |g.edges| && (g.edges[k].src == ENTRY || Known(visited, g.edges[k].src))
      ensures g.edges[k].dest == EXIT || Known(visited, g.edges[k].dest)
    {
      assert Covered(visited, map[], map[], g.edges[k].dest);
    }
  }

  /** What find_traces leaves is a valid start. */
  lemma InitialBase(g: Graph, aux: seq<int>, visited: seq<nat>, startOf: seq<int>, endOf: seq<int>,
                    traces: seq<Trace>, chains: seq<seq<int>>, connected: seq<bool>)
    requires |aux| == |visited| == |startOf| == |endOf| == |g.blocks|
    requires ChainsOk(g, aux, visited, chains) && TablesOk(traces, startOf, endOf, chains)
    requires |traces| == |chains| == |connected| && forall k :: 0 <= k < |connected| ==> !connected[k]
    requires WellFormed(g) && Frontier(g, visited, map[], map[])
    requires forall b :: 0 <= b < |visited| ==> visited[b] <= |chains|
    ensures Base(g, aux, startOf, endOf, traces, chains, connected, visited)
  {
    InitialClosed(g, visited);
    hide ClosedOver, Frontier, WellFormed, Linked, Distinct;
    forall k | 0 <= k < |chains|
      ensures MarkedChain(visited, chains[k], k) && TraceLinked(aux, traces[k], chains[k], connected[k])
    {
      InitialChain(g, aux, visited, startOf, endOf, traces[k], chains[k], k, connected[k]);
    }
    InitialTables(g, aux, visited, startOf, endOf, traces, chains);
    hide ChainsOk, TablesOk, EndsOk, Homogeneous, MarkedChain, TraceLinked;
  }

  lemma InitialChain(g: Graph, aux: seq<int>, visited: seq<nat>, startOf: seq<int>, endOf: seq<int>, t: Trace,
                     c: seq<int>, k: nat, connected: bool)
    requires |aux| == |visited| == |g.blocks|
    requires ChainOk(g, aux, visited, c, k + 1) && TraceOk(t, startOf, endOf, c, k)
    ensures MarkedChain(visited, c, k) && TraceLinked(aux, t, c, connected)
  {
  }

  lemma InitialTables(g: Graph, aux: seq<int>, visited: seq<nat>, startOf: seq<int>, endOf: seq<int>,
                      traces: seq<Trace>, chains: seq<seq<int>>)
    requires |aux| == |visited| == |startOf| == |endOf| == |g.blocks|
    requires ChainsOk(g, aux, visited, chains) && TablesOk(traces, startOf, endOf, chains)
    ensures EndsOk(startOf, endOf, chains) && Homogeneous(g, visited, chains)
  {
    hide Distinct;
    forall b | 0 <= b < |visited| && 0 < visited[b] <= |chains| && |chains[visited[b]-1]| > 0
      ensures var front := chains[visited[b]-1][0];
        IsBlock(g, front) && g.blocks[b].partition == g.blocks[front].partition
    {
      assert ChainOk(g, aux, visited, chains[visited[b]-1], visited[b]);
    }
    forall k | 0 <= k < |chains| ensures TraceOk(traces[k], startOf, endOf, chains[k], k) {
    }
  }

  /** Trace k can be laid out: with partitioning, only the sections of the first trace and its opposite are. */
  ghost predicate Placeable(g: Graph, chains: seq<seq<int>>, partitioning: bool, k: int) {
    var first := Section(g, chains, 0);
    partitioning ==> Section(g, chains, k) == first || Section(g, chains, k) == Flip(first)
  }

  /** Are the traces spread over two sections, so that they are laid out in two passes? */
  method TwoPasses(p: Reorder, ghost connected: array<bool>, ghost mark: seq<nat>) returns (two: bool)
    requires BaseOf(p, connected, mark) && |p.traces| > 0
    ensures two ==> p.s.partitioning
    ensures p.s.partitioning ==>
              (two <==> exists k :: 0 <= k < |p.chains| && Section(p.g, p.chains, k) != Section(p.g, p.chains, 0))
  {
    hide Base, Section;
    two := false;
    SectionIs(p.g, p.aux, p.startOf, p.endOf, p.traces, p.chains, connected[..], mark, 0);
    if p.s.partitioning {
      var i := 0;
      while i < |p.traces| && !two
        invariant 0 <= i <= |p.traces|
        invariant two <==> exists k :: 0 <= k < i && Section(p.g, p.chains, k) != Section(p.g, p.chains, 0)
        decreases |p.traces| - i, !two
      {
        SectionIs(p.g, p.aux, p.startOf, p.endOf, p.traces, p.chains, connected[..], mark, i);
        if p.g.blocks[p.traces[0].first].partition != p.g.blocks[p.traces[i].first].partition {
          two := true;
        }
        i := i + 1;
      }
    }
  }

  function PassSection(first: Partition, pass: int): Partition {
    if pass == 1 then first else Flip(first)
  }

  /** The progress of the connection loop at trace i of a pass. */
  ghost predicate Progress(g: Graph, g0: Graph, chains: seq<seq<int>>, partitioning: bool, two: bool, pass: int,
                           i: int, layout: seq<int>, cut: nat, ks: set<int>)
  {
    var first := Section(g0, chains, 0);
    && (forall k :: 0 <= k < i && k < |chains| && (two ==> Section(g0, chains, k) == PassSection(first, pass)) ==> k in ks)
    && (pass == 2 ==> two && forall k :: 0 <= k < |chains| && Section(g0, chains, k) == first ==> k in ks)
    && (two ==> partitioning)
    && (partitioning && !two ==> forall k :: 0 <= k < |chains| ==> Section(g0, chains, k) == first)
    && cut <= |layout| && (pass == 1 ==> cut == |layout|)
    && (partitioning ==> g == g0 && TwoSections(g0, layout, cut, first, Flip(first)))
  }

  lemma ProgressAdd(g: Graph, g': Graph, g0: Graph, chains: seq<seq<int>>, partitioning: bool, two: bool, pass: int,
                    i: int, layout: seq<int>, cut: nat, ks: set<int>, added: seq<int>, ks': set<int>)
    requires Progress(g, g0, chains, partitioning, two, pass, i, layout, cut, ks) && 1 <= pass <= 2
    requires ks <= ks' && i in ks'
    requires partitioning ==> g' == g && AllIn(g, added, PassSection(Section(g0, chains, 0), pass))
    ensures Progress(g', g0, chains, partitioning, two, pass, i + 1, layout + added,
                     if pass == 1 then |layout + added| else cut, ks')
  {
    hide TwoSections, AllIn, Section;
    var first := Section(g0, chains, 0);
    if partitioning {
      GrowSections(g, layout, cut, first, Flip(first), added, pass == 1);
    }
  }

  lemma ProgressSkip(g: Graph, g0: Graph, chains: seq<seq<int>>, partitioning: bool, two: bool, pass: int,
                     i: int, layout: seq<int>, cut: nat, ks: set<int>)
    requires Progress(g, g0, chains, partitioning, two, pass, i, layout, cut, ks)
    requires i in ks || (two && Section(g0, chains, i) != PassSection(Section(g0, chains, 0), pass))
    ensures Progress(g, g0, chains, partitioning, two, pass, i + 1, layout, cut, ks)
  {
    hide TwoSections, Section;
  }

  /** At the end of the first pass over two sections, the second starts. */
  lemma ProgressTurn(g: Graph, g0: Graph, chains: seq<seq<int>>, partitioning: bool, layout: seq<int>, cut: nat,
                     ks: set<int>)
    requires Progress(g, g0, chains, partitioning, true, 1, |chains|, layout, cut, ks)
    ensures Progress(g, g0, chains, partitioning, true, 2, 0, layout, cut, ks)
  {
    hide TwoSections, Section;
  }

  lemma ProgressStart(g: Graph, chains: seq<seq<int>>, partitioning: bool, two: bool)
    requires two ==> partitioning
    requires partitioning && !two ==> forall k :: 0 <= k < |chains| ==> Section(g, chains, k) == Section(g, chains, 0)
    ensures Progress(g, g, chains, partitioning, two, 1, 0, [], 0, {})
  {
  }

  /** With partitioning the graph is unchanged; in one pass everything lies in one section. */
  lemma ProgressMeans(g: Graph, g0: Graph, chains: seq<seq<int>>, partitioning: bool, two: bool, pass: int,
                      i: int, layout: seq<int>, cut: nat, ks: set<int>)
    requires Progress(g, g0, chains, partitioning, two, pass, i, layout, cut, ks)
    ensures partitioning ==> g == g0
    ensures two ==> partitioning
    ensures pass == 2 ==> two
    ensures partitioning && !two ==> forall k :: 0 <= k < |chains| ==> Section(g0, chains, k) == Section(g0, chains, 0)
  {
  }

  lemma LaidStart(aux: seq<int>, layout: seq<int>, traces: seq<Trace>, chains: seq<seq<int>>, mark: seq<nat>,
                  ks: set<int>, last: int)
    requires LaidSoFar(aux, layout, traces, chains, mark, ks, last)
    ensures last == -1 ==> ks == {} && layout == []
  {
  }

  /** From here on copies are numbered differently; nothing is laid out yet. */
  method StartConnection(p: Reorder, connected: array<bool>)
    requires p.Valid() && |p.traces| > 0 && Frontier(p.g, p.visited, map[], map[]) && connected.Length == |p.traces|
    requires forall k :: 0 <= k < connected.Length ==> !connected[k]
    modifies p`connecting
    ensures p.Heaps() && p.connecting && BaseOf(p, connected, p.visited) && ConnectedAre(connected[..], {})
    ensures LaidSoFar(p.aux, [], p.traces, p.chains, p.visited, {}, -1)
  {
    hide HeapsOk, FreshKeys, CrossingMarked, CopiesVisited;
    InitialBase(p.g, p.aux, p.visited, p.startOf, p.endOf, p.traces, p.chains, connected[..]);
    p.connecting := true;
  }

  /** Is trace t connected already, or does it wait for the other pass? */
  method SkipTrace(p: Reorder, connected: array<bool>, part: Partition, two: bool, t: nat, ghost mark: seq<nat>,
                   ghost layout: seq<int>, ghost ks: set<int>, ghost g0: Graph, ghost pass: int, ghost cut: nat)
    returns (skip: bool)
    requires BaseOf(p, connected, mark) && t < |p.chains| && ConnectedAre(connected[..], ks) && 1 <= pass <= 2
    requires Progress(p.g, g0, p.chains, p.s.partitioning, two, pass, t, layout, cut, ks)
    requires part == PassSection(Section(g0, p.chains, 0), pass)
    ensures skip ==> Progress(p.g, g0, p.chains, p.s.partitioning, two, pass, t + 1, layout, cut, ks)
    ensures !skip ==> !connected[t] && t !in ks && (p.s.partitioning ==> AllIn(p.g, p.chains[t], part))
    ensures !skip && two ==> Section(g0, p.chains, t) == part
    ensures ks == {} && t == 0 && pass == 1 ==> !skip
  {
    assert connected[t] <==> t in ks;
    hide Base, AllIn, Section, TwoSections, Progress, ConnectedAre;
    SectionIs(p.g, p.aux, p.startOf, p.endOf, p.traces, p.chains, connected[..], mark, t);
    ProgressMeans(p.g, g0, p.chains, p.s.partitioning, two, pass, t, layout, cut, ks);
    skip := connected[t] || (two && p.g.blocks[p.traces[t].first].partition != part);
    if skip {
      ProgressSkip(p.g, g0, p.chains, p.s.partitioning, two, pass, t, layout, cut, ks);
    }
  }

  /** Lay out trace t of a pass with its neighbours. */
  method PlaceTrace(p: Reorder, connected: array<bool>, part: Partition, ghost two: bool, t: nat, last0: int,
                    freqTh: int, countTh: int, ghost mark: seq<nat>, ghost layout0: seq<int>, ghost ks0: set<int>,
                    ghost g0: Graph, ghost pass: int, ghost cut0: nat)
    returns (last: int, ghost layout: seq<int>, ghost ks: set<int>, ghost cut: nat, ghost turn: Turn)
    requires p.Heaps() && p.connecting && BaseOf(p, connected, mark) && t < |p.chains| && -1 <= last0 < |p.chains|
    requires !connected[t] && ConnectedAre(connected[..], ks0) && t !in ks0 && 1 <= pass <= 2
    requires LaidSoFar(p.aux, layout0, p.traces, p.chains, mark, ks0, last0)
    requires Progress(p.g, g0, p.chains, p.s.partitioning, two, pass, t, layout0, cut0, ks0)
    requires p.s.partitioning ==> AllIn(p.g, p.chains[t], part)
    requires part == PassSection(Section(g0, p.chains, 0), pass)
    modifies p`g, p`visited, p`aux, p`startOf, p`endOf, p`heapOf, p`pristine, p`traces, connected
    ensures p.Heaps() && BaseOf(p, connected, mark) && 0 <= last < |p.chains|
    ensures LaidSoFar(p.aux, layout, p.traces, p.chains, mark, ks, last) && ConnectedAre(connected[..], ks)
    ensures Progress(p.g, g0, p.chains, p.s.partitioning, two, pass, t + 1, layout, cut, ks)
    ensures layout0 <= layout && |layout| > 0
    ensures t == 0 && last0 == -1 ==> layout[0] == p.chains[0][0]
    ensures turn.part == part && turn.us != [] && turn.us[0] == t
    ensures TurnOk(old(Here(p, connected, layout0)), turn, Here(p, connected, layout), Policy(p.s, freqTh, countTh), p.chains)
  {
    hide *;
    ghost var g1, chains, partitioning := p.g, p.chains, p.s.partitioning;
    ghost var added: seq<int>;
    last, layout, ks, added, turn := ConnectFrom(p, connected, part, t, last0, freqTh, countTh, mark, layout0, ks0);
    ProgressAdd(g1, p.g, g0, chains, partitioning, two, pass, t, layout0, cut0, ks0, added, ks);
    cut := if pass == 1 then |layout| else cut0;
  }

  /** What has been laid out when the loop ends. */
  lemma FinalLayout(g: Graph, aux: seq<int>, startOf: seq<int>, endOf: seq<int>, traces: seq<Trace>,
                    chains: seq<seq<int>>, connected: seq<bool>, mark: seq<nat>, g0: Graph, partitioning: bool,
                    two: bool, pass: int, layout: seq<int>, cut: nat, ks: set<int>, last: int)
    requires Base(g, aux, startOf, endOf, traces, chains, connected, mark) && |chains| > 0
    requires LaidSoFar(aux, layout, traces, chains, mark, ks, last) && last >= 0
    requires Progress(g, g0, chains, partitioning, two, pass, |chains|, layout, cut, ks)
    requires 1 <= pass <= 2 && (pass == 1 ==> !two)
    ensures Chained(aux, layout) && Holds(layout, mark, ks, |g.blocks|)
    ensures forall k :: 0 <= k < |chains| ==> |chains[k]| > 0 && traces[k].first == chains[k][0] && Linked(aux, chains[k])
    ensures ClosedOver(g, mark) && |g.blocks| >= |mark|
    ensures forall k :: 0 <= k < |chains| ==> (k in ks <==> Placeable(g0, chains, partitioning, k))
    ensures partitioning ==> g == g0 && cut <= |layout| &&
                             TwoSections(g, layout, cut, Section(g, chains, 0), Flip(Section(g, chains, 0)))
  {
    forall k | 0 <= k < |chains|
      ensures |chains[k]| > 0 && traces[k].first == chains[k][0] && Linked(aux, chains[k])
    {
      assert TraceLinked(aux, traces[k], chains[k], connected[k]);
    }
    forall k | 0 <= k < |chains|
      ensures k in ks <==> Placeable(g0, chains, partitioning, k)
    {
      if partitioning && k in ks {
        PlacedSection(g, aux, startOf, endOf, traces, chains, connected, mark, layout, cut, ks, k);
      }
    }
  }

  lemma PlacedSection(g: Graph, aux: seq<int>, startOf: seq<int>, endOf: seq<int>, traces: seq<Trace>,
                      chains: seq<seq<int>>, connected: seq<bool>, mark: seq<nat>, layout: seq<int>, cut: nat,
                      ks: set<int>, k: nat)
    requires Base(g, aux, startOf, endOf, traces, chains, connected, mark) && k < |chains|
    requires Holds(layout, mark, ks, |g.blocks|) && k in ks && cut <= |layout|
    requires TwoSections(g, layout, cut, Section(g, chains, 0), Flip(Section(g, chains, 0)))
    ensures Placeable(g, chains, true, k)
  {
    hide TracesLinked, EndsOk, Homogeneous, Distinct;
    SectionIs(g, aux, startOf, endOf, traces, chains, connected, mark, k);
    assert MarkedChain(mark, chains[k], k);
    assert 0 <= chains[k][0] < |mark| && mark[chains[k][0]] == k + 1;
    hide Marked, MarkedChain;
    assert chains[k][0] in layout;
    assert layout == layout[..cut] + layout[cut..];
  }

  /** The traces lie in two sections, and these are to be kept apart. */
  ghost predicate SplitsUp(g: Graph, chains: seq<seq<int>>, partitioning: bool) {
    partitioning && exists k :: 0 <= k < |chains| && Section(g, chains, k) != Section(g, chains, 0)
  }

  /** A turn starts with the first trace that is still free, if there are two sections with the first one of the section at
      hand: that of the first trace until all its traces are connected, then the other one. */
  ghost predicate SeedOk(s: Place, u: Turn, g0: Graph, chains: seq<seq<int>>, two: bool) {
    var first := Section(g0, chains, 0);
    && u.us != [] && |s.connected| == |chains|
    && (u.part == first || (two && u.part == Flip(first) && forall k :: 0 <= k < |chains| && Section(g0, chains, k) == first ==> s.connected[k]))
    && (two ==> Section(g0, chains, u.us[0]) == u.part)
    && forall k :: 0 <= k < u.us[0] && k < |chains| && (two ==> Section(g0, chains, k) == u.part) ==> s.connected[k]
  }

  ghost predicate Seeded(turns: seq<Turn>, places: seq<Place>, g0: Graph, chains: seq<seq<int>>, two: bool) {
    |places| == |turns| + 1 && forall i :: 0 <= i < |turns| ==> SeedOk(places[i], turns[i], g0, chains, two)
  }

  lemma SeedIs(s: Place, u: Turn, g: Graph, g0: Graph, chains: seq<seq<int>>, partitioning: bool, two: bool, pass: int,
               layout: seq<int>, cut: nat, ks: set<int>)
    requires u.us != [] && |s.connected| == |chains| && ConnectedAre(s.connected, ks) && 1 <= pass <= 2
    requires Progress(g, g0, chains, partitioning, two, pass, u.us[0], layout, cut, ks)
    requires u.part == PassSection(Section(g0, chains, 0), pass) && (two ==> Section(g0, chains, u.us[0]) == u.part)
    ensures SeedOk(s, u, g0, chains, two)
  {
    hide TwoSections, Section;
  }

  lemma OneMoreSeed(turns: seq<Turn>, places: seq<Place>, g0: Graph, chains: seq<seq<int>>, two: bool, u: Turn, s: Place)
    requires Seeded(turns, places, g0, chains, two) && SeedOk(places[|turns|], u, g0, chains, two)
    ensures Seeded(turns + [u], places + [s], g0, chains, two)
  {
    hide SeedOk;
  }

  /** The turns so far. */
  ghost predicate Log(s0: Place, turns: seq<Turn>, places: seq<Place>, s: Place, w: Policy, chains: seq<seq<int>>, g0: Graph,
                      two: bool)
  {
    Threaded(s0, turns, places, s, w, chains) && Seeded(turns, places, g0, chains, two)
  }

  lemma LogMore(s0: Place, turns: seq<Turn>, places: seq<Place>, s: Place, w: Policy, chains: seq<seq<int>>, g0: Graph,
                two: bool, u: Turn, s': Place)
    requires Log(s0, turns, places, s, w, chains, g0, two) && TurnOk(s, u, s', w, chains) && SeedOk(s, u, g0, chains, two)
    ensures Log(s0, turns + [u], places + [s'], s', w, chains, g0, two)
  {
    hide TurnOk, SeedOk;
    OneMoreTurn(s0, turns, places, s, w, chains, u, s');
    OneMoreSeed(turns, places, g0, chains, two, u, s');
  }

  /** What holds while the traces are laid out: those before trace i have had their turn in this pass. */
  ghost predicate Going(p: Reorder, connected: array<bool>, mark: seq<nat>, g0: Graph, two: bool, pass: int, i: int,
                        last: int, layout: seq<int>, cut: nat, ks: set<int>)
    reads p, connected
  {
    && p.Heaps() && p.connecting && BaseOf(p, connected, mark) && 0 <= i <= |p.chains| && 1 <= pass <= 2
    && -1 <= last < |p.chains| && (last == -1 ==> i == 0 && pass == 1)
    && LaidSoFar(p.aux, layout, p.traces, p.chains, mark, ks, last) && ConnectedAre(connected[..], ks)
    && |p.chains| > 0 && |p.chains[0]| > 0 && (last >= 0 ==> |layout| > 0 && layout[0] == p.chains[0][0])
    && Progress(p.g, g0, p.chains, p.s.partitioning, two, pass, i, layout, cut, ks)
  }

  /** The second pass begins. */
  lemma GoingTurn(p: Reorder, connected: array<bool>, mark: seq<nat>, g0: Graph, last: int, layout: seq<int>, cut: nat,
                  ks: set<int>)
    requires Going(p, connected, mark, g0, true, 1, |p.chains|, last, layout, cut, ks)
    ensures Going(p, connected, mark, g0, true, 2, 0, last, layout, cut, ks)
  {
    hide Base, Holds, Chained, Reorder.Heaps, LaidSoFar, Progress, ConnectedAre;
    ProgressTurn(p.g, g0, p.chains, p.s.partitioning, layout, cut, ks);
  }

  /** The turn of trace i. */
  method TryTrace(p: Reorder, connected: array<bool>, part: Partition, two: bool, i: nat, last0: int, freqTh: int,
                  countTh: int, ghost mark: seq<nat>, ghost layout0: seq<int>, ghost ks0: set<int>, ghost g0: Graph,
                  ghost pass: int, ghost cut0: nat, ghost s0: Place, ghost turns0: seq<Turn>, ghost places0: seq<Place>)
    returns (last: int, ghost layout: seq<int>, ghost ks: set<int>, ghost cut: nat, ghost turns: seq<Turn>,
             ghost places: seq<Place>)
    requires Going(p, connected, mark, g0, two, pass, i, last0, layout0, cut0, ks0) && i < |p.chains|
    requires part == PassSection(Section(g0, p.chains, 0), pass)
    requires Log(s0, turns0, places0, Here(p, connected, layout0), Policy(p.s, freqTh, countTh), p.chains, g0, two)
    modifies p`g, p`visited, p`aux, p`startOf, p`endOf, p`heapOf, p`pristine, p`traces, connected
    ensures Going(p, connected, mark, g0, two, pass, i + 1, last, layout, cut, ks)
    ensures Log(s0, turns, places, Here(p, connected, layout), Policy(p.s, freqTh, countTh), p.chains, g0, two)
  {
    hide Base, Holds, Chained, Reorder.Heaps, AllIn, Section, LaidSoFar, Progress, ConnectedAre, PassSection, Log, TurnOk, SeedOk;
    last, layout, ks, cut := last0, layout0, ks0, cut0;
    turns, places := turns0, places0;
    LaidStart(p.aux, layout, p.traces, p.chains, mark, ks, last);
    var skip := SkipTrace(p, connected, part, two, i, mark, layout, ks, g0, pass, cut);
    if !skip {
      ghost var here, g := Here(p, connected, layout), p.g;
      ghost var turn;
      last, layout, ks, cut, turn := PlaceTrace(p, connected, part, two, i, last, freqTh, countTh, mark, layout, ks,
                                                g0, pass, cut);
      SeedIs(here, turn, g, g0, p.chains, p.s.partitioning, two, pass, layout0, cut0, ks0);
      LogMore(s0, turns0, places0, here, Policy(p.s, freqTh, countTh), p.chains, g0, two, turn, Here(p, connected, layout));
      turns, places := turns0 + [turn], places0 + [Here(p, connected, layout)];
    }
  }

  lemma FirstChain(g: Graph, aux: seq<int>, startOf: seq<int>, endOf: seq<int>, traces: seq<Trace>,
                   chains: seq<seq<int>>, connected: seq<bool>, mark: seq<nat>)
    requires Base(g, aux, startOf, endOf, traces, chains, connected, mark) && |chains| > 0
    ensures |chains[0]| > 0
  {
    assert MarkedChain(mark, chains[0], 0);
  }

  /** Before the first trace. */
  lemma GoingStart(p: Reorder, connected: array<bool>, mark: seq<nat>, two: bool)
    requires p.Heaps() && p.connecting && BaseOf(p, connected, mark) && ConnectedAre(connected[..], {}) && |p.chains| > 0
    requires LaidSoFar(p.aux, [], p.traces, p.chains, mark, {}, -1)
    requires two ==> p.s.partitioning
    requires p.s.partitioning && !two ==> forall k :: 0 <= k < |p.chains| ==> Section(p.g, p.chains, k) == Section(p.g, p.chains, 0)
    ensures Going(p, connected, mark, p.g, two, 1, 0, -1, [], 0, {})
    ensures IsBlock(p.g, p.traces[0].first) && p.g.blocks[p.traces[0].first].partition == Section(p.g, p.chains, 0)
  {
    hide Base, Holds, Chained, Reorder.Heaps, LaidSoFar, Progress, ConnectedAre, Section, AllIn;
    SectionIs(p.g, p.aux, p.startOf, p.endOf, p.traces, p.chains, connected[..], mark, 0);
    FirstChain(p.g, p.aux, p.startOf, p.endOf, p.traces, p.chains, connected[..], mark);
    ProgressStart(p.g, p.chains, p.s.partitioning, two);
  }

  /** Nothing is connected yet. */
  ghost function StartPlace(g: Graph, startOf: seq<int>, endOf: seq<int>, traces: seq<Trace>): Place {
    Place(g, startOf, endOf, traces, seq(|traces|, _ => false), [])
  }

  /** The thresholds for copying, from the greatest frequency and count of an entry block. */
  function PolicyOf(p: Reorder): Policy
    reads p
  {
    Policy(p.s, CDiv(p.maxEntryFrequency * DUPLICATION_THRESHOLD, 1000), CountThreshold(p.maxEntryCount, DUPLICATION_THRESHOLD))
  }

  lemma LogStart(s0: Place, w: Policy, chains: seq<seq<int>>, g0: Graph, two: bool)
    ensures Log(s0, [], [s0], s0, w, chains, g0, two)
  {
  }

  lemma LogEnd(s0: Place, turns: seq<Turn>, places: seq<Place>, s: Place, w: Policy, chains: seq<seq<int>>, g0: Graph, two: bool)
    requires Log(s0, turns, places, s, w, chains, g0, two)
    ensures |places| == |turns| + 1 && places[|turns|] == s
  {
    hide TurnOk, SeedOk;
  }

  /** Thread all traces into one chain of blocks. */
  method ConnectTraces(p: Reorder)
    returns (ghost layout: seq<int>, ghost ks: set<int>, ghost cut: nat, ghost turns: seq<Turn>, ghost places: seq<Place>)
    requires p.Valid() && |p.traces| > 0 && Frontier(p.g, p.visited, map[], map[])
    modifies p`g, p`visited, p`aux, p`startOf, p`endOf, p`heapOf, p`pristine, p`traces, p`connecting
    ensures p.Heaps() && Chained(p.aux, layout) && layout[0] == p.chains[0][0]
    ensures |p.traces| == |p.chains| && forall k :: 0 <= k < |p.chains| ==> |p.chains[k]| > 0 && p.traces[k].first == p.chains[k][0]
    ensures Holds(layout, old(p.visited), ks, |p.g.blocks|)
    ensures forall k :: 0 <= k < |p.chains| ==> (k in ks <==> Placeable(old(p.g), p.chains, p.s.partitioning, k))
    ensures forall k :: 0 <= k < |p.chains| ==> Linked(p.aux, p.chains[k])
    ensures ClosedOver(p.g, old(p.visited)) && |p.g.blocks| >= |old(p.visited)|
    ensures p.s.partitioning ==> p.g == old(p.g) && cut <= |layout|
    ensures p.s.partitioning ==> TwoSections(p.g, layout, cut, Section(p.g, p.chains, 0), Flip(Section(p.g, p.chains, 0)))
    ensures |places| == |turns| + 1 && places[|turns|].layout == layout && places[|turns|].g == p.g
    ensures Log(StartPlace(old(p.g), old(p.startOf), old(p.endOf), old(p.traces)), turns, places, places[|turns|], PolicyOf(p),
                p.chains, old(p.g), SplitsUp(old(p.g), p.chains, p.s.partitioning))
  {
    hide Base, Laid, Holds, Chained, Reorder.Heaps, AllIn, Section, TwoSections, LaidSoFar, Placeable, Progress, Linked,
         Frontier, ClosedOver, Going, Log;
    var freqTh := CDiv(p.maxEntryFrequency * DUPLICATION_THRESHOLD, 1000);
    var countTh := CountThreshold(p.maxEntryCount, DUPLICATION_THRESHOLD);
    var connected := new bool[|p.traces|](_ => false);
    ghost var mark, g0 := p.visited, p.g;
    ghost var s0 := StartPlace(p.g, p.startOf, p.endOf, p.traces);
    assert Here(p, connected, []) == s0;
    StartConnection(p, connected);
    var two := TwoPasses(p, connected, mark);
    GoingStart(p, connected, mark, two);
    LogStart(s0, PolicyOf(p), p.chains, g0, two);
    ghost var pass, last;
    layout, ks, cut, pass, last, turns, places := TakeTurns(p, connected, two, freqTh, countTh, mark, s0);
    LogEnd(s0, turns, places, Here(p, connected, layout), PolicyOf(p), p.chains, g0, two);
    GoingDone(p, connected, mark, g0, two, pass, last, layout, cut, ks);
  }

  /** The loop of connect_traces over the traces, twice if they lie in two sections. */
  method TakeTurns(p: Reorder, connected: array<bool>, two: bool, freqTh: int, countTh: int, ghost mark: seq<nat>,
                   ghost s0: Place)
    returns (ghost layout: seq<int>, ghost ks: set<int>, ghost cut: nat, ghost pass: int, ghost last: int,
             ghost turns: seq<Turn>, ghost places: seq<Place>)
    requires Going(p, connected, mark, p.g, two, 1, 0, -1, [], 0, {}) && |p.traces| == |p.chains| > 0
    requires IsBlock(p.g, p.traces[0].first) && p.g.blocks[p.traces[0].first].partition == Section(p.g, p.chains, 0)
    requires Log(s0, [], [s0], Here(p, connected, []), Policy(p.s, freqTh, countTh), p.chains, p.g, two)
    modifies p`g, p`visited, p`aux, p`startOf, p`endOf, p`heapOf, p`pristine, p`traces, connected
    ensures Going(p, connected, mark, old(p.g), two, pass, |p.chains|, last, layout, cut, ks) && (pass == 1 ==> !two)
    ensures Log(s0, turns, places, Here(p, connected, layout), Policy(p.s, freqTh, countTh), p.chains, old(p.g), two)
  {
    hide Section, Going, Log;
    ghost var g0 := p.g;
    var n := |p.traces|;
    var i, round, lastTrace := 0, 1, -1;
    layout, ks, cut := [], {}, 0;
    turns, places := [], [s0];
    var part := p.g.blocks[p.traces[0].first].partition;
    while i < n || (two && round == 1)
      invariant Going(p, connected, mark, g0, two, round, i, lastTrace, layout, cut, ks) && n == |p.chains|
      invariant 0 <= i <= n && 1 <= round <= 2 && (round == 2 ==> two)
      invariant part == PassSection(Section(g0, p.chains, 0), round)
      invariant Log(s0, turns, places, Here(p, connected, layout), Policy(p.s, freqTh, countTh), p.chains, g0, two)
      decreases 2 - round, n - i
    {
      if i >= n {
        GoingTurn(p, connected, mark, g0, lastTrace, layout, cut, ks);
        i, round := 0, 2;
        part := Flip(part);
      }
      lastTrace, layout, ks, cut, turns, places :=
        TryTrace(p, connected, part, two, i, lastTrace, freqTh, countTh, mark, layout, ks, g0, round, cut, s0, turns, places);
      i := i + 1;
    }
    pass, last := round, lastTrace;
  }

  /** After the last trace. */
  lemma GoingDone(p: Reorder, connected: array<bool>, mark: seq<nat>, g0: Graph, two: bool, pass: int, last: int,
                  layout: seq<int>, cut: nat, ks: set<int>)
    requires Going(p, connected, mark, g0, two, pass, |p.chains|, last, layout, cut, ks) && (pass == 1 ==> !two)
    ensures p.Heaps() && Chained(p.aux, layout) && |layout| > 0 && |p.chains| > 0 && |p.traces| == |p.chains|
    ensures forall k :: 0 <= k < |p.chains| ==> |p.chains[k]| > 0 && p.traces[k].first == p.chains[k][0] && Linked(p.aux, p.chains[k])
    ensures layout[0] == p.chains[0][0] && Holds(layout, mark, ks, |p.g.blocks|)
    ensures forall k :: 0 <= k < |p.chains| ==> (k in ks <==> Placeable(g0, p.chains, p.s.partitioning, k))
    ensures ClosedOver(p.g, mark) && |p.g.blocks| >= |mark|
    ensures p.s.partitioning ==> p.g == g0 && cut <= |layout|
    ensures p.s.partitioning ==> TwoSections(p.g, layout, cut, Section(p.g, p.chains, 0), Flip(Section(p.g, p.chains, 0)))
  {
    hide Base, Holds, Chained, Reorder.Heaps, Section, TwoSections, LaidSoFar, Placeable, Progress, Linked, ClosedOver,
         ConnectedAre;
    FinalLayout(p.g, p.aux, p.startOf, p.endOf, p.traces, p.chains, connected[..], mark, g0, p.s.partitioning, two,
                pass, layout, cut, ks, last);
  }
}
