/** Live ranges of branch target registers: growing a set of blocks that one of them dominates. */
module LiveRanges {
  import opened BtrFlow

  /** A walk that starts at the entry of the function. */
  ghost predicate EntryWalk(g: Flow, p: seq<int>) {
    p != [] && IsWalk(g, p) && Edge(g, ENTRY, p[0])
  }

  /** All walks from the entry to b go through a. */
  ghost predicate Dominates(g: Flow, a: int, b: int) {
    IsBlock(g, a) && IsBlock(g, b) && forall p: seq<int> :: EntryWalk(g, p) && p[|p|-1] == b ==> a in p
  }

  lemma DominatesSelf(g: Flow, a: int)
    requires IsBlock(g, a)
    ensures Dominates(g, a, a)
  {
    forall p: seq<int> | EntryWalk(g, p) && p[|p|-1] == a ensures a in p {
    }
  }

  lemma Prefix(g: Flow, p: seq<int>, k: nat)
    requires EntryWalk(g, p) && k < |p|
    ensures EntryWalk(g, p[..k+1])
  {
    var q := p[..k+1];
    forall i {:trigger q[i]} | 0 < i < |q| ensures Edge(g, q[i-1], q[i]) {
      assert Edge(g, p[i-1], p[i]);
    }
  }

  lemma OnPrefix(g: Flow, a: int, b: int, p: seq<int>, k: nat)
    requires Dominates(g, a, b) && EntryWalk(g, p) && k < |p| && p[k] == b
    ensures exists i :: 0 <= i <= k && p[i] == a
  {
    hide IsWalk;
    Prefix(g, p, k);
    var q := p[..k+1];
    assert q[|q|-1] == b;
    var i :| 0 <= i < |q| && q[i] == a;
    assert p[i] == a;
  }

  lemma DominatesTrans(g: Flow, a: int, b: int, c: int)
    requires Dominates(g, a, b) && Dominates(g, b, c)
    ensures Dominates(g, a, c)
  {
    hide IsWalk;
    forall p: seq<int> | EntryWalk(g, p) && p[|p|-1] == c ensures a in p {
      OnPrefix(g, b, c, p, |p| - 1);
      var k :| 0 <= k < |p| && p[k] == b;
      OnPrefix(g, a, b, p, k);
    }
  }

  lemma OneStep(g: Flow, h: int, b: int)
    requires Dominates(g, h, b) && Edge(g, ENTRY, b)
    ensures h == b
  {
    var w := [b];
    assert EntryWalk(g, w) && w[|w|-1] == b;
  }

  lemma Longer(g: Flow, w: seq<int>, b: int)
    requires EntryWalk(g, w) && Edge(g, w[|w|-1], b)
    ensures EntryWalk(g, w + [b])
  {
    var v := w + [b];
    forall i {:trigger v[i]} | 0 < i < |v| ensures Edge(g, v[i-1], v[i]) {
      if i < |w| {
        assert Edge(g, w[i-1], w[i]);
      }
    }
  }

  /** A predecessor of a block that h dominates properly is a block that h dominates. */
  lemma PredDominated(g: Flow, h: int, b: int, p: int)
    requires FlowOk(g) && Dominates(g, h, b) && b != h && p in g.preds[b]
    ensures p != ENTRY && Dominates(g, h, p)
  {
    hide IsWalk;
    if p == ENTRY {
      OneStep(g, h, b);
    }
    forall w: seq<int> | EntryWalk(g, w) && w[|w|-1] == p ensures h in w {
      Longer(g, w, b);
      var v := w + [b];
      assert v[|v|-1] == b;
      assert h in v;
    }
  }

  /** r can be entered only at h, which dominates it. */
  ghost predicate Region(g: Flow, r: set<int>, h: int) {
    && h in r
    && (forall b :: b in r ==> Dominates(g, h, b))
    && (forall b, p :: b in r && b != h && p in g.preds[b] ==> p in r)
  }

  lemma RegionAlone(g: Flow, h: int)
    requires IsBlock(g, h)
    ensures Region(g, {h}, h)
  {
    DominatesSelf(g, h);
  }

  /** A walk that avoids r and ends in one of the seeds. */
  ghost predicate Leads(g: Flow, r: set<int>, seeds: set<int>, p: seq<int>) {
    IsWalk(g, p) && p[|p|-1] in seeds && forall i :: 0 <= i < |p| ==> p[i] !in r
  }

  /** b lies on a walk to one of the seeds that avoids r. */
  ghost predicate Behind(g: Flow, r: set<int>, seeds: set<int>, b: int) {
    exists p: seq<int> :: Leads(g, r, seeds, p) && p[0] == b
  }

  lemma BehindSeed(g: Flow, r: set<int>, seeds: set<int>, b: int)
    requires b in seeds && b !in r && IsBlock(g, b)
    ensures Behind(g, r, seeds, b)
  {
    assert Leads(g, r, seeds, [b]);
  }

  lemma BehindPred(g: Flow, r: set<int>, seeds: set<int>, b: int, p: int)
    requires Behind(g, r, seeds, b) && Edge(g, p, b) && IsBlock(g, p) && p !in r
    ensures Behind(g, r, seeds, p)
  {
    var w :| Leads(g, r, seeds, w) && w[0] == b;
    var v := [p] + w;
    forall i {:trigger v[i]} | 0 < i < |v| ensures Edge(g, v[i-1], v[i]) {
      if i > 1 {
        assert Edge(g, w[i-2], w[i-1]);
      }
    }
    assert Leads(g, r, seeds, v);
  }

  /** A set that contains the seeds and the predecessors of what it adds to r contains all that lies behind. */
  lemma {:induction false} BehindIn(g: Flow, r: set<int>, seeds: set<int>, s: set<int>, p: seq<int>)
    requires Leads(g, r, seeds, p) && seeds <= s
    requires forall b, q :: b in s && b !in r && IsBlock(g, b) && q in g.preds[b] ==> q in s
    ensures p[0] in s
    decreases |p|
  {
    if |p| > 1 {
      var q := p[1..];
      forall i {:trigger q[i]} | 0 < i < |q| ensures Edge(g, q[i-1], q[i]) {
        assert Edge(g, p[i], p[i+1]);
      }
      assert Leads(g, r, seeds, q);
      BehindIn(g, r, seeds, s, q);
      assert Edge(g, p[0], p[1]);
    }
  }

  /** The registers live in some blocks or at their ends. */
  ghost function LiveIn(blocks: set<int>, live: seq<set<nat>>, liveEnd: seq<set<nat>>): iset<nat> {
    iset b: int, x: nat | b in blocks && 0 <= b < |live| && b < |liveEnd| && (x in live[b] || x in liveEnd[b]) :: x
  }

  /** What the worklist of augment_live_range keeps: h heads the range r, which has grown from start; what is on
      the stack is still to be looked at. */
  ghost predicate Growing(g: Flow, h: int, start: set<int>, seeds: set<int>, r: set<int>, stack: seq<int>) {
    && h in r && start <= r
    && (forall b :: b in r ==> Dominates(g, h, b))
    && (forall k :: 0 <= k < |stack| ==> Dominates(g, h, stack[k]))
    && (forall b, p :: b in r && b != h && p in g.preds[b] ==> p in r || p in stack)
    && (forall b :: b in seeds ==> b in r || b in stack)
    && (forall b :: b in r && b !in start ==> Behind(g, start, seeds, b))
    && (forall b :: b in stack && b !in start ==> Behind(g, start, seeds, b))
  }

  /** Add a block to the range and its predecessors to the stack. */
  method AddBlock(g: Flow, bb: int, r: set<int>, stack: seq<int>, ghost h: int, ghost start: set<int>, ghost seeds: set<int>)
    returns (r': set<int>, stack': seq<int>)
    requires FlowOk(g) && Growing(g, h, start, seeds, r, stack + [bb]) && bb !in r
    ensures r' == r + {bb} && Growing(g, h, start, seeds, r', stack')
  {
    hide Dominates, Behind;
    r', stack' := r + {bb}, stack;
    assert (stack + [bb])[|stack|] == bb;
    assert forall b :: b in stack + [bb] <==> b in stack || b == bb;
    IsBlockOf(g, h, bb);
    forall b | b in r' ensures IsBlock(g, b) {
      IsBlockOf(g, h, b);
    }
    var preds := g.preds[bb];
    for k := 0 to |preds|
      invariant h in r' && start <= r' && (forall b :: b in r' ==> IsBlock(g, b) && Dominates(g, h, b))
      invariant forall m :: 0 <= m < |stack'| ==> Dominates(g, h, stack'[m])
      invariant forall b, p :: b in r' && b != h && b != bb && p in g.preds[b] ==> p in r' || p in stack'
      invariant forall m :: 0 <= m < k ==> preds[m] in r' || preds[m] in stack'
      invariant forall b :: b in seeds ==> b in r' || b in stack'
      invariant forall b :: b in r' && b !in start ==> Behind(g, start, seeds, b)
      invariant forall b :: b in stack' && b !in start ==> Behind(g, start, seeds, b)
    {
      var pred := preds[k];
      PredDominated(g, h, bb, pred);
      if pred !in r' {
        IsBlockOf(g, h, pred);
        BehindPred(g, start, seeds, bb, pred);
        ghost var s := stack';
        stack' := stack' + [pred];
        assert forall b :: b in stack' <==> b in s || b == pred;
      }
    }
  }

  lemma IsBlockOf(g: Flow, h: int, b: int)
    requires Dominates(g, h, b)
    ensures IsBlock(g, b)
  {
  }

  /** The blocks that are not in a range yet. */
  ghost function Outside(g: Flow, r: set<int>): set<int> {
    set b | 0 <= b < |g.preds| && b !in r
  }

  /** The worklist loop of augment_live_range. */
  method Drain(g: Flow, live: seq<set<nat>>, liveEnd: seq<set<nat>>, range: set<int>, btrs: set<nat>, tos: seq<int>,
               ghost h: int, ghost start: set<int>, ghost seeds: set<int>)
    returns (r: set<int>, l: set<nat>)
    requires FlowOk(g) && |live| == |liveEnd| == |g.preds|
    requires range == start && Growing(g, h, start, seeds, range, tos)
    ensures Growing(g, h, start, seeds, r, [])
    ensures forall x: nat :: x in l <==> x in btrs || x in LiveIn(r - start, live, liveEnd)
  {
    hide Growing;
    r, l := range, btrs;
    var stack := tos;
    while stack != []
      invariant Growing(g, h, start, seeds, r, stack)
      invariant forall x: nat :: x in l <==> x in btrs || x in LiveIn(r - start, live, liveEnd)
      decreases Outside(g, r), |stack|
    {
      var bb := stack[|stack|-1];
      assert stack == stack[..|stack|-1] + [bb];
      stack := stack[..|stack|-1];
      TopIsBlock(g, h, start, seeds, r, stack, bb);
      if bb !in r {
        ghost var was := r;
        r, stack := AddBlock(g, bb, r, stack, h, start, seeds);
        LiveMore(was - start, r - start, live, liveEnd, bb);
        assert bb in Outside(g, was) && bb !in Outside(g, r);
        l := l + live[bb] + liveEnd[bb];
      } else {
        PopKnown(g, h, start, seeds, r, stack, bb);
      }
    }
  }

  lemma TopIsBlock(g: Flow, h: int, start: set<int>, seeds: set<int>, r: set<int>, stack: seq<int>, bb: int)
    requires Growing(g, h, start, seeds, r, stack + [bb])
    ensures IsBlock(g, bb) && (bb !in r ==> bb !in start)
  {
    assert (stack + [bb])[|stack|] == bb;
  }

  lemma PopKnown(g: Flow, h: int, start: set<int>, seeds: set<int>, r: set<int>, stack: seq<int>, bb: int)
    requires Growing(g, h, start, seeds, r, stack + [bb]) && bb in r
    ensures Growing(g, h, start, seeds, r, stack)
  {
    hide Dominates, Behind;
    assert forall k :: 0 <= k < |stack| ==> (stack + [bb])[k] == stack[k];
    assert forall b :: b in stack + [bb] <==> b in stack || b == bb;
  }

  lemma LiveMore(was: set<int>, now: set<int>, live: seq<set<nat>>, liveEnd: seq<set<nat>>, bb: int)
    requires now == was + {bb} && 0 <= bb < |live| && bb < |liveEnd|
    ensures forall x: nat :: x in LiveIn(now, live, liveEnd) <==>
                             x in LiveIn(was, live, liveEnd) || x in live[bb] || x in liveEnd[bb]
  {
  }

  // ---------- augment_live_range ----------

  /** The dominance information: for each block the blocks that dominate it. */
  ghost predicate DomsOk(g: Flow, doms: seq<set<int>>) {
    |doms| == |g.preds| && forall b, a :: 0 <= b < |doms| ==> (a in doms[b] <==> Dominates(g, a, b))
  }

  /** The walk back starts at the new block, or at the predecessors of the old head. */
  function SeedsOf(g: Flow, head: int, nb: int, below: bool): (s: set<int>)
    requires IsBlock(g, head)
  {
    if below then {nb} else set p | p in g.preds[head]
  }

  function StartOf(range: set<int>, nb: int, below: bool): set<int> {
    if below then range else range + {nb}
  }

  function HeadOf(head: int, nb: int, below: bool): int {
    if below then head else nb
  }

  lemma Finished(g: Flow, h: int, start: set<int>, seeds: set<int>, r: set<int>)
    requires Growing(g, h, start, seeds, r, [])
    ensures Region(g, r, h) && start <= r && seeds <= r
    ensures forall b, p :: b in r && b != h && p in g.preds[b] ==> p in r
    ensures forall b :: b in r && b !in start ==> Behind(g, start, seeds, b)
  {
    hide Dominates, Behind;
    var stack: seq<int> := [];
    assert Growing(g, h, start, seeds, r, stack);
    assert forall b :: b !in stack;
    assert forall b :: b in seeds ==> b in r || b in stack;
  }

  /** A finished worklist: the range is a region, and has grown by what lies behind the seeds. */
  lemma Grown(g: Flow, h: int, start: set<int>, seeds: set<int>, r: set<int>)
    requires Growing(g, h, start, seeds, r, []) && h in start
    ensures Region(g, r, h) && start <= r && seeds <= r
    ensures forall b :: b in r <==> b in start || Behind(g, start, seeds, b)
  {
    hide Dominates, Growing, Region;
    Finished(g, h, start, seeds, r);
    forall b | Behind(g, start, seeds, b) ensures b in r {
      var p :| Leads(g, start, seeds, p) && p[0] == b;
      BehindIn(g, start, seeds, r, p);
    }
  }

  lemma WalkStarts(g: Flow, range: set<int>, head: int, nb: int)
    requires Region(g, range, head) && Dominates(g, head, nb)
    ensures Growing(g, head, range, {nb}, range, [nb])
  {
    hide Dominates;
    IsBlockOf(g, head, nb);
    if nb !in range {
      BehindSeed(g, range, {nb}, nb);
    }
  }

  lemma WalkStartsAbove(g: Flow, range: set<int>, head: int, nb: int)
    requires FlowOk(g) && Region(g, range, head) && Dominates(g, nb, head) && nb != head
    ensures IsBlock(g, head)
    ensures Growing(g, nb, range + {nb}, SeedsOf(g, head, nb, false), range + {nb}, g.preds[head])
  {
    hide Dominates;
    IsBlockOf(g, nb, head);
    DominatesBlock(g, nb, head);
    DominatesSelf(g, nb);
    forall b | b in range ensures Dominates(g, nb, b) && IsBlock(g, b) {
      DominatesTrans(g, nb, head, b);
      IsBlockOf(g, nb, b);
    }
    forall p | p in g.preds[head]
      ensures Dominates(g, nb, p) && (p !in range + {nb} ==> Behind(g, range + {nb}, SeedsOf(g, head, nb, false), p))
    {
      PredDominated(g, nb, head, p);
      IsBlockOf(g, nb, p);
      if p !in range + {nb} {
        BehindSeed(g, range + {nb}, SeedsOf(g, head, nb, false), p);
      }
    }
  }

  lemma DominatesBlock(g: Flow, a: int, b: int)
    requires Dominates(g, a, b)
    ensures IsBlock(g, a)
  {
  }

  /** The registers that augment_live_range adds besides those of the blocks that the walk back adds. */
  ghost predicate AtEnds(live: seq<set<nat>>, liveEnd: seq<set<nat>>, head: int, nb: int, below: bool, full: bool, x: nat)
    requires 0 <= head < |live| && 0 <= nb < |live| == |liveEnd|
  {
    if below then nb == head && full && x in live[head]
    else x in live[head] || x in liveEnd[nb] || (full && x in live[nb])
  }

  /** What augment_live_range promises. */
  ghost predicate Augmented(g: Flow, live: seq<set<nat>>, liveEnd: seq<set<nat>>, range: set<int>, btrs: set<nat>,
                            head: int, nb: int, below: bool, full: bool, r: set<int>, l: set<nat>)
    requires IsBlock(g, head) && IsBlock(g, nb) && |live| == |liveEnd| == |g.preds|
  {
    && Region(g, r, HeadOf(head, nb, below))
    && range + {nb} <= r
    && (forall b :: b in r <==> b in StartOf(range, nb, below)
                                || Behind(g, StartOf(range, nb, below), SeedsOf(g, head, nb, below), b))
    && (forall x: nat :: x in l <==> x in btrs || x in LiveIn(r - StartOf(range, nb, below), live, liveEnd)
                                     || AtEnds(live, liveEnd, head, nb, below, full, x))
  }

  /** augment_live_range.  The result is again entered only at its head; it has grown by exactly the blocks from which
      a walk outside the old range leads to the new block, or into the old head; and the registers live in what was
      added are recorded. */
  method AugmentLiveRange(g: Flow, doms: seq<set<int>>, live: seq<set<nat>>, liveEnd: seq<set<nat>>, range: set<int>,
                          btrs: set<nat>, head: int, nb: int, full: bool)
    returns (r: set<int>, l: set<nat>)
    requires FlowOk(g) && DomsOk(g, doms) && |live| == |liveEnd| == |g.preds| && Region(g, range, head)
    requires Dominates(g, head, nb) || Dominates(g, nb, head)
    ensures IsBlock(g, head) && IsBlock(g, nb)
    ensures Augmented(g, live, liveEnd, range, btrs, head, nb, Dominates(g, head, nb), full, r, l)
  {
    hide Growing, Behind, LiveIn;
    var below := head in doms[nb];
    if below {
      if nb == head {
        r, l := range, if full then btrs + live[nb] else btrs;
        Nothing(g, range, head);
      } else {
        WalkStarts(g, range, head, nb);
        r, l := Drain(g, live, liveEnd, range, btrs, [nb], head, range, {nb});
        Grown(g, head, range, {nb}, r);
      }
    } else {
      l := btrs + live[head] + liveEnd[nb];
      if full {
        l := l + live[nb];
      }
      WalkStartsAbove(g, range, head, nb);
      ghost var seeds := SeedsOf(g, head, nb, false);
      r, l := Drain(g, live, liveEnd, range + {nb}, l, g.preds[head], nb, range + {nb}, seeds);
      Grown(g, nb, range + {nb}, seeds, r);
    }
  }

  lemma Nothing(g: Flow, range: set<int>, head: int)
    requires head in range
    ensures forall b :: !Behind(g, range, {head}, b)
    ensures forall live: seq<set<nat>>, liveEnd: seq<set<nat>>, x: nat :: x !in LiveIn(range - range, live, liveEnd)
  {
  }
}
