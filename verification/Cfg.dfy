/** The control-flow graph seen by the block-reordering pass: blocks and edges are
    numbered, and ENTRY, EXIT and the null block are negative as in the compiler. */
module Cfg {
  const ENTRY: int := -1
  const EXIT: int := -2
  const NIL: int := -3
  const REG_BR_PROB_BASE: int := 10000
  const BB_FREQ_MAX: int := 10000

  datatype Partition = Unpartitioned | Hot | Cold

  /** What the pass reads from a block.  The instruction-level facts (length in bytes,
      whether the block may be duplicated, ...) are inputs. */
  datatype Block = Block(
    frequency: int, count: int, partition: Partition, neverExecuted: bool, maybeHot: bool,
    endsInCall: bool, endsInCondJump: bool, crossingNote: bool, duplicable: bool, size: nat,
    prevBb: int)

  datatype Edge = Edge(
    src: int, dest: int, canFallthru: bool, complex: bool, crossing: bool, dfsBack: bool,
    probability: int, count: int)

  datatype Graph = Graph(blocks: seq<Block>, edges: seq<Edge>, entryFrequency: int)

  predicate IsBlock(g: Graph, b: int) {
    0 <= b < |g.blocks|
  }

  /** Every edge joins known blocks, and control enters the function at a real block. */
  ghost predicate WellFormed(g: Graph) {
    forall k :: 0 <= k < |g.edges| ==>
      && (g.edges[k].src == ENTRY || IsBlock(g, g.edges[k].src))
      && ((g.edges[k].dest == EXIT && g.edges[k].src != ENTRY) || IsBlock(g, g.edges[k].dest))
  }

  /** An edge is marked as crossing whenever its ends lie in different sections. */
  ghost predicate CrossingMarked(g: Graph) {
    forall k :: 0 <= k < |g.edges| && IsBlock(g, g.edges[k].src) && IsBlock(g, g.edges[k].dest) ==>
      g.edges[k].crossing ||
      g.blocks[g.edges[k].src].partition == g.blocks[g.edges[k].dest].partition
  }

  ghost predicate HasEdge(g: Graph, src: int, dest: int) {
    exists k :: 0 <= k < |g.edges| && g.edges[k].src == src && g.edges[k].dest == dest
  }

  /** p is a walk that starts where ENTRY leads and follows edges. */
  ghost predicate IsWalk(g: Graph, p: seq<int>) {
    |p| > 0 && HasEdge(g, ENTRY, p[0]) &&
    forall i :: 0 < i < |p| ==> HasEdge(g, p[i-1], p[i])
  }

  ghost predicate Reachable(g: Graph, b: int) {
    IsBlock(g, b) && exists p :: IsWalk(g, p) && (forall x :: x in p ==> IsBlock(g, x)) && p[|p|-1] == b
  }

  function Abs(x: int): nat {
    if x < 0 then -x else x
  }

  /** Integer division as C does it: towards zero. */
  function CDiv(x: int, y: int): int
    requires y != 0
  {
    var q := Abs(x) / Abs(y);
    if (x < 0) == (y < 0) then q else -q
  }

  function Frequency(g: Graph, b: int): int {
    if IsBlock(g, b) then g.blocks[b].frequency else g.entryFrequency
  }

  function EdgeFrequency(g: Graph, e: Edge): int {
    CDiv(Frequency(g, e.src) * e.probability + REG_BR_PROB_BASE / 2, REG_BR_PROB_BASE)
  }

  /** The frequency of an edge is that of its source times its probability, rounded to the nearest whole number. */
  lemma EdgeFrequencyRounds(g: Graph, e: Edge)
    requires Frequency(g, e.src) >= 0 && e.probability >= 0
    ensures var exact := Frequency(g, e.src) * e.probability;
            && EdgeFrequency(g, e) >= 0
            && REG_BR_PROB_BASE * EdgeFrequency(g, e) - REG_BR_PROB_BASE / 2 <= exact
            && exact < REG_BR_PROB_BASE * EdgeFrequency(g, e) + REG_BR_PROB_BASE / 2
  {
    var f, p := Frequency(g, e.src), e.probability;
    Nonnegative(f, p);
    var n := f * p + 5000;
    assert n == 10000 * (n / 10000) + n % 10000;
  }

  lemma Nonnegative(x: int, y: int)
    requires x >= 0 && y >= 0
    ensures x * y >= 0
  {
  }

  function CountPreds(g: Graph, b: int, k: nat): nat
    requires k <= |g.edges|
  {
    if k == 0 then 0
    else CountPreds(g, b, k - 1) + if g.edges[k-1].dest == b then 1 else 0
  }

  function CountSuccs(g: Graph, b: int, k: nat): nat
    requires k <= |g.edges|
  {
    if k == 0 then 0
    else CountSuccs(g, b, k - 1) + if g.edges[k-1].src == b then 1 else 0
  }

  predicate SinglePred(g: Graph, b: int) {
    CountPreds(g, b, |g.edges|) == 1
  }

  predicate SingleSucc(g: Graph, b: int) {
    CountSuccs(g, b, |g.edges|) == 1
  }

  lemma {:induction false} NoSuccs(g: Graph, b: int, k: nat)
    requires k <= |g.edges|
    ensures CountSuccs(g, b, k) == 0 <==> forall j :: 0 <= j < k ==> g.edges[j].src != b
  {
    if k > 0 {
      NoSuccs(g, b, k - 1);
    }
  }

  /** A block with a single successor has one edge only, whichever index it is found at. */
  lemma {:induction false} SingleSuccUnique(g: Graph, b: int, k: nat, i: nat, j: nat)
    requires k <= |g.edges| && CountSuccs(g, b, k) == 1
    requires i < k && g.edges[i].src == b
    requires j < k && g.edges[j].src == b
    ensures i == j
  {
    NoSuccs(g, b, k - 1);
    if i < k - 1 && j < k - 1 {
      SingleSuccUnique(g, b, k - 1, i, j);
    }
  }

  /** The first (for SingleSucc blocks: the only) edge leaving b. */
  function FirstSuccEdge(g: Graph, b: int, k: nat): (r: int)
    requires k <= |g.edges|
    ensures -1 <= r < |g.edges|
    ensures r >= 0 ==> g.edges[r].src == b && r >= k
    ensures r < 0 ==> forall j :: k <= j < |g.edges| ==> g.edges[j].src != b
    decreases |g.edges| - k
  {
    if k == |g.edges| then -1
    else if g.edges[k].src == b then k
    else FirstSuccEdge(g, b, k + 1)
  }

  /** May b be copied?  Small blocks always; larger hot ones when code may grow. */
  predicate CopyBbP(g: Graph, b: int, codeMayGrow: bool, jumpLength: nat, growFactor: nat)
    requires IsBlock(g, b)
  {
    var bb := g.blocks[b];
    && bb.frequency != 0
    && CountPreds(g, b, |g.edges|) >= 2
    && bb.duplicable
    && CountSuccs(g, b, |g.edges|) <= 8
    && bb.size <= (if codeMayGrow && bb.maybeHot then jumpLength * growFactor else jumpLength)
  }

  /** The edges that the copy of block orig gets: one for each edge leaving orig among the first k. */
  function CopiedEdges(g: Graph, orig: int, dup: int, newCount: int, k: nat): seq<Edge>
    requires k <= |g.edges| && IsBlock(g, orig)
  {
    if k == 0 then []
    else
      var rest := CopiedEdges(g, orig, dup, newCount, k - 1);
      var s := g.edges[k-1];
      if s.src == orig then
        rest + [s.(src := dup, count := CopiedCount(g, orig, s, newCount))]
      else rest
  }

  function CopiedCount(g: Graph, orig: int, s: Edge, newCount: int): int
    requires IsBlock(g, orig)
  {
    if g.blocks[orig].count != 0 then
      CDiv(s.count * CDiv(newCount * 10000, g.blocks[orig].count), 10000)
    else s.count
  }

  /** Duplicate block orig, redirect edge e (into orig) to the copy, place the copy after block after. */
  function DuplicateBlock(g: Graph, orig: int, e: nat, after: int): Graph
    requires IsBlock(g, orig) && e < |g.edges|
  {
    var dup := |g.blocks|;
    var bb := g.blocks[orig];
    var newCount := if bb.count < g.edges[e].count then bb.count else g.edges[e].count;
    var freq := EdgeFrequency(g, g.edges[e]);
    var copy := bb.(count := newCount, frequency := freq, prevBb := after);
    var shrunk := bb.(
      count := if bb.count - newCount < 0 then 0 else bb.count - newCount,
      frequency := if bb.frequency - freq < 0 then 0 else bb.frequency - freq);
    var blocks := seq(dup, i requires 0 <= i < dup =>
      var b := if i == orig then shrunk else g.blocks[i];
      if b.prevBb == after then b.(prevBb := dup) else b) + [copy];
    var edges := seq(|g.edges|, k requires 0 <= k < |g.edges| =>
      var s := g.edges[k];
      var s' := if s.src == orig && bb.count != 0
                then s.(count := s.count - CopiedCount(g, orig, s, newCount)) else s;
      if k == e then s'.(dest := dup) else s');
    Graph(blocks, edges + CopiedEdges(g, orig, dup, newCount, |g.edges|), g.entryFrequency)
  }

  /** Edge c is the copy, leaving dup, of an edge that leaves orig among the first k. */
  ghost predicate CopiesEdge(g: Graph, orig: int, dup: int, k: nat, c: Edge)
    requires k <= |g.edges|
  {
    c.src == dup &&
    exists i :: 0 <= i < k && g.edges[i].src == orig && g.edges[i].dest == c.dest &&
                g.edges[i].crossing == c.crossing && g.edges[i].probability == c.probability
  }

  lemma {:induction false} CopiedEdgesAreCopies(g: Graph, orig: int, dup: int, newCount: int, k: nat)
    requires k <= |g.edges| && IsBlock(g, orig)
    ensures forall c :: c in CopiedEdges(g, orig, dup, newCount, k) ==> CopiesEdge(g, orig, dup, k, c)
  {
    if k > 0 {
      CopiedEdgesAreCopies(g, orig, dup, newCount, k - 1);
      var r := CopiedEdges(g, orig, dup, newCount, k - 1);
      forall c | c in CopiedEdges(g, orig, dup, newCount, k)
        ensures CopiesEdge(g, orig, dup, k, c)
      {
        if c in r {
          assert CopiesEdge(g, orig, dup, k - 1, c);
        } else {
          assert g.edges[k-1].src == orig;
        }
      }
    }
  }

  lemma {:induction false} EveryEdgeIsCopied(g: Graph, orig: int, dup: int, newCount: int, k: nat, i: nat)
    returns (j: nat)
    requires i < k <= |g.edges| && IsBlock(g, orig) && g.edges[i].src == orig
    ensures j < |CopiedEdges(g, orig, dup, newCount, k)|
    ensures CopiedEdges(g, orig, dup, newCount, k)[j].dest == g.edges[i].dest
  {
    var r := CopiedEdges(g, orig, dup, newCount, k - 1);
    if i < k - 1 {
      j := EveryEdgeIsCopied(g, orig, dup, newCount, k - 1, i);
    } else {
      j := |r|;
    }
  }

  /** What duplication means for the flow graph: one new block that goes exactly where the original
      goes, edge e redirected to it, every other edge and every section left where it was. */
  ghost predicate Duplicated(g: Graph, h: Graph, orig: int, e: nat) {
    && IsBlock(g, orig) && e < |g.edges| <= |h.edges|
    && |h.blocks| == |g.blocks| + 1
    && (forall b :: IsBlock(g, b) ==> h.blocks[b].partition == g.blocks[b].partition)
    && h.blocks[|g.blocks|].partition == g.blocks[orig].partition
    && (forall k :: 0 <= k < |g.edges| ==> SameEdge(g, h, e, k))
    && (forall k :: |g.edges| <= k < |h.edges| ==>
          CopiesEdge(g, orig, |g.blocks|, |g.edges|, h.edges[k]))
    && (forall k :: 0 <= k < |g.edges| && g.edges[k].src == orig ==>
          exists j :: |g.edges| <= j < |h.edges| && h.edges[j].dest == g.edges[k].dest)
  }

  ghost predicate SameEdge(g: Graph, h: Graph, e: nat, k: nat)
    requires k < |g.edges| <= |h.edges|
  {
    && h.edges[k].src == g.edges[k].src
    && h.edges[k].dest == (if k == e then |g.blocks| else g.edges[k].dest)
    && h.edges[k].crossing == g.edges[k].crossing
    && h.edges[k].probability == g.edges[k].probability
  }

  lemma DuplicateBlockDuplicates(g: Graph, orig: int, e: nat, after: int)
    requires IsBlock(g, orig) && e < |g.edges|
    ensures Duplicated(g, DuplicateBlock(g, orig, e, after), orig, e)
  {
    var h := DuplicateBlock(g, orig, e, after);
    var bb := g.blocks[orig];
    var newCount := if bb.count < g.edges[e].count then bb.count else g.edges[e].count;
    var c := CopiedEdges(g, orig, |g.blocks|, newCount, |g.edges|);
    CopiedEdgesAreCopies(g, orig, |g.blocks|, newCount, |g.edges|);
    assert h.edges[|g.edges|..] == c;
    forall k | |g.edges| <= k < |h.edges|
      ensures CopiesEdge(g, orig, |g.blocks|, |g.edges|, h.edges[k])
    {
      assert h.edges[k] == c[k - |g.edges|];
    }
    forall k | 0 <= k < |g.edges| && g.edges[k].src == orig
      ensures exists j :: |g.edges| <= j < |h.edges| && h.edges[j].dest == g.edges[k].dest
    {
      var j := EveryEdgeIsCopied(g, orig, |g.blocks|, newCount, |g.edges|, k);
      assert h.edges[|g.edges| + j] == c[j];
    }
  }

  lemma DuplicatedSections(g: Graph, h: Graph, orig: int, e: nat)
    requires Duplicated(g, h, orig, e)
    ensures IsBlock(g, orig) && |h.blocks| == |g.blocks| + 1 && e < |g.edges| <= |h.edges|
    ensures forall b :: IsBlock(g, b) ==> h.blocks[b].partition == g.blocks[b].partition
    ensures h.blocks[|g.blocks|].partition == g.blocks[orig].partition
  {
  }

  lemma KeptEdge(g: Graph, h: Graph, orig: int, e: nat, k: nat)
    requires Duplicated(g, h, orig, e) && k < |g.edges|
    ensures SameEdge(g, h, e, k)
  {
  }

  /** The edge that a new edge copies. */
  lemma CopiedFrom(g: Graph, h: Graph, orig: int, e: nat, k: nat) returns (i: nat)
    requires Duplicated(g, h, orig, e) && |g.edges| <= k < |h.edges|
    ensures i < |g.edges| && g.edges[i].src == orig && g.edges[i].dest == h.edges[k].dest
    ensures h.edges[k].src == |g.blocks| && g.edges[i].crossing == h.edges[k].crossing
    ensures g.edges[i].probability == h.edges[k].probability
  {
    assert CopiesEdge(g, orig, |g.blocks|, |g.edges|, h.edges[k]);
    i :| 0 <= i < |g.edges| && g.edges[i].src == orig && g.edges[i].dest == h.edges[k].dest
         && g.edges[i].crossing == h.edges[k].crossing && g.edges[i].probability == h.edges[k].probability;
  }

  lemma DuplicatedWellFormed(g: Graph, h: Graph, orig: int, e: nat)
    requires Duplicated(g, h, orig, e) && WellFormed(g) && g.edges[e].dest == orig
    ensures WellFormed(h)
  {
    DuplicatedSections(g, h, orig, e);
    hide Duplicated;
    forall k | 0 <= k < |h.edges|
      ensures h.edges[k].src == ENTRY || IsBlock(h, h.edges[k].src)
      ensures (h.edges[k].dest == EXIT && h.edges[k].src != ENTRY) || IsBlock(h, h.edges[k].dest)
    {
      if k < |g.edges| {
        KeptEdge(g, h, orig, e, k);
      } else {
        var i := CopiedFrom(g, h, orig, e, k);
      }
    }
  }

  lemma DuplicatedCrossing(g: Graph, h: Graph, orig: int, e: nat)
    requires Duplicated(g, h, orig, e) && WellFormed(g) && CrossingMarked(g) && g.edges[e].dest == orig
    ensures CrossingMarked(h)
  {
    DuplicatedSections(g, h, orig, e);
    hide Duplicated;
    forall k | 0 <= k < |h.edges| && IsBlock(h, h.edges[k].src) && IsBlock(h, h.edges[k].dest)
      ensures h.edges[k].crossing ||
              h.blocks[h.edges[k].src].partition == h.blocks[h.edges[k].dest].partition
    {
      if k < |g.edges| {
        KeptEdge(g, h, orig, e, k);
      } else {
        var i := CopiedFrom(g, h, orig, e, k);
      }
    }
  }

  lemma DuplicatedProbabilities(g: Graph, h: Graph, orig: int, e: nat)
    requires Duplicated(g, h, orig, e)
    requires forall k :: 0 <= k < |g.edges| ==> g.edges[k].probability >= 0
    ensures forall k :: 0 <= k < |h.edges| ==> h.edges[k].probability >= 0
  {
    forall k | 0 <= k < |h.edges| ensures h.edges[k].probability >= 0 {
      if k < |g.edges| {
        KeptEdge(g, h, orig, e, k);
      } else {
        var i := CopiedFrom(g, h, orig, e, k);
      }
    }
  }
}
