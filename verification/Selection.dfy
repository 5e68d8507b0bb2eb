/** The pure decisions of trace construction: heap keys, which of two edges is better,
    which blocks wait for a later round. */
module Selection {
  import opened Cfg

  const INT_MIN: int := -0x8000_0000

  const N_ROUNDS := 5
  const INT_MAX: int := 0x7fff_ffff
  /** Thresholds in thousandths of REG_BR_PROB_BASE and of the entry frequency. */
  const BRANCH_THRESHOLD: seq<int> := [400, 200, 100, 0, 0]
  const EXEC_THRESHOLD: seq<int> := [500, 200, 50, 0, 0]

  /** maxCount scaled by perMille thousandths, dividing first when the product could overflow. */
  function CountThreshold(maxCount: int, perMille: int): int {
    if maxCount < INT_MAX / 1000 then CDiv(maxCount * perMille, 1000) else CDiv(maxCount, 1000) * perMille
  }

  /** Thresholds of one round and the compiler settings that the decisions read. */
  datatype Round = Round(number: nat, rounds: nat, branchTh: int, execTh: int, countTh: int)

  datatype Settings = Settings(jumpLength: nat, growFactor: nat, optimizeSize: bool, partitioning: bool,
                               firstBb: int)

  /** Should b wait for the next round? */
  predicate PushToNextRoundP(g: Graph, b: int, r: Round)
    requires IsBlock(g, b)
  {
    && r.number < r.rounds - 1
    && (g.blocks[b].frequency < r.execTh || g.blocks[b].count < r.countTh || g.blocks[b].neverExecuted)
  }

  /** Block b reaches the thresholds of a round and may be executed. */
  predicate HotEnough(g: Graph, b: int, r: Round)
    requires IsBlock(g, b)
  {
    g.blocks[b].frequency >= r.execTh && g.blocks[b].count >= r.countTh && !g.blocks[b].neverExecuted
  }

  /** A block waits exactly while it is not hot enough and another round follows.  So with thresholds that do not rise from
      round to round, a block that is taken up in one round would not wait in any later one, and none waits in the last. */
  lemma WaitsOnce(g: Graph, b: int, r: Round, later: Round)
    requires IsBlock(g, b) && r.rounds == later.rounds && r.number <= later.number
    requires later.execTh <= r.execTh && later.countTh <= r.countTh
    ensures PushToNextRoundP(g, b, r) <==> !HotEnough(g, b, r) && r.number + 1 < r.rounds
    ensures !PushToNextRoundP(g, b, r) ==> !PushToNextRoundP(g, b, later)
  {
  }

  /** The thresholds fall from round to round. */
  lemma ThresholdsFall(i: nat, j: nat, maxCount: nat, maxFrequency: nat)
    requires i <= j < N_ROUNDS
    ensures BRANCH_THRESHOLD[j] <= BRANCH_THRESHOLD[i] && EXEC_THRESHOLD[j] <= EXEC_THRESHOLD[i]
    ensures CDiv(maxFrequency * EXEC_THRESHOLD[j], 1000) <= CDiv(maxFrequency * EXEC_THRESHOLD[i], 1000)
    ensures CountThreshold(maxCount, EXEC_THRESHOLD[j]) <= CountThreshold(maxCount, EXEC_THRESHOLD[i])
  {
    var e, f := EXEC_THRESHOLD[i], EXEC_THRESHOLD[j];
    assert 0 <= f <= e;
    Scaled(maxFrequency, f, e);
    Scaled(maxCount, f, e);
    Product(CDiv(maxCount, 1000), f, e);
  }

  lemma Product(x: nat, a: nat, b: nat)
    requires a <= b
    ensures 0 <= x * a <= x * b
  {
  }

  lemma Scaled(x: nat, a: nat, b: nat)
    requires a <= b
    ensures CDiv(x * a, 1000) <= CDiv(x * b, 1000)
  {
    Product(x, a, b);
  }

  /** A cold block waits like any other: one that is hot enough by its numbers is taken up in the first round, although the
      comment on push_to_next_round_p says that it waits for the last. */
  lemma ColdExample(block: Block)
    requires block.partition == Cold && block.frequency == 10000 && block.count == 0 && !block.neverExecuted
    ensures !PushToNextRoundP(Graph([block], [], 0), 0, Round(0, 4, 4000, 5000, 0))
  {
  }

  /** The highest frequency among the first k edges into b that come from the end of a trace
      or close a depth-first cycle. */
  function Priority(g: Graph, endOf: seq<int>, b: int, k: nat): int
    requires k <= |g.edges|
  {
    if k == 0 then 0
    else
      var p := Priority(g, endOf, b, k - 1);
      var e := g.edges[k-1];
      if e.dest == b && (e.dfsBack || (0 <= e.src < |endOf| && endOf[e.src] >= 0)) && EdgeFrequency(g, e) > p
      then EdgeFrequency(g, e) else p
  }

  /** The heap key of b: the smaller, the sooner b starts a trace. */
  function BbToKey(g: Graph, endOf: seq<int>, b: int): int
    requires IsBlock(g, b)
  {
    var bb := g.blocks[b];
    if bb.partition == Cold || bb.neverExecuted then BB_FREQ_MAX
    else
      var p := Priority(g, endOf, b, |g.edges|);
      if p != 0 then -(100 * BB_FREQ_MAX + 100 * p + bb.frequency) else -bb.frequency
  }

  // ---------- what the keys mean ----------

  ghost predicate FrequenciesOk(g: Graph) {
    forall b :: IsBlock(g, b) ==> 0 <= g.blocks[b].frequency <= BB_FREQ_MAX
  }

  /** Block b had better start no trace. */
  predicate Unwanted(g: Graph, b: int) {
    IsBlock(g, b) && (g.blocks[b].partition == Cold || g.blocks[b].neverExecuted)
  }

  /** Edge k enters b from the end of a trace, or closes a depth-first cycle there. */
  predicate Invites(g: Graph, endOf: seq<int>, b: int, k: int) {
    && 0 <= k < |g.edges| && g.edges[k].dest == b
    && (g.edges[k].dfsBack || (0 <= g.edges[k].src < |endOf| && endOf[g.edges[k].src] >= 0))
  }

  /** Some such edge is taken now and then. */
  ghost predicate Invited(g: Graph, endOf: seq<int>, b: int) {
    exists k :: Invites(g, endOf, b, k) && EdgeFrequency(g, g.edges[k]) > 0
  }

  /** p is the highest frequency of such an edge. */
  ghost predicate Invitation(g: Graph, endOf: seq<int>, b: int, p: int) {
    && (exists k :: Invites(g, endOf, b, k) && EdgeFrequency(g, g.edges[k]) == p)
    && (forall k :: Invites(g, endOf, b, k) ==> EdgeFrequency(g, g.edges[k]) <= p)
  }

  lemma {:induction false} PriorityIs(g: Graph, endOf: seq<int>, b: int, n: nat)
    requires n <= |g.edges|
    ensures Priority(g, endOf, b, n) >= 0
    ensures forall k :: 0 <= k < n && Invites(g, endOf, b, k) ==> EdgeFrequency(g, g.edges[k]) <= Priority(g, endOf, b, n)
    ensures Priority(g, endOf, b, n) > 0 ==>
              exists k :: 0 <= k < n && Invites(g, endOf, b, k) && EdgeFrequency(g, g.edges[k]) == Priority(g, endOf, b, n)
  {
    hide EdgeFrequency;
    if n > 0 {
      PriorityIs(g, endOf, b, n - 1);
      assert forall k :: 0 <= k < n && Invites(g, endOf, b, k) ==> k < n - 1 || k == n - 1;
    }
  }

  /** Block a starts a trace before block b does: unwanted blocks come last, invited ones first.  Among invited blocks a
      hundredfold of the invitation and the block's own frequency count together, otherwise its frequency. */
  ghost predicate Sooner(g: Graph, endOf: seq<int>, a: int, b: int)
    requires IsBlock(g, a) && IsBlock(g, b)
  {
    if Unwanted(g, a) || Unwanted(g, b) then !Unwanted(g, a)  && Unwanted(g, b)
    else if Invited(g, endOf, a) && Invited(g, endOf, b) then
      exists p, q :: Invitation(g, endOf, a, p) && Invitation(g, endOf, b, q)
                     && 100 * (p - q) > g.blocks[b].frequency - g.blocks[a].frequency
    else if Invited(g, endOf, a) || Invited(g, endOf, b) then Invited(g, endOf, a)
    else g.blocks[a].frequency > g.blocks[b].frequency
  }

  lemma InvitationIs(g: Graph, endOf: seq<int>, b: int)
    requires IsBlock(g, b)
    ensures var p := Priority(g, endOf, b, |g.edges|);
            && p >= 0 && (Invited(g, endOf, b) <==> p > 0)
            && (Invited(g, endOf, b) ==> forall q :: Invitation(g, endOf, b, q) <==> q == p)
  {
    hide EdgeFrequency;
    PriorityIs(g, endOf, b, |g.edges|);
  }

  /** The keys order the blocks like this. */
  lemma KeysOrder(g: Graph, endOf: seq<int>, a: int, b: int)
    requires FrequenciesOk(g) && IsBlock(g, a) && IsBlock(g, b)
    ensures BbToKey(g, endOf, a) < BbToKey(g, endOf, b) <==> Sooner(g, endOf, a, b)
  {
    InvitationIs(g, endOf, a);
    InvitationIs(g, endOf, b);
    hide Invited, Invitation, EdgeFrequency, Priority;
    var p, q := Priority(g, endOf, a, |g.edges|), Priority(g, endOf, b, |g.edges|);
    assert Invited(g, endOf, a) ==> Invitation(g, endOf, a, p);
    assert Invited(g, endOf, b) ==> Invitation(g, endOf, b, q);
  }

  /** Of two invited blocks, one with a greater invitation comes first if and only if the other is not more frequent by a
      hundredfold of the difference or more: always if the invitations differ by more than a hundred, or if it is at least as
      frequent.  With equal invitations the more frequent one comes first. */
  lemma GreaterInvitation(g: Graph, endOf: seq<int>, a: int, b: int, p: int, q: int)
    requires FrequenciesOk(g) && IsBlock(g, a) && IsBlock(g, b) && !Unwanted(g, a) && !Unwanted(g, b)
    requires Invitation(g, endOf, a, p) && Invitation(g, endOf, b, q) && p > 0 && q > 0
    ensures Sooner(g, endOf, a, b) <==> g.blocks[b].frequency - g.blocks[a].frequency < 100 * (p - q)
    ensures p > q && (p - q > 100 || g.blocks[a].frequency >= g.blocks[b].frequency) ==> Sooner(g, endOf, a, b)
    ensures p == q ==> (Sooner(g, endOf, a, b) <==> g.blocks[a].frequency > g.blocks[b].frequency)
  {
    InvitationIs(g, endOf, a);
    InvitationIs(g, endOf, b);
    hide EdgeFrequency;
    assert Invited(g, endOf, a) && Invited(g, endOf, b);
    hide Invited, Invitation;
  }

  /** Block 1, invited by an edge of frequency 20, but of frequency 1000 itself, comes before block 2 of frequency 21, which
      an edge of frequency 21 invites. */
  lemma InvitationExample(block: Block)
    requires block.partition == Hot && !block.neverExecuted
    ensures var g := Graph([block.(frequency := 2000), block.(frequency := 1000), block.(frequency := 21)],
                           [Edge(ENTRY, 0, true, false, false, false, 10000, 0), Edge(0, 1, true, false, false, false, 100, 0),
                            Edge(0, 2, true, false, false, false, 105, 0)], 2000);
            && FrequenciesOk(g) && Sooner(g, [0, -1, -1], 1, 2)
            && Invitation(g, [0, -1, -1], 1, 20) && Invitation(g, [0, -1, -1], 2, 21)
  {
    var g := Graph([block.(frequency := 2000), block.(frequency := 1000), block.(frequency := 21)],
                   [Edge(ENTRY, 0, true, false, false, false, 10000, 0), Edge(0, 1, true, false, false, false, 100, 0),
                    Edge(0, 2, true, false, false, false, 105, 0)], 2000);
    var endOf := [0, -1, -1];
    assert EdgeFrequency(g, g.edges[1]) == 20 && EdgeFrequency(g, g.edges[2]) == 21;
    assert Invites(g, endOf, 1, 1) && Invites(g, endOf, 2, 2);
    assert forall k :: Invites(g, endOf, 1, k) ==> k == 1;
    assert forall k :: Invites(g, endOf, 2, k) ==> k == 2;
    assert Invitation(g, endOf, 1, 20) && Invitation(g, endOf, 2, 21);
  }

  lemma {:induction false} PriorityFrame(g: Graph, endOf: seq<int>, x: nat, v: int, b: int, k: nat)
    requires k <= |g.edges| && x < |endOf|
    requires forall i :: 0 <= i < |g.edges| && g.edges[i].src == x ==> g.edges[i].dest != b
    ensures Priority(g, endOf[x := v], b, k) == Priority(g, endOf, b, k)
  {
    if k > 0 {
      PriorityFrame(g, endOf, x, v, b, k - 1);
    }
  }

  /** The heap keys are those of the present graph. */
  ghost predicate FreshKeys(g: Graph, endOf: seq<int>, heap: map<int, int>, newHeap: map<int, int>) {
    && (forall b :: b in heap && IsBlock(g, b) ==> heap[b] == BbToKey(g, endOf, b))
    && (forall b :: b in newHeap && IsBlock(g, b) ==> newHeap[b] == BbToKey(g, endOf, b))
  }

  lemma FreshKeysPut(g: Graph, endOf: seq<int>, heap: map<int, int>, newHeap: map<int, int>, d: int)
    requires IsBlock(g, d) && FreshKeys(g, endOf, heap, newHeap)
    ensures FreshKeys(g, endOf, heap[d := BbToKey(g, endOf, d)], newHeap)
    ensures FreshKeys(g, endOf, heap, newHeap[d := BbToKey(g, endOf, d)])
  {
  }

  /** Is edge e (of probability prob, into a block of frequency freq) better than the best so far? */
  predicate BetterEdgeP(g: Graph, bb: int, e: Edge, prob: int, freq: int, bestProb: int, bestFreq: int,
                        crossingBest: bool, partitioning: bool)
    requires IsBlock(g, e.dest)
  {
    var diffProb := CDiv(bestProb, 10);
    var diffFreq := CDiv(bestFreq, 10);
    var better :=
      if prob > bestProb + diffProb then true
      else if prob < bestProb - diffProb then false
      else if freq < bestFreq - diffFreq then true
      else if freq > bestFreq + diffFreq then false
      else g.blocks[e.dest].prevBb == bb;
    better || (partitioning && crossingBest && !e.crossing)
  }

  /** p exceeds q by more than a tenth of q. */
  predicate MuchMore(p: int, q: int) {
    10 * (p - q) > q
  }

  /** p falls short of q by more than a tenth of q. */
  predicate MuchLess(p: int, q: int) {
    10 * (q - p) > q
  }

  /** Which edge is better: one that is more probable by more than a tenth; if neither is more nor less probable by that
      much, one with a target that is less frequent by more than a tenth, or if that is about as frequent, too, the block
      that follows anyway.  With partitioning also any edge that does not cross, if the best one does. */
  lemma BetterMeans(g: Graph, bb: int, e: Edge, prob: nat, freq: nat, bestProb: nat, bestFreq: nat, crossingBest: bool,
                    partitioning: bool)
    requires IsBlock(g, e.dest)
    ensures BetterEdgeP(g, bb, e, prob, freq, bestProb, bestFreq, crossingBest, partitioning) <==>
              || (partitioning && crossingBest && !e.crossing)
              || MuchMore(prob, bestProb)
              || (!MuchLess(prob, bestProb) && MuchLess(freq, bestFreq))
              || (!MuchLess(prob, bestProb) && !MuchMore(freq, bestFreq) && g.blocks[e.dest].prevBb == bb)
  {
  }

  /** An edge that another one falls short of by more than a tenth of it is better than that one, and never the other way
      round; the targets do not matter then. */
  lemma ClearlyBetter(g: Graph, bb: int, e: Edge, p: nat, x: nat, c: bool, f: Edge, q: nat, y: nat, d: bool)
    requires IsBlock(g, e.dest) && IsBlock(g, f.dest) && MuchLess(q, p)
    ensures BetterEdgeP(g, bb, e, p, x, q, y, d, false) && !BetterEdgeP(g, bb, f, q, y, p, x, c, false)
  {
    BetterMeans(g, bb, e, p, x, q, y, d, false);
    BetterMeans(g, bb, f, q, y, p, x, c, false);
    hide BetterEdgeP;
  }

  /** Closer ones may each be better than the other: 1000 against 900, of which the second leads to a rarer block. */
  lemma BetterBothWays(g: Graph, bb: int, e: Edge, f: Edge)
    requires IsBlock(g, e.dest) && IsBlock(g, f.dest)
    ensures BetterEdgeP(g, bb, e, 1000, 100, 900, 10, false, false) && BetterEdgeP(g, bb, f, 900, 10, 1000, 100, false, false)
  {
  }

  /** An edge that the current round considers too improbable or too cold to extend a trace. */
  predicate WeakEdge(g: Graph, e: Edge, r: Round) {
    || !e.canFallthru || e.complex
    || e.probability < r.branchTh || EdgeFrequency(g, e) < r.execTh || e.count < r.countTh
  }

  /** Edge k leads from bb, inside its section, to a block that is unvisited or in trace id. */
  predicate Admissible(g: Graph, visited: seq<nat>, bb: int, id: nat, k: int) {
    && 0 <= k < |g.edges| && g.edges[k].src == bb && IsBlock(g, bb)
    && IsBlock(g, g.edges[k].dest) && g.edges[k].dest < |visited|
    && (visited[g.edges[k].dest] == 0 || visited[g.edges[k].dest] == id)
    && g.blocks[g.edges[k].dest].partition == g.blocks[bb].partition
  }

  /** Edge k may be chosen to extend the trace from bb. */
  predicate Suitable(g: Graph, visited: seq<nat>, bb: int, id: nat, r: Round, k: int) {
    && Admissible(g, visited, bb, id, k)
    && if g.blocks[bb].endsInCall then g.edges[k].canFallthru else !WeakEdge(g, g.edges[k], r)
  }

  /** No suitable edge below number n that comes after best is better than best. */
  ghost predicate NoLaterBetter(g: Graph, visited: seq<nat>, bb: int, id: nat, r: Round, partitioning: bool, best: int, n: int)
    requires 0 <= best < |g.edges|
  {
    forall j :: best < j < n && Suitable(g, visited, bb, id, r, j) ==> !Overtakes(g, bb, partitioning, best, j)
  }

  /** Edge k takes the place of edge best when it comes later: after a call always, otherwise if it is better. */
  predicate Overtakes(g: Graph, bb: int, partitioning: bool, best: int, k: int)
    requires 0 <= best < |g.edges| && 0 <= k < |g.edges| && IsBlock(g, bb) && IsBlock(g, g.edges[k].dest)
  {
    var e, f := g.edges[k], g.edges[best];
    g.blocks[bb].endsInCall
    || (IsBlock(g, f.dest) && BetterEdgeP(g, bb, e, e.probability, g.blocks[e.dest].frequency, f.probability,
                                          g.blocks[f.dest].frequency, f.crossing, partitioning))
  }

  /** A block that is copied rather than jumped to. */
  predicate Copied(g: Graph, b: int, s: Settings)
    requires IsBlock(g, b)
  {
    CountPreds(g, b, |g.edges|) >= 2 && CopyBbP(g, b, false, s.jumpLength, s.growFactor)
  }

  /** The edge that leads when those below number n have been compared (-1: none is suitable): the first suitable one, until
      another takes its place. */
  ghost function Leader(g: Graph, visited: seq<nat>, bb: int, id: nat, r: Round, partitioning: bool, n: nat): (l: int)
    requires n <= |g.edges|
    ensures l == -1 || (0 <= l < n && Suitable(g, visited, bb, id, r, l))
    ensures l == -1 <==> forall j :: 0 <= j < n ==> !Suitable(g, visited, bb, id, r, j)
  {
    if n == 0 then -1
    else
      var l := Leader(g, visited, bb, id, r, partitioning, n - 1);
      if Suitable(g, visited, bb, id, r, n - 1) && (l == -1 || Overtakes(g, bb, partitioning, l, n - 1)) then n - 1 else l
  }

  /** What select_successor answers: the leader, if there is one and its target is not better copied. */
  ghost predicate Selected(g: Graph, visited: seq<nat>, bb: int, id: nat, r: Round, s: Settings, best: int) {
    var l := Leader(g, visited, bb, id, r, s.partitioning, |g.edges|);
    best == if l == -1 || Copied(g, g.edges[l].dest, s) then -1 else l
  }

  /** An edge that every other suitable one falls short of by more than a tenth of its probability is the one selected, or
      refused because its target is better copied. */
  lemma ClearWinner(g: Graph, visited: seq<nat>, bb: int, id: nat, r: Round, s: Settings, best: int, k: int)
    requires Selected(g, visited, bb, id, r, s, best) && Suitable(g, visited, bb, id, r, k)
    requires !g.blocks[bb].endsInCall && !s.partitioning
    requires forall b :: IsBlock(g, b) ==> g.blocks[b].frequency >= 0
    requires forall j :: 0 <= j < |g.edges| ==> g.edges[j].probability >= 0
    requires forall j :: Suitable(g, visited, bb, id, r, j) && j != k ==> MuchLess(g.edges[j].probability, g.edges[k].probability)
    ensures best == if Copied(g, g.edges[k].dest, s) then -1 else k
  {
    WinnerLeads(g, visited, bb, id, r, k, |g.edges|);
  }

  lemma {:induction false} WinnerLeads(g: Graph, visited: seq<nat>, bb: int, id: nat, r: Round, k: int, n: nat)
    requires k < n <= |g.edges| && Suitable(g, visited, bb, id, r, k) && !g.blocks[bb].endsInCall
    requires forall b :: IsBlock(g, b) ==> g.blocks[b].frequency >= 0
    requires forall j :: 0 <= j < |g.edges| ==> g.edges[j].probability >= 0
    requires forall j :: Suitable(g, visited, bb, id, r, j) && j != k ==> MuchLess(g.edges[j].probability, g.edges[k].probability)
    ensures Leader(g, visited, bb, id, r, false, n) == k
  {
    var l := Leader(g, visited, bb, id, r, false, n - 1);
    var j := if n - 1 == k then l else n - 1;
    if n - 1 > k {
      WinnerLeads(g, visited, bb, id, r, k, n - 1);
    }
    if j >= 0 && Suitable(g, visited, bb, id, r, j) {
      var e, f := g.edges[k], g.edges[j];
      ClearlyBetter(g, bb, e, e.probability, g.blocks[e.dest].frequency, e.crossing,
                    f, f.probability, g.blocks[f.dest].frequency, f.crossing);
    }
    hide BetterEdgeP, WeakEdge;
  }

  /** After a call the last edge that falls through is taken. */
  lemma {:induction false} AfterCall(g: Graph, visited: seq<nat>, bb: int, id: nat, r: Round, partitioning: bool, k: int, n: nat)
    requires k < n <= |g.edges| && IsBlock(g, bb) && g.blocks[bb].endsInCall && Suitable(g, visited, bb, id, r, k)
    requires forall j :: k < j < n ==> !Suitable(g, visited, bb, id, r, j)
    ensures Leader(g, visited, bb, id, r, partitioning, n) == k
  {
    if k < n - 1 {
      AfterCall(g, visited, bb, id, r, partitioning, k, n - 1);
    }
  }

  /** Select the successor to place after bb (-1: none).  A target that is cheaper to copy than to
      jump to is refused, because it will be copied when the traces are connected. */
  method SelectSuccessor(g: Graph, visited: seq<nat>, bb: int, id: nat, r: Round, s: Settings)
    returns (best: int)
    requires WellFormed(g) && IsBlock(g, bb) && |visited| == |g.blocks|
    requires forall k :: 0 <= k < |g.edges| ==> g.edges[k].probability >= 0
    ensures best == -1 || (Suitable(g, visited, bb, id, r, best) && !Copied(g, g.edges[best].dest, s) &&
                           NoLaterBetter(g, visited, bb, id, r, s.partitioning, best, |g.edges|))
    ensures best == -1 ==>
              (forall k :: 0 <= k < |g.edges| ==> !Suitable(g, visited, bb, id, r, k)) ||
              (exists k :: Suitable(g, visited, bb, id, r, k) && Copied(g, g.edges[k].dest, s) &&
                           NoLaterBetter(g, visited, bb, id, r, s.partitioning, k, |g.edges|))
    ensures Selected(g, visited, bb, id, r, s, best)
  {
    best := -1;
    var bestProb, bestFreq := INT_MIN / 2, INT_MIN / 2;
    for k := 0 to |g.edges|
      invariant best == -1 || (best < k && Suitable(g, visited, bb, id, r, best) &&
                               NoLaterBetter(g, visited, bb, id, r, s.partitioning, best, k) &&
                               bestProb == g.edges[best].probability && bestFreq == g.blocks[g.edges[best].dest].frequency)
      invariant best == -1 ==> bestProb == INT_MIN / 2 && bestFreq == INT_MIN / 2
      invariant best == Leader(g, visited, bb, id, r, s.partitioning, k)
    {
      var e := g.edges[k];
      if e.src != bb || e.dest == EXIT { continue; }
      if visited[e.dest] != 0 && visited[e.dest] != id { continue; }
      if g.blocks[e.dest].partition != g.blocks[bb].partition { continue; }
      var prob, freq := e.probability, g.blocks[e.dest].frequency;
      if g.blocks[bb].endsInCall {
        if e.canFallthru {
          best, bestProb, bestFreq := k, prob, freq;
        }
        continue;
      }
      if WeakEdge(g, e, r) { continue; }
      if BetterEdgeP(g, bb, e, prob, freq, bestProb, bestFreq,
                     best >= 0 && g.edges[best].crossing, s.partitioning) {
        best, bestProb, bestFreq := k, prob, freq;
      }
    }
    if best >= 0 && CountPreds(g, g.edges[best].dest, |g.edges|) >= 2
       && CopyBbP(g, g.edges[best].dest, false, s.jumpLength, s.growFactor) {
      best := -1;
    }
  }

  /** The other predecessor of a join block: edge k leads from bb to an unvisited block whose only way
      in is k and whose only way out falls through to the target of best, often enough. */
  predicate SkipsAhead(g: Graph, visited: seq<nat>, bb: int, best: int, k: int)
    requires |visited| == |g.blocks| && WellFormed(g)
    requires 0 <= best < |g.edges| && IsBlock(g, g.edges[best].dest) && 0 <= k < |g.edges|
  {
    var e := g.edges[k];
    && e.src == bb && k != best && e.canFallthru && !e.complex
    && e.dest != EXIT && visited[e.dest] == 0
    && SinglePred(g, e.dest) && !e.crossing && SingleSucc(g, e.dest)
    && var out := FirstSuccEdge(g, e.dest, 0);
    out >= 0
    && g.edges[out].canFallthru && !g.edges[out].complex
    && g.edges[out].dest == g.edges[best].dest
    && 2 * g.blocks[e.dest].frequency >= EdgeFrequency(g, g.edges[best])
  }

  /** Prefer the order A B C when best skips from A to C over such a block B. */
  method Reselect(g: Graph, visited: seq<nat>, bb: int, best: int) returns (chosen: int)
    requires WellFormed(g) && CrossingMarked(g) && IsBlock(g, bb) && |visited| == |g.blocks|
    requires 0 <= best < |g.edges| && g.edges[best].src == bb && IsBlock(g, g.edges[best].dest)
    ensures 0 <= chosen < |g.edges| && g.edges[chosen].src == bb
    ensures chosen != best ==> SkipsAhead(g, visited, bb, best, chosen)
    ensures chosen == best ==> forall k :: 0 <= k < |g.edges| ==> !SkipsAhead(g, visited, bb, best, k)
  {
    for k := 0 to |g.edges|
      invariant forall j :: 0 <= j < k ==> !SkipsAhead(g, visited, bb, best, j)
    {
      if SkipsAhead(g, visited, bb, best, k) {
        return k;
      }
    }
    return best;
  }
}
