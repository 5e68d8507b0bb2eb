/** Concrete webs whose registers are lost from the record of live registers. */
module RecordExamples {
  import opened BtrFlow
  import opened LiveRanges
  import opened Dominators
  import opened Migration
  import opened WebRecords
  import opened Migrate
  import opened Options

  /** n blocks in a row, one of them a loop. */
  function Row(n: nat, loop: int): Flow {
    Flow(seq(n, i => if i == loop then [i - 1, i] else [i - 1]))
  }

  /** The blocks from a to b. */
  function Blocks(a: int, b: int): (r: set<int>)
    ensures forall x :: x in r <==> a <= x <= b
    decreases b - a
  {
    if a > b then {} else Blocks(a, b - 1) + {b}
  }

  /** Registers 5, 6 and 7 may be allocated, and only a loop is entered often. */
  function RowTarget(n: nat, loop: int, exclusive: bool): Target {
    Target(Row(n, loop), seq(n, b => Blocks(0, b)), seq(n, b => b - 1), seq(n, b => if b == loop then 10 else 1),
           exclusive, {5, 6, 7}, [5, 6, 7], (d: Def) => 0, (d: Def) => 0)
  }

  /** A walk from the entry to a block meets all blocks before that one. */
  lemma {:induction false} RowWalk(n: nat, loop: int, p: seq<int>, a: nat)
    requires EntryWalk(Row(n, loop), p) && a <= p[|p|-1]
    ensures a in p
  {
    var g, k := Row(n, loop), |p| - 1;
    if k == 0 {
      assert Edge(g, ENTRY, p[0]);
      assert p[0] == 0;
    } else if a != p[k] {
      assert Edge(g, p[k-1], p[k]);
      Prefix(g, p, k - 1);
      RowWalk(n, loop, p[..k], a);
    }
  }

  lemma {:induction false} RowReachable(n: nat, loop: int, b: nat) returns (p: seq<int>)
    requires b < n
    ensures EntryWalk(Row(n, loop), p) && p == seq(b + 1, i => i)
  {
    p := seq(b + 1, i => i);
    var g := Row(n, loop);
    forall i {:trigger p[i]} | 0 < i < |p| ensures Edge(g, p[i-1], p[i]) {
      assert g.preds[i][0] == i - 1;
    }
    assert g.preds[0][0] == -1;
  }

  lemma RowDominates(n: nat, loop: int, a: int, b: int)
    requires 0 <= b < n
    ensures Dominates(Row(n, loop), a, b) <==> 0 <= a <= b
  {
    if 0 <= a <= b {
      forall p: seq<int> | EntryWalk(Row(n, loop), p) && p[|p|-1] == b ensures a in p {
        RowWalk(n, loop, p, a);
      }
    } else {
      var p := RowReachable(n, loop, b);
    }
  }

  lemma RowFlow(n: nat, loop: int)
    ensures FlowOk(Row(n, loop))
  {
  }

  lemma RowTargetOk(n: nat, loop: int, exclusive: bool)
    ensures TargetOk(RowTarget(n, loop, exclusive))
  {
    hide Row, Dominates, IsWalk, Edge, FlowOk;
    var t := RowTarget(n, loop, exclusive);
    RowFlow(n, loop);
    RowSize(n, loop);
    forall b, a | 0 <= b < n ensures a in t.doms[b] <==> Dominates(t.g, a, b) {
      RowDominates(n, loop, a, b);
    }
    forall b | IsBlock(t.g, b) ensures exists p: seq<int> :: EntryWalk(t.g, p) && p[|p|-1] == b {
      var p := RowReachable(n, loop, b);
    }
  }

  lemma RowSize(n: nat, loop: int)
    ensures |Row(n, loop).preds| == n
  {
  }

  /** Blocks in a row are a region of the first of them. */
  lemma RowRegion(n: nat, loop: int, a: nat, b: nat)
    requires a <= b < n
    ensures Region(Row(n, loop), Blocks(a, b), a)
  {
    forall x | x in Blocks(a, b) ensures Dominates(Row(n, loop), a, x) {
      RowDominates(n, loop, a, x);
    }
  }

  /** A web whose range is the blocks from its own to a last one. */
  lemma RowDefOk(n: nat, loop: int, exclusive: bool, d: Def, last: nat)
    requires 0 <= d.bb <= last < n && d.liveRange == Some(Blocks(d.bb, last)) && d.btr in {5, 6, 7}
    requires d.cost == if d.bb == loop then 10 else 1
    requires forall k :: 0 <= k < |d.uses| ==> d.bb <= d.uses[k].bb <= last
    ensures DefOk(RowTarget(n, loop, exclusive), d)
  {
    RowSize(n, loop);
    RowRegion(n, loop, d.bb, last);
    hide Row, Region, Dominates;
    forall k | 0 <= k < |d.uses| ensures Dominates(Row(n, loop), d.bb, d.uses[k].bb) {
      RowDominates(n, loop, d.bb, d.uses[k].bb);
    }
  }

  // ---------- a merge ----------

  /** The web of block 0 that takes another one. */
  function Taker(): Def {
    Def(0, 0, 6, 1, Some(0), [User(4, 5, false)], false, false, false, true, Some(Blocks(0, 4)))
  }

  /** The web that is taken: it has uses in blocks 2 and 3. */
  function Merged(): Def {
    Def(1, 0, 5, 1, Some(0), [User(2, 1, false), User(3, 2, false)], false, false, true, false, Some(Blocks(1, 3)))
  }

  /** In block 3 another web begins with the same register. */
  function Other(): Def {
    Def(3, 4, 5, 1, Some(1), [User(5, 6, false)], false, true, false, false, Some(Blocks(3, 5)))
  }

  function FollowedLive(): seq<set<nat>> {
    [{}, {5}, {5}, {5}, {5}, {5}]
  }

  /** A merge that combine_btr_defs considers, of webs in order. */
  lemma FollowedMerging(exclusive: bool)
    ensures var t, defs := RowTarget(6, -1, exclusive), [Taker(), Merged(), Other()];
            TargetOk(t) && Merging(t, defs, 0, FollowedLive(), FollowedLive(), {5}) && Mergeable(t, defs, 0, 1)
  {
    hide RowTarget, Row, TargetOk, DefsOk, Dominates, Covered, Blocks;
    RowTargetOk(6, -1, exclusive);
    FollowedDefsOk(exclusive);
    RowDominates(6, -1, 0, 1);
    RowGraph(6, -1, exclusive);
    FollowedCovered(exclusive);
  }

  lemma RowGraph(n: nat, loop: int, exclusive: bool)
    ensures var t := RowTarget(n, loop, exclusive);
            t.g == Row(n, loop) && t.exclusive == exclusive && |t.g.preds| == |t.freq| == n
  {
  }

  lemma FollowedDefsOk(exclusive: bool)
    ensures DefsOk(RowTarget(6, -1, exclusive), [Taker(), Merged(), Other()])
  {
    hide RowTarget, DefOk, Blocks;
    RowDefOk(6, -1, exclusive, Taker(), 4);
    RowDefOk(6, -1, exclusive, Merged(), 3);
    RowDefOk(6, -1, exclusive, Other(), 5);
  }

  lemma FollowedCovered(exclusive: bool)
    ensures Covered(exclusive, FollowedLive(), FollowedLive(), Blocks(0, 4), 0, {5}, 6, {})
  {
  }

  /** After the uses are relinked in front of those of the web that takes them, only the first one is found: block 3 is
      cleared, and the other web's register is no longer recorded there.  By the web's own list it would be. */
  lemma FollowedExample(exclusive: bool, l1: seq<set<nat>>, e1: seq<set<nat>>, l2: seq<set<nat>>, e2: seq<set<nat>>)
    ensures var t, defs := RowTarget(6, -1, exclusive), [Taker(), Merged(), Other()];
            var live := FollowedLive();
            var uses := [User(3, 2, false), User(2, 1, false), User(4, 5, false)];
            var now := [Taken(Taker(), Merged(), 6, uses, Blocks(0, 4)), Merged().(uses := []), Other()];
            && TargetOk(t) && Merging(t, defs, 0, live, live, {5}) && Mergeable(t, defs, 0, 1) && Kept(t, defs, live, {0})
            && (Cleared(Merged(), [Merged().uses[0]] + Taker().uses, live, live, l1, e1) ==> !Kept(t, now, l1, {0}))
            && (Cleared(Merged(), Merged().uses, live, live, l2, e2) ==> Kept(t, now, l2, {0}))
  {
    hide RowTarget, TargetOk, Merging, Mergeable, Kept, Cleared, FollowedLive, MeetIn;
    var t := RowTarget(6, -1, exclusive);
    var uses := [User(3, 2, false), User(2, 1, false), User(4, 5, false)];
    FollowedMerging(exclusive);
    FollowedKept(t);
    var taken := Taken(Taker(), Merged(), 6, uses, Blocks(0, 4));
    var followed := [Merged().uses[0]] + Taker().uses;
    assert followed == [User(2, 1, false), User(4, 5, false)] && Merged().uses[1].bb == 3;
    if Cleared(Merged(), followed, FollowedLive(), FollowedLive(), l1, e1) {
      FollowedOutcome(t, taken, followed, l1, e1);
    }
    if Cleared(Merged(), Merged().uses, FollowedLive(), FollowedLive(), l2, e2) {
      FollowedOutcome(t, taken, Merged().uses, l2, e2);
    }
  }

  lemma FollowedKept(t: Target)
    ensures Kept(t, [Taker(), Merged(), Other()], FollowedLive(), {0})
  {
    hide Behind;
    assert Merged().uses[1].bb == 3;
  }

  /** The two webs meet in block 3 only. */
  lemma FollowedOutcome(t: Target, taken: Def, seen: seq<User>, live': seq<set<nat>>, liveEnd': seq<set<nat>>)
    requires Cleared(Merged(), seen, FollowedLive(), FollowedLive(), live', liveEnd')
    ensures Kept(t, [taken, Merged().(uses := []), Other()], live', {0}) <==>
              exists k :: 0 <= k < |seen| && seen[k].bb == 3
  {
    var defs := [Taker(), Merged(), Other()];
    var now := [taken, Merged().(uses := []), Other()];
    assert forall b :: MeetIn(t, defs, 2, 1, b) <==> b == 3;
    hide MeetIn, Kept, Cleared, InRange;
    FollowedKept(t);
    assert now == defs[1 := defs[1].(uses := [])][0 := now[0]];
    MergeExact(t, defs, now, 0, 1, seen, FollowedLive(), FollowedLive(), live', liveEnd');
    assert 3 < |FollowedLive()| && MeetIn(t, defs, 2, 1, 3);
  }

  // ---------- a placement ----------

  /** A web that ends in block 1. */
  function First(): Def {
    Def(0, 0, 5, 1, Some(1), [User(1, 1, false)], false, false, false, false, Some(Blocks(0, 1)))
  }

  /** A web in the loop of block 2. */
  function Second(): Def {
    Def(2, 0, 6, 10, Some(0), [User(2, 3, false)], false, false, false, false, Some(Blocks(2, 2)))
  }

  /** It is moved to block 1. */
  function Placed(): Def {
    Second().(bb := 1, luid := 0, btr := 5, cost := 1, liveRange := Some(Blocks(1, 2)), otherBefore := true, ownEnd := true)
  }

  /** The move is one that migration considers, at the end of block 1 register 5 is free, and afterwards the webs are in
      order. */
  lemma HeadMovable(live: seq<set<nat>>, liveEnd: seq<set<nat>>)
    requires live == [{5}, {5}, {6}] && liveEnd == [{5}, {}, {6}]
    ensures var t := RowTarget(3, 2, false);
            && TargetOk(t) && Movable(t, [First(), Second()], 1, 1, 5, Blocks(1, 2), live, liveEnd, {6}, {})
            && t.freq[1] < Second().cost && DefsOk(t, [First(), Placed()])
            && Placed() == Moved(t, Second(), 1, 5, Blocks(1, 2)).(otherBefore := true, ownEnd := true)
  {
    hide RowTarget, Row, TargetOk, DefOk, Dominates, Region, Covered, Blocks;
    RowTargetOk(3, 2, false);
    RowGraph(3, 2, false);
    RowDefOk(3, 2, false, First(), 1);
    RowDefOk(3, 2, false, Second(), 2);
    RowDefOk(3, 2, false, Placed(), 2);
    RowDominates(3, 2, 1, 2);
    RowRegion(3, 2, 1, 2);
    HeadCovered(live, liveEnd);
    RowFreq(3, 2, false, 1);
  }

  lemma RowFreq(n: nat, loop: int, exclusive: bool, b: nat)
    requires b < n
    ensures b < |RowTarget(n, loop, exclusive).freq| && RowTarget(n, loop, exclusive).freq[b] == if b == loop then 10 else 1
    ensures RowTarget(n, loop, exclusive).allBtrs == {5, 6, 7}
  {
  }

  lemma HeadCovered(live: seq<set<nat>>, liveEnd: seq<set<nat>>)
    requires live == [{5}, {5}, {6}] && liveEnd == [{5}, {}, {6}]
    ensures Covered(false, live, liveEnd, Blocks(1, 2), 1, {6}, 6, {}) && Blocks(2, 2) <= Blocks(1, 2)
  {
  }

  /** Unless no block may be shared, the second web may move with register 5 to block 1, at whose end the register is
      free.  The first web does not learn that it has company there, and when it is cleared by its own list, the register
      of the web placed there is lost. */
  lemma HeadExample(mid: seq<set<nat>>, midEnd: seq<set<nat>>, l1: seq<set<nat>>, e1: seq<set<nat>>, l2: seq<set<nat>>,
                    e2: seq<set<nat>>)
    ensures var t, defs, now := RowTarget(3, 2, false), [First(), Second()], [First(), Placed()];
            var live: seq<set<nat>>, liveEnd: seq<set<nat>> := [{5}, {5}, {6}], [{5}, {}, {6}];
            && TargetOk(t) && Movable(t, defs, 1, 1, 5, Blocks(1, 2), live, liveEnd, {6}, {}) && t.freq[1] < Second().cost
            && Placed() == Moved(t, Second(), 1, 5, Blocks(1, 2)).(otherBefore := true, ownEnd := true)
            && Kept(t, defs, live, {}) && DefsOk(t, now)
            && (Cleared(Second(), Second().uses, live, liveEnd, mid, midEnd) && Added(Placed(), true, mid, midEnd, l1, e1) ==>
                  && Free(false, mid, midEnd, Blocks(1, 2), 1, 5) && 5 in mid[1]
                  && WebRecords.Recorded(t, now, l1, {}) && !MeetAtEdges(t, now, 3, {})
                  && (Cleared(First(), First().uses, l1, e1, l2, e2) ==> !WebRecords.Recorded(t, now, l2, {0})))
  {
    hide RowTarget, TargetOk, Movable, DefsOk, Kept, WebRecords.Recorded, MeetAtEdges;
    var t := RowTarget(3, 2, false);
    var live: seq<set<nat>>, liveEnd: seq<set<nat>> := [{5}, {5}, {6}], [{5}, {}, {6}];
    HeadMovable(live, liveEnd);
    HeadKept(t, live);
    if Cleared(Second(), Second().uses, live, liveEnd, mid, midEnd) && Added(Placed(), true, mid, midEnd, l1, e1) {
      HeadSteps(live, liveEnd, mid, midEnd, l1, e1);
      HeadLost(t, l1, e1, l2, e2);
    }
  }

  lemma HeadKept(t: Target, live: seq<set<nat>>)
    requires live == [{5}, {5}, {6}]
    ensures Kept(t, [First(), Second()], live, {})
  {
    hide Behind;
  }

  /** What is recorded during the move. */
  lemma HeadSteps(live: seq<set<nat>>, liveEnd: seq<set<nat>>, mid: seq<set<nat>>, midEnd: seq<set<nat>>,
                  l1: seq<set<nat>>, e1: seq<set<nat>>)
    requires live == [{5}, {5}, {6}] && liveEnd == [{5}, {}, {6}]
    requires Cleared(Second(), Second().uses, live, liveEnd, mid, midEnd) && Added(Placed(), true, mid, midEnd, l1, e1)
    ensures mid == [{5}, {5}, {}] && midEnd == [{5}, {}, {}] && l1 == [{5}, {5}, {5}]
  {
    forall b | 0 <= b < 3 ensures mid[b] == if b == 2 then {} else {5} {
      assert b == 2 <==> b in Blocks(2, 2);
    }
    forall b | 0 <= b < 3 ensures midEnd[b] == if b == 0 then {5} else {} {
      assert b == 2 <==> b in Blocks(2, 2);
    }
    forall b | 0 <= b < 3 ensures l1[b] == {5} {
      assert b > 0 <==> b in Blocks(1, 2);
    }
  }

  lemma HeadLost(t: Target, l1: seq<set<nat>>, e1: seq<set<nat>>, l2: seq<set<nat>>, e2: seq<set<nat>>)
    requires l1 == [{5}, {5}, {5}]
    ensures WebRecords.Recorded(t, [First(), Placed()], l1, {}) && !MeetAtEdges(t, [First(), Placed()], 3, {})
    ensures Cleared(First(), First().uses, l1, e1, l2, e2) ==> !WebRecords.Recorded(t, [First(), Placed()], l2, {0})
  {
    hide Behind;
    var now := [First(), Placed()];
    assert MeetIn(t, now, 0, 1, 1) && !AtEdge(now[0], now[0].uses, 1);
    if Cleared(now[0], now[0].uses, l1, e1, l2, e2) {
      assert 5 !in l2[1] && InRange(t, now[1], 1) && Active(now[1]);
    }
  }
}
