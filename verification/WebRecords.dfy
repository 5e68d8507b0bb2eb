/** The registers of all webs in the record of live registers, and what clearing one web does to the others. */
module WebRecords {
  import opened BtrFlow
  import opened LiveRanges
  import opened Dominators
  import opened Migration
  import opened Options

  ghost function UseBlocks(uses: seq<User>): set<int> {
    set k | 0 <= k < |uses| :: uses[k].bb
  }

  /** Block b belongs to the live range of a web: the range computed, or else the block of the definition and those from
      which a use can be reached without passing it. */
  ghost predicate InRange(t: Target, def: Def, b: int) {
    if def.liveRange.Some? then b in def.liveRange.value
    else b == def.bb || Behind(t.g, {def.bb}, UseBlocks(def.uses), b)
  }

  predicate Active(def: Def) {
    def.uses != []
  }

  /** Every web but those of ex has its register recorded as live all over its range. */
  ghost predicate Recorded(t: Target, defs: seq<Def>, live: seq<set<nat>>, ex: set<int>) {
    forall i, b :: 0 <= i < |defs| && i !in ex && 0 <= b < |live| && Active(defs[i]) && InRange(t, defs[i], b) ==>
                     defs[i].btr in live[b]
  }

  /** Block b lies in the ranges of two webs that use the same register. */
  ghost predicate Meet(t: Target, d: Def, e: Def, b: int) {
    Active(d) && Active(e) && d.btr == e.btr && InRange(t, d, b) && InRange(t, e, b)
  }

  ghost predicate MeetIn(t: Target, defs: seq<Def>, i: int, j: int, b: int) {
    0 <= i < |defs| && 0 <= j < |defs| && Meet(t, defs[i], defs[j], b)
  }

  /** Webs that use the same register meet only in blocks that are marked as edges of their ranges. */
  ghost predicate MeetAtEdges(t: Target, defs: seq<Def>, n: nat, ex: set<int>) {
    forall i, j, b :: 0 <= i < |defs| && 0 <= j < |defs| && i != j && i !in ex && j !in ex && 0 <= b < n
                      && MeetIn(t, defs, i, j, b) ==>
                        AtEdge(defs[i], defs[i].uses, b)
  }

  ghost predicate Kept(t: Target, defs: seq<Def>, live: seq<set<nat>>, ex: set<int>) {
    Recorded(t, defs, live, ex) && MeetAtEdges(t, defs, |live|, ex)
  }

  /** The clearing of a web by one list of uses gives the same sets as by another one if and only if they agree about
      every block of the range where the register is recorded. */
  lemma ClearSame(d: Def, seen: seq<User>, uses: seq<User>, live: seq<set<nat>>, liveEnd: seq<set<nat>>,
                  l1: seq<set<nat>>, e1: seq<set<nat>>, l2: seq<set<nat>>, e2: seq<set<nat>>)
    requires Cleared(d, seen, live, liveEnd, l1, e1) && Cleared(d, uses, live, liveEnd, l2, e2)
    ensures l1 == l2 && e1 == e2 <==>
              forall b :: 0 <= b < |live| && b in d.liveRange.value &&
                          (d.btr in live[b] || (d.btr in liveEnd[b] && !(d.ownEnd && b == d.bb))) ==>
                            (Clears(d, seen, b) <==> Clears(d, uses, b))
  {
    hide Clears;
    if l1 == l2 && e1 == e2 {
      forall b | 0 <= b < |live| && b in d.liveRange.value &&
                 (d.btr in live[b] || (d.btr in liveEnd[b] && !(d.ownEnd && b == d.bb)))
        ensures Clears(d, seen, b) <==> Clears(d, uses, b)
      {
        assert l1[b] == l2[b] && e1[b] == e2[b];
      }
    }
    if forall b :: 0 <= b < |live| && b in d.liveRange.value &&
                   (d.btr in live[b] || (d.btr in liveEnd[b] && !(d.ownEnd && b == d.bb))) ==>
                     (Clears(d, seen, b) <==> Clears(d, uses, b))
    {
      forall b | 0 <= b < |live| ensures l1[b] == l2[b] && e1[b] == e2[b] {
      }
    }
  }

  /** Clearing web m leaves the others recorded if and only if it clears no block where another web that uses the same
      register lives. */
  lemma ClearExact(t: Target, defs: seq<Def>, m: nat, seen: seq<User>, live: seq<set<nat>>, liveEnd: seq<set<nat>>,
                   live': seq<set<nat>>, liveEnd': seq<set<nat>>, ex: set<int>)
    requires m < |defs| && Cleared(defs[m], seen, live, liveEnd, live', liveEnd') && Active(defs[m])
    requires Recorded(t, defs, live, ex)
    ensures Recorded(t, defs, live', ex + {m}) <==>
              forall i, b :: 0 <= i < |defs| && i !in ex && i != m && 0 <= b < |live| && MeetIn(t, defs, i, m, b) ==>
                               !Clears(defs[m], seen, b)
  {
    hide Clears, Behind;
    if Recorded(t, defs, live', ex + {m}) {
      forall i, b | 0 <= i < |defs| && i !in ex && i != m && 0 <= b < |live| && MeetIn(t, defs, i, m, b)
        ensures !Clears(defs[m], seen, b)
      {
        assert defs[i].btr in live'[b];
      }
    }
  }

  /** With webs that meet at edges only, that means: every block where they meet is one at which the list of uses that is
      walked sits, too.  The web's own list always does. */
  lemma FollowedExact(t: Target, defs: seq<Def>, m: nat, seen: seq<User>, live: seq<set<nat>>, liveEnd: seq<set<nat>>,
                      live': seq<set<nat>>, liveEnd': seq<set<nat>>, ex: set<int>)
    requires m < |defs| && m !in ex && Cleared(defs[m], seen, live, liveEnd, live', liveEnd') && Active(defs[m])
    requires Kept(t, defs, live, ex)
    ensures Recorded(t, defs, live', ex + {m}) <==>
              forall i, b :: 0 <= i < |defs| && i !in ex && i != m && 0 <= b < |live| && MeetIn(t, defs, i, m, b) ==>
                               AtEdge(defs[m], seen, b)
    ensures seen == defs[m].uses ==> Recorded(t, defs, live', ex + {m})
  {
    hide InRange;
    ClearExact(t, defs, m, seen, live, liveEnd, live', liveEnd', ex);
    forall i, b | 0 <= i < |defs| && i !in ex && i != m && 0 <= b < |live| && MeetIn(t, defs, i, m, b)
      ensures AtEdge(defs[m], defs[m].uses, b) && (!Clears(defs[m], seen, b) <==> AtEdge(defs[m], seen, b))
    {
      assert MeetIn(t, defs, m, i, b);
    }
  }

  /** Merging web m into d, which is not recorded for the moment: the other webs stay recorded if and only if the list
      that is walked sits in every block where one of them meets m. */
  lemma MergeExact(t: Target, defs: seq<Def>, now: seq<Def>, d: nat, m: nat, seen: seq<User>, live: seq<set<nat>>,
                   liveEnd: seq<set<nat>>, live': seq<set<nat>>, liveEnd': seq<set<nat>>)
    requires d < |defs| && m < |defs| && d != m && Active(defs[m]) && Kept(t, defs, live, {d})
    requires Cleared(defs[m], seen, live, liveEnd, live', liveEnd')
    requires |now| == |defs| && now == defs[m := defs[m].(uses := [])][d := now[d]]
    ensures Kept(t, now, live', {d}) <==>
              forall i, b :: 0 <= i < |defs| && i != d && i != m && 0 <= b < |live| && MeetIn(t, defs, i, m, b) ==>
                               AtEdge(defs[m], seen, b)
  {
    hide InRange, AtEdge, Cleared;
    FollowedExact(t, defs, m, seen, live, liveEnd, live', liveEnd', {d});
    Lengths(defs[m], seen, live, liveEnd, live', liveEnd');
    assert !Active(now[m]);
    assert forall i :: 0 <= i < |defs| && i != d && i != m ==> now[i] == defs[i];
    assert Recorded(t, now, live', {d}) <==> Recorded(t, defs, live', {d} + {m});
    assert MeetAtEdges(t, now, |live'|, {d});
  }

  lemma Lengths(d: Def, seen: seq<User>, live: seq<set<nat>>, liveEnd: seq<set<nat>>, live': seq<set<nat>>,
                liveEnd': seq<set<nat>>)
    requires Cleared(d, seen, live, liveEnd, live', liveEnd')
    ensures |live'| == |live|
  {
  }

  /** Placing web d with a register that was free over its range: all webs are recorded and meet at edges if and only if
      the block of d is an edge of every other web that uses the register there.  If no block may be shared, always. */
  lemma PlaceExact(t: Target, defs: seq<Def>, now: seq<Def>, d: nat, mid: seq<set<nat>>, midEnd: seq<set<nat>>,
                   live': seq<set<nat>>, liveEnd': seq<set<nat>>)
    requires d < |defs| == |now| && Kept(t, defs, mid, {d}) && |mid| == |midEnd|
    requires now == defs[d := now[d]] && now[d].liveRange.Some? && Added(now[d], true, mid, midEnd, live', liveEnd')
    requires Free(t.exclusive, mid, midEnd, now[d].liveRange.value, now[d].bb, now[d].btr)
    requires now[d].otherBefore <==> 0 <= now[d].bb < |mid| && now[d].btr in mid[now[d].bb]
    ensures Kept(t, now, live', {}) <==>
              forall j :: 0 <= j < |now| && j != d && 0 <= now[d].bb < |mid| && MeetIn(t, now, j, d, now[d].bb) ==>
                            AtEdge(now[j], now[j].uses, now[d].bb)
    ensures t.exclusive ==> Kept(t, now, live', {})
  {
    hide InRange, AtEdge, Free, Added, Recorded;
    AddRecords(t, defs, now, d, mid, midEnd, live', liveEnd');
    forall j, b | 0 <= j < |now| && j != d && 0 <= b < |mid| && MeetIn(t, now, j, d, b)
      ensures b == now[d].bb && !t.exclusive && AtEdge(now[d], now[d].uses, b)
    {
      MeetsAtHead(t, defs, now[d], d, j, b, mid, midEnd);
    }
    PlaceMeets(t, defs, now, d, |mid|);
  }

  /** Another web that uses the register of web d, free over the range of d, can meet it in the block of d only. */
  lemma MeetsAtHead(t: Target, defs: seq<Def>, def: Def, d: nat, j: nat, b: int, mid: seq<set<nat>>, midEnd: seq<set<nat>>)
    requires j < |defs| && j != d && Recorded(t, defs, mid, {d}) && |mid| == |midEnd| && def.liveRange.Some?
    requires Free(t.exclusive, mid, midEnd, def.liveRange.value, def.bb, def.btr)
    requires def.otherBefore <==> 0 <= def.bb < |mid| && def.btr in mid[def.bb]
    requires 0 <= b < |mid| && Meet(t, defs[j], def, b)
    ensures b == def.bb && !t.exclusive && AtEdge(def, def.uses, b)
  {
    hide Behind;
    assert defs[j].btr in mid[b];
    assert def.btr !in LiveAt(t.exclusive, mid, midEnd, def.bb, b);
  }

  lemma AddRecords(t: Target, defs: seq<Def>, now: seq<Def>, d: nat, mid: seq<set<nat>>, midEnd: seq<set<nat>>,
                   live': seq<set<nat>>, liveEnd': seq<set<nat>>)
    requires d < |defs| == |now| && Recorded(t, defs, mid, {d}) && |mid| == |midEnd|
    requires now == defs[d := now[d]] && now[d].liveRange.Some? && Added(now[d], true, mid, midEnd, live', liveEnd')
    ensures Recorded(t, now, live', {}) && |live'| == |mid|
  {
    hide Behind;
    forall i, b | 0 <= i < |now| && 0 <= b < |live'| && Active(now[i]) && InRange(t, now[i], b)
      ensures now[i].btr in live'[b]
    {
      if i != d {
        assert now[i] == defs[i] && now[i].btr in mid[b];
      }
    }
  }

  /** All meetings are at edges if those of d are, of d and of the others. */
  lemma PlaceMeets(t: Target, defs: seq<Def>, now: seq<Def>, d: nat, n: nat)
    requires d < |defs| == |now| && MeetAtEdges(t, defs, n, {d}) && now == defs[d := now[d]]
    requires forall j, b :: 0 <= j < |now| && j != d && 0 <= b < n && MeetIn(t, now, j, d, b) ==>
                              b == now[d].bb && AtEdge(now[d], now[d].uses, b)
    ensures MeetAtEdges(t, now, n, {}) <==>
              forall j :: 0 <= j < |now| && j != d && 0 <= now[d].bb < n && MeetIn(t, now, j, d, now[d].bb) ==>
                            AtEdge(now[j], now[j].uses, now[d].bb)
  {
    hide InRange, AtEdge;
    if forall j :: 0 <= j < |now| && j != d && 0 <= now[d].bb < n && MeetIn(t, now, j, d, now[d].bb) ==>
                     AtEdge(now[j], now[j].uses, now[d].bb)
    {
      forall i, j, b | 0 <= i < |now| && 0 <= j < |now| && i != j && 0 <= b < n && MeetIn(t, now, i, j, b)
        ensures AtEdge(now[i], now[i].uses, b)
      {
        if i == d {
          assert MeetIn(t, now, j, d, b);
        } else if j != d {
          assert now[i] == defs[i] && now[j] == defs[j];
          assert MeetIn(t, defs, i, j, b);
        }
      }
    }
  }

  // ---------- the whole migration ----------

  /** No movable web shares a register with another one after its uses, and only movable webs have their ranges
      computed. */
  predicate Tidy(defs: seq<Def>) {
    forall i :: 0 <= i < |defs| ==> if Mobile(defs[i]) then !defs[i].otherAfter else defs[i].liveRange == None
  }

  /** With such webs and no block shared, one state keeps the records if the other did. */
  ghost predicate KeepsRecords(t: Target, was: seq<Def>, now: seq<Def>, live: seq<set<nat>>, live': seq<set<nat>>,
                               ex: set<int>, ex': set<int>)
  {
    t.exclusive && Tidy(was) && Kept(t, was, live, ex) ==> Tidy(now) && Kept(t, now, live', ex')
  }

  lemma KeepsSame(t: Target, defs: seq<Def>, live: seq<set<nat>>, ex: set<int>)
    ensures KeepsRecords(t, defs, defs, live, live, ex, ex)
  {
  }

  lemma KeepsTrans(t: Target, a: seq<Def>, b: seq<Def>, c: seq<Def>, l: seq<set<nat>>, l': seq<set<nat>>, l'': seq<set<nat>>,
                   x: set<int>, y: set<int>, z: set<int>)
    requires KeepsRecords(t, a, b, l, l', x, y) && KeepsRecords(t, b, c, l', l'', y, z)
    ensures KeepsRecords(t, a, c, l, l'', x, z)
  {
    hide Kept;
  }

  lemma MergeKeepsRecords(t: Target, defs: seq<Def>, now: seq<Def>, d: nat, m: nat, seen: seq<User>, live: seq<set<nat>>,
                          liveEnd: seq<set<nat>>, live': seq<set<nat>>, liveEnd': seq<set<nat>>)
    requires d < |defs| && m < |defs| && d != m && Active(defs[m]) && Mobile(defs[m]) && Mobile(defs[d])
    requires Cleared(defs[m], seen, live, liveEnd, live', liveEnd')
    requires |now| == |defs| && now == defs[m := defs[m].(uses := [])][d := now[d]] && Mobile(now[d])
    requires now[d].otherAfter ==> defs[d].otherAfter || defs[m].otherAfter
    ensures KeepsRecords(t, defs, now, live, live', {d}, {d})
  {
    hide InRange, Cleared;
    if t.exclusive && Tidy(defs) && Kept(t, defs, live, {d}) {
      MergeExact(t, defs, now, d, m, seen, live, liveEnd, live', liveEnd');
      forall i, b | 0 <= i < |defs| && i != d && i != m && 0 <= b < |live| && MeetIn(t, defs, i, m, b)
        ensures AtEdge(defs[m], seen, b)
      {
        assert MeetIn(t, defs, m, i, b);
        assert AtEdge(defs[m], defs[m].uses, b);
      }
    }
  }

  /** Clearing the web that is about to move by its own list keeps all others. */
  lemma ClearKeepsRecords(t: Target, defs: seq<Def>, now: seq<Def>, d: nat, live: seq<set<nat>>, liveEnd: seq<set<nat>>,
                          live': seq<set<nat>>, liveEnd': seq<set<nat>>)
    requires d < |defs| && Active(defs[d]) && Cleared(defs[d], defs[d].uses, live, liveEnd, live', liveEnd')
    requires |now| == |defs| && now == defs[d := now[d]] && Mobile(now[d]) && Mobile(defs[d])
    requires now[d].otherAfter == defs[d].otherAfter
    ensures KeepsRecords(t, defs, now, live, live', {}, {d})
  {
    hide InRange, AtEdge, Cleared;
    if t.exclusive && Tidy(defs) && Kept(t, defs, live, {}) {
      FollowedExact(t, defs, d, defs[d].uses, live, liveEnd, live', liveEnd', {});
      Lengths(defs[d], defs[d].uses, live, liveEnd, live', liveEnd');
      assert {} + {d} == {d};
      assert forall i :: 0 <= i < |defs| && i != d ==> now[i] == defs[i];
    }
  }

  lemma PlaceKeepsRecords(t: Target, defs: seq<Def>, now: seq<Def>, d: nat, mid: seq<set<nat>>, midEnd: seq<set<nat>>,
                          live': seq<set<nat>>, liveEnd': seq<set<nat>>)
    requires d < |defs| == |now| && |mid| == |midEnd| && Mobile(now[d]) && Mobile(defs[d])
    requires now == defs[d := now[d]] && now[d].liveRange.Some? && Added(now[d], true, mid, midEnd, live', liveEnd')
    requires now[d].otherAfter == defs[d].otherAfter
    requires Free(t.exclusive, mid, midEnd, now[d].liveRange.value, now[d].bb, now[d].btr)
    requires now[d].otherBefore <==> 0 <= now[d].bb < |mid| && now[d].btr in mid[now[d].bb]
    ensures KeepsRecords(t, defs, now, mid, live', {d}, {})
  {
    hide Kept, Free, Added;
    if t.exclusive && Tidy(defs) && Kept(t, defs, mid, {d}) {
      PlaceExact(t, defs, now, d, mid, midEnd, live', liveEnd');
    }
  }

  /** A range that is computed, or forgotten, may only shrink. */
  lemma RangeKeepsRecords(t: Target, defs: seq<Def>, i: nat, def: Def, live: seq<set<nat>>, ex: set<int>)
    requires i < |defs| && def == defs[i].(liveRange := def.liveRange) && (Mobile(defs[i]) || def.liveRange == None)
    requires Active(def) && Mobile(def) ==> forall b :: InRange(t, def, b) ==> InRange(t, defs[i], b)
    ensures KeepsRecords(t, defs, defs[i := def], live, live, ex, ex)
  {
    hide Behind;
    var now := defs[i := def];
    if t.exclusive && Tidy(defs) && Kept(t, defs, live, ex) {
      assert !Mobile(def) ==> def == defs[i];
      forall j, b | 0 <= j < |now| && Active(now[j]) && InRange(t, now[j], b) ensures InRange(t, defs[j], b) {
      }
      forall j, k, b | 0 <= j < |now| && 0 <= k < |now| && j != k && j !in ex && k !in ex && 0 <= b < |live| &&
                       MeetIn(t, now, j, k, b)
        ensures AtEdge(now[j], now[j].uses, b)
      {
        assert MeetIn(t, defs, j, k, b);
        assert AtEdge(defs[j], defs[j].uses, b);
        assert now[j].uses == defs[j].uses;
      }
    }
  }
}
