/** Moving definitions of branch target registers up the dominator tree. */
module Migrate {
  import opened BtrFlow
  import opened LiveRanges
  import opened Dominators
  import opened Migration
  import opened WebRecords
  import opened Options

  // ---------- live ranges of webs ----------

  /** Whether the whole live range of a use's block counts. */
  predicate FullRange(exclusive: bool, head: int, u: User) {
    exclusive || u.bb != head || !u.endJump
  }

  lemma BehindMore(g: Flow, r: set<int>, r': set<int>, seeds: set<int>, seeds': set<int>, b: int)
    requires Behind(g, r, seeds, b) && r' <= r && seeds <= seeds'
    ensures Behind(g, r', seeds', b)
  {
    var p :| Leads(g, r, seeds, p) && p[0] == b;
    assert Leads(g, r', seeds', p);
  }

  lemma RegionClosed(g: Flow, range: set<int>, seeds: set<int>, r: set<int>, head: int, b: int)
    requires Region(g, r, head) && head in range && range <= r && seeds <= r && Behind(g, range, seeds, b)
    ensures b in r
  {
    hide Dominates;
    var p :| Leads(g, range, seeds, p) && p[0] == b;
    BehindIn(g, range, seeds, r, p);
  }

  /** One more use: what lies behind it is behind all uses. */
  lemma OneMoreUse(t: Target, live: seq<set<nat>>, liveEnd: seq<set<nat>>, range: set<int>, r: set<int>, l: set<nat>,
                   head: int, uses: seq<User>, k: nat, full: bool, r': set<int>, l': set<nat>)
    requires k < |uses| && IsBlock(t.g, head) && IsBlock(t.g, uses[k].bb) && |live| == |liveEnd| == |t.g.preds|
    requires Augmented(t.g, live, liveEnd, r, l, head, uses[k].bb, true, full, r', l') && range <= r && head in r
    requires forall b :: b in r ==> b in range || Behind(t.g, range, UseBlocks(uses[..k]), b)
    ensures r <= r' && uses[k].bb in r'
    ensures forall b :: b in r' ==> b in range || Behind(t.g, range, UseBlocks(uses[..k+1]), b)
    ensures l <= l' && forall x: nat :: x in l' ==> x in l || x in LiveIn(r', live, liveEnd)
  {
    hide Behind, Region, Dominates;
    var u := uses[k].bb;
    forall b | b in r' ensures b in range || Behind(t.g, range, UseBlocks(uses[..k+1]), b) {
      assert uses[..k+1][k].bb == u;
      if b in r {
        if b !in range {
          forall x | x in UseBlocks(uses[..k]) ensures x in UseBlocks(uses[..k+1]) {
            var m :| 0 <= m < k && uses[..k][m].bb == x;
            assert uses[..k+1][m].bb == x;
          }
          BehindMore(t.g, range, range, UseBlocks(uses[..k]), UseBlocks(uses[..k+1]), b);
        }
      } else {
        BehindMore(t.g, r, range, {u}, UseBlocks(uses[..k+1]), b);
      }
    }
    forall x: nat | x in l' && x !in l ensures x in LiveIn(r', live, liveEnd) {
      if AtEnds(live, liveEnd, head, u, true, full, x) {
        assert head in r';
      }
    }
  }

  /** A range grown over more uses and what is recorded as live over it. */
  ghost predicate GrownOver(t: Target, live: seq<set<nat>>, liveEnd: seq<set<nat>>, range: set<int>, uses: seq<User>,
                            btrs: set<nat>, r: set<int>, l: set<nat>)
  {
    && (forall b :: b in r <==> b in range || Behind(t.g, range, UseBlocks(uses), b))
    && btrs <= l && forall x: nat :: x in l ==> x in btrs || x in LiveIn(r, live, liveEnd)
  }

  /** Grow a range headed by the block of a definition over its uses.  The result is what it was and all blocks from
      which a use can be reached outside of it. */
  method ExtendOver(t: Target, live: seq<set<nat>>, liveEnd: seq<set<nat>>, range: set<int>, btrs: set<nat>,
                    head: int, uses: seq<User>, ghost own: nat, ghost hidden: set<int>)
    returns (r: set<int>, l: set<nat>)
    requires TargetOk(t) && |live| == |liveEnd| == |t.g.preds|
    requires Region(t.g, range, head) && Above(t.g, head, uses)
    requires Covered(t.exclusive, live, liveEnd, range, head, btrs, own, hidden)
    ensures Region(t.g, r, head) && Spans(uses, r) && range <= r
    ensures Covered(t.exclusive, live, liveEnd, r, head, l, own, hidden)
    ensures GrownOver(t, live, liveEnd, range, uses, btrs, r, l)
  {
    hide Behind, Region, Dominates, Covered, Augmented, LiveIn, UseBlocks, AllReachable;
    r, l := range, btrs;
    HeadIn(t.g, range, head);
    for k := 0 to |uses|
      invariant Region(t.g, r, head) && head in r && range <= r && Spans(uses[..k], r)
      invariant forall b :: b in r ==> b in range || Behind(t.g, range, UseBlocks(uses[..k]), b)
      invariant Covered(t.exclusive, live, liveEnd, r, head, l, own, hidden)
      invariant btrs <= l && forall x: nat :: x in l ==> x in btrs || x in LiveIn(r, live, liveEnd)
    {
      var u := uses[k];
      ghost var r0, l0 := r, l;
      var full := FullRange(t.exclusive, head, u);
      r, l := AugmentLiveRange(t.g, t.doms, live, liveEnd, r, l, head, u.bb, full);
      AugmentCovers(t, live, liveEnd, r0, l0, own, hidden, head, u.bb, true, full, r, l);
      OneMoreUse(t, live, liveEnd, range, r0, l0, head, uses, k, full, r, l);
      AugmentedRegion(t.g, live, liveEnd, r0, l0, head, u.bb, full, r, l);
      LiveInMore(r0, r, live, liveEnd);
      assert forall j :: 0 <= j < k ==> uses[..k+1][j] == uses[..k][j];
    }
    assert uses[..|uses|] == uses;
    UsesWithin(uses, r);
    forall b | Behind(t.g, range, UseBlocks(uses), b) ensures b in r {
      RegionClosed(t.g, range, UseBlocks(uses), r, head, b);
    }
  }

  lemma HeadIn(g: Flow, r: set<int>, head: int)
    requires Region(g, r, head)
    ensures head in r && IsBlock(g, head)
  {
  }

  lemma UsesWithin(uses: seq<User>, r: set<int>)
    requires Spans(uses, r)
    ensures UseBlocks(uses) <= r
  {
  }

  lemma LiveInMore(r: set<int>, r': set<int>, live: seq<set<nat>>, liveEnd: seq<set<nat>>)
    requires r <= r'
    ensures forall x: nat :: x in LiveIn(r, live, liveEnd) ==> x in LiveIn(r', live, liveEnd)
  {
  }

  lemma AugmentedRegion(g: Flow, live: seq<set<nat>>, liveEnd: seq<set<nat>>, range: set<int>, btrs: set<nat>,
                        head: int, nb: int, full: bool, r: set<int>, l: set<nat>)
    requires IsBlock(g, head) && IsBlock(g, nb) && |live| == |liveEnd| == |g.preds|
    requires Augmented(g, live, liveEnd, range, btrs, head, nb, true, full, r, l)
    ensures Region(g, r, head)
  {
  }

  /** The second branch of btr_def_live_range: what is live over a range already computed. */
  method LiveOver(t: Target, live: seq<set<nat>>, liveEnd: seq<set<nat>>, range: set<int>, head: int)
    returns (l: set<nat>)
    requires |live| == |liveEnd| == |t.g.preds|
    ensures forall x: nat :: x in l <==> exists b :: b in range && 0 <= b < |live| &&
                                                     x in LiveAt(t.exclusive, live, liveEnd, head, b)
  {
    l := {};
    for bb := 0 to |live|
      invariant forall x: nat :: x in l <==> exists b :: b in range && 0 <= b < bb &&
                                                         x in LiveAt(t.exclusive, live, liveEnd, head, b)
    {
      if bb in range {
        l := l + if bb == head && !t.exclusive then liveEnd[bb] else live[bb];
      }
    }
  }

  /** The blocks of the live range of a web: that of the definition, and those from which a use can be reached without
      passing it. */
  ghost predicate WebRange(g: Flow, bb: int, uses: seq<User>, range: set<int>) {
    forall b :: b in range <==> b == bb || Behind(g, {bb}, UseBlocks(uses), b)
  }

  /** What btr_def_live_range promises of the registers live over the range: none is missing, none is invented, and
      the definition's own is left out unless something else may use it. */
  ghost predicate LiveRecorded(t: Target, live: seq<set<nat>>, liveEnd: seq<set<nat>>, def: Def, btrs: set<nat>)
    requires |live| == |liveEnd| && def.liveRange.Some?
  {
    var shared := def.otherBefore || def.otherAfter;
    && Covered(t.exclusive, live, liveEnd, def.liveRange.value, def.bb, btrs, def.btr,
               if shared then {} else def.liveRange.value)
    && (forall x: nat :: x in btrs ==> x in LiveIn(def.liveRange.value, live, liveEnd))
    && (!shared ==> def.btr !in btrs)
  }

  lemma StartCovered(t: Target, live: seq<set<nat>>, liveEnd: seq<set<nat>>, head: int, own: nat)
    requires |live| == |liveEnd| && 0 <= head < |live|
    ensures Covered(t.exclusive, live, liveEnd, {head}, head, LiveAt(t.exclusive, live, liveEnd, head, head), own, {})
    ensures forall x: nat, r: set<int> :: x in LiveAt(t.exclusive, live, liveEnd, head, head) && head in r ==>
                                            x in LiveIn(r, live, liveEnd)
  {
  }

  lemma OverCovered(t: Target, live: seq<set<nat>>, liveEnd: seq<set<nat>>, range: set<int>, head: int, l: set<nat>,
                    own: nat)
    requires |live| == |liveEnd|
    requires forall x: nat :: x in l <==> exists b :: b in range && 0 <= b < |live| &&
                                                      x in LiveAt(t.exclusive, live, liveEnd, head, b)
    ensures Covered(t.exclusive, live, liveEnd, range, head, l, own, {})
    ensures forall x: nat :: x in l ==> x in LiveIn(range, live, liveEnd)
  {
  }

  lemma Recorded(t: Target, live: seq<set<nat>>, liveEnd: seq<set<nat>>, def: Def, l: set<nat>, btrs: set<nat>)
    requires |live| == |liveEnd| && def.liveRange.Some?
    requires Covered(t.exclusive, live, liveEnd, def.liveRange.value, def.bb, l, def.btr, {})
    requires forall x: nat :: x in l ==> x in LiveIn(def.liveRange.value, live, liveEnd)
    requires btrs == if !def.otherBefore && !def.otherAfter then l - {def.btr} else l
    ensures LiveRecorded(t, live, liveEnd, def, btrs)
  {
    hide LiveIn;
  }

  /** btr_def_live_range. */
  method BtrDefLiveRange(t: Target, live: seq<set<nat>>, liveEnd: seq<set<nat>>, def: Def)
    returns (range: set<int>, btrs: set<nat>)
    requires TargetOk(t) && |live| == |liveEnd| == |t.g.preds| && DefOk(t, def) && Mobile(def)
    ensures DefOk(t, def.(liveRange := Some(range)))
    ensures if def.liveRange.Some? then range == def.liveRange.value else WebRange(t.g, def.bb, def.uses, range)
    ensures LiveRecorded(t, live, liveEnd, def.(liveRange := Some(range)), btrs)
  {
    hide Behind, Region, Dominates, Covered, LiveIn, UseBlocks, LiveRecorded, AllReachable;
    if def.liveRange == None {
      RegionAlone(t.g, def.bb);
      StartCovered(t, live, liveEnd, def.bb, def.btr);
      btrs := if t.exclusive then live[def.bb] else liveEnd[def.bb];
      assert btrs == LiveAt(t.exclusive, live, liveEnd, def.bb, def.bb);
      range, btrs := ExtendOver(t, live, liveEnd, {def.bb}, btrs, def.bb, def.uses, def.btr, {});
    } else {
      range := def.liveRange.value;
      btrs := LiveOver(t, live, liveEnd, range, def.bb);
      OverCovered(t, live, liveEnd, range, def.bb, btrs, def.btr);
    }
    ghost var all := btrs;
    if !def.otherBefore && !def.otherAfter {
      btrs := btrs - {def.btr};
    }
    Recorded(t, live, liveEnd, def.(liveRange := Some(range)), all, btrs);
  }

  // ---------- choose_btr ----------

  /** btr is the first register in the order of allocation that may be allocated and is not used. */
  ghost predicate FirstFree(t: Target, used: set<nat>, btr: int) {
    exists i :: 0 <= i < |t.order| && t.order[i] == btr && btr in t.allBtrs && btr !in used
                && forall j :: 0 <= j < i ==> t.order[j] !in t.allBtrs || t.order[j] in used
  }

  /** The first register, in allocation order, that may be allocated and is not used. */
  method ChooseBtr(t: Target, used: set<nat>) returns (btr: int)
    requires forall r :: r in t.allBtrs ==> r in t.order
    ensures btr == -1 <==> t.allBtrs <= used
    ensures btr != -1 ==> FirstFree(t, used, btr)
  {
    if t.allBtrs <= used {
      return -1;
    }
    for i := 0 to |t.order|
      invariant forall j :: 0 <= j < i ==> t.order[j] !in t.allBtrs || t.order[j] in used
    {
      var regno := t.order[i];
      if regno in t.allBtrs && regno !in used {
        return regno;
      }
    }
    return -1;
  }

  // ---------- the migration ----------

  /** The definitions of each group. */
  ghost predicate Grouped(members: seq<seq<nat>>, defs: seq<Def>) {
    && (forall i :: 0 <= i < |defs| && defs[i].group.Some? ==> defs[i].group.value < |members|)
    && (forall grp, k :: 0 <= grp < |members| && 0 <= k < |members[grp]| ==>
          members[grp][k] < |defs| && defs[members[grp][k]].group == Some(grp))
  }

  lemma GroupedLater(t: Target, members: seq<seq<nat>>, was: seq<Def>, now: seq<Def>)
    requires Grouped(members, was) && Later(t, was, now)
    ensures Grouped(members, now)
  {
    hide GroupUses, Dominates;
    forall i | 0 <= i < |was| ensures now[i].group == was[i].group {
      assert LaterDef(t, was[i], now[i]);
    }
  }

  /** While webs are merged into d: its register is free over its range. */
  ghost predicate Merging(t: Target, defs: seq<Def>, d: nat, live: seq<set<nat>>, liveEnd: seq<set<nat>>, btrs: set<nat>)
    requires |live| == |liveEnd|
  {
    && DefsOk(t, defs) && d < |defs| && Mobile(defs[d]) && defs[d].uses != [] && defs[d].liveRange.Some?
    && Covered(t.exclusive, live, liveEnd, defs[d].liveRange.value, defs[d].bb, btrs, defs[d].btr, {})
    && defs[d].btr !in btrs
  }

  /** A web is gone if its uses have been taken. */
  predicate Gone(was: Def, now: Def) {
    was.uses != [] && now.uses == []
  }

  /** What merging into d leaves of the other definitions, and of d. */
  ghost predicate MergedInto(was: seq<Def>, now: seq<Def>, d: nat) {
    && |was| == |now| && d < |was|
    && (forall i :: 0 <= i < |was| && i != d ==>
          now[i] == was[i].(uses := now[i].uses, liveRange := now[i].liveRange)
          && (now[i].uses == was[i].uses || now[i].uses == []))
    && now[d] == was[d].(btr := now[d].btr, uses := now[d].uses, liveRange := now[d].liveRange,
                         otherAfter := now[d].otherAfter)
  }

  ghost function GoneBtrs(was: seq<Def>, now: seq<Def>): set<nat>
    requires |was| == |now|
  {
    set i | 0 <= i < |was| && Gone(was[i], now[i]) :: was[i].btr
  }

  lemma AboveTrans(g: Flow, a: int, b: int, uses: seq<User>)
    requires Dominates(g, a, b) && Above(g, b, uses)
    ensures Above(g, a, uses)
  {
    hide Dominates;
    forall k | 0 <= k < |uses| ensures Dominates(g, a, uses[k].bb) {
      DominatesTrans(g, a, b, uses[k].bb);
    }
  }

  lemma UsesJoined(g: Flow, bb: int, range: set<int>, a: seq<User>, b: seq<User>, all: seq<User>)
    requires multiset(all) == multiset(a) + multiset(b)
    requires Above(g, bb, a) && Above(g, bb, b) && Spans(a, range) && Spans(b, range)
    ensures Above(g, bb, all) && Spans(all, range)
  {
    hide Dominates;
    forall k | 0 <= k < |all| ensures Dominates(g, bb, all[k].bb) && all[k].bb in range {
      assert all[k] in multiset(all);
      if all[k] in multiset(a) {
        var j :| 0 <= j < |a| && a[j] == all[k];
      } else {
        assert all[k] in b;
        var j :| 0 <= j < |b| && b[j] == all[k];
      }
    }
  }

  lemma RegionSpans(uses: seq<User>, r: set<int>, r': set<int>)
    requires Spans(uses, r) && r <= r'
    ensures Spans(uses, r')
  {
  }

  /** d after it has taken the uses of other. */
  function Taken(def: Def, other: Def, btr: nat, uses: seq<User>, range: set<int>): Def {
    def.(btr := btr, uses := uses, liveRange := Some(range),
         otherAfter := def.otherAfter || (other.btr == btr && other.otherAfter))
  }

  /** Merging keeps the definitions in order, and the uses of the group. */
  lemma MergeKeeps(t: Target, defs: seq<Def>, d: nat, m: nat, btr: nat, uses: seq<User>, range: set<int>)
    requires DefsOk(t, defs) && d < |defs| && m < |defs| && d != m && Mobile(defs[d]) && Mobile(defs[m])
    requires defs[d].group == defs[m].group && Dominates(t.g, defs[d].bb, defs[m].bb) && btr in t.allBtrs
    requires multiset(uses) == multiset(defs[d].uses) + multiset(defs[m].uses)
    requires Region(t.g, range, defs[d].bb) && Spans(defs[d].uses, range) && Spans(defs[m].uses, range)
    ensures var now := defs[m := defs[m].(uses := [])][d := Taken(defs[d], defs[m], btr, uses, range)];
            DefsOk(t, now) && Later(t, defs, now)
  {
    hide Dominates, Region, GroupUses;
    var one := defs[m := defs[m].(uses := [])];
    var now := one[d := Taken(defs[d], defs[m], btr, uses, range)];
    assert DefOk(t, defs[d]) && DefOk(t, defs[m]);
    AboveTrans(t.g, defs[d].bb, defs[m].bb, defs[m].uses);
    UsesJoined(t.g, defs[d].bb, range, defs[d].uses, defs[m].uses, uses);
    LaterSame(t, defs);
    forall i | 0 <= i < |now| ensures DefOk(t, now[i]) && LaterDef(t, defs[i], now[i]) {
      assert DefOk(t, defs[i]) && LaterDef(t, defs[i], defs[i]);
    }
    forall grp: nat ensures GroupUses(now, grp) == GroupUses(defs, grp) {
      GroupUsesUpdate(defs, m, one[m], grp);
      GroupUsesUpdate(one, d, now[d], grp);
      Balance(GroupUses(defs, grp), GroupUses(one, grp), GroupUses(now, grp), OwnUses(defs[m], grp),
              OwnUses(defs[d], grp), OwnUses(now[d], grp));
    }
  }

  lemma Balance<T>(a: multiset<T>, b: multiset<T>, c: multiset<T>, m: multiset<T>, d: multiset<T>, d': multiset<T>)
    requires b + m == a + multiset{} && c + d == b + d' && d' == d + m
    ensures c == a
  {
    assert c + d == a + d by {
      assert b + d' == b + (d + m);
      assert b + (d + m) == (b + m) + d;
    }
    assert c == (c + d) - d && a == (a + d) - d;
  }

  /** Recording a live range changes nothing else. */
  lemma RangeKeeps(t: Target, defs: seq<Def>, i: nat, def: Def)
    requires DefsOk(t, defs) && i < |defs| && DefOk(t, def)
    requires def == defs[i].(liveRange := def.liveRange)
    ensures DefsOk(t, defs[i := def]) && Later(t, defs, defs[i := def])
  {
    hide Dominates, Region, GroupUses;
    LaterSame(t, defs);
    var now := defs[i := def];
    forall j | 0 <= j < |now| ensures DefOk(t, now[j]) && LaterDef(t, defs[j], now[j]) {
      assert DefOk(t, defs[j]) && LaterDef(t, defs[j], defs[j]);
    }
    forall grp: nat ensures GroupUses(now, grp) == GroupUses(defs, grp) {
      GroupUsesUpdate(defs, i, def, grp);
      assert GroupUses(now, grp) == (GroupUses(now, grp) + OwnUses(def, grp)) - OwnUses(def, grp);
      assert GroupUses(defs, grp) == (GroupUses(defs, grp) + OwnUses(def, grp)) - OwnUses(def, grp);
    }
  }

  lemma ClearedLoses(d: Def, seen: seq<User>, live: seq<set<nat>>, liveEnd: seq<set<nat>>,
                     live': seq<set<nat>>, liveEnd': seq<set<nat>>)
    requires Cleared(d, seen, live, liveEnd, live', liveEnd')
    ensures OnlyLoses(live, live', {d.btr}) && OnlyLoses(liveEnd, liveEnd', {d.btr})
  {
  }

  lemma LosesMore(a: seq<set<nat>>, b: seq<set<nat>>, rs: set<nat>, rs': set<nat>)
    requires OnlyLoses(a, b, rs) && rs <= rs'
    ensures OnlyLoses(a, b, rs')
  {
  }

  lemma LosesTrans(a: seq<set<nat>>, b: seq<set<nat>>, c: seq<set<nat>>, rs: set<nat>, rs': set<nat>)
    requires OnlyLoses(a, b, rs) && OnlyLoses(b, c, rs')
    ensures OnlyLoses(a, c, rs + rs')
  {
  }

  lemma DefBlock(t: Target, defs: seq<Def>, i: nat)
    requires DefsOk(t, defs) && i < |defs|
    ensures IsBlock(t.g, defs[i].bb) && DefOk(t, defs[i])
  {
  }

  /** A movable definition with its range, seen from a block that dominates it. */
  lemma DefRange(t: Target, defs: seq<Def>, i: nat, bb: int)
    requires DefsOk(t, defs) && i < |defs| && Mobile(defs[i]) && defs[i].liveRange.Some?
    requires Dominates(t.g, bb, defs[i].bb)
    ensures Region(t.g, defs[i].liveRange.value, defs[i].bb) && Spans(defs[i].uses, defs[i].liveRange.value)
    ensures Above(t.g, bb, defs[i].uses)
  {
    hide Dominates, Region;
    assert DefOk(t, defs[i]);
    AboveTrans(t.g, bb, defs[i].bb, defs[i].uses);
  }

  /** What one step of combine_btr_defs does. */
  ghost predicate Combined(t: Target, was: seq<Def>, now: seq<Def>, d: nat, live: seq<set<nat>>, liveEnd: seq<set<nat>>,
                           live': seq<set<nat>>, liveEnd': seq<set<nat>>, btrs: set<nat>, btrs': set<nat>)
  {
    && |live'| == |liveEnd'| && Merging(t, now, d, live', liveEnd', btrs') && Later(t, was, now) && MergedInto(was, now, d)
    && btrs <= btrs'
    && was[d].liveRange.Some? && was[d].liveRange.value <= now[d].liveRange.value
    && OnlyLoses(live, live', GoneBtrs(was, now)) && OnlyLoses(liveEnd, liveEnd', GoneBtrs(was, now))
    && KeepsRecords(t, was, now, live, live', {d}, {d})
  }

  /** combine_btr_defs considers the web of m for d. */
  ghost predicate Mergeable(t: Target, defs: seq<Def>, d: nat, m: nat)
    requires d < |defs| && m < |defs|
  {
    m != d && defs[m].uses != [] && !defs[m].ambiguous && Dominates(t.g, defs[d].bb, defs[m].bb)
  }

  /** No register is free over a range grown over more uses. */
  ghost predicate NoneForBoth(t: Target, live: seq<set<nat>>, liveEnd: seq<set<nat>>, range: set<int>, uses: seq<User>,
                              btrs: set<nat>)
  {
    exists r: set<int>, l: set<nat> :: GrownOver(t, live, liveEnd, range, uses, btrs, r, l) && t.allBtrs <= l
  }

  lemma GrownMore(t: Target, live: seq<set<nat>>, liveEnd: seq<set<nat>>, range: set<int>, uses: seq<User>, btrs: set<nat>,
                  r: set<int>, l: set<nat>)
    requires GrownOver(t, live, liveEnd, range, uses, btrs, r, l)
    ensures btrs <= l
  {
  }

  lemma NoneFound(t: Target, live: seq<set<nat>>, liveEnd: seq<set<nat>>, range: set<int>, uses: seq<User>, btrs: set<nat>,
                  r: set<int>, l: set<nat>)
    requires GrownOver(t, live, liveEnd, range, uses, btrs, r, l) && t.allBtrs <= l
    ensures NoneForBoth(t, live, liveEnd, range, uses, btrs)
  {
  }

  lemma CombinedNothing(t: Target, was: seq<Def>, d: nat, live: seq<set<nat>>, liveEnd: seq<set<nat>>, btrs: set<nat>)
    requires |live| == |liveEnd| && Merging(t, was, d, live, liveEnd, btrs)
    ensures Combined(t, was, was, d, live, liveEnd, live, liveEnd, btrs, btrs)
  {
    hide Dominates, Region, GroupUses, Covered, KeepsRecords;
    LaterSame(t, was);
    KeepsSame(t, was, live, {d});
  }

  /** The range that btr_def_live_range gives a definition. */
  ghost predicate Ranged(t: Target, was: Def, def: Def) {
    && Mobile(was) && def.liveRange.Some? && def == was.(liveRange := def.liveRange)
    && if was.liveRange.Some? then def == was else WebRange(t.g, was.bb, was.uses, def.liveRange.value)
  }

  lemma RangedKeeps(t: Target, defs: seq<Def>, i: nat, def: Def, live: seq<set<nat>>, ex: set<int>)
    requires i < |defs| && Ranged(t, defs[i], def)
    ensures KeepsRecords(t, defs, defs[i := def], live, live, ex, ex)
  {
    hide Behind, KeepsRecords;
    RangeKeepsRecords(t, defs, i, def, live, ex);
  }

  lemma RangedIs(t: Target, was: Def, def: Def)
    requires Mobile(was) && def.liveRange.Some? && def == was.(liveRange := def.liveRange)
    requires if was.liveRange.Some? then def.liveRange.value == was.liveRange.value
             else WebRange(t.g, was.bb, was.uses, def.liveRange.value)
    ensures Ranged(t, was, def)
  {
  }

  /** A range that is forgotten is at least that of the web. */
  lemma FreedKeeps(t: Target, defs: seq<Def>, i: nat, live: seq<set<nat>>)
    requires i < |defs| && DefsOk(t, defs)
    ensures KeepsRecords(t, defs, defs[i := defs[i].(liveRange := None)], live, live, {}, {})
  {
    hide Behind, KeepsRecords, Region, Dominates;
    var def := defs[i].(liveRange := None);
    assert DefOk(t, defs[i]);
    if Active(def) && Mobile(def) && defs[i].liveRange.Some? {
      var r := defs[i].liveRange.value;
      HeadIn(t.g, r, def.bb);
      UsesWithin(def.uses, r);
      forall b | Behind(t.g, {def.bb}, UseBlocks(def.uses), b) ensures b in r {
        RegionClosed(t.g, {def.bb}, UseBlocks(def.uses), r, def.bb, b);
      }
    }
    RangeKeepsRecords(t, defs, i, def, live, {});
  }

  /** The live range of m is recorded, and its web is not merged. */
  lemma CombinedRange(t: Target, was: seq<Def>, d: nat, m: nat, def: Def, live: seq<set<nat>>, liveEnd: seq<set<nat>>,
                      btrs: set<nat>)
    requires |live| == |liveEnd| && Merging(t, was, d, live, liveEnd, btrs)
    requires m < |was| && m != d && DefOk(t, def) && def == was[m].(liveRange := def.liveRange) && Ranged(t, was[m], def)
    ensures Combined(t, was, was[m := def], d, live, liveEnd, live, liveEnd, btrs, btrs)
  {
    hide Dominates, Region, GroupUses, Covered, DefOk, KeepsRecords, WebRange;
    RangeKeeps(t, was, m, def);
    RangedKeeps(t, was, m, def, live, {d});
  }

  lemma CombinedMerge(t: Target, was: seq<Def>, mid: seq<Def>, now: seq<Def>, d: nat, m: nat, btr: nat, range: set<int>,
                      seen: seq<User>, live: seq<set<nat>>, liveEnd: seq<set<nat>>,
                      live': seq<set<nat>>, liveEnd': seq<set<nat>>, btrs: set<nat>, btrs': set<nat>)
    requires |live| == |liveEnd| && Merging(t, was, d, live, liveEnd, btrs) && m < |was| && m != d && Mobile(was[m])
    requires |mid| == |was| && mid == was[m := was[m].(liveRange := mid[m].liveRange)] && mid[m].uses != []
    requires DefsOk(t, now) && Later(t, mid, now) && Later(t, was, mid) && d < |now| && now[d].uses != []
    requires now == mid[m := mid[m].(uses := [])][d := Taken(mid[d], mid[m], btr, now[d].uses, range)]
    requires Cleared(mid[m], seen, live, liveEnd, live', liveEnd')
    requires Covered(t.exclusive, live, liveEnd, range, was[d].bb, btrs', was[d].btr, {})
    requires btr !in btrs' && btrs <= btrs' && was[d].liveRange.value <= range && Ranged(t, was[m], mid[m])
    ensures Combined(t, was, now, d, live, liveEnd, live', liveEnd', btrs, btrs')
  {
    hide Dominates, Region, GroupUses, Covered, DefOk, Later, Cleared, OnlyLoses, KeepsRecords, WebRange;
    RangedKeeps(t, was, m, mid[m], live, {d});
    MergeKeepsRecords(t, mid, now, d, m, seen, live, liveEnd, live', liveEnd');
    KeepsTrans(t, was, mid, now, live, live, live', {d}, {d}, {d});
    LaterTrans(t, was, mid, now);
    ClearedLoses(mid[m], seen, live, liveEnd, live', liveEnd');
    assert was[m].btr in GoneBtrs(was, now) by {
      assert Gone(was[m], now[m]);
    }
    LosesMore(live, live', {mid[m].btr}, GoneBtrs(was, now));
    LosesMore(liveEnd, liveEnd', {mid[m].btr}, GoneBtrs(was, now));
    ClearedLengths(mid[m], seen, live, liveEnd, live', liveEnd');
    LessCovers(t.exclusive, live, liveEnd, live', liveEnd', {mid[m].btr}, {mid[m].btr}, range, was[d].bb, btrs',
               was[d].btr, now[d].btr);
  }

  lemma ClearedLengths(d: Def, seen: seq<User>, live: seq<set<nat>>, liveEnd: seq<set<nat>>,
                       live': seq<set<nat>>, liveEnd': seq<set<nat>>)
    requires Cleared(d, seen, live, liveEnd, live', liveEnd')
    ensures |live'| == |live| == |liveEnd| == |liveEnd'|
  {
  }

  lemma CombinedTrans(t: Target, a: seq<Def>, b: seq<Def>, c: seq<Def>, d: nat, l: seq<set<nat>>, e: seq<set<nat>>,
                      l': seq<set<nat>>, e': seq<set<nat>>, l'': seq<set<nat>>, e'': seq<set<nat>>,
                      btrs: set<nat>, btrs': set<nat>, btrs'': set<nat>)
    requires Combined(t, a, b, d, l, e, l', e', btrs, btrs') && Combined(t, b, c, d, l', e', l'', e'', btrs', btrs'')
    ensures Combined(t, a, c, d, l, e, l'', e'', btrs, btrs'')
  {
    hide Dominates, Region, GroupUses, Covered, DefOk, Later, OnlyLoses, KeepsRecords;
    KeepsTrans(t, a, b, c, l, l', l'', {d}, {d}, {d});
    LaterTrans(t, a, b, c);
    LosesTrans(l, l', l'', GoneBtrs(a, b), GoneBtrs(b, c));
    LosesTrans(e, e', e'', GoneBtrs(a, b), GoneBtrs(b, c));
    GoneTrans(a, b, c, d);
    LosesMore(l, l'', GoneBtrs(a, b) + GoneBtrs(b, c), GoneBtrs(a, c));
    LosesMore(e, e'', GoneBtrs(a, b) + GoneBtrs(b, c), GoneBtrs(a, c));
  }

  lemma GoneTrans(a: seq<Def>, b: seq<Def>, c: seq<Def>, d: nat)
    requires MergedInto(a, b, d) && MergedInto(b, c, d) && b[d].uses != [] && c[d].uses != []
    ensures MergedInto(a, c, d) && GoneBtrs(a, b) + GoneBtrs(b, c) <= GoneBtrs(a, c)
  {
    forall r | r in GoneBtrs(a, b) + GoneBtrs(b, c) ensures r in GoneBtrs(a, c) {
      if r in GoneBtrs(a, b) {
        var i :| 0 <= i < |a| && Gone(a[i], b[i]) && a[i].btr == r;
        assert Gone(a[i], c[i]);
      } else {
        var i :| 0 <= i < |b| && Gone(b[i], c[i]) && b[i].btr == r;
        assert i != d;
        assert Gone(a[i], c[i]);
      }
    }
  }

  // ---------- the steps of combine_btr_defs ----------

  /** The definitions and what is live, and the registers known to be live over the range of the definition at hand. */
  datatype Scene = Scene(defs: seq<Def>, live: seq<set<nat>>, liveEnd: seq<set<nat>>, btrs: set<nat>)

  /** The web of m is merged into that of d: over both ranges together the register is the first free one, d has the uses of
      both, m has none left, and its register is cleared. */
  ghost predicate Merges(t: Target, a: Scene, b: Scene, d: nat, m: nat, range: set<int>, btr: nat) {
    && d < |a.defs| == |b.defs| && m < |a.defs| && a.defs[d].liveRange.Some? && a.defs[m].uses != []
    && GrownOver(t, a.live, a.liveEnd, a.defs[d].liveRange.value, a.defs[m].uses, a.btrs, range, b.btrs)
    && FirstFree(t, b.btrs, btr)
    && multiset(b.defs[d].uses) == multiset(a.defs[d].uses) + multiset(a.defs[m].uses)
    && var def := a.defs[m].(liveRange := b.defs[m].liveRange);
       && Ranged(t, a.defs[m], def)
       && b.defs == a.defs[m := def.(uses := [])][d := Taken(a.defs[d], def, btr, b.defs[d].uses, range)]
       && Cleared(def, [def.uses[0]] + a.defs[d].uses, a.live, a.liveEnd, b.live, b.liveEnd)
  }

  /** No register is free over both ranges, and at most the range of m is recorded. */
  ghost predicate LeftAlone(t: Target, a: Scene, b: Scene, d: nat, m: nat) {
    && d < |a.defs| == |b.defs| && m < |a.defs| && a.defs[d].liveRange.Some?
    && b == a.(defs := a.defs[m := b.defs[m]]) && Ranged(t, a.defs[m], b.defs[m])
    && NoneForBoth(t, a.live, a.liveEnd, a.defs[d].liveRange.value, a.defs[m].uses, a.btrs)
  }

  ghost predicate MergedOrNot(t: Target, a: Scene, b: Scene, d: nat, m: nat) {
    LeftAlone(t, a, b, d, m) || exists range: set<int>, btr: nat :: Merges(t, a, b, d, m, range, btr)
  }

  /** The turn of m in its group. */
  ghost predicate StepOk(t: Target, a: Scene, b: Scene, d: nat, m: nat) {
    d < |a.defs| && m < |a.defs| && if Mergeable(t, a.defs, d, m) then MergedOrNot(t, a, b, d, m) else b == a
  }

  /** A turn for every member of the group, in order. */
  ghost predicate Combination(t: Target, group: seq<nat>, d: nat, scenes: seq<Scene>) {
    |scenes| == |group| + 1 && forall k :: 0 <= k < |group| ==> StepOk(t, scenes[k], scenes[k+1], d, group[k])
  }

  lemma GoneStays(t: Target, a: Scene, b: Scene, d: nat, m: nat, i: nat)
    requires StepOk(t, a, b, d, m) && i < |a.defs| && i != d && a.defs[i].uses == []
    ensures i < |b.defs| && b.defs[i].uses == []
  {
    hide Dominates, GrownOver, Cleared, WebRange, NoneForBoth, FirstFree;
  }

  lemma {:induction false} GoneLater(t: Target, group: seq<nat>, d: nat, scenes: seq<Scene>, i: nat, k: nat, n: nat)
    requires Combination(t, group, d, scenes) && k <= n < |scenes|
    requires i < |scenes[k].defs| && i != d && scenes[k].defs[i].uses == []
    ensures i < |scenes[n].defs| && scenes[n].defs[i].uses == []
  {
    hide StepOk;
    if k < n {
      GoneLater(t, group, d, scenes, i, k, n - 1);
      assert StepOk(t, scenes[n-1], scenes[n], d, group[n-1]);
      GoneStays(t, scenes[n-1], scenes[n], d, group[n-1], i);
    }
  }

  /** Every web of the group that may be merged when its turn comes has no uses afterwards, unless no register is free over
      both ranges at that turn. */
  lemma GroupMerged(t: Target, group: seq<nat>, d: nat, scenes: seq<Scene>, k: nat)
    requires Combination(t, group, d, scenes) && k < |group|
    ensures d < |scenes[k].defs| && group[k] < |scenes[k].defs|
    ensures Mergeable(t, scenes[k].defs, d, group[k]) ==>
              || (group[k] < |scenes[|group|].defs| && scenes[|group|].defs[group[k]].uses == [])
              || (&& scenes[k].defs[d].liveRange.Some?
                  && NoneForBoth(t, scenes[k].live, scenes[k].liveEnd, scenes[k].defs[d].liveRange.value,
                                 scenes[k].defs[group[k]].uses, scenes[k].btrs))
  {
    hide NoneForBoth, Dominates, GrownOver, Cleared, WebRange, FirstFree;
    var a, b, m := scenes[k], scenes[k+1], group[k];
    assert StepOk(t, a, b, d, m);
    if Mergeable(t, a.defs, d, m) && !LeftAlone(t, a, b, d, m) {
      var range: set<int>, btr: nat :| Merges(t, a, b, d, m, range, btr);
      assert b.defs[m].uses == [];
      GoneLater(t, group, d, scenes, m, k + 1, |group|);
    }
  }

  lemma MergeIs(t: Target, was: seq<Def>, mid: seq<Def>, now: seq<Def>, d: nat, m: nat, btr: int, range: set<int>,
                live: seq<set<nat>>, liveEnd: seq<set<nat>>, live': seq<set<nat>>, liveEnd': seq<set<nat>>,
                btrs: set<nat>, btrs': set<nat>)
    requires d < |was| && m < |was| && d != m && was[d].liveRange.Some? && |mid| == |was| && mid == was[m := mid[m]]
    requires Ranged(t, was[m], mid[m]) && mid[m].uses == was[m].uses != [] && btr >= 0 && FirstFree(t, btrs', btr)
    requires GrownOver(t, live, liveEnd, was[d].liveRange.value, was[m].uses, btrs, range, btrs') && |now| == |was|
    requires now == mid[m := mid[m].(uses := [])][d := Taken(mid[d], mid[m], btr, now[d].uses, range)]
    requires multiset(now[d].uses) == multiset(mid[d].uses) + multiset(mid[m].uses)
    requires Cleared(mid[m], [mid[m].uses[0]] + mid[d].uses, live, liveEnd, live', liveEnd')
    ensures MergedOrNot(t, Scene(was, live, liveEnd, btrs), Scene(now, live', liveEnd', btrs'), d, m)
  {
    hide GrownOver, FirstFree, Cleared, WebRange;
    assert mid[m] == was[m].(liveRange := now[m].liveRange);
    assert Merges(t, Scene(was, live, liveEnd, btrs), Scene(now, live', liveEnd', btrs'), d, m, range, btr);
  }

  lemma LeftIs(t: Target, was: seq<Def>, now: seq<Def>, d: nat, m: nat, live: seq<set<nat>>, liveEnd: seq<set<nat>>,
               btrs: set<nat>)
    requires d < |was| == |now| && m < |was| && was[d].liveRange.Some? && now == was[m := now[m]] && Ranged(t, was[m], now[m])
    requires NoneForBoth(t, live, liveEnd, was[d].liveRange.value, was[m].uses, btrs)
    ensures MergedOrNot(t, Scene(was, live, liveEnd, btrs), Scene(now, live, liveEnd, btrs), d, m)
  {
    hide NoneForBoth, WebRange;
    assert LeftAlone(t, Scene(was, live, liveEnd, btrs), Scene(now, live, liveEnd, btrs), d, m);
  }

  /** From one scene to another by the turns of all members of d's group. */
  ghost predicate CombinesGroup(t: Target, members: seq<seq<nat>>, d: nat, a: Scene, scenes: seq<Scene>, b: Scene) {
    && d < |a.defs| && a.defs[d].group.Some? && a.defs[d].group.value < |members| && scenes != []
    && Combination(t, members[a.defs[d].group.value], d, scenes) && scenes[0] == a && scenes[|scenes|-1] == b
  }

  lemma NoSteps(t: Target, group: seq<nat>, d: nat, a: Scene)
    ensures Combination(t, group[..0], d, [a])
  {
  }

  lemma OneMoreStep(t: Target, group: seq<nat>, d: nat, scenes: seq<Scene>, k: nat, b: Scene)
    requires k < |group| && Combination(t, group[..k], d, scenes) && StepOk(t, scenes[k], b, d, group[k])
    ensures Combination(t, group[..k+1], d, scenes + [b])
  {
    hide StepOk;
    var all := scenes + [b];
    forall j | 0 <= j < k + 1 ensures StepOk(t, all[j], all[j+1], d, group[..k+1][j]) {
      if j < k {
        assert group[..k][j] == group[j];
        assert StepOk(t, scenes[j], scenes[j+1], d, group[..k][j]);
      }
    }
  }

  lemma GroupOf(t: Target, members: seq<seq<nat>>, defs: seq<Def>, d: nat, live: seq<set<nat>>, liveEnd: seq<set<nat>>,
                btrs: set<nat>)
    requires |live| == |liveEnd| && Merging(t, defs, d, live, liveEnd, btrs) && Grouped(members, defs)
    ensures d < |defs| && defs[d].group.Some? && defs[d].group.value < |members|
  {
  }

  lemma StillGrouped(t: Target, members: seq<seq<nat>>, was: seq<Def>, now: seq<Def>, d: nat, grp: nat, k: nat,
                     l: seq<set<nat>>, e: seq<set<nat>>, l': seq<set<nat>>, e': seq<set<nat>>,
                     btrs: set<nat>, btrs': set<nat>)
    requires Combined(t, was, now, d, l, e, l', e', btrs, btrs') && Grouped(members, was)
    requires d < |was| && was[d].group == Some(grp) && grp < |members| && k < |members[grp]|
    ensures |l'| == |e'| && Merging(t, now, d, l', e', btrs')
    ensures members[grp][k] < |now| && now[members[grp][k]].group == now[d].group
  {
    hide Merging, OnlyLoses, GroupUses, Dominates;
    assert LaterDef(t, was[d], now[d]) && LaterDef(t, was[members[grp][k]], now[members[grp][k]]);
  }

  // ---------- move_btr_def ----------

  /** The move of d to block nb may start: btrs covers the range, but for the register of d itself in its old range
      if no other web shares that. */
  ghost predicate Movable(t: Target, defs: seq<Def>, d: nat, nb: int, btr: nat, range: set<int>, live: seq<set<nat>>,
                          liveEnd: seq<set<nat>>, btrs: set<nat>, hidden: set<int>)
    requires |live| == |liveEnd|
  {
    && DefsOk(t, defs) && d < |defs| && Mobile(defs[d]) && defs[d].uses != [] && defs[d].liveRange.Some?
    && IsBlock(t.g, nb) && |t.freq| == |t.g.preds|
    && Dominates(t.g, nb, defs[d].bb) && t.freq[nb] <= defs[d].cost && btr in t.allBtrs && btr !in btrs
    && Region(t.g, range, nb) && defs[d].liveRange.value <= range
    && Covered(t.exclusive, live, liveEnd, range, nb, btrs, defs[d].btr, hidden)
    && hidden <= defs[d].liveRange.value && (defs[d].otherBefore || defs[d].otherAfter ==> hidden == {})
  }

  function Moved(t: Target, def: Def, nb: int, btr: nat, range: set<int>): Def
    requires 0 <= nb < |t.freq|
  {
    def.(btr := btr, bb := nb, luid := 0, cost := t.freq[nb], liveRange := Some(range))
  }

  /** The definition in its new block, its old register cleared: merging may start. */
  lemma MovedMerging(t: Target, defs: seq<Def>, d: nat, nb: int, btr: nat, range: set<int>, live: seq<set<nat>>,
                     liveEnd: seq<set<nat>>, live': seq<set<nat>>, liveEnd': seq<set<nat>>, btrs: set<nat>,
                     hidden: set<int>)
    requires |live| == |liveEnd| && Movable(t, defs, d, nb, btr, range, live, liveEnd, btrs, hidden)
    requires Cleared(defs[d], defs[d].uses, live, liveEnd, live', liveEnd')
    ensures |live'| == |liveEnd'|
    ensures var now := defs[d := Moved(t, defs[d], nb, btr, range)];
            Merging(t, now, d, live', liveEnd', btrs) && Later(t, defs, now)
            && KeepsRecords(t, defs, now, live, live', {}, {d})
  {
    hide Dominates, Region, Covered, GroupUses, Cleared, KeepsRecords;
    ClearKeepsRecords(t, defs, defs[d := Moved(t, defs[d], nb, btr, range)], d, live, liveEnd, live', liveEnd');
    var now := defs[d := Moved(t, defs[d], nb, btr, range)];
    ClearedLengths(defs[d], defs[d].uses, live, liveEnd, live', liveEnd');
    ClearCovers(t.exclusive, defs[d], defs[d].uses, live, liveEnd, live', liveEnd', range, nb, btrs, hidden);
    LessCovers(t.exclusive, live', liveEnd', live', liveEnd', {}, {}, range, nb, btrs, defs[d].btr, btr);
    DefRange(t, defs, d, nb);
    RegionSpans(defs[d].uses, defs[d].liveRange.value, range);
    LaterSame(t, defs);
    forall i | 0 <= i < |now| ensures DefOk(t, now[i]) && LaterDef(t, defs[i], now[i]) {
      assert DefOk(t, defs[i]) && LaterDef(t, defs[i], defs[i]);
    }
    forall grp: nat ensures GroupUses(now, grp) == GroupUses(defs, grp) {
      GroupUsesUpdate(defs, d, now[d], grp);
      assert GroupUses(now, grp) == (GroupUses(now, grp) + OwnUses(now[d], grp)) - OwnUses(now[d], grp);
      assert GroupUses(defs, grp) == (GroupUses(defs, grp) + OwnUses(now[d], grp)) - OwnUses(now[d], grp);
    }
  }

  /** No other definition moves. */
  ghost predicate OthersStay(was: seq<Def>, now: seq<Def>, d: nat) {
    |was| == |now| && forall i :: 0 <= i < |was| && i != d ==> now[i].bb == was[i].bb && now[i].cost == was[i].cost
  }

  /** The register that d was given was free over its range; all that had disappeared before are the old register of d
      and those of merged webs; and now it is recorded as live there. */
  ghost predicate Placed(t: Target, was: seq<Def>, now: seq<Def>, d: nat, live: seq<set<nat>>, liveEnd: seq<set<nat>>,
                         mid: seq<set<nat>>, midEnd: seq<set<nat>>, live': seq<set<nat>>, liveEnd': seq<set<nat>>)
  {
    && |was| == |now| && d < |was| && now[d].liveRange.Some? && |mid| == |midEnd|
    && OnlyLoses(live, mid, {was[d].btr} + GoneBtrs(was, now)) && OnlyLoses(liveEnd, midEnd, {was[d].btr} + GoneBtrs(was, now))
    && Free(t.exclusive, mid, midEnd, now[d].liveRange.value, now[d].bb, now[d].btr)
    && (now[d].otherBefore <==> 0 <= now[d].bb < |mid| && now[d].btr in mid[now[d].bb])
    && Added(now[d], true, mid, midEnd, live', liveEnd')
  }

  /** What one migration step knows: the range of d is recorded and covered by btrs. */
  ghost predicate Trying(t: Target, defs: seq<Def>, d: nat, range: set<int>, live: seq<set<nat>>, liveEnd: seq<set<nat>>,
                         btrs: set<nat>, hidden: set<int>)
    requires |live| == |liveEnd|
  {
    && DefsOk(t, defs) && d < |defs| && Mobile(defs[d]) && defs[d].uses != [] && defs[d].liveRange == Some(range)
    && Covered(t.exclusive, live, liveEnd, range, defs[d].bb, btrs, defs[d].btr, hidden) && hidden <= range
    && (hidden == {} || (!defs[d].otherBefore && !defs[d].otherAfter)
        || (0 <= defs[d].bb < |live| && defs[d].btr in live[defs[d].bb]))
  }

  /** After merging, the flag and the new register are recorded. */
  lemma PlacedAll(t: Target, was: seq<Def>, one: seq<Def>, two: seq<Def>, now: seq<Def>, d: nat, nb: int, btr: nat,
                  range: set<int>, live: seq<set<nat>>, liveEnd: seq<set<nat>>, l1: seq<set<nat>>, e1: seq<set<nat>>,
                  mid: seq<set<nat>>, midEnd: seq<set<nat>>, live': seq<set<nat>>, liveEnd': seq<set<nat>>,
                  btrs: set<nat>, btrs': set<nat>)
    requires |live| == |liveEnd| == |t.g.preds| && |t.freq| == |t.g.preds| && IsBlock(t.g, nb) && d < |was|
    requires |l1| == |e1| == |live| && Cleared(was[d], was[d].uses, live, liveEnd, l1, e1)
    requires one == was[d := Moved(t, was[d], nb, btr, range)] && Later(t, was, one) && Mobile(was[d])
    requires KeepsRecords(t, was, one, live, l1, {}, {d})
    requires Combined(t, one, two, d, l1, e1, mid, midEnd, btrs, btrs') && |mid| == |live| && was[d].uses != []
    requires now == two[d := two[d].(otherBefore := two[d].btr in mid[nb], ownEnd := true)]
    requires Added(now[d], true, mid, midEnd, live', liveEnd')
    ensures Placed(t, was, now, d, live, liveEnd, mid, midEnd, live', liveEnd')
    ensures |live'| == |liveEnd'| && now[d].liveRange.Some? && Later(t, was, now) && OthersStay(was, now, d)
    ensures Trying(t, now, d, now[d].liveRange.value, live', liveEnd', btrs', now[d].liveRange.value)
    ensures now[d].bb == nb && range <= now[d].liveRange.value
    ensures KeepsRecords(t, was, now, live, live', {}, {})
  {
    hide Dominates, Region, Covered, GroupUses, Cleared, DefOk, Free, Added, OnlyLoses, KeepsRecords;
    FlagKeeps(t, two, d, now[d]);
    LaterTrans(t, was, one, two);
    LaterTrans(t, was, two, now);
    ClearedLoses(was[d], was[d].uses, live, liveEnd, l1, e1);
    LosesTrans(live, l1, mid, {was[d].btr}, GoneBtrs(one, two));
    LosesTrans(liveEnd, e1, midEnd, {was[d].btr}, GoneBtrs(one, two));
    GoneSame(was, one, two, now, d);
    LosesMore(live, mid, {was[d].btr} + GoneBtrs(one, two), {was[d].btr} + GoneBtrs(was, now));
    LosesMore(liveEnd, midEnd, {was[d].btr} + GoneBtrs(one, two), {was[d].btr} + GoneBtrs(was, now));
    CoveredFree(t.exclusive, mid, midEnd, now[d].liveRange.value, nb, btrs', two[d].btr, two[d].btr);
    HeadOfDef(t, now, d);
    PlaceKeepsRecords(t, two, now, d, mid, midEnd, live', liveEnd');
    KeepsTrans(t, was, one, two, live, l1, mid, {}, {d}, {d});
    KeepsTrans(t, was, two, now, live, mid, live', {}, {d}, {});
    AddCovers(t.exclusive, now[d], true, mid, midEnd, live', liveEnd', now[d].liveRange.value, nb, btrs', two[d].btr);
    AddedHead(now[d], true, mid, midEnd, live', liveEnd');
  }

  lemma RangeStays(t: Target, was: seq<Def>, now: seq<Def>, d: nat, l: seq<set<nat>>, e: seq<set<nat>>,
                   l': seq<set<nat>>, e': seq<set<nat>>, btrs: set<nat>, btrs': set<nat>)
    requires Combined(t, was, now, d, l, e, l', e', btrs, btrs')
    ensures d < |now| && now[d].liveRange.Some?
  {
  }

  lemma RegionOfDef(t: Target, defs: seq<Def>, i: nat)
    requires DefsOk(t, defs) && i < |defs| && Mobile(defs[i]) && defs[i].liveRange.Some?
    ensures Region(t.g, defs[i].liveRange.value, defs[i].bb)
  {
    hide Dominates, Region;
    assert DefOk(t, defs[i]);
  }

  lemma Upward(t: Target, bb: int, up: int)
    requires TargetOk(t) && up != ENTRY && NextUp(t, bb, up)
    ensures Dominates(t.g, up, bb) && !Dominates(t.g, bb, up) && IsBlock(t.g, up)
  {
    hide Dominates;
    if Dominates(t.g, bb, up) {
      Antisymmetric(t.g, bb, up);
    }
  }

  lemma AddedHead(d: Def, ownEnd: bool, live: seq<set<nat>>, liveEnd: seq<set<nat>>,
                  live': seq<set<nat>>, liveEnd': seq<set<nat>>)
    requires Added(d, ownEnd, live, liveEnd, live', liveEnd')
    ensures |live'| == |live| == |liveEnd| == |liveEnd'|
    ensures 0 <= d.bb < |live| && d.bb in d.liveRange.value ==> d.btr in live'[d.bb]
  {
  }

  lemma HeadOfDef(t: Target, defs: seq<Def>, i: nat)
    requires DefsOk(t, defs) && i < |defs| && Mobile(defs[i]) && defs[i].liveRange.Some?
    ensures defs[i].bb in defs[i].liveRange.value && IsBlock(t.g, defs[i].bb)
  {
    hide Dominates;
    assert DefOk(t, defs[i]);
  }

  lemma GoneSame(was: seq<Def>, one: seq<Def>, two: seq<Def>, now: seq<Def>, d: nat)
    requires |was| == |one| && MergedInto(one, two, d) && |two| == |now| && two[d].uses != [] && was[d].uses != []
    requires (forall i :: 0 <= i < |was| && i != d ==> one[i] == was[i] && now[i] == two[i])
    requires now[d].uses == two[d].uses && one[d].uses == was[d].uses
    ensures GoneBtrs(one, two) <= GoneBtrs(was, now)
  {
    forall r | r in GoneBtrs(one, two) ensures r in GoneBtrs(was, now) {
      var i :| 0 <= i < |one| && Gone(one[i], two[i]) && one[i].btr == r;
      assert Gone(was[i], now[i]);
    }
  }

  /** The two flags do not matter to the order of definitions. */
  lemma FlagKeeps(t: Target, defs: seq<Def>, i: nat, def: Def)
    requires DefsOk(t, defs) && i < |defs|
    requires def == defs[i].(otherBefore := def.otherBefore, ownEnd := def.ownEnd)
    ensures DefsOk(t, defs[i := def]) && Later(t, defs, defs[i := def])
  {
    hide Dominates, Region, GroupUses;
    LaterSame(t, defs);
    var now := defs[i := def];
    forall j | 0 <= j < |now| ensures DefOk(t, now[j]) && LaterDef(t, defs[j], now[j]) {
      assert DefOk(t, defs[j]) && LaterDef(t, defs[j], defs[j]);
    }
    forall grp: nat ensures GroupUses(now, grp) == GroupUses(defs, grp) {
      GroupUsesUpdate(defs, i, def, grp);
      assert GroupUses(now, grp) == (GroupUses(now, grp) + OwnUses(def, grp)) - OwnUses(def, grp);
      assert GroupUses(defs, grp) == (GroupUses(defs, grp) + OwnUses(def, grp)) - OwnUses(def, grp);
    }
  }

  // ---------- migrate_btr_def ----------

  /** can_move_up: n instructions precede the definition in its block. */
  predicate CanMoveUp(t: Target, def: Def, n: int) {
    n <= 0 || n <= t.above(def)
  }

  /** A use that follows the definition too closely for its latency. */
  predicate NearUse(t: Target, def: Def, u: User) {
    && u.bb == def.bb && u.luid > def.luid && def.luid + t.latency(def) > u.luid
    && !CanMoveUp(t, def, def.luid + t.latency(def) - u.luid)
  }

  /** A use is too near exactly if it follows the definition in its block, and even with the definition at the top of the
      block the latency would not have passed. */
  lemma NearMeans(t: Target, def: Def, u: User)
    requires t.above(def) >= 0
    ensures NearUse(t, def, u) <==> u.bb == def.bb && u.luid > def.luid && (u.luid - def.luid) + t.above(def) < t.latency(def)
  {
  }

  predicate Near(t: Target, def: Def) {
    exists k :: 0 <= k < |def.uses| && NearUse(t, def, def.uses[k])
  }

  method UsedNearDef(t: Target, def: Def) returns (near: bool)
    ensures near <==> Near(t, def)
  {
    near := false;
    for k := 0 to |def.uses|
      invariant !near && forall j :: 0 <= j < k ==> !NearUse(t, def, def.uses[j])
    {
      if NearUse(t, def, def.uses[k]) {
        near := true;
        break;
      }
    }
  }

  /** A block properly above another one, or none. */
  ghost predicate NextUp(t: Target, bb: int, up: int) {
    up == ENTRY || (IsBlock(t.g, bb) && IsBlock(t.g, up) && |t.doms| == |t.g.preds| && up in t.doms[bb] && up != bb)
  }

  lemma NextUpIdom(t: Target, b: int)
    requires TargetOk(t) && IsBlock(t.g, b)
    ensures NextUp(t, b, t.idom[b])
  {
    if t.idom[b] != ENTRY {
      FewerDominators(t.g, t.doms, t.idom[b], b);
    }
  }

  lemma NextUpTrans(t: Target, a: int, b: int, c: int)
    requires TargetOk(t) && NextUp(t, a, b) && b != ENTRY && NextUp(t, b, c)
    ensures NextUp(t, a, c)
    ensures c != ENTRY ==> |t.doms[c]| < |t.doms[b]|
  {
    hide Dominates, AllReachable;
    if c != ENTRY {
      DominatesTrans(t.g, c, b, a);
      FewerDominators(t.g, t.doms, b, a);
      FewerDominators(t.g, t.doms, c, b);
    }
  }

  /** What a definition looks like when the search for its new block starts. */
  lemma StartTrying(t: Target, defs: seq<Def>, d: nat, range: set<int>, live: seq<set<nat>>, liveEnd: seq<set<nat>>,
                    btrs: set<nat>)
    requires DefsOk(t, defs) && d < |defs| && Mobile(defs[d]) && defs[d].uses != [] && |live| == |liveEnd|
    requires DefOk(t, defs[d].(liveRange := Some(range)))
    requires LiveRecorded(t, live, liveEnd, defs[d].(liveRange := Some(range)), btrs)
    ensures var now := defs[d := defs[d].(liveRange := Some(range))];
            Later(t, defs, now) && OthersStay(defs, now, d)
            && Trying(t, now, d, range, live, liveEnd, btrs,
                      if defs[d].otherBefore || defs[d].otherAfter then {} else range)
  {
    hide Dominates, Region, GroupUses, Covered, DefOk, LiveIn;
    RangeKeeps(t, defs, d, defs[d].(liveRange := Some(range)));
  }

  /** The range grown to a block further up: a move there may start. */
  lemma TryingMovable(t: Target, defs: seq<Def>, d: nat, range: set<int>, live: seq<set<nat>>, liveEnd: seq<set<nat>>,
                      btrs: set<nat>, hidden: set<int>, up: int, r: set<int>, l: set<nat>, btr: nat)
    requires TargetOk(t) && |live| == |liveEnd| == |t.g.preds| && Trying(t, defs, d, range, live, liveEnd, btrs, hidden)
    requires IsBlock(t.g, up) && Dominates(t.g, up, defs[d].bb) && !Dominates(t.g, defs[d].bb, up)
    requires t.freq[up] <= defs[d].cost && btr in t.allBtrs && btr !in l && IsBlock(t.g, defs[d].bb)
    requires Augmented(t.g, live, liveEnd, range, btrs, defs[d].bb, up, false, t.exclusive, r, l)
    ensures Movable(t, defs, d, up, btr, r, live, liveEnd, l,
                    if defs[d].otherBefore || defs[d].otherAfter then {} else hidden)
  {
    hide Dominates, Region, Covered, Behind, LiveIn, AllReachable, DefOk;
    HeadOfDef(t, defs, d);
    var bb := defs[d].bb;
    var own := defs[d].btr;
    AugmentCovers(t, live, liveEnd, range, btrs, own, hidden, bb, up, false, t.exclusive, r, l);
    if (defs[d].otherBefore || defs[d].otherAfter) && hidden != {} {
      AugmentUnhides(t, live, liveEnd, range, btrs, own, hidden, bb, up, t.exclusive, r, l);
    }
  }

  /** A definition's climb: nothing else moves, and if it moves, it is to a block properly above, that is entered less
      often, or as often if near. */
  ghost predicate Climbed(t: Target, was: seq<Def>, now: seq<Def>, d: nat, near: bool) {
    && Later(t, was, now) && OthersStay(was, now, d) && d < |was|
    && (now[d].bb == was[d].bb ==> now[d].cost == was[d].cost)
    && (now[d].bb != was[d].bb ==>
          && NextUp(t, was[d].bb, now[d].bb) && now[d].bb != ENTRY
          && (now[d].cost < was[d].cost || (now[d].cost == was[d].cost && near)))
  }

  lemma ClimbNothing(t: Target, defs: seq<Def>, d: nat, near: bool)
    requires DefsOk(t, defs) && d < |defs| && TargetOk(t)
    ensures Climbed(t, defs, defs, d, near)
  {
    hide Dominates, Region, Later;
    LaterSame(t, defs);
  }

  lemma StartClimb(t: Target, defs: seq<Def>, d: nat, range: set<int>, live: seq<set<nat>>, liveEnd: seq<set<nat>>,
                   btrs: set<nat>, hidden: set<int>, near: bool)
    requires TargetOk(t) && |live| == |liveEnd| && Trying(t, defs, d, range, live, liveEnd, btrs, hidden)
    ensures d < |defs| && DefsOk(t, defs) && Climbed(t, defs, defs, d, near) && IsBlock(t.g, defs[d].bb)
    ensures defs[d].cost == t.freq[defs[d].bb] && NextUp(t, defs[d].bb, t.idom[defs[d].bb])
    ensures t.idom[defs[d].bb] == ENTRY || IsBlock(t.g, t.idom[defs[d].bb])
  {
    hide Dominates, Region, Later, DefsOk, Covered, Climbed, DomsOk, AllReachable;
    ClimbNothing(t, defs, d, near);
    CostIs(t, defs, d);
    NextUpIdom(t, defs[d].bb);
  }

  /** The next block to try. */
  lemma ClimbOn(t: Target, bb: int, up: int)
    requires TargetOk(t) && NextUp(t, bb, up) && up != ENTRY
    ensures IsBlock(t.g, up) && NextUp(t, bb, t.idom[up]) && NextUp(t, up, t.idom[up])
    ensures t.idom[up] != ENTRY ==> IsBlock(t.g, t.idom[up]) && |t.doms[t.idom[up]]| < |t.doms[up]|
  {
    hide Dominates, AllReachable, DomsOk;
    NextUpIdom(t, up);
    NextUpTrans(t, bb, up, t.idom[up]);
  }

  lemma ClimbMore(t: Target, was: seq<Def>, mid: seq<Def>, now: seq<Def>, d: nat, up: int, near: bool, range: set<int>,
                  live: seq<set<nat>>, liveEnd: seq<set<nat>>, btrs: set<nat>, hidden: set<int>)
    requires TargetOk(t) && |live| == |liveEnd| && Climbed(t, was, mid, d, near) && Later(t, mid, now)
    requires OthersStay(mid, now, d) && Trying(t, now, d, range, live, liveEnd, btrs, hidden) && now[d].bb == up
    requires up != ENTRY && NextUp(t, mid[d].bb, up)
    requires DefsOk(t, mid)
    requires t.freq[up] < mid[d].cost || (t.freq[up] == mid[d].cost && near && mid[d].bb == was[d].bb)
    ensures Climbed(t, was, now, d, near) && DefsOk(t, now) && IsBlock(t.g, up) && now[d].cost == t.freq[up]
    ensures now[d].bb != was[d].bb
  {
    hide Dominates, Region, Later, DefsOk, Covered, DomsOk, AllReachable, LaterDef, GroupUses;
    LaterTrans(t, was, mid, now);
    CostIs(t, now, d);
    if mid[d].bb != was[d].bb {
      CostIs(t, mid, d);
      NextUpTrans(t, was[d].bb, mid[d].bb, up);
    }
  }

  lemma ClimbAfter(t: Target, was: seq<Def>, mid: seq<Def>, now: seq<Def>, d: nat, near: bool)
    requires Later(t, was, mid) && OthersStay(was, mid, d) && d < |mid| && mid[d].bb == was[d].bb && mid[d].cost == was[d].cost
    requires Climbed(t, mid, now, d, near)
    ensures Climbed(t, was, now, d, near)
  {
    hide Later, NextUp;
    LaterTrans(t, was, mid, now);
  }

  lemma CostIs(t: Target, defs: seq<Def>, i: nat)
    requires DefsOk(t, defs) && i < |defs|
    ensures IsBlock(t.g, defs[i].bb) && |t.freq| == |t.g.preds| && defs[i].cost == t.freq[defs[i].bb]
  {
    hide Dominates, Region;
    assert DefOk(t, defs[i]);
  }

  /** A block is worth trying if it is entered less often, or as often and the definition should get away from a use. */
  predicate Worth(t: Target, cost: int, near: bool, up: int) {
    0 <= up < |t.freq| && (t.freq[up] < cost || (t.freq[up] == cost && near))
  }

  /** A path of immediate dominators, on which no block between the ends is worth trying. */
  ghost predicate Skipped(t: Target, cost: int, near: bool, bb: int, path: seq<int>, up: int) {
    && |path| >= 2 && path[0] == bb && path[|path|-1] == up
    && (forall k :: 0 <= k < |path| - 1 ==> 0 <= path[k] < |t.idom| && t.idom[path[k]] == path[k+1])
    && (forall k :: 0 < k < |path| - 1 ==> !Worth(t, cost, near, path[k]))
  }

  /** All registers that could be allocated are recorded as live over the range grown up to a block. */
  ghost predicate NoRegister(t: Target, defs: seq<Def>, d: nat, up: int, live: seq<set<nat>>, liveEnd: seq<set<nat>>) {
    && d < |defs| && IsBlock(t.g, defs[d].bb) && IsBlock(t.g, up) && |live| == |liveEnd| == |t.g.preds|
    && defs[d].liveRange.Some?
    && exists btrs, hidden, r, l ::
         && Trying(t, defs, d, defs[d].liveRange.value, live, liveEnd, btrs, hidden)
         && Augmented(t.g, live, liveEnd, defs[d].liveRange.value, btrs, defs[d].bb, up, false, t.exclusive, r, l)
         && t.allBtrs <= l
  }

  /** Why the climb of a definition ended: no register was left for the next block worth trying; or it has become
      cheaper than minCost, or no block above it is worth trying. */
  ghost predicate Settled(t: Target, defs: seq<Def>, d: nat, minCost: int, near: bool, live: seq<set<nat>>,
                          liveEnd: seq<set<nat>>, gaveUp: bool)
    requires d < |defs|
  {
    var def := defs[d];
    if gaveUp then
      exists path, up :: Skipped(t, def.cost, near, def.bb, path, up) && Worth(t, def.cost, near, up)
                         && NoRegister(t, defs, d, up, live, liveEnd)
    else
      def.cost < minCost || exists path :: Skipped(t, def.cost, near, def.bb, path, ENTRY)
  }

  lemma SkipStart(t: Target, cost: int, near: bool, bb: int)
    requires 0 <= bb < |t.idom|
    ensures Skipped(t, cost, near, bb, [bb, t.idom[bb]], t.idom[bb])
  {
  }

  lemma SkipOne(t: Target, cost: int, near: bool, bb: int, path: seq<int>, up: int)
    requires Skipped(t, cost, near, bb, path, up) && !Worth(t, cost, near, up) && 0 <= up < |t.idom|
    ensures Skipped(t, cost, near, bb, path + [t.idom[up]], t.idom[up])
  {
  }

  lemma NoneLeft(t: Target, defs: seq<Def>, d: nat, up: int, live: seq<set<nat>>, liveEnd: seq<set<nat>>, btrs: set<nat>,
                 hidden: set<int>, range: set<int>, r: set<int>, l: set<nat>)
    requires |live| == |liveEnd| == |t.g.preds| && Trying(t, defs, d, range, live, liveEnd, btrs, hidden)
    requires IsBlock(t.g, defs[d].bb) && IsBlock(t.g, up) && t.allBtrs <= l
    requires Augmented(t.g, live, liveEnd, range, btrs, defs[d].bb, up, false, t.exclusive, r, l)
    ensures NoRegister(t, defs, d, up, live, liveEnd)
  {
    hide Augmented, Covered, DefsOk;
  }

  lemma GiveUp(t: Target, defs: seq<Def>, d: nat, minCost: int, near: bool, live: seq<set<nat>>,
               liveEnd: seq<set<nat>>, path: seq<int>, up: int)
    requires d < |defs| && Skipped(t, defs[d].cost, near, defs[d].bb, path, up) && Worth(t, defs[d].cost, near, up)
    requires NoRegister(t, defs, d, up, live, liveEnd)
    ensures Settled(t, defs, d, minCost, near, live, liveEnd, true)
  {
    hide NoRegister, Skipped;
  }

  // ---------- the moves of a definition ----------

  /** A definition moves to block up with register btr and the given range; the scenes are those after the move proper and
      after each turn of combine_btr_defs. */
  datatype Move = Move(up: int, btr: int, range: set<int>, was: Scene, scenes: seq<Scene>, now: Scene)

  /** The scene once the old register of d is cleared and d is in block up. */
  ghost predicate Departs(t: Target, a: Scene, b: Scene, d: nat, up: int, btr: int, range: set<int>) {
    && d < |a.defs| && 0 <= up < |t.freq| && btr >= 0 && a.defs[d].liveRange.Some?
    && b.defs == a.defs[d := Moved(t, a.defs[d], up, btr, range)]
    && Cleared(a.defs[d], a.defs[d].uses, a.live, a.liveEnd, b.live, b.liveEnd)
  }

  /** The scene once d is recorded in its new place. */
  ghost predicate Arrives(t: Target, a: Scene, b: Scene, d: nat, up: int) {
    && d < |a.defs| && 0 <= up < |a.live| && a.btrs == b.btrs
    && b.defs == a.defs[d := a.defs[d].(otherBefore := a.defs[d].btr in a.live[up], ownEnd := true)]
    && Added(b.defs[d], true, a.live, a.liveEnd, b.live, b.liveEnd)
  }

  ghost predicate MoveOk(t: Target, members: seq<seq<nat>>, d: nat, m: Move) {
    && m.scenes != [] && Departs(t, m.was, m.scenes[0], d, m.up, m.btr, m.range)
    && CombinesGroup(t, members, d, m.scenes[0], m.scenes, m.scenes[|m.scenes|-1])
    && Arrives(t, m.scenes[|m.scenes|-1], m.now, d, m.up)
  }

  /** What was known to be live over the old range does not matter to the move. */
  lemma RebasedMove(t: Target, members: seq<seq<nat>>, d: nat, m: Move, btrs: set<nat>)
    requires MoveOk(t, members, d, m.(was := m.was.(btrs := btrs)))
    ensures MoveOk(t, members, d, m)
  {
    hide CombinesGroup, Arrives, Cleared;
  }

  /** The register is the first one that is free over the range grown up to the new block. */
  ghost predicate Chosen(t: Target, d: nat, m: Move) {
    && d < |m.was.defs| && m.was.defs[d].liveRange.Some? && m.scenes != [] && |m.was.live| == |m.was.liveEnd| == |t.g.preds|
    && IsBlock(t.g, m.was.defs[d].bb) && IsBlock(t.g, m.up)
    && Augmented(t.g, m.was.live, m.was.liveEnd, m.was.defs[d].liveRange.value, m.was.btrs, m.was.defs[d].bb, m.up, false,
                 t.exclusive, m.range, m.scenes[0].btrs)
    && FirstFree(t, m.scenes[0].btrs, m.btr)
  }

  /** Moves one after the other, from one scene to another. */
  ghost predicate Journey(t: Target, members: seq<seq<nat>>, d: nat, a: Scene, moves: seq<Move>, b: Scene) {
    if moves == [] then a.defs == b.defs && a.live == b.live && a.liveEnd == b.liveEnd
    else
      var last := moves[|moves|-1];
      && Journey(t, members, d, a, moves[..|moves|-1], last.was)
      && MoveOk(t, members, d, last) && Chosen(t, d, last)
      && last.now.defs == b.defs && last.now.live == b.live && last.now.liveEnd == b.liveEnd
  }

  lemma OneMoreMove(t: Target, members: seq<seq<nat>>, d: nat, a: Scene, moves: seq<Move>, m: Move)
    requires Journey(t, members, d, a, moves, m.was) && MoveOk(t, members, d, m) && Chosen(t, d, m)
    ensures Journey(t, members, d, a, moves + [m], m.now)
  {
    hide MoveOk, Chosen;
    assert (moves + [m])[..|moves|] == moves;
  }

  lemma NoMoves(t: Target, members: seq<seq<nat>>, d: nat, a: Scene)
    ensures Journey(t, members, d, a, [], a)
  {
  }

  /** A journey does not end elsewhere because other registers are remembered. */
  lemma JourneyEnds(t: Target, members: seq<seq<nat>>, d: nat, a: Scene, moves: seq<Move>, b: Scene, btrs: set<nat>)
    requires Journey(t, members, d, a, moves, b)
    ensures Journey(t, members, d, a, moves, b.(btrs := btrs))
  {
  }

  /** migrate_btr_def: nothing, or the live range is recorded and moves follow. */
  ghost predicate Migrated(t: Target, members: seq<seq<nat>>, d: nat, was: seq<Def>, live: seq<set<nat>>,
                           liveEnd: seq<set<nat>>, moves: seq<Move>, now: seq<Def>, live': seq<set<nat>>,
                           liveEnd': seq<set<nat>>)
  {
    d < |was| && |live| == |liveEnd| &&
    if !Mobile(was[d]) || was[d].uses == [] then moves == [] && now == was && live' == live && liveEnd' == liveEnd
    else
      exists range: set<int>, btrs: set<nat> ::
        && LiveRecorded(t, live, liveEnd, was[d].(liveRange := Some(range)), btrs)
        && Journey(t, members, d, Scene(was[d := was[d].(liveRange := Some(range))], live, liveEnd, btrs), moves,
                   Scene(now, live', liveEnd', btrs))
  }

  /** In every move of a journey the group is treated as GroupMerged says. */
  lemma {:induction false} JourneyMerges(t: Target, members: seq<seq<nat>>, d: nat, a: Scene, moves: seq<Move>, b: Scene,
                                         j: nat)
    requires Journey(t, members, d, a, moves, b) && j < |moves|
    ensures MoveOk(t, members, d, moves[j]) && Chosen(t, d, moves[j])
  {
    hide MoveOk, Chosen;
    var n := |moves| - 1;
    if j < n {
      JourneyMerges(t, members, d, a, moves[..n], moves[n].was, j);
      assert moves[..n][j] == moves[j];
    }
  }

  // ---------- migrate_btr_defs ----------

  /** The queue holds definitions under the negative of their cost. */
  ghost predicate Queued(defs: seq<Def>, queue: map<nat, int>) {
    forall i :: i in queue ==> i < |defs| && queue[i] == -defs[i].cost
  }

  lemma {:induction false} MinExists(q: map<nat, int>, s: set<nat>)
    requires s != {} && s <= q.Keys
    ensures exists i :: i in s && forall j :: j in s ==> q[i] <= q[j]
    decreases |s|
  {
    var k :| k in s;
    if s == {k} {
      assert forall j :: j in s ==> q[k] <= q[j];
    } else {
      MinExists(q, s - {k});
      var i :| i in s - {k} && forall j :: j in s - {k} ==> q[i] <= q[j];
      var m := if q[k] <= q[i] then k else i;
      assert m in s && forall j :: j in s ==> q[m] <= q[j];
    }
  }

  /** An entry of the heap with the least key. */
  method MinKey(q: map<nat, int>) returns (i: nat)
    requires q.Keys != {}
    ensures i in q && forall j :: j in q ==> q[i] <= q[j]
  {
    MinExists(q, q.Keys);
    i :| i in q && forall j :: j in q ==> q[i] <= q[j];
  }

  /** The depth of a block in the dominator tree. */
  ghost function Depth(doms: seq<set<int>>, b: int): nat {
    if 0 <= b < |doms| then |doms[b]| else 0
  }

  /** The sum, over the queued definitions among the first n, of the depths of their blocks plus one. */
  ghost function Weight(doms: seq<set<int>>, defs: seq<Def>, queue: set<nat>, n: nat): nat
    requires n <= |defs|
  {
    if n == 0 then 0
    else Weight(doms, defs, queue, n - 1) + if n - 1 in queue then Depth(doms, defs[n-1].bb) + 1 else 0
  }

  lemma {:induction false} WeightDrops(doms: seq<set<int>>, was: seq<Def>, now: seq<Def>, q: set<nat>, q': set<nat>,
                                       d: nat, n: nat)
    requires n <= |was| == |now| && d in q && OthersStay(was, now, d) && d < |was|
    requires q' == q - {d} || (q' == q && Depth(doms, now[d].bb) < Depth(doms, was[d].bb))
    ensures Weight(doms, now, q', n) <= Weight(doms, was, q, n)
    ensures d < n ==> Weight(doms, now, q', n) < Weight(doms, was, q, n)
  {
    if n > 0 {
      WeightDrops(doms, was, now, q, q', d, n - 1);
    }
  }

  /** After one step of the loop the queue weighs less, and everything is still in order. */
  lemma Requeued(t: Target, was: seq<Def>, mid: seq<Def>, now: seq<Def>, d: nat, near: bool, q: map<nat, int>,
                 q': map<nat, int>, again: bool)
    requires TargetOk(t) && DefsOk(t, mid) && Climbed(t, was, mid, d, near) && Queued(was, q) && d in q
    requires again ==> mid[d].bb != was[d].bb && now == mid && q' == (q - {d})[d := -mid[d].cost]
    requires !again ==> now == mid[d := mid[d].(liveRange := None)] && q' == q - {d}
    ensures DefsOk(t, now) && Later(t, mid, now) && Later(t, was, now) && Queued(now, q')
    ensures Weight(t.doms, now, q'.Keys, |now|) < Weight(t.doms, was, q.Keys, |was|)
  {
    hide Dominates, Region, GroupUses, AllReachable, DomsOk;
    if again {
      LaterSame(t, mid);
      FewerUp(t, was[d].bb, mid[d].bb);
      assert q'.Keys == q.Keys;
    } else {
      assert DefOk(t, mid[d]);
      RangeKeeps(t, mid, d, now[d]);
      assert q'.Keys == q.Keys - {d};
    }
    LaterTrans(t, was, mid, now);
    WeightDrops(t.doms, was, now, q.Keys, q'.Keys, d, |was|);
  }

  /** One turn of the loop: the definition taken, the bound given, the outcome, and the states: before, the moves, after the
      attempt, and the definitions at the end of the turn. */
  datatype Turn = Turn(def: nat, minCost: int, again: bool, gaveUp: bool, queue: map<nat, int>, before: seq<Def>,
                       live0: seq<set<nat>>, liveEnd0: seq<set<nat>>, moves: seq<Move>, after: seq<Def>,
                       live: seq<set<nat>>, liveEnd: seq<set<nat>>, end: seq<Def>)

  /** The queue after a turn. */
  ghost function QueueAfter(s: Turn): map<nat, int>
    requires s.def < |s.after|
  {
    if s.again then (s.queue - {s.def})[s.def := -s.after[s.def].cost] else s.queue - {s.def}
  }

  /** The bound is the highest cost left in the queue, or zero. */
  ghost predicate IsMinCost(rest: map<nat, int>, minCost: int) {
    if rest.Keys == {} then minCost == 0
    else exists i :: i in rest && minCost == -rest[i] && forall j :: j in rest ==> rest[i] <= rest[j]
  }

  /** A turn takes the dearest definition and moves it as far as it pays; what has moved and may move on is queued
      again, of others the live range is freed. */
  ghost predicate TurnOk(t: Target, members: seq<seq<nat>>, s: Turn) {
    && s.def < |s.before| == |s.after| && s.def in s.queue
    && (forall j :: j in s.queue ==> s.queue[s.def] <= s.queue[j])
    && IsMinCost(s.queue - {s.def}, s.minCost)
    && Climbed(t, s.before, s.after, s.def, Near(t, s.before[s.def]))
    && Attempted(t, s.before, s.after, s.def, s.minCost, s.live, s.liveEnd, s.again, s.gaveUp)
    && Migrated(t, members, s.def, s.before, s.live0, s.liveEnd0, s.moves, s.after, s.live, s.liveEnd)
    && s.end == if s.again then s.after else s.after[s.def := s.after[s.def].(liveRange := None)]
  }

  ghost predicate Attempted(t: Target, was: seq<Def>, now: seq<Def>, d: nat, minCost: int, live: seq<set<nat>>,
                            liveEnd: seq<set<nat>>, again: bool, gaveUp: bool)
    requires d < |was| == |now|
  {
    if !Mobile(was[d]) || was[d].uses == [] then !again && now == was
    else
      && (again <==> now[d].bb != was[d].bb && !gaveUp)
      && Settled(t, now, d, minCost, Near(t, was[d]) && now[d].bb == was[d].bb, live, liveEnd, gaveUp)
  }

  /** A run of the loop: turn after turn from one state and queue to another. */
  ghost predicate IsRun(t: Target, members: seq<seq<nat>>, was: seq<Def>, live: seq<set<nat>>, liveEnd: seq<set<nat>>,
                        queue: map<nat, int>, turns: seq<Turn>, now: seq<Def>, live': seq<set<nat>>,
                        liveEnd': seq<set<nat>>, left: map<nat, int>)
  {
    if turns == [] then now == was && live' == live && liveEnd' == liveEnd && left == queue
    else
      var last := turns[|turns|-1];
      && IsRun(t, members, was, live, liveEnd, queue, turns[..|turns|-1], last.before, last.live0, last.liveEnd0, last.queue)
      && TurnOk(t, members, last) && now == last.end && live' == last.live && liveEnd' == last.liveEnd
      && left == QueueAfter(last)
  }

  lemma OneMoreTurn(t: Target, members: seq<seq<nat>>, was: seq<Def>, live: seq<set<nat>>, liveEnd: seq<set<nat>>,
                    queue: map<nat, int>, turns: seq<Turn>, s: Turn)
    requires IsRun(t, members, was, live, liveEnd, queue, turns, s.before, s.live0, s.liveEnd0, s.queue)
    requires TurnOk(t, members, s)
    ensures IsRun(t, members, was, live, liveEnd, queue, turns + [s], s.end, s.live, s.liveEnd, QueueAfter(s))
  {
    hide TurnOk;
    assert (turns + [s])[..|turns|] == turns;
    assert s.def < |s.after| by {
      TurnSizes(t, members, s);
    }
  }

  lemma TurnSizes(t: Target, members: seq<seq<nat>>, s: Turn)
    requires TurnOk(t, members, s)
    ensures s.def < |s.after|
  {
  }

  /** Whenever a definition has moved in a run, the webs of its group have been treated as in GroupMerged. */
  lemma {:induction false} RunMoves(t: Target, members: seq<seq<nat>>, was: seq<Def>, live: seq<set<nat>>,
                                    liveEnd: seq<set<nat>>, queue: map<nat, int>, turns: seq<Turn>, now: seq<Def>,
                                    live': seq<set<nat>>, liveEnd': seq<set<nat>>, left: map<nat, int>, i: nat, j: nat)
    requires IsRun(t, members, was, live, liveEnd, queue, turns, now, live', liveEnd', left)
    requires i < |turns| && j < |turns[i].moves|
    ensures MoveOk(t, members, turns[i].def, turns[i].moves[j]) && Chosen(t, turns[i].def, turns[i].moves[j])
  {
    hide MoveOk, Chosen, Journey, Climbed, Attempted, IsMinCost, LiveRecorded;
    var n := |turns| - 1;
    var last := turns[n];
    if i < n {
      assert turns[..n][i] == turns[i];
      RunMoves(t, members, was, live, liveEnd, queue, turns[..n], last.before, last.live0, last.liveEnd0, last.queue, i, j);
    } else {
      var range: set<int>, btrs: set<nat> :|
        Journey(t, members, last.def, Scene(last.before[last.def := last.before[last.def].(liveRange := Some(range))],
                                            last.live0, last.liveEnd0, btrs),
                last.moves, Scene(last.after, last.live, last.liveEnd, btrs));
      JourneyMerges(t, members, last.def, Scene(last.before[last.def := last.before[last.def].(liveRange := Some(range))],
                                                last.live0, last.liveEnd0, btrs),
                    last.moves, Scene(last.after, last.live, last.liveEnd, btrs), j);
    }
  }

  lemma ClimbIs(t: Target, was: seq<Def>, now: seq<Def>, d: nat, near: bool, minCost: int, live: seq<set<nat>>,
                liveEnd: seq<set<nat>>, again: bool, gaveUp: bool)
    requires d < |was| == |now| && Climbed(t, was, now, d, near)
    requires Attempted(t, was, now, d, minCost, live, liveEnd, again, gaveUp)
    ensures Later(t, was, now) && (again ==> now[d].bb != was[d].bb)
  {
    hide Later, Settled;
  }

  lemma NoTurns(t: Target, members: seq<seq<nat>>, defs: seq<Def>, live: seq<set<nat>>, liveEnd: seq<set<nat>>,
                queue: map<nat, int>)
    ensures IsRun(t, members, defs, live, liveEnd, queue, [], defs, live, liveEnd, queue)
  {
  }

  lemma ItsTurn(t: Target, members: seq<seq<nat>>, s: Turn)
    requires s.def < |s.before| == |s.after| && s.def in s.queue
    requires forall j :: j in s.queue ==> s.queue[s.def] <= s.queue[j]
    requires IsMinCost(s.queue - {s.def}, s.minCost)
    requires Climbed(t, s.before, s.after, s.def, Near(t, s.before[s.def]))
    requires Attempted(t, s.before, s.after, s.def, s.minCost, s.live, s.liveEnd, s.again, s.gaveUp)
    requires Migrated(t, members, s.def, s.before, s.live0, s.liveEnd0, s.moves, s.after, s.live, s.liveEnd)
    requires s.end == if s.again then s.after else s.after[s.def := s.after[s.def].(liveRange := None)]
    ensures TurnOk(t, members, s)
  {
    hide Climbed, Attempted, IsMinCost, Migrated;
  }

  /** The bound for the next attempt: the negated least key, where an empty heap has key zero. */
  method MinCost(q: map<nat, int>) returns (minCost: int)
    ensures IsMinCost(q, minCost)
  {
    minCost := 0;
    if q.Keys != {} {
      var next := MinKey(q);
      minCost := -q[next];
    }
  }

  lemma FewerUp(t: Target, bb: int, up: int)
    requires TargetOk(t) && NextUp(t, bb, up) && up != ENTRY
    ensures Depth(t.doms, up) < Depth(t.doms, bb)
  {
    hide Dominates;
    FewerDominators(t.g, t.doms, up, bb);
  }

  class Migrator {
    const t: Target
    const members: seq<seq<nat>>
    const defs: array<Def>
    const live: array<set<nat>>
    const liveEnd: array<set<nat>>

    constructor (t: Target, members: seq<seq<nat>>, defs: array<Def>, live: array<set<nat>>, liveEnd: array<set<nat>>)
      ensures this.t == t && this.members == members && this.defs == defs && this.live == live && this.liveEnd == liveEnd
    {
      this.t, this.members, this.defs, this.live, this.liveEnd := t, members, defs, live, liveEnd;
    }

    ghost predicate Shape() {
      TargetOk(t) && live != liveEnd && live.Length == liveEnd.Length == |t.g.preds|
    }

    /** clear_btr_from_live_range; seen are the uses found on the list of the definition. */
    method ClearBtr(def: Def, seen: seq<User>)
      requires Shape() && def.liveRange.Some?
      modifies live, liveEnd
      ensures Cleared(def, seen, old(live[..]), old(liveEnd[..]), live[..], liveEnd[..])
    {
      hide TargetOk;
      ghost var was, wasEnd := live[..], liveEnd[..];
      for bb := 0 to live.Length
        invariant forall b :: bb <= b < live.Length ==> live[b] == was[b] && liveEnd[b] == wasEnd[b]
        invariant forall b :: 0 <= b < bb ==>
                    live[b] == if b in def.liveRange.value && Clears(def, seen, b) then was[b] - {def.btr} else was[b]
        invariant forall b :: 0 <= b < bb ==>
                    liveEnd[b] == if b in def.liveRange.value && Clears(def, seen, b) then wasEnd[b] - {def.btr} else wasEnd[b]
      {
        if bb in def.liveRange.value && ((!def.otherBefore && !def.otherAfter) || !AtEdge(def, seen, bb)) {
          live[bb] := live[bb] - {def.btr};
          liveEnd[bb] := liveEnd[bb] - {def.btr};
        }
      }
      if def.ownEnd && 0 <= def.bb < liveEnd.Length {
        liveEnd[def.bb] := liveEnd[def.bb] - {def.btr};
      }
    }

    /** add_btr_to_live_range, with the flag own_end set. */
    method AddBtr(d: nat)
      requires Shape() && d < defs.Length && defs[d].liveRange.Some?
      modifies defs, live, liveEnd
      ensures defs[..] == old(defs[..])[d := old(defs[d]).(ownEnd := true)]
      ensures Added(defs[d], true, old(live[..]), old(liveEnd[..]), live[..], liveEnd[..])
    {
      hide TargetOk;
      ghost var was, wasEnd := live[..], liveEnd[..];
      var def := defs[d];
      for bb := 0 to live.Length
        invariant defs[..] == old(defs[..])
        invariant forall b :: bb <= b < live.Length ==> live[b] == was[b] && liveEnd[b] == wasEnd[b]
        invariant forall b :: 0 <= b < bb ==>
                    live[b] == if b in def.liveRange.value then was[b] + {def.btr} else was[b]
        invariant forall b :: 0 <= b < bb ==>
                    liveEnd[b] == if b in def.liveRange.value then wasEnd[b] + {def.btr} else wasEnd[b]
      {
        if bb in def.liveRange.value {
          live[bb] := live[bb] + {def.btr};
          liveEnd[bb] := liveEnd[bb] + {def.btr};
        }
      }
      if 0 <= def.bb < liveEnd.Length {
        liveEnd[def.bb] := liveEnd[def.bb] + {def.btr};
      }
      defs[d] := def.(ownEnd := true);
    }

    /** The part of combine_btr_defs that merges the web of m into that of d. */
    method Merge(d: nat, m: nat, btr: nat, range: set<int>)
      requires Shape() && d < defs.Length && m < defs.Length && d != m && DefsOk(t, defs[..])
      requires Mobile(defs[d]) && Mobile(defs[m]) && defs[m].uses != [] && defs[m].liveRange.Some?
      requires defs[d].group == defs[m].group && Dominates(t.g, defs[d].bb, defs[m].bb) && btr in t.allBtrs
      requires Region(t.g, range, defs[d].bb) && Spans(defs[d].uses, range) && Spans(defs[m].uses, range)
      modifies defs, live, liveEnd
      ensures DefsOk(t, defs[..]) && Later(t, old(defs[..]), defs[..])
      ensures multiset(defs[d].uses) == multiset(old(defs[d].uses)) + multiset(old(defs[m].uses)) && defs[d].uses != []
      ensures defs[..] == old(defs[..])[m := old(defs[m]).(uses := [])]
                                       [d := Taken(old(defs[d]), old(defs[m]), btr, defs[d].uses, range)]
      ensures Cleared(old(defs[m]), [old(defs[m]).uses[0]] + old(defs[d].uses), old(live[..]), old(liveEnd[..]),
                      live[..], liveEnd[..])
    {
      hide Dominates, Region, DefsOk, DefOk, Later, Cleared, TargetOk;
      ghost var was := defs[..];
      var def, other := defs[d], defs[m];
      var uses := def.uses;
      for k := 0 to |other.uses|
        invariant multiset(uses) == multiset(def.uses) + multiset(other.uses[..k]) && (k > 0 ==> uses != [])
      {
        assert other.uses[..k+1] == other.uses[..k] + [other.uses[k]];
        uses := [other.uses[k]] + uses;
      }
      assert other.uses[..|other.uses|] == other.uses;
      MergeKeeps(t, was, d, m, btr, uses, range);
      // All uses have been relinked, so from the first use of m the list leads into the old list of d.
      ClearBtr(other, [other.uses[0]] + def.uses);
      defs[m] := other.(uses := []);
      defs[d] := Taken(def, other, btr, uses, range);
      assert defs[..] == was[m := other.(uses := [])][d := Taken(def, other, btr, uses, range)];
    }

    /** One step of combine_btr_defs: merge the web of m into that of d, if d dominates it and a register is free over
        both ranges. */
    method CombineOne(d: nat, m: nat, btrs: set<nat>) returns (btrs': set<nat>)
      requires Shape() && Merging(t, defs[..], d, live[..], liveEnd[..], btrs)
      requires m < defs.Length && defs[m].group == defs[d].group
      modifies defs, live, liveEnd
      ensures Combined(t, old(defs[..]), defs[..], d, old(live[..]), old(liveEnd[..]), live[..], liveEnd[..], btrs, btrs')
      ensures !Mergeable(t, old(defs[..]), d, m) ==> defs[..] == old(defs[..])
      ensures Mergeable(t, old(defs[..]), d, m) ==>
                defs[m].uses == [] || NoneForBoth(t, old(live[..]), old(liveEnd[..]), old(defs[d]).liveRange.value,
                                                  old(defs[m]).uses, btrs)
      ensures StepOk(t, Scene(old(defs[..]), old(live[..]), old(liveEnd[..]), btrs), Scene(defs[..], live[..], liveEnd[..], btrs'),
                     d, m)
    {
      hide MergedOrNot, Dominates, Region, GroupUses, Covered, DefOk, Later, Cleared, OnlyLoses, Combined, Above, Spans, LiveRecorded,
           GrownOver, LiveIn, Behind, WebRange, AllReachable, UseBlocks, NoneForBoth, FlowOk, KeepsRecords;
      btrs' := btrs;
      ghost var was := defs[..];
      assert defs[d] == was[d] && defs[m] == was[m];
      CombinedNothing(t, was, d, live[..], liveEnd[..], btrs);
      DefBlock(t, was, m);
      if m != d && defs[m].uses != [] && !defs[m].ambiguous && defs[d].bb in t.doms[defs[m].bb] {
        RecordRange(m);
        btrs' := TryMerge(d, m, btrs, was);
      }
    }

    /** Compute the live range of a web that has none. */
    method RecordRange(m: nat)
      requires Shape() && DefsOk(t, defs[..]) && m < defs.Length && Mobile(defs[m])
      modifies defs
      ensures DefOk(t, defs[m]) && Ranged(t, old(defs[m]), defs[m])
      ensures defs[..] == old(defs[..])[m := defs[m]]
    {
      hide Dominates, Region, Covered, Above, Spans, LiveRecorded, LiveIn, Behind, WebRange, AllReachable, UseBlocks, FlowOk, DomsOk;
      ghost var was := defs[..];
      DefBlock(t, was, m);
      if defs[m].liveRange == None {
        var range, dummy := BtrDefLiveRange(t, live[..], liveEnd[..], defs[m]);
        defs[m] := defs[m].(liveRange := Some(range));
      }
      RangedIs(t, was[m], defs[m]);
      assert defs[..] == was[m := defs[m]];
    }

    /** Merge the web of m, whose range is recorded, into that of d if a register is free over both ranges. */
    method TryMerge(d: nat, m: nat, btrs: set<nat>, ghost was: seq<Def>) returns (btrs': set<nat>)
      requires Shape() && Merging(t, was, d, live[..], liveEnd[..], btrs) && m < |was| == defs.Length && m != d
      requires defs[..] == was[m := defs[m]] && Ranged(t, was[m], defs[m]) && DefOk(t, defs[m])
      requires was[m].uses != [] && was[m].group == was[d].group && Dominates(t.g, was[d].bb, was[m].bb)
      modifies defs, live, liveEnd
      ensures Combined(t, was, defs[..], d, old(live[..]), old(liveEnd[..]), live[..], liveEnd[..], btrs, btrs')
      ensures defs[m].uses == [] || NoneForBoth(t, old(live[..]), old(liveEnd[..]), was[d].liveRange.value, was[m].uses, btrs)
      ensures MergedOrNot(t, Scene(was, old(live[..]), old(liveEnd[..]), btrs), Scene(defs[..], live[..], liveEnd[..], btrs'), d, m)
    {
      hide MergedOrNot, FirstFree, Dominates, Region, GroupUses, Covered, DefOk, Later, Cleared, OnlyLoses, Combined, Above, Spans, LiveRecorded,
           GrownOver, LiveIn, Behind, WebRange, AllReachable, UseBlocks, NoneForBoth, FlowOk, DomsOk, KeepsRecords;
      btrs' := btrs;
      ghost var mid, l, e := defs[..], live[..], liveEnd[..];
      RangeKeeps(t, was, m, defs[m]);
      assert defs[d] == was[d] == mid[d];
      CombinedRange(t, was, d, m, defs[m], l, e, btrs);
      DefBlock(t, was, d);
      DominatesSelf(t.g, mid[d].bb);
      DefRange(t, mid, d, mid[d].bb);
      DefRange(t, mid, m, mid[d].bb);
      var range, combinedLive := ExtendOver(t, live[..], liveEnd[..], defs[d].liveRange.value, btrs, defs[d].bb,
                                            defs[m].uses, defs[d].btr, {});
      GrownMore(t, l, e, defs[d].liveRange.value, defs[m].uses, btrs, range, combinedLive);
      var btr := ChooseBtr(t, combinedLive);
      if btr != -1 {
        RegionSpans(mid[d].uses, mid[d].liveRange.value, range);
        Merge(d, m, btr, range);
        btrs' := combinedLive;
        CombinedMerge(t, was, mid, defs[..], d, m, btr, range, [mid[m].uses[0]] + mid[d].uses, l, e, live[..],
                      liveEnd[..], btrs, btrs');
        MergeIs(t, was, mid, defs[..], d, m, btr, range, l, e, live[..], liveEnd[..], btrs, btrs');
      } else {
        NoneFound(t, l, e, was[d].liveRange.value, was[m].uses, btrs, range, combinedLive);
        LeftIs(t, was, defs[..], d, m, l, e, btrs);
      }
    }

    /** combine_btr_defs: each web of the group gets its turn. */
    method CombineBtrDefs(d: nat, btrs: set<nat>) returns (btrs': set<nat>, ghost scenes: seq<Scene>)
      requires Shape() && Merging(t, defs[..], d, live[..], liveEnd[..], btrs) && Grouped(members, defs[..])
      modifies defs, live, liveEnd
      ensures Combined(t, old(defs[..]), defs[..], d, old(live[..]), old(liveEnd[..]), live[..], liveEnd[..], btrs, btrs')
      ensures CombinesGroup(t, members, d, Scene(old(defs[..]), old(live[..]), old(liveEnd[..]), btrs), scenes,
                            Scene(defs[..], live[..], liveEnd[..], btrs'))
    {
      hide Dominates, Region, GroupUses, Covered, DefOk, Later, OnlyLoses, Combined, TargetOk, Merging, Combination, StepOk;
      btrs' := btrs;
      ghost var was, l, e := defs[..], live[..], liveEnd[..];
      CombinedNothing(t, was, d, l, e, btrs);
      GroupOf(t, members, was, d, l, e, btrs);
      var grp := defs[d].group.value;
      scenes := [Scene(was, l, e, btrs)];
      NoSteps(t, members[grp], d, scenes[0]);
      for k := 0 to |members[grp]|
        invariant Combined(t, was, defs[..], d, l, e, live[..], liveEnd[..], btrs, btrs')
        invariant |scenes| == k + 1 && scenes[0] == Scene(was, l, e, btrs)
        invariant scenes[k] == Scene(defs[..], live[..], liveEnd[..], btrs')
        invariant Combination(t, members[grp][..k], d, scenes)
      {
        ghost var mid, l1, e1, b1 := defs[..], live[..], liveEnd[..], btrs';
        StillGrouped(t, members, was, mid, d, grp, k, l, e, l1, e1, btrs, b1);
        btrs' := CombineOne(d, members[grp][k], btrs');
        CombinedTrans(t, was, mid, defs[..], d, l, e, l1, e1, live[..], liveEnd[..], btrs, b1, btrs');
        OneMoreStep(t, members[grp], d, scenes, k, Scene(defs[..], live[..], liveEnd[..], btrs'));
        scenes := scenes + [Scene(defs[..], live[..], liveEnd[..], btrs')];
      }
      assert members[grp][..|members[grp]|] == members[grp];
    }

    /** move_btr_def. */
    method MoveBtrDef(nb: int, btr: nat, d: nat, range: set<int>, btrs: set<nat>, ghost hidden: set<int>)
      returns (btrs': set<nat>, ghost mid: seq<set<nat>>, ghost midEnd: seq<set<nat>>, ghost scenes: seq<Scene>)
      requires Shape() && Grouped(members, defs[..])
      requires Movable(t, defs[..], d, nb, btr, range, live[..], liveEnd[..], btrs, hidden)
      modifies defs, live, liveEnd
      ensures d < defs.Length && defs[d].liveRange.Some? && defs[d].bb == nb && range <= defs[d].liveRange.value
      ensures Placed(t, old(defs[..]), defs[..], d, old(live[..]), old(liveEnd[..]), mid, midEnd, live[..], liveEnd[..])
      ensures Later(t, old(defs[..]), defs[..]) && OthersStay(old(defs[..]), defs[..], d)
      ensures Trying(t, defs[..], d, defs[d].liveRange.value, live[..], liveEnd[..], btrs', defs[d].liveRange.value)
      ensures KeepsRecords(t, old(defs[..]), defs[..], old(live[..]), live[..], {}, {})
      ensures scenes != [] && scenes[0].btrs == btrs
      ensures MoveOk(t, members, d, Move(nb, btr, range, Scene(old(defs[..]), old(live[..]), old(liveEnd[..]), btrs), scenes,
                                         Scene(defs[..], live[..], liveEnd[..], btrs')))
    {
      hide Dominates, Region, GroupUses, Covered, DefOk, DefsOk, Later, OnlyLoses, Combined, Merging, Cleared, Added,
           Placed, Trying, OthersStay, AllReachable, DomsOk, FlowOk, KeepsRecords, Combination;
      ghost var was, l, e := defs[..], live[..], liveEnd[..];
      ClearBtr(defs[d], defs[d].uses);
      MovedMerging(t, was, d, nb, btr, range, l, e, live[..], liveEnd[..], btrs, hidden);
      defs[d] := Moved(t, defs[d], nb, btr, range);
      ghost var one, l1, e1 := defs[..], live[..], liveEnd[..];
      assert one == was[d := Moved(t, was[d], nb, btr, range)];
      GroupedLater(t, members, was, one);
      btrs', scenes := CombineBtrDefs(d, btrs);
      mid, midEnd := live[..], liveEnd[..];
      ghost var two := defs[..];
      defs[d] := defs[d].(otherBefore := defs[d].btr in live[nb]);
      RangeStays(t, one, two, d, l1, e1, mid, midEnd, btrs, btrs');
      AddBtr(d);
      PlacedAll(t, was, one, two, defs[..], d, nb, btr, range, l, e, l1, e1, mid, midEnd, live[..], liveEnd[..], btrs, btrs');
    }

    /** The part of migrate_btr_def that tries to move a definition to one block. */
    method TryBlock(d: nat, up: int, range: set<int>, btrs: set<nat>, ghost hidden: set<int>)
      returns (ok: bool, btrs': set<nat>, ghost move: Move)
      requires Shape() && Grouped(members, defs[..])
      requires Trying(t, defs[..], d, range, live[..], liveEnd[..], btrs, hidden)
      requires up != ENTRY && NextUp(t, defs[d].bb, up) && t.freq[up] <= defs[d].cost
      modifies defs, live, liveEnd
      ensures d < defs.Length && Later(t, old(defs[..]), defs[..]) && OthersStay(old(defs[..]), defs[..], d)
      ensures ok ==> defs[d].bb == up && defs[d].liveRange.Some? &&
                     Trying(t, defs[..], d, defs[d].liveRange.value, live[..], liveEnd[..], btrs', defs[d].liveRange.value)
      ensures ok ==> exists mid, midEnd :: Placed(t, old(defs[..]), defs[..], d, old(live[..]), old(liveEnd[..]),
                                                  mid, midEnd, live[..], liveEnd[..])
      ensures !ok ==> defs[..] == old(defs[..]) && live[..] == old(live[..]) && liveEnd[..] == old(liveEnd[..])
                      && NoRegister(t, defs[..], d, up, live[..], liveEnd[..])
      ensures KeepsRecords(t, old(defs[..]), defs[..], old(live[..]), live[..], {}, {})
      ensures ok ==> move.up == up && move.was == Scene(old(defs[..]), old(live[..]), old(liveEnd[..]), btrs)
                     && move.now == Scene(defs[..], live[..], liveEnd[..], btrs')
                     && MoveOk(t, members, d, move) && Chosen(t, d, move)
    {
      hide KeepsRecords, Region, GroupUses, Covered, DefOk, Later, Placed, Added, Behind, Dominates, Augmented, Movable, NoRegister,
           FirstFree, Combination, Cleared;
      ghost var was, l, e := defs[..], live[..], liveEnd[..];
      HeadOfDef(t, was, d);
      RegionOfDef(t, was, d);
      Upward(t, defs[d].bb, up);
      KeepsSame(t, was, l, {});
      LaterSame(t, was);
      var r;
      r, btrs' := AugmentLiveRange(t.g, t.doms, live[..], liveEnd[..], range, btrs, defs[d].bb, up, t.exclusive);
      var btr := ChooseBtr(t, btrs');
      ok := btr != -1;
      if ok {
        TryingMovable(t, was, d, range, l, e, btrs, hidden, up, r, btrs', btr);
        ghost var mid, midEnd, scenes;
        btrs', mid, midEnd, scenes := MoveBtrDef(up, btr, d, r, btrs', if defs[d].otherBefore || defs[d].otherAfter then {} else hidden);
        move := Move(up, btr, r, Scene(was, l, e, btrs), scenes, Scene(defs[..], live[..], liveEnd[..], btrs'));
        RebasedMove(t, members, d, move, scenes[0].btrs);
      } else {
        move := Move(up, btr, r, Scene(was, l, e, btrs), [], Scene(was, l, e, btrs));
        NoneLeft(t, was, d, up, l, e, btrs, hidden, range, r, btrs');
      }
    }

    /** The loop of migrate_btr_def over the dominators of the definition's block. */
    method MoveUp(d: nat, minCost: int, range: set<int>, btrs: set<nat>, usedNear: bool, ghost hidden: set<int>)
      returns (again: bool, ghost gaveUp: bool, ghost moves: seq<Move>)
      requires Shape() && Grouped(members, defs[..])
      requires Trying(t, defs[..], d, range, live[..], liveEnd[..], btrs, hidden)
      modifies defs, live, liveEnd
      ensures d < defs.Length && DefsOk(t, defs[..]) && Climbed(t, old(defs[..]), defs[..], d, usedNear)
      ensures again <==> defs[d].bb != old(defs[d]).bb && !gaveUp
      ensures KeepsRecords(t, old(defs[..]), defs[..], old(live[..]), live[..], {}, {})
      ensures Settled(t, defs[..], d, minCost, usedNear && defs[d].bb == old(defs[d]).bb, live[..], liveEnd[..], gaveUp)
      ensures Journey(t, members, d, Scene(old(defs[..]), old(live[..]), old(liveEnd[..]), btrs), moves,
                      Scene(defs[..], live[..], liveEnd[..], btrs))
    {
      hide Journey, MoveOk, Chosen, Region, GroupUses, Covered, DefOk, Later, Added, Behind, Dominates, AllReachable, FlowOk, Placed,
           Trying, NextUp, OthersStay, DefsOk, Grouped, Climbed, Skipped, NoRegister, KeepsRecords;
      ghost var was, live0 := defs[..], live[..];
      KeepsSame(t, was, live0, {});
      StartClimb(t, was, d, range, live[..], liveEnd[..], btrs, hidden, usedNear);
      var r, l, near, giveUp, moved := range, btrs, usedNear, false, false;
      ghost var h := hidden;
      var freq := t.freq[defs[d].bb];
      var up := t.idom[defs[d].bb];
      ghost var path := [defs[d].bb, up];
      SkipStart(t, freq, near, defs[d].bb);
      moves := [];
      ghost var start := Scene(was, live0, liveEnd[..], btrs);
      NoMoves(t, members, d, start);
      while !giveUp && up != ENTRY && defs[d].cost >= minCost
        invariant Grouped(members, defs[..]) && DefsOk(t, defs[..]) && Climbed(t, was, defs[..], d, usedNear)
        invariant IsBlock(t.g, defs[d].bb) && freq == defs[d].cost && (up == ENTRY || IsBlock(t.g, up))
        invariant !giveUp ==> Trying(t, defs[..], d, r, live[..], liveEnd[..], l, h) && NextUp(t, defs[d].bb, up)
        invariant moved <==> defs[d].bb != was[d].bb
        invariant near <==> !moved && usedNear
        invariant KeepsRecords(t, was, defs[..], live0, live[..], {}, {})
        invariant !giveUp ==> Skipped(t, freq, near, defs[d].bb, path, up)
        invariant giveUp ==> Settled(t, defs[..], d, minCost, near, live[..], liveEnd[..], true)
        invariant Journey(t, members, d, start, moves, Scene(defs[..], live[..], liveEnd[..], l))
        decreases !giveUp, if IsBlock(t.g, up) then |t.doms[up]| + 1 else 0
      {
        var tryFreq := t.freq[up];
        ghost var mid, live1 := defs[..], live[..];
        ClimbOn(t, mid[d].bb, up);
        if tryFreq < freq || (tryFreq == freq && near) {
          var ok;
          ghost var l0 := l;
          ghost var move;
          ok, l, move := TryBlock(d, up, r, l, h);
          KeepsTrans(t, was, mid, defs[..], live0, live1, live[..], {}, {}, {});
          GroupedLater(t, members, mid, defs[..]);
          if ok {
            r, near, moved, freq := defs[d].liveRange.value, false, true, t.freq[defs[d].bb];
            h := r;
            path := [up, t.idom[up]];
            OneMoreMove(t, members, d, start, moves, move);
            moves := moves + [move];
            SkipStart(t, freq, near, up);
            ClimbMore(t, was, mid, defs[..], d, up, usedNear, r, live[..], liveEnd[..], l, h);
          } else {
            giveUp := true;
            JourneyEnds(t, members, d, start, moves, Scene(defs[..], live[..], liveEnd[..], l0), l);
            GiveUp(t, defs[..], d, minCost, near, live[..], liveEnd[..], path, up);
          }
        } else {
          SkipOne(t, freq, near, defs[d].bb, path, up);
          path := path + [t.idom[up]];
        }
        up := t.idom[up];
      }
      JourneyEnds(t, members, d, start, moves, Scene(defs[..], live[..], liveEnd[..], l), btrs);
      gaveUp := giveUp;
      again := moved && !giveUp;
    }

    /** migrate_btr_def.  A definition moves only to a block that dominates its old one properly and is entered less
        often, or as often if a use is too near; and only if it has moved may it be tried again. */
    method MigrateBtrDef(d: nat, minCost: int) returns (again: bool, ghost gaveUp: bool, ghost moves: seq<Move>)
      requires Shape() && d < defs.Length && DefsOk(t, defs[..]) && Grouped(members, defs[..])
      modifies defs, live, liveEnd
      ensures DefsOk(t, defs[..])
      ensures Climbed(t, old(defs[..]), defs[..], d, Near(t, old(defs[d])))
      ensures Attempted(t, old(defs[..]), defs[..], d, minCost, live[..], liveEnd[..], again, gaveUp)
      ensures KeepsRecords(t, old(defs[..]), defs[..], old(live[..]), live[..], {}, {})
      ensures Migrated(t, members, d, old(defs[..]), old(live[..]), old(liveEnd[..]), moves, defs[..], live[..], liveEnd[..])
    {
      hide Journey, KeepsRecords, Region, GroupUses, Covered, DefOk, Later, Added, Behind, Dominates, LiveRecorded, WebRange, AllReachable,
           DomsOk, FlowOk, Placed, Grouped, Trying, Climbed, DefsOk, OthersStay, NearUse, Settled;
      ghost var was := defs[..];
      var near := UsedNearDef(t, defs[d]);
      ghost var live0 := live[..];
      KeepsSame(t, was, live0, {});
      ClimbNothing(t, was, d, near);
      if defs[d].group == None || defs[d].ambiguous {
        return false, false, [];
      }
      if defs[d].uses == [] {
        return false, false, [];
      }
      DefBlock(t, was, d);
      var range, btrs := BtrDefLiveRange(t, live[..], liveEnd[..], defs[d]);
      StartTrying(t, was, d, range, live[..], liveEnd[..], btrs);
      ghost var hidden := if defs[d].otherBefore || defs[d].otherAfter then {} else range;
      defs[d] := defs[d].(liveRange := Some(range));
      ghost var mid, e0 := defs[..], liveEnd[..];
      assert mid == was[d := was[d].(liveRange := Some(range))];
      GroupedLater(t, members, was, mid);
      RangedIs(t, was[d], mid[d]);
      RangedKeeps(t, was, d, mid[d], live0, {});
      again, gaveUp, moves := MoveUp(d, minCost, range, btrs, near, hidden);
      assert Journey(t, members, d, Scene(was[d := was[d].(liveRange := Some(range))], live0, e0, btrs), moves,
                     Scene(defs[..], live[..], liveEnd[..], btrs));
      KeepsTrans(t, was, mid, defs[..], live0, live0, live[..], {}, {}, {});
      ClimbAfter(t, was, mid, defs[..], d, near);
    }

    /** One turn of the loop of migrate_btr_defs. */
    method TakeTurn(q: map<nat, int>) returns (q': map<nat, int>, ghost turn: Turn)
      requires Shape() && DefsOk(t, defs[..]) && Grouped(members, defs[..]) && Queued(defs[..], q) && q.Keys != {}
      modifies defs, live, liveEnd
      ensures DefsOk(t, defs[..]) && Grouped(members, defs[..]) && Later(t, old(defs[..]), defs[..]) && Queued(defs[..], q')
      ensures Weight(t.doms, defs[..], q'.Keys, defs.Length) < Weight(t.doms, old(defs[..]), q.Keys, defs.Length)
      ensures KeepsRecords(t, old(defs[..]), defs[..], old(live[..]), live[..], {}, {})
      ensures TurnOk(t, members, turn) && turn.def < |turn.after| && q' == QueueAfter(turn) && turn.queue == q
      ensures turn.before == old(defs[..]) && turn.live0 == old(live[..]) && turn.liveEnd0 == old(liveEnd[..])
      ensures turn.end == defs[..] && turn.live == live[..] && turn.liveEnd == liveEnd[..]
    {
      hide KeepsRecords, Region, GroupUses, Covered, DefOk, Later, Dominates, DefsOk, Grouped, TargetOk, NearUse, Climbed, Attempted,
           TurnOk, IsMinCost, Migrated, Weight;
      ghost var mid, live0, e0 := defs[..], live[..], liveEnd[..];
      var def := MinKey(q);
      q' := q - {def};
      var minCost := MinCost(q');
      var again;
      ghost var gaveUp, moves;
      again, gaveUp, moves := MigrateBtrDef(def, minCost);
      ghost var now, l, e := defs[..], live[..], liveEnd[..];
      ClimbIs(t, mid, now, def, Near(t, mid[def]), minCost, l, e, again, gaveUp);
      GroupedLater(t, members, mid, now);
      if again {
        q' := q'[def := -defs[def].cost];
      } else {
        FreedKeeps(t, now, def, l);
        KeepsTrans(t, mid, now, now[def := now[def].(liveRange := None)], live0, l, l, {}, {}, {});
        defs[def] := defs[def].(liveRange := None);
        assert defs[..] == now[def := now[def].(liveRange := None)];
      }
      Requeued(t, mid, now, defs[..], def, Near(t, mid[def]), q, q', again);
      GroupedLater(t, members, now, defs[..]);
      turn := Turn(def, minCost, again, gaveUp, q, mid, live0, e0, moves, now, l, e, defs[..]);
      ItsTurn(t, members, turn);
    }

    /** migrate_btr_defs: the definitions are tried in order of cost, the dearest first.  All definitions stay in
        order, no use is lost, and the loop ends because each definition put back is further up the dominator tree. */
    method MigrateBtrDefs(queue: map<nat, int>) returns (ghost turns: seq<Turn>)
      requires Shape() && DefsOk(t, defs[..]) && Grouped(members, defs[..]) && Queued(defs[..], queue)
      modifies defs, live, liveEnd
      ensures DefsOk(t, defs[..]) && Later(t, old(defs[..]), defs[..])
      ensures exists left: map<nat, int> :: left.Keys == {} &&
                IsRun(t, members, old(defs[..]), old(live[..]), old(liveEnd[..]), queue, turns, defs[..], live[..], liveEnd[..], left)
      ensures KeepsRecords(t, old(defs[..]), defs[..], old(live[..]), live[..], {}, {})
    {
      hide KeepsRecords, Region, GroupUses, Covered, DefOk, Later, Dominates, DefsOk, Grouped, TargetOk, IsRun, TurnOk, Weight;
      ghost var was, live0, e0 := defs[..], live[..], liveEnd[..];
      LaterSame(t, was);
      var q := queue;
      turns := [];
      NoTurns(t, members, was, live0, e0, queue);
      KeepsSame(t, was, live0, {});
      while q.Keys != {}
        invariant DefsOk(t, defs[..]) && Grouped(members, defs[..]) && Later(t, was, defs[..]) && Queued(defs[..], q)
        invariant IsRun(t, members, was, live0, e0, queue, turns, defs[..], live[..], liveEnd[..], q)
        invariant KeepsRecords(t, was, defs[..], live0, live[..], {}, {})
        decreases Weight(t.doms, defs[..], q.Keys, defs.Length)
      {
        ghost var mid, live1 := defs[..], live[..];
        ghost var turn;
        q, turn := TakeTurn(q);
        KeepsTrans(t, was, mid, defs[..], live0, live1, live[..], {}, {}, {});
        LaterTrans(t, was, mid, defs[..]);
        OneMoreTurn(t, members, was, live0, e0, queue, turns, turn);
        turns := turns + [turn];
      }
    }
  }
}
