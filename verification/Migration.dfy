/** The state of the migration of branch target register definitions, as values. */
module Migration {
  import opened BtrFlow
  import opened LiveRanges
  import opened Dominators
  import opened Options

  /** A use in a block; endJump if its instruction is the jump that ends the block. */
  datatype User = User(bb: int, luid: int, endJump: bool)

  datatype Def = Def(bb: int, luid: int, btr: nat, cost: int, group: Option<nat>, uses: seq<User>, ambiguous: bool,
                     otherBefore: bool, otherAfter: bool, ownEnd: bool, liveRange: Option<set<int>>)

  /** What the migration is given: control flow and dominators, block frequencies, the registers that may be
      allocated and the order to try them in, and for scheduling the latency of a definition and how many
      instructions precede it in its block. */
  datatype Target = Target(g: Flow, doms: seq<set<int>>, idom: seq<int>, freq: seq<int>, exclusive: bool,
                           allBtrs: set<nat>, order: seq<nat>, latency: Def -> int, above: Def -> int)

  ghost predicate TargetOk(t: Target) {
    && FlowOk(t.g) && DomsOk(t.g, t.doms) && AllReachable(t.g) && |t.idom| == |t.freq| == |t.g.preds|
    && (forall b :: IsBlock(t.g, b) ==> t.idom[b] == ENTRY || (t.idom[b] in t.doms[b] && t.idom[b] != b))
    && (forall r :: r in t.allBtrs ==> r in t.order)
  }

  /** A definition that may be migrated or merged. */
  predicate Mobile(d: Def) {
    d.group.Some? && !d.ambiguous
  }

  /** All uses are in the range. */
  predicate Spans(uses: seq<User>, range: set<int>) {
    forall k :: 0 <= k < |uses| ==> uses[k].bb in range
  }

  ghost predicate Above(g: Flow, bb: int, uses: seq<User>) {
    forall k :: 0 <= k < |uses| ==> Dominates(g, bb, uses[k].bb)
  }

  /** What holds of every definition: its cost is the frequency of its block; if it may be migrated it dominates its
      uses, and its live range, once computed, is entered only at its block and contains all uses. */
  ghost predicate DefOk(t: Target, d: Def) {
    && IsBlock(t.g, d.bb) && |t.freq| == |t.g.preds| && d.cost == t.freq[d.bb] && d.btr in t.allBtrs
    && (Mobile(d) ==> Above(t.g, d.bb, d.uses))
    && (Mobile(d) && d.liveRange.Some? ==> Region(t.g, d.liveRange.value, d.bb) && Spans(d.uses, d.liveRange.value))
  }

  ghost predicate DefsOk(t: Target, defs: seq<Def>) {
    forall i :: 0 <= i < |defs| ==> DefOk(t, defs[i])
  }

  /** The uses of the movable definitions of a group. */
  ghost function GroupUses(defs: seq<Def>, grp: nat): multiset<User> {
    if defs == [] then multiset{}
    else GroupUses(defs[..|defs|-1], grp) + OwnUses(defs[|defs|-1], grp)
  }

  ghost function OwnUses(d: Def, grp: nat): multiset<User> {
    if Mobile(d) && d.group == Some(grp) then multiset(d.uses) else multiset{}
  }

  lemma {:induction false} GroupUsesUpdate(defs: seq<Def>, i: nat, d: Def, grp: nat)
    requires i < |defs|
    ensures GroupUses(defs[i := d], grp) + OwnUses(defs[i], grp) == GroupUses(defs, grp) + OwnUses(d, grp)
  {
    hide OwnUses;
    var n := |defs| - 1;
    var now := defs[i := d];
    if i == n {
      assert now[..n] == defs[..n];
    } else {
      GroupUsesUpdate(defs[..n], i, d, grp);
      assert now[..n] == defs[..n][i := d];
      assert defs[..n][i] == defs[i];
      assert GroupUses(now, grp) == GroupUses(now[..n], grp) + OwnUses(defs[n], grp);
      assert GroupUses(defs, grp) == GroupUses(defs[..n], grp) + OwnUses(defs[n], grp);
      MoveLast(GroupUses(defs[..n], grp), GroupUses(now[..n], grp), OwnUses(defs[i], grp), OwnUses(d, grp),
               OwnUses(defs[n], grp));
    }
  }

  lemma MoveLast<T>(a: multiset<T>, b: multiset<T>, x: multiset<T>, y: multiset<T>, z: multiset<T>)
    requires b + x == a + y
    ensures b + z + x == a + z + y
  {
    assert b + z + x == b + x + z && a + z + y == a + y + z;
  }

  lemma {:induction false} GroupUsesIn(defs: seq<Def>, grp: nat, u: User)
    requires u in GroupUses(defs, grp)
    ensures exists i :: 0 <= i < |defs| && Mobile(defs[i]) && defs[i].group == Some(grp) && u in defs[i].uses
  {
    var n := |defs| - 1;
    if u in OwnUses(defs[n], grp) {
      assert u in defs[n].uses;
    } else {
      GroupUsesIn(defs[..n], grp, u);
      var i :| 0 <= i < n && Mobile(defs[..n][i]) && defs[..n][i].group == Some(grp) && u in defs[..n][i].uses;
      assert defs[..n][i] == defs[i];
    }
  }

  /** How the definitions may change: none moves down or becomes dearer, groups stay, and no group loses or gains a
      use. */
  ghost predicate Later(t: Target, was: seq<Def>, now: seq<Def>) {
    && |was| == |now|
    && (forall i :: 0 <= i < |was| ==> LaterDef(t, was[i], now[i]))
    && (forall grp: nat :: GroupUses(now, grp) == GroupUses(was, grp))
  }

  ghost predicate LaterDef(t: Target, was: Def, now: Def) {
    && now.group == was.group && now.ambiguous == was.ambiguous
    && Dominates(t.g, now.bb, was.bb) && now.cost <= was.cost
  }

  lemma LaterTrans(t: Target, a: seq<Def>, b: seq<Def>, c: seq<Def>)
    requires Later(t, a, b) && Later(t, b, c)
    ensures Later(t, a, c)
  {
    hide Dominates, GroupUses;
    forall i | 0 <= i < |a| ensures LaterDef(t, a[i], c[i]) {
      assert LaterDef(t, a[i], b[i]) && LaterDef(t, b[i], c[i]);
      DominatesTrans(t.g, c[i].bb, b[i].bb, a[i].bb);
    }
  }

  lemma LaterSame(t: Target, defs: seq<Def>)
    requires DefsOk(t, defs)
    ensures Later(t, defs, defs)
  {
    hide Dominates;
    forall i | 0 <= i < |defs| ensures LaterDef(t, defs[i], defs[i]) {
      assert DefOk(t, defs[i]);
      DominatesSelf(t.g, defs[i].bb);
    }
  }

  /** Every use of a group is at the end served by a definition of the same group that dominates it. */
  lemma UsesServed(t: Target, was: seq<Def>, now: seq<Def>, i: nat, u: User)
    requires Later(t, was, now) && DefsOk(t, now)
    requires i < |was| && Mobile(was[i]) && u in was[i].uses
    ensures exists j :: 0 <= j < |now| && Mobile(now[j]) && now[j].group == was[i].group && u in now[j].uses
                        && Dominates(t.g, now[j].bb, u.bb)
  {
    hide Dominates;
    var grp := was[i].group.value;
    UsesInGroup(was, i, grp, u);
    GroupUsesIn(now, grp, u);
    var j :| 0 <= j < |now| && Mobile(now[j]) && now[j].group == Some(grp) && u in now[j].uses;
    assert DefOk(t, now[j]);
    var k :| 0 <= k < |now[j].uses| && now[j].uses[k] == u;
    assert Dominates(t.g, now[j].bb, now[j].uses[k].bb);
  }

  lemma {:induction false} UsesInGroup(defs: seq<Def>, i: nat, grp: nat, u: User)
    requires i < |defs| && Mobile(defs[i]) && defs[i].group == Some(grp) && u in defs[i].uses
    ensures u in GroupUses(defs, grp)
  {
    var n := |defs| - 1;
    if i < n {
      UsesInGroup(defs[..n], i, grp, u);
    }
  }

  // ---------- registers live in a range ----------

  /** What counts as live in a block of a range: in the block of the definition, unless that is to be exclusive, what
      is live at its end. */
  function LiveAt(exclusive: bool, live: seq<set<nat>>, liveEnd: seq<set<nat>>, head: int, b: int): set<nat>
    requires 0 <= b < |live| == |liveEnd|
  {
    if b == head && !exclusive then liveEnd[b] else live[b]
  }

  /** The registers live over the range are all in btrs, but for own, which may be missing in the blocks of hidden. */
  ghost predicate Covered(exclusive: bool, live: seq<set<nat>>, liveEnd: seq<set<nat>>, range: set<int>, head: int,
                          btrs: set<nat>, own: nat, hidden: set<int>)
    requires |live| == |liveEnd|
  {
    forall b, x :: b in range && 0 <= b < |live| && x in LiveAt(exclusive, live, liveEnd, head, b) ==>
                   x in btrs || (x == own && b in hidden)
  }

  /** The register is free over the range, but for hidden blocks if it is own. */
  ghost predicate Free(exclusive: bool, live: seq<set<nat>>, liveEnd: seq<set<nat>>, range: set<int>, head: int, btr: nat)
    requires |live| == |liveEnd|
  {
    forall b :: b in range && 0 <= b < |live| ==> btr !in LiveAt(exclusive, live, liveEnd, head, b)
  }

  lemma CoveredFree(exclusive: bool, live: seq<set<nat>>, liveEnd: seq<set<nat>>, range: set<int>, head: int,
                    btrs: set<nat>, own: nat, btr: nat)
    requires |live| == |liveEnd| && Covered(exclusive, live, liveEnd, range, head, btrs, own, {}) && btr !in btrs
    ensures Free(exclusive, live, liveEnd, range, head, btr)
  {
  }

  /** Growing a range keeps the record of live registers complete. */
  lemma AugmentCovers(t: Target, live: seq<set<nat>>, liveEnd: seq<set<nat>>, range: set<int>, btrs: set<nat>, own: nat,
                      hidden: set<int>, head: int, nb: int, below: bool, full: bool, r: set<int>, l: set<nat>)
    requires IsBlock(t.g, head) && IsBlock(t.g, nb) && |live| == |liveEnd| == |t.g.preds|
    requires Augmented(t.g, live, liveEnd, range, btrs, head, nb, below, full, r, l) && head in range
    requires Covered(t.exclusive, live, liveEnd, range, head, btrs, own, hidden) && (t.exclusive ==> full)
    ensures Covered(t.exclusive, live, liveEnd, r, HeadOf(head, nb, below), l, own, hidden)
  {
    hide Behind, Region;
    var h := HeadOf(head, nb, below);
    forall b, x | b in r && 0 <= b < |live| && x in LiveAt(t.exclusive, live, liveEnd, h, b)
      ensures x in l || (x == own && b in hidden)
    {
      if b !in StartOf(range, nb, below) {
        assert x in LiveIn(r - StartOf(range, nb, below), live, liveEnd);
      } else if below {
        assert x in LiveAt(t.exclusive, live, liveEnd, head, b);
      } else if b == nb || b == head {
        assert AtEnds(live, liveEnd, head, nb, below, full, x);
      } else {
        assert x in LiveAt(t.exclusive, live, liveEnd, head, b);
      }
    }
  }

  /** Moving above the old head records everything that is live there. */
  lemma AugmentUnhides(t: Target, live: seq<set<nat>>, liveEnd: seq<set<nat>>, range: set<int>, btrs: set<nat>, own: nat,
                       hidden: set<int>, head: int, nb: int, full: bool, r: set<int>, l: set<nat>)
    requires IsBlock(t.g, head) && IsBlock(t.g, nb) && |live| == |liveEnd| == |t.g.preds|
    requires Augmented(t.g, live, liveEnd, range, btrs, head, nb, false, full, r, l) && own in live[head]
    requires Covered(t.exclusive, live, liveEnd, r, nb, l, own, hidden)
    ensures Covered(t.exclusive, live, liveEnd, r, nb, l, own, {})
  {
    hide Behind, Region;
    assert AtEnds(live, liveEnd, head, nb, false, full, own);
  }

  // ---------- clear_btr_from_live_range and add_btr_to_live_range ----------

  /** block_at_edge_of_live_range_p; seen are the uses on the list as it is walked. */
  predicate AtEdge(d: Def, seen: seq<User>, b: int) {
    if d.otherBefore && b == d.bb then true
    else d.otherAfter && exists k :: 0 <= k < |seen| && seen[k].bb == b
  }

  predicate Clears(d: Def, seen: seq<User>, b: int) {
    (!d.otherBefore && !d.otherAfter) || !AtEdge(d, seen, b)
  }

  /** The sets after the register of d is cleared from its range. */
  ghost predicate Cleared(d: Def, seen: seq<User>, live: seq<set<nat>>, liveEnd: seq<set<nat>>,
                          live': seq<set<nat>>, liveEnd': seq<set<nat>>)
  {
    && |live'| == |live| == |liveEnd| == |liveEnd'| && d.liveRange.Some?
    && (forall b :: 0 <= b < |live| ==>
          live'[b] == if b in d.liveRange.value && Clears(d, seen, b) then live[b] - {d.btr} else live[b])
    && (forall b :: 0 <= b < |live| ==>
          liveEnd'[b] == if (b in d.liveRange.value && Clears(d, seen, b)) || (d.ownEnd && b == d.bb)
                         then liveEnd[b] - {d.btr} else liveEnd[b])
  }

  /** The sets after the register of d is added over its range. */
  ghost predicate Added(d: Def, ownEnd: bool, live: seq<set<nat>>, liveEnd: seq<set<nat>>,
                        live': seq<set<nat>>, liveEnd': seq<set<nat>>)
  {
    && |live'| == |live| == |liveEnd| == |liveEnd'| && d.liveRange.Some?
    && (forall b :: 0 <= b < |live| ==>
          live'[b] == if b in d.liveRange.value then live[b] + {d.btr} else live[b])
    && (forall b :: 0 <= b < |live| ==>
          liveEnd'[b] == if b in d.liveRange.value || (ownEnd && b == d.bb)
                         then liveEnd[b] + {d.btr} else liveEnd[b])
  }

  /** Only registers of rs disappear. */
  ghost predicate OnlyLoses(was: seq<set<nat>>, now: seq<set<nat>>, rs: set<nat>) {
    |was| == |now| && forall b :: 0 <= b < |was| ==> now[b] <= was[b] <= now[b] + rs
  }

  /** Clearing its own register leaves nothing uncovered if no other range shares it. */
  lemma ClearCovers(exclusive: bool, d: Def, seen: seq<User>, live: seq<set<nat>>, liveEnd: seq<set<nat>>,
                    live': seq<set<nat>>, liveEnd': seq<set<nat>>, range: set<int>, head: int, btrs: set<nat>,
                    hidden: set<int>)
    requires Cleared(d, seen, live, liveEnd, live', liveEnd') && hidden <= d.liveRange.value
    requires Covered(exclusive, live, liveEnd, range, head, btrs, d.btr, hidden)
    requires d.otherBefore || d.otherAfter ==> hidden == {}
    ensures Covered(exclusive, live', liveEnd', range, head, btrs, d.btr, {})
  {
    forall b, x | b in range && 0 <= b < |live'| && x in LiveAt(exclusive, live', liveEnd', head, b)
      ensures x in btrs
    {
      assert x in LiveAt(exclusive, live, liveEnd, head, b);
    }
  }

  /** With fewer registers live the record stays complete. */
  lemma LessCovers(exclusive: bool, live: seq<set<nat>>, liveEnd: seq<set<nat>>, live': seq<set<nat>>,
                   liveEnd': seq<set<nat>>, rs: set<nat>, rs': set<nat>, range: set<int>, head: int, btrs: set<nat>, own: nat, own': nat)
    requires OnlyLoses(live, live', rs) && OnlyLoses(liveEnd, liveEnd', rs') && |live| == |liveEnd|
    requires Covered(exclusive, live, liveEnd, range, head, btrs, own, {})
    ensures Covered(exclusive, live', liveEnd', range, head, btrs, own', {})
  {
    forall b, x | b in range && 0 <= b < |live'| && x in LiveAt(exclusive, live', liveEnd', head, b)
      ensures x in btrs
    {
      assert x in LiveAt(exclusive, live, liveEnd, head, b);
    }
  }

  lemma AddCovers(exclusive: bool, d: Def, ownEnd: bool, live: seq<set<nat>>, liveEnd: seq<set<nat>>,
                  live': seq<set<nat>>, liveEnd': seq<set<nat>>, range: set<int>, head: int, btrs: set<nat>, own: nat)
    requires Added(d, ownEnd, live, liveEnd, live', liveEnd') && d.liveRange == Some(range) && d.bb == head && head in range
    requires Covered(exclusive, live, liveEnd, range, head, btrs, own, {})
    ensures Covered(exclusive, live', liveEnd', range, head, btrs, d.btr, range)
  {
    forall b, x | b in range && 0 <= b < |live'| && x in LiveAt(exclusive, live', liveEnd', head, b)
      ensures x in btrs || x == d.btr
    {
      if x != d.btr {
        assert x in LiveAt(exclusive, live, liveEnd, head, b);
      }
    }
  }
}
