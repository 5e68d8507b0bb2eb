/** What link_btr_uses takes to reach a use, against what flows there. */
module BtrUses {
  import opened BtrFlow
  import opened BtrWebs
  import opened Options
  import LiveRanges

  /** Writing a register as link_btr_uses sees it: a blockage is passed over, and every call clobbers the call-used
      registers. */
  predicate LinkWrites(c: Code, insn: Insn, r: nat) {
    match insn
    case SetBtr(s) => r == s
    case Blockage => false
    case Plain(_, _, call) => call != NoCall && r in c.callUsed
  }

  /** Register r is written between positions a and n of block i. */
  ghost predicate WrittenIn(c: Code, i: nat, r: nat, a: int, n: nat)
    requires i < |c.blocks| && n <= |c.blocks[i]|
  {
    exists q :: 0 <= q < n && a < q && Writes(c, c.blocks[i][q], r)
  }

  ghost predicate LinkWrittenIn(c: Code, i: nat, r: nat, a: int, n: nat)
    requires i < |c.blocks| && n <= |c.blocks[i]|
  {
    exists q :: 0 <= q < n && a < q && LinkWrites(c, c.blocks[i][q], r)
  }

  /** The last definition of r before position n of block i (-1: none). */
  function LastSet(c: Code, i: nat, r: nat, n: nat): (q: int)
    requires i < |c.blocks| && n <= |c.blocks[i]|
    ensures -1 <= q < n && (q >= 0 ==> c.blocks[i][q] == SetBtr(r))
    ensures forall k :: q < k < n ==> c.blocks[i][k] != SetBtr(r)
  {
    if n == 0 then -1 else if c.blocks[i][n-1] == SetBtr(r) then n - 1 else LastSet(c, i, r, n - 1)
  }

  /** Definition d flows to user u: nothing writes its register between d and u, in the block of u or along some walk
      to that block and on to u. */
  ghost predicate FlowsToUse(c: Code, g: Flow, d: Uid, u: Uid)
    requires |g.preds| == |c.blocks| && IsUser(c, u)
  {
    && IsDef(c, d) && InsnAt(c, d).reg in InsnAt(c, u).refs
    && ((d.0 == u.0 && d.1 < u.1 && !WrittenIn(c, u.0, InsnAt(c, d).reg, d.1, u.1))
        || (FlowsIn(c, g, d, u.0) && !WrittenIn(c, u.0, InsnAt(c, d).reg, -1, u.1)))
  }

  /** Definition d flows to the start of block i. */
  ghost predicate FlowsIn(c: Code, g: Flow, d: Uid, i: nat)
    requires |g.preds| == |c.blocks| && i < |c.blocks|
  {
    exists p :: p in g.preds[i] && p != ENTRY && FlowsTo(c, g, d, p)
  }

  /** Some definition of r may reach position n of block i: one in the block or one that flows to its start. */
  ghost predicate Carried(c: Code, g: Flow, i: nat, r: nat, n: nat)
    requires |g.preds| == |c.blocks| && i < |c.blocks| && n <= |c.blocks[i]|
  {
    LastSet(c, i, r, n) >= 0 || exists d: Uid :: IsDef(c, d) && InsnAt(c, d).reg == r && FlowsIn(c, g, d, i)
  }

  /** From the last definition of r before position n on, or from the start of the block: either there is both something
      that writes r, and a call with r among the call-used registers, or neither. */
  ghost predicate Agrees(c: Code, g: Flow, i: nat, r: nat, n: nat)
    requires |g.preds| == |c.blocks| && i < |c.blocks| && n <= |c.blocks[i]|
  {
    Carried(c, g, i, r, n) ==>
      (WrittenIn(c, i, r, LastSet(c, i, r, n), n) <==> LinkWrittenIn(c, i, r, LastSet(c, i, r, n), n))
  }

  /** out holds what flows to the end of each block. */
  ghost predicate OutRight(c: Code, g: Flow, out: seq<set<Uid>>)
    requires |g.preds| == |c.blocks|
  {
    |out| == |c.blocks| && forall i, d: Uid :: 0 <= i < |out| ==> (d in out[i] <==> FlowsTo(c, g, d, i))
  }

  lemma StartIs(c: Code, g: Flow, out: seq<set<Uid>>, i: nat, d: Uid)
    requires FlowOk(g) && |g.preds| == |c.blocks| && i < |c.blocks| && OutRight(c, g, out)
    ensures d in UnionOfPreds(g.preds[i], out) <==> FlowsIn(c, g, d, i)
  {
    hide FlowsTo;
    InUnion(g.preds[i], out, d);
  }

  /** What the walk through the block keeps of its definitions and of those from its start. */
  lemma {:induction false} ReachingAtIs(c: Code, i: nat, start: set<Uid>, p: nat, d: Uid)
    requires i < |c.blocks| && p <= |c.blocks[i]| && IsDef(c, d)
    ensures d in ReachingAt(c, i, start, p) <==>
              (d.0 == i && d.1 < p && !LinkWrittenIn(c, i, InsnAt(c, d).reg, d.1, p)) ||
              (d in start && !LinkWrittenIn(c, i, InsnAt(c, d).reg, -1, p))
  {
    var r := InsnAt(c, d).reg;
    if p > 0 {
      ReachingAtIs(c, i, start, p - 1, d);
      ReachingNext(c, i, start, p - 1);
      LinkStepIn(c, i, r, d.1, p);
      LinkStepIn(c, i, r, -1, p);
      hide ReachingAt, LinkWrittenIn;
    }
  }

  lemma LinkStepIn(c: Code, i: nat, r: nat, a: int, p: nat)
    requires i < |c.blocks| && 0 < p <= |c.blocks[i]|
    ensures LinkWrittenIn(c, i, r, a, p) <==>
              LinkWrittenIn(c, i, r, a, p - 1) || (a < p - 1 && LinkWrites(c, c.blocks[i][p-1], r))
  {
  }

  /** One definition: linked to the use against flowing to it. */
  lemma OneDef(c: Code, g: Flow, out: seq<set<Uid>>, u: Uid, d: Uid)
    requires FlowOk(g) && |g.preds| == |c.blocks| && OutRight(c, g, out) && IsUser(c, u)
    requires IsDef(c, d) && InsnAt(c, d).reg in InsnAt(c, u).refs
    ensures d in ReachingUse(c, g, out, u) <==>
              (d.0 == u.0 && d.1 < u.1 && !LinkWrittenIn(c, u.0, InsnAt(c, d).reg, d.1, u.1)) ||
              (FlowsIn(c, g, d, u.0) && !LinkWrittenIn(c, u.0, InsnAt(c, d).reg, -1, u.1))
  {
    hide ReachingAt, LinkWrittenIn, FlowsIn, FlowsTo;
    StartIs(c, g, out, u.0, d);
    ReachingAtIs(c, u.0, UnionOfPreds(g.preds[u.0], out), u.1, d);
  }

  /** A definition in the block before the last one is overwritten, and so is everything from the start. */
  lemma AtLast(c: Code, i: nat, r: nat, n: nat, a: int)
    requires i < |c.blocks| && n <= |c.blocks[i]| && -1 <= a < LastSet(c, i, r, n)
    ensures WrittenIn(c, i, r, a, n) && LinkWrittenIn(c, i, r, a, n)
  {
    var q := LastSet(c, i, r, n);
    assert Writes(c, c.blocks[i][q], r) && LinkWrites(c, c.blocks[i][q], r);
  }

  lemma DefAgrees(c: Code, g: Flow, out: seq<set<Uid>>, u: Uid, d: Uid)
    requires FlowOk(g) && |g.preds| == |c.blocks| && OutRight(c, g, out) && IsUser(c, u)
    requires IsDef(c, d) && InsnAt(c, d).reg in InsnAt(c, u).refs && Agrees(c, g, u.0, InsnAt(c, d).reg, u.1)
    ensures d in ReachingUse(c, g, out, u) <==> FlowsToUse(c, g, d, u)
  {
    hide WrittenIn, LinkWrittenIn, FlowsIn, FlowsTo, ReachingUse, LastSet;
    OneDef(c, g, out, u, d);
    var r := InsnAt(c, d).reg;
    var q := LastSet(c, u.0, r, u.1);
    if -1 < q {
      AtLast(c, u.0, r, u.1, -1);
    }
    if d.0 == u.0 && d.1 < u.1 {
      assert c.blocks[u.0][d.1] == SetBtr(r);
      assert d.1 <= q;
      if d.1 < q {
        AtLast(c, u.0, r, u.1, d.1);
      }
    }
  }

  lemma NotInBlock(c: Code, i: nat, r: nat, n: nat, d: Uid)
    requires i < |c.blocks| && n <= |c.blocks[i]| && LastSet(c, i, r, n) == -1
    requires IsDef(c, d) && InsnAt(c, d).reg == r
    ensures d.0 == i ==> d.1 >= n
  {
    assert InsnAt(c, d) == SetBtr(r);
  }

  lemma AgreesFrom(c: Code, g: Flow, out: seq<set<Uid>>, u: Uid, r: nat)
    requires FlowOk(g) && |g.preds| == |c.blocks| && OutRight(c, g, out) && IsUser(c, u) && r in InsnAt(c, u).refs
    requires forall d: Uid :: d in ReachingUse(c, g, out, u) <==> FlowsToUse(c, g, d, u)
    ensures Agrees(c, g, u.0, r, u.1)
  {
    hide WrittenIn, LinkWrittenIn, FlowsIn, FlowsTo, ReachingUse, LastSet;
    var q := LastSet(c, u.0, r, u.1);
    if Carried(c, g, u.0, r, u.1) {
      var d: Uid;
      if q >= 0 {
        d := (u.0, q);
        AtLast(c, u.0, r, u.1, -1);
      } else {
        d :| IsDef(c, d) && InsnAt(c, d).reg == r && FlowsIn(c, g, d, u.0);
        NotInBlock(c, u.0, r, u.1, d);
      }
      OneDef(c, g, out, u, d);
    }
  }

  /** The definitions linked to a use are those that flow to it if and only if for every register it refers to, what
      writes the register on the way and what link_btr_uses takes to write it agree. */
  lemma LinkedIffAgrees(c: Code, g: Flow, out: seq<set<Uid>>, u: Uid)
    requires FlowOk(g) && |g.preds| == |c.blocks| && OutRight(c, g, out) && IsUser(c, u)
    ensures (forall d: Uid :: d in ReachingUse(c, g, out, u) <==> FlowsToUse(c, g, d, u)) <==>
            (forall r: nat :: r in InsnAt(c, u).refs ==> Agrees(c, g, u.0, r, u.1))
  {
    hide WrittenIn, LinkWrittenIn, FlowsIn, FlowsTo, Agrees;
    if forall r: nat :: r in InsnAt(c, u).refs ==> Agrees(c, g, u.0, r, u.1) {
      forall d: Uid ensures d in ReachingUse(c, g, out, u) <==> FlowsToUse(c, g, d, u) {
        if IsDef(c, d) && InsnAt(c, d).reg in InsnAt(c, u).refs {
          DefAgrees(c, g, out, u, d);
        }
      }
    }
    if forall d: Uid :: d in ReachingUse(c, g, out, u) <==> FlowsToUse(c, g, d, u) {
      forall r: nat | r in InsnAt(c, u).refs ensures Agrees(c, g, u.0, r, u.1) {
        AgreesFrom(c, g, out, u, r);
      }
    }
  }

  /** Without a blockage or a sibling call before the use in its block they agree. */
  lemma PlainAgrees(c: Code, g: Flow, u: Uid, r: nat)
    requires |g.preds| == |c.blocks| && IsUser(c, u)
    requires Plainly(c, u)
    ensures Agrees(c, g, u.0, r, u.1)
  {
    forall q | 0 <= q < u.1 ensures Writes(c, c.blocks[u.0][q], r) == LinkWrites(c, c.blocks[u.0][q], r) {
    }
  }

  /** Register 1 is defined, a blockage follows, and register 1 is used: the definition is linked to the use, although it
      does not flow there. */
  lemma BlockageExample(out: seq<set<Uid>>)
    ensures var c := Code([[SetBtr(1), Blockage, Plain(Some(1), {1}, NoCall)]], {1}, {});
            var g := Flow([[]]);
            && CodeOk(c) && FlowOk(g) && IsUser(c, (0, 2))
            && (|out| == 1 ==> (0, 0) in ReachingUse(c, g, out, (0, 2)) && !FlowsToUse(c, g, (0, 0), (0, 2)))
  {
    var c := Code([[SetBtr(1), Blockage, Plain(Some(1), {1}, NoCall)]], {1}, {});
    var g := Flow([[]]);
    assert c.blocks[0] == [SetBtr(1), Blockage, Plain(Some(1), {1}, NoCall)];
    assert IsDef(c, (0, 0)) && InsnAt(c, (0, 0)).reg == 1;
    ReachingAtIs(c, 0, {}, 2, (0, 0));
    assert Writes(c, c.blocks[0][1], 1);
    assert WrittenIn(c, 0, 1, 0, 2) && WrittenIn(c, 0, 1, -1, 2);
  }

  /** If they agree at all uses, the list of a definition that can be followed holds exactly the uses it flows to, each
      once, and nothing else flows there. */
  lemma ExactFlow(c: Code, g: Flow, out: seq<set<Uid>>, w: Web, lists: map<Uid, seq<Uid>>, reached: map<Uid, set<Uid>>,
                  simple: map<Uid, bool>, d: Uid)
    requires FlowOk(g) && |g.preds| == |c.blocks| && OutRight(c, g, out) && UsersDone(c, g, out, reached, |c.blocks|, 0)
    requires Linked(w, lists, reached, simple) && d in w.heads && d in w.flags && !w.flags[d]
    requires forall u: Uid, r: nat :: IsUser(c, u) && r in InsnAt(c, u).refs ==> Agrees(c, g, u.0, r, u.1)
    ensures d in lists && Listed(w, w.heads[d], lists[d])
    ensures forall u: Uid :: u in lists[d] <==> IsUser(c, u) && FlowsToUse(c, g, d, u)
    ensures forall k, m :: 0 <= k < m < |lists[d]| ==> lists[d][k] != lists[d][m]
    ensures forall u: Uid, e: Uid :: u in lists[d] && IsUser(c, u) && FlowsToUse(c, g, e, u) ==> e == d
  {
    hide Listed, Agrees, ReachingUse, FlowsToUse;
    ExactWebs(c, g, out, w, lists, reached, simple, d);
    forall u: Uid | IsUser(c, u)
      ensures forall e: Uid :: e in ReachingUse(c, g, out, u) <==> FlowsToUse(c, g, e, u)
    {
      LinkedIffAgrees(c, g, out, u);
    }
  }

  /** No blockage and no sibling call comes before a use in its block. */
  predicate Plainly(c: Code, u: Uid)
    requires IsUser(c, u)
  {
    forall q :: 0 <= q < u.1 ==> !c.blocks[u.0][q].Blockage? && (c.blocks[u.0][q].Plain? ==> c.blocks[u.0][q].call != SibCall)
  }

  /** Where that is so for every use, a definition that can be followed has the right list. */
  lemma PlainExact(c: Code, g: Flow, out: seq<set<Uid>>, w: Web, lists: map<Uid, seq<Uid>>, reached: map<Uid, set<Uid>>,
                   simple: map<Uid, bool>, d: Uid)
    requires FlowOk(g) && |g.preds| == |c.blocks| && OutRight(c, g, out) && UsersDone(c, g, out, reached, |c.blocks|, 0)
    requires Linked(w, lists, reached, simple) && d in w.heads && d in w.flags && !w.flags[d]
    requires forall u: Uid :: IsUser(c, u) ==> Plainly(c, u)
    ensures d in lists && Listed(w, w.heads[d], lists[d])
    ensures forall u: Uid :: u in lists[d] <==> IsUser(c, u) && FlowsToUse(c, g, d, u)
    ensures forall u: Uid, e: Uid :: u in lists[d] && IsUser(c, u) && FlowsToUse(c, g, e, u) ==> e == d
  {
    hide Listed, Agrees, FlowsToUse, UsersDone, OutRight, Linked;
    forall u: Uid, r: nat | IsUser(c, u) && r in InsnAt(c, u).refs ensures Agrees(c, g, u.0, r, u.1) {
      PlainAgrees(c, g, u, r);
    }
    ExactFlow(c, g, out, w, lists, reached, simple, d);
  }

  /** If every walk from the entry to a use brings a definition that flows there, and only one definition does, then that
      one's block dominates the block of the use. */
  lemma OnlyDefDominates(c: Code, g: Flow, d: Uid, u: Uid)
    requires |g.preds| == |c.blocks| && IsUser(c, u) && IsDef(c, d)
    requires forall e: Uid :: FlowsToUse(c, g, e, u) ==> e == d
    requires forall p: seq<int> :: LiveRanges.EntryWalk(g, p) && p[|p|-1] == u.0 ==>
               exists e: Uid :: FlowsToUse(c, g, e, u) && e.0 in p
    ensures LiveRanges.Dominates(g, d.0, u.0)
  {
    hide FlowsToUse;
  }

  /** build_btr_def_use_webs, and what it means for each use: its webs are those of the flow exactly if the condition
      holds. */
  method BuildBtrDefUseWebs(c: Code, g: Flow, w: Webs) returns (out: seq<set<Uid>>)
    requires CodeOk(c) && FlowOk(g) && |g.preds| == |c.blocks| && ArraysOk(c, w)
    requires w.Mirrors() && w.reached == map[] && Linked(w.web, w.lists, w.reached, w.Simple())
    modifies w, w.defArray.Values, w.useArray.Values
    ensures w.Mirrors() && Linked(w.web, w.lists, w.reached, w.Simple()) && OutRight(c, g, out)
    ensures UsersDone(c, g, out, w.reached, |c.blocks|, 0)
    ensures forall u: Uid :: u in w.reached <==> IsUser(c, u)
    ensures forall u: Uid :: u in w.reached ==>
              ((forall d: Uid :: d in w.reached[u] <==> FlowsToUse(c, g, d, u)) <==>
               (forall r: nat :: r in InsnAt(c, u).refs ==> Agrees(c, g, u.0, r, u.1)))
  {
    hide Linked, FlowsTo, ArraysOk, CodeOk, FlowOk, Agrees, ReachingUse, FlowsToUse;
    out := ComputeReaching(c, g);
    LinkBtrUses(c, g, out, w);
    ghost var reached := w.reached;
    forall u: Uid | u in reached
      ensures (forall d: Uid :: d in reached[u] <==> FlowsToUse(c, g, d, u)) <==>
              (forall r: nat :: r in InsnAt(c, u).refs ==> Agrees(c, g, u.0, r, u.1))
    {
      LinkedIffAgrees(c, g, out, u);
    }
  }
}
