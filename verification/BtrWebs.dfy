/** Definitions and uses of branch target registers, and the webs that link them. */
module BtrWebs {
  import opened BtrFlow
  import opened Options

  datatype Call = NoCall | Call | SibCall

  /** Instructions, as far as they matter to branch target registers: a definition, a blockage that may change all
      registers, or another instruction with the registers it refers to.  If it has a single unambiguous use, use
      says which register that is. */
  datatype Insn = SetBtr(reg: nat) | Blockage | Plain(use: Option<nat>, refs: set<nat>, call: Call)

  /** The blocks' instructions, the registers considered, and those that calls clobber. */
  datatype Code = Code(blocks: seq<seq<Insn>>, allBtrs: set<nat>, callUsed: set<nat>)

  predicate InsnOk(insn: Insn, allBtrs: set<nat>) {
    match insn
    case SetBtr(r) => r in allBtrs
    case Blockage => true
    case Plain(use, refs, _) => refs <= allBtrs && (use.Some? ==> refs == {use.value})
  }

  predicate CodeOk(c: Code) {
    forall i, p :: 0 <= i < |c.blocks| && 0 <= p < |c.blocks[i]| ==> InsnOk(c.blocks[i][p], c.allBtrs)
  }

  /** An instruction, by block and position. */
  type Uid = (nat, nat)

  predicate IsInsn(c: Code, u: Uid) {
    u.0 < |c.blocks| && u.1 < |c.blocks[u.0]|
  }

  function InsnAt(c: Code, u: Uid): Insn
    requires IsInsn(c, u)
  {
    c.blocks[u.0][u.1]
  }

  predicate IsDef(c: Code, u: Uid) {
    IsInsn(c, u) && InsnAt(c, u).SetBtr?
  }

  predicate IsUser(c: Code, u: Uid) {
    IsInsn(c, u) && InsnAt(c, u).Plain? && InsnAt(c, u).refs != {}
  }

  // ---------- compute_defs_uses_and_gen and compute_kill ----------

  /** The registers that a call changes: those it clobbers, or for a sibling call those it does not. */
  predicate CallWrites(c: Code, call: Call, r: nat) {
    match call
    case NoCall => false
    case Call => r in c.callUsed
    case SibCall => r !in c.callUsed
  }

  predicate Writes(c: Code, insn: Insn, r: nat) {
    match insn
    case SetBtr(s) => r == s
    case Blockage => true
    case Plain(_, _, call) => CallWrites(c, call, r)
  }

  /** The definition survives to position n of its block: nothing after it writes its register. */
  predicate Survives(c: Code, u: Uid, n: nat)
    requires u.0 < |c.blocks| && n <= |c.blocks[u.0]|
  {
    u.1 < n && c.blocks[u.0][u.1].SetBtr? &&
    forall q :: u.1 < q < n ==> !Writes(c, c.blocks[u.0][q], c.blocks[u.0][u.1].reg)
  }

  predicate Written(c: Code, i: nat, n: nat, r: nat)
    requires i < |c.blocks| && n <= |c.blocks[i]|
  {
    r in c.allBtrs && exists q :: 0 <= q < n && Writes(c, c.blocks[i][q], r)
  }

  /** Remove the definitions of some registers. */
  function Without(c: Code, defs: set<Uid>, regs: set<nat>): set<Uid> {
    set d | d in defs && !(IsDef(c, d) && InsnAt(c, d).reg in regs)
  }

  /** One block of compute_defs_uses_and_gen: the definitions it generates and the registers it writes. */
  method ComputeBlock(c: Code, i: nat) returns (gen: set<Uid>, written: set<nat>, defs: set<Uid>)
    requires CodeOk(c) && i < |c.blocks|
    ensures forall u: Uid :: u in gen <==> u.0 == i && Survives(c, u, |c.blocks[i]|)
    ensures forall r: nat :: r in written <==> Written(c, i, |c.blocks[i]|, r)
    ensures forall u: Uid :: u in defs <==> u.0 == i && IsDef(c, u)
  {
    gen, written, defs := {}, {}, {};
    var block := c.blocks[i];
    for p := 0 to |block|
      invariant forall u: Uid :: u in gen <==> u.0 == i && Survives(c, u, p)
      invariant forall r: nat :: r in written <==> Written(c, i, p, r)
      invariant forall u: Uid :: u in defs <==> u.0 == i && u.1 < p && IsDef(c, u)
    {
      assert InsnOk(block[p], c.allBtrs);
      ghost var g, w := gen, written;
      match block[p] {
        case SetBtr(r) =>
          written := written + {r};
          gen := Without(c, gen, {r}) + {(i, p)};
          defs := defs + {(i, p)};
        case Blockage =>
          written := written + c.allBtrs;
          gen := {};
        case Plain(_, _, call) =>
          if call != NoCall {
            var clobbered := if call == SibCall then c.allBtrs - c.callUsed else c.allBtrs * c.callUsed;
            written := written + clobbered;
            gen := Without(c, gen, clobbered);
          }
      }
      SurvivesStep(c, i, p, g, gen);
      WrittenStep(c, i, p, w, written);
    }
  }

  lemma SurvivesStep(c: Code, i: nat, p: nat, gen: set<Uid>, gen': set<Uid>)
    requires CodeOk(c) && i < |c.blocks| && p < |c.blocks[i]|
    requires forall u: Uid :: u in gen <==> u.0 == i && Survives(c, u, p)
    requires match c.blocks[i][p]
             case SetBtr(r) => gen' == Without(c, gen, {r}) + {(i, p)}
             case Blockage => gen' == {}
             case Plain(_, _, call) =>
               if call == NoCall then gen' == gen
               else gen' == Without(c, gen, if call == SibCall then c.allBtrs - c.callUsed else c.allBtrs * c.callUsed)
    ensures forall u: Uid :: u in gen' <==> u.0 == i && Survives(c, u, p + 1)
  {
    forall u: Uid ensures u in gen' <==> u.0 == i && Survives(c, u, p + 1) {
      if u.0 == i && u.1 < p && c.blocks[i][u.1].SetBtr? {
        assert InsnOk(c.blocks[i][u.1], c.allBtrs);
        assert Survives(c, u, p + 1) <==> Survives(c, u, p) && !Writes(c, c.blocks[i][p], c.blocks[i][u.1].reg);
      }
    }
  }

  lemma WrittenStep(c: Code, i: nat, p: nat, written: set<nat>, written': set<nat>)
    requires CodeOk(c) && i < |c.blocks| && p < |c.blocks[i]|
    requires forall r: nat :: r in written <==> Written(c, i, p, r)
    requires match c.blocks[i][p]
             case SetBtr(r) => written' == written + {r}
             case Blockage => written' == written + c.allBtrs
             case Plain(_, _, call) =>
               if call == NoCall then written' == written
               else written' == written + if call == SibCall then c.allBtrs - c.callUsed else c.allBtrs * c.callUsed
    ensures forall r: nat :: r in written' <==> Written(c, i, p + 1, r)
  {
    assert InsnOk(c.blocks[i][p], c.allBtrs);
    forall r: nat ensures r in written' <==> Written(c, i, p + 1, r) {
      assert Written(c, i, p + 1, r) <==> r in c.allBtrs && (Written(c, i, p, r) || Writes(c, c.blocks[i][p], r));
    }
  }
  ghost predicate GenRight(c: Code, gen: seq<set<Uid>>) {
    |gen| <= |c.blocks| && forall i, u: Uid :: 0 <= i < |gen| ==> (u in gen[i] <==> u.0 == i && Survives(c, u, |c.blocks[i]|))
  }

  ghost predicate WrittenRight(c: Code, written: seq<set<nat>>) {
    |written| <= |c.blocks| &&
    forall i, r: nat :: 0 <= i < |written| ==> (r in written[i] <==> Written(c, i, |c.blocks[i]|, r))
  }

  /** compute_defs_uses_and_gen over all blocks. */
  method ComputeDefsAndGen(c: Code) returns (gen: seq<set<Uid>>, written: seq<set<nat>>, defs: set<Uid>)
    requires CodeOk(c)
    ensures |gen| == |written| == |c.blocks| && GenRight(c, gen) && WrittenRight(c, written)
    ensures forall u: Uid :: u in defs <==> IsDef(c, u)
  {
    gen, written, defs := [], [], {};
    for i := 0 to |c.blocks|
      invariant |gen| == |written| == i && GenRight(c, gen) && WrittenRight(c, written)
      invariant forall u: Uid :: u in defs <==> u.0 < i && IsDef(c, u)
    {
      var g, w, d := ComputeBlock(c, i);
      gen, written, defs := gen + [g], written + [w], defs + d;
    }
  }

  /** The definitions that block i kills: those of registers it writes. */
  predicate Kills(c: Code, i: nat, u: Uid)
    requires i < |c.blocks|
  {
    IsDef(c, u) && Written(c, i, |c.blocks[i]|, InsnAt(c, u).reg)
  }

  /** compute_kill. */
  method ComputeKill(c: Code, written: seq<set<nat>>, defs: set<Uid>) returns (kill: seq<set<Uid>>)
    requires CodeOk(c) && |written| == |c.blocks| && WrittenRight(c, written)
    requires forall u: Uid :: u in defs <==> IsDef(c, u)
    ensures |kill| == |c.blocks|
    ensures forall i, u: Uid :: 0 <= i < |kill| ==> (u in kill[i] <==> Kills(c, i, u))
  {
    kill := [];
    for i := 0 to |c.blocks|
      invariant |kill| == i
      invariant forall k, u: Uid :: 0 <= k < |kill| ==> (u in kill[k] <==> Kills(c, k, u))
    {
      kill := kill + [set u | u in defs && InsnAt(c, u).reg in written[i]];
    }
  }

  // ---------- link_btr_uses ----------

  /** The definitions taken to reach position p of a block, from those that reach its start.  A blockage is passed
      over here, and every call clobbers the call-used registers. */
  function ReachingAt(c: Code, i: nat, start: set<Uid>, p: nat): set<Uid>
    requires i < |c.blocks| && p <= |c.blocks[i]|
  {
    if p == 0 then start
    else
      var before := ReachingAt(c, i, start, p - 1);
      match c.blocks[i][p-1]
      case SetBtr(r) => Without(c, before, {r}) + {(i, p - 1)}
      case Plain(_, _, call) => if call == NoCall then before else Without(c, before, c.callUsed)
      case Blockage => before
  }

  /** The reaching definitions of a use: those of the registers it refers to. */
  function ReachingUse(c: Code, g: Flow, out: seq<set<Uid>>, u: Uid): set<Uid>
    requires FlowOk(g) && |g.preds| == |out| == |c.blocks| && IsUser(c, u)
  {
    set d | d in ReachingAt(c, u.0, UnionOfPreds(g.preds[u.0], out), u.1) &&
            IsDef(c, d) && InsnAt(c, d).reg in InsnAt(c, u).refs
  }

  class BtrUser {
    var next: BtrUser?
    var firstReachingDef: Option<Uid>
    const use: Option<nat>

    constructor (use: Option<nat>, next: BtrUser?)
      ensures this.use == use && firstReachingDef == None
    {
      this.use := use;
      this.next := next;
      firstReachingDef := None;
    }
  }

  class BtrDef {
    var uses: BtrUser?
    var hasAmbiguousUse: bool

    constructor ()
      ensures uses == null && !hasAmbiguousUse
    {
      uses := null;
      hasAmbiguousUse := false;
    }
  }

  /** The fields of all definitions and users: heads of the uses lists and ambiguity flags; links and first reaching
      definitions of the users linked so far. */
  datatype Web = Web(heads: map<Uid, Option<Uid>>, flags: map<Uid, bool>, next: map<Uid, Option<Uid>>,
                     first: map<Uid, Uid>)

  ghost predicate WebOk(w: Web) {
    w.heads.Keys == w.flags.Keys && forall u :: u in w.first ==> w.first[u] in w.flags
  }

  /** What linking one more reaching definition does. */
  ghost function Link(w: Web, u: Uid, simple: bool, d: Uid): Web
    requires WebOk(w) && d in w.heads
  {
    var flags := if u in w.first then w.flags[w.first[u] := true] else w.flags;
    Web(w.heads[d := Some(u)],
        flags[d := flags[d] || !simple || u in w.first],
        w.next[u := w.heads[d]],
        if u in w.first then w.first else w.first[u := d])
  }

  /** From head the links run through l. */
  ghost predicate Listed(w: Web, head: Option<Uid>, l: seq<Uid>) {
    && head == (if l == [] then None else Some(l[0]))
    && forall k {:trigger l[k]} :: 0 <= k < |l| ==>
         l[k] in w.next && w.next[l[k]] == if k + 1 < |l| then Some(l[k+1]) else None
  }

  /** Only definitions that are not ambiguous have usable lists. */
  ghost predicate LinkRight(w: Web, lists: map<Uid, seq<Uid>>, d: Uid)
    requires WebOk(w) && d in w.heads && d in lists
  {
    !w.flags[d] ==> Listed(w, w.heads[d], lists[d])
  }

  ghost predicate Spoils(simple: bool, r: set<Uid>) {
    !simple || |r| > 1
  }

  /** The users linked so far with their reaching definitions, against the fields and the lists.  simple says which
      users are simple. */
  ghost predicate Linked(w: Web, lists: map<Uid, seq<Uid>>, reached: map<Uid, set<Uid>>, simple: map<Uid, bool>) {
    && WebOk(w) && lists.Keys == w.heads.Keys
    && (forall u :: u in w.first ==> u in reached)
    && (forall u :: u in reached ==> u in simple && reached[u] <= w.heads.Keys)
    && (forall d :: d in w.heads ==> LinkRight(w, lists, d))
    && (forall d :: d in w.heads ==> ListRight(lists[d], reached, d))
    && (forall d :: d in w.heads ==> (w.flags[d] <==> Spoilt(reached, simple, d)))
  }

  /** The list of d holds each linked user that d reaches once. */
  ghost predicate ListRight(l: seq<Uid>, reached: map<Uid, set<Uid>>, d: Uid) {
    && (forall u :: u in l <==> u in reached && d in reached[u])
    && (forall k, m :: 0 <= k < m < |l| ==> l[k] != l[m])
  }

  ghost predicate Spoilt(reached: map<Uid, set<Uid>>, simple: map<Uid, bool>, d: Uid) {
    exists u :: u in reached && u in simple && d in reached[u] && Spoils(simple[u], reached[u])
  }

  /** One more user is being linked: it is reached by the definitions of done, as far as found out. */
  ghost predicate Linking(w: Web, lists: map<Uid, seq<Uid>>, reached: map<Uid, set<Uid>>, simple: map<Uid, bool>,
                          u: Uid, done: set<Uid>) {
    && u !in reached && u in simple && done <= w.heads.Keys
    && Linked(w, lists, reached[u := done], simple)
    && (u in w.first <==> done != {})
    && (u in w.first ==> w.first[u] in done)
  }

  lemma LinkStart(w: Web, lists: map<Uid, seq<Uid>>, reached: map<Uid, set<Uid>>, simple: map<Uid, bool>, u: Uid)
    requires Linked(w, lists, reached, simple) && u !in reached && u in simple
    ensures Linking(w, lists, reached, simple, u, {})
  {
    var r := reached[u := {}];
    forall d | d in w.heads ensures ListRight(lists[d], r, d) && (Spoilt(r, simple, d) <==> Spoilt(reached, simple, d)) {
      assert ListRight(lists[d], reached, d);
      if Spoilt(reached, simple, d) {
        var v :| v in reached && v in simple && d in reached[v] && Spoils(simple[v], reached[v]);
        assert v in r && r[v] == reached[v];
      }
    }
  }

  lemma LinkingEnds(w: Web, lists: map<Uid, seq<Uid>>, reached: map<Uid, set<Uid>>, simple: map<Uid, bool>,
                    u: Uid, done: set<Uid>)
    requires Linking(w, lists, reached, simple, u, done)
    ensures Linked(w, lists, reached[u := done], simple) && lists.Keys == w.heads.Keys
  {
  }

  /** Linking one more definition that reaches u. */
  lemma LinkStep(w: Web, lists: map<Uid, seq<Uid>>, reached: map<Uid, set<Uid>>, simple: map<Uid, bool>,
                 u: Uid, done: set<Uid>, d: Uid)
    requires Linking(w, lists, reached, simple, u, done) && d in w.heads && d !in done
    ensures Linking(Link(w, u, simple[u], d), lists[d := [u] + lists[d]], reached, simple, u, done + {d})
  {
    hide ListRight, Spoilt, LinkRight, Link;
    var (w', lists', done') := (Link(w, u, simple[u], d), lists[d := [u] + lists[d]], done + {d});
    var (r, r') := (reached[u := done], reached[u := done']);
    LinkFields(w, u, simple[u], d);
    forall e | e in w.heads
      ensures LinkRight(w', lists', e) && ListRight(lists'[e], r', e) && (w'.flags[e] <==> Spoilt(r', simple, e))
    {
      assert LinkRight(w, lists, e) && ListRight(lists[e], r, e) && (w.flags[e] <==> Spoilt(r, simple, e));
      StepFlags(w, reached, simple, u, done, d, e);
      StepList(lists[e], reached, u, done, d, e);
      StepLinks(w, lists, reached, simple, u, done, d, e);
    }
    forall v | v in r' ensures v in simple && r'[v] <= w'.heads.Keys {
      assert v != u ==> v in r && r[v] == r'[v];
      assert r[u] == done;
    }
  }

  lemma LinkFields(w: Web, u: Uid, simple: bool, d: Uid)
    requires WebOk(w) && d in w.heads
    ensures WebOk(Link(w, u, simple, d)) && Link(w, u, simple, d).heads.Keys == w.heads.Keys
    ensures Link(w, u, simple, d).first == if u in w.first then w.first else w.first[u := d]
  {
  }

  lemma StepList(l: seq<Uid>, reached: map<Uid, set<Uid>>, u: Uid, done: set<Uid>, d: Uid, e: Uid)
    requires ListRight(l, reached[u := done], e) && d !in done && u !in reached
    ensures ListRight(if e == d then [u] + l else l, reached[u := done + {d}], e)
  {
    var l' := if e == d then [u] + l else l;
    var r, r' := reached[u := done], reached[u := done + {d}];
    forall v ensures v in l' <==> v in r' && e in r'[v] {
      assert v in l <==> v in r && e in r[v];
    }
    if e == d {
      assert u !in l;
    }
  }

  /** A spoiling user is one of the others or u itself. */
  lemma SpoiltWith(reached: map<Uid, set<Uid>>, simple: map<Uid, bool>, u: Uid, x: set<Uid>, e: Uid)
    requires u !in reached && u in simple
    ensures Spoilt(reached[u := x], simple, e) <==> Spoilt(reached, simple, e) || (e in x && Spoils(simple[u], x))
  {
    var r := reached[u := x];
    if Spoilt(reached, simple, e) {
      var v :| v in reached && v in simple && e in reached[v] && Spoils(simple[v], reached[v]);
      assert v in r && r[v] == reached[v];
    }
    if e in x && Spoils(simple[u], x) {
      assert u in r && r[u] == x;
    }
    if Spoilt(r, simple, e) {
      var v :| v in r && v in simple && e in r[v] && Spoils(simple[v], r[v]);
      assert v != u ==> v in reached && reached[v] == r[v];
    }
  }

  lemma OneOrMore(x: set<Uid>, a: Uid, e: Uid)
    requires a in x && e in x
    ensures a == e || |x| > 1
  {
    if a != e {
      assert |{a, e}| <= |x| by {
        Subset({a, e}, x);
      }
    }
  }

  lemma Subset<T>(a: set<T>, b: set<T>)
    requires a <= b
    ensures |a| <= |b|
  {
    assert b == a + (b - a);
  }

  lemma StepFlags(w: Web, reached: map<Uid, set<Uid>>, simple: map<Uid, bool>, u: Uid, done: set<Uid>, d: Uid, e: Uid)
    requires WebOk(w) && d in w.heads && e in w.heads && u !in reached && u in simple && d !in done
    requires w.flags[e] <==> Spoilt(reached[u := done], simple, e)
    requires (u in w.first <==> done != {}) && (u in w.first ==> w.first[u] in done)
    ensures e in Link(w, u, simple[u], d).flags
    ensures Link(w, u, simple[u], d).flags[e] <==> Spoilt(reached[u := done + {d}], simple, e)
  {
    hide Spoilt;
    SpoiltWith(reached, simple, u, done, e);
    SpoiltWith(reached, simple, u, done + {d}, e);
    assert |done + {d}| == |done| + 1;
    if u in w.first {
      assert |done| >= 1;
      if e in done {
        OneOrMore(done, w.first[u], e);
      }
    } else {
      assert done + {d} == {d};
    }
  }

  lemma StepLinks(w: Web, lists: map<Uid, seq<Uid>>, reached: map<Uid, set<Uid>>, simple: map<Uid, bool>,
                  u: Uid, done: set<Uid>, d: Uid, e: Uid)
    requires WebOk(w) && lists.Keys == w.heads.Keys && d in w.heads && e in w.heads && d !in done
    requires u !in reached && u in simple && (u in w.first <==> done != {})
    requires LinkRight(w, lists, e) && ListRight(lists[e], reached[u := done], e)
    requires Link(w, u, simple[u], d).flags.Keys == w.flags.Keys
    requires Link(w, u, simple[u], d).flags[e] <==> Spoilt(reached[u := done + {d}], simple, e)
    ensures LinkRight(Link(w, u, simple[u], d), lists[d := [u] + lists[d]], e)
  {
    var w' := Link(w, u, simple[u], d);
    assert u in lists[e] <==> e in done;
    SpoiltWith(reached, simple, u, done + {d}, e);
    hide Spoilt, ListRight;
    if !w'.flags[e] && e in done {
      OneOrMore(done + {d}, d, e);
      assert false;
    }
  }
  class Webs {
    const defArray: map<Uid, BtrDef>
    const useArray: map<Uid, BtrUser>
    ghost var web: Web
    ghost var lists: map<Uid, seq<Uid>>
    ghost var reached: map<Uid, set<Uid>>

    constructor (defs: map<Uid, BtrDef>, users: map<Uid, BtrUser>)
      requires forall d, e :: d in defs && e in defs && d != e ==> defs[d] != defs[e]
      requires forall u, v :: u in users && v in users && u != v ==> users[u] != users[v]
      requires forall d :: d in defs ==> defs[d].uses == null && !defs[d].hasAmbiguousUse
      requires forall u :: u in users ==> users[u].firstReachingDef == None
      ensures defArray == defs && useArray == users && reached == map[]
      ensures Mirrors() && Linked(web, lists, reached, Simple())
    {
      defArray := defs;
      useArray := users;
      web := Web(map d | d in defs :: None, map d | d in defs :: false, map[], map[]);
      lists := map d | d in defs :: [];
      reached := map[];
    }

    /** Which users have a single unambiguous use. */
    ghost function Simple(): map<Uid, bool>
    {
      map u | u in useArray :: useArray[u].use.Some?
    }

    ghost predicate Points(p: BtrUser?, o: Option<Uid>) {
      if o.None? then p == null else o.value in useArray && p == useArray[o.value]
    }

    ghost predicate DefMirrors(d: Uid)
      reads this`web, if d in defArray then {defArray[d]} else {}
    {
      d in defArray && d in web.heads && d in web.flags &&
      Points(defArray[d].uses, web.heads[d]) && defArray[d].hasAmbiguousUse == web.flags[d]
    }

    ghost predicate UserMirrors(u: Uid)
      reads this`web, if u in useArray then {useArray[u]} else {}
    {
      && u in useArray
      && (u in web.next ==> Points(useArray[u].next, web.next[u]))
      && useArray[u].firstReachingDef == if u in web.first then Some(web.first[u]) else None
    }

    ghost predicate Separate() {
      && (forall d, e :: d in defArray && e in defArray && d != e ==> defArray[d] != defArray[e])
      && (forall u, v :: u in useArray && v in useArray && u != v ==> useArray[u] != useArray[v])
    }

    /** The fields of the objects are those of web. */
    ghost predicate Mirrors()
      reads this`web, defArray.Values, useArray.Values
    {
      && Separate()
      && WebOk(web) && web.heads.Keys == defArray.Keys && web.next.Keys <= useArray.Keys
      && (forall d :: d in defArray ==> DefMirrors(d))
      && (forall u :: u in useArray ==> UserMirrors(u))
    }

    /** Link one definition that reaches user: the objects involved. */
    method LinkFirst(u: Uid, uid: Uid)
      requires Mirrors() && u in useArray && uid in defArray
      modifies this`web, useArray[u], defArray.Values
      ensures web == Link(old(web), u, useArray[u].use.Some?, uid)
      ensures forall d :: d in defArray ==> DefMirrors(d)
      ensures useArray[u].next == old(defArray[uid].uses)
      ensures useArray[u].firstReachingDef == if u in old(web).first then Some(old(web).first[u]) else Some(uid)
    {
      hide Link, Points, Separate, WebOk;
      assert UserMirrors(u) && DefMirrors(uid);
      Apart();
      FirstIn(u);
      var user, def := useArray[u], defArray[uid];
      var first := if user.firstReachingDef.Some? then defArray[user.firstReachingDef.value] else null;
      ghost var w := web;
      LinkEnds(w, u, user.use.Some?, uid);
      PointsAt(user, u);
      LinkObjects(user, def, uid, first);
      web := Link(w, u, user.use.Some?, uid);
      forall d | d in defArray ensures DefMirrors(d) {
        assert old(DefMirrors(d));
        LinkOthers(w, u, user.use.Some?, uid, d);
      }
    }

    /** Link one definition that reaches user. */
    method LinkOne(u: Uid, uid: Uid)
      requires Mirrors() && u in useArray && uid in defArray
      modifies this`web, defArray.Values, useArray.Values
      ensures Mirrors() && web == Link(old(web), u, useArray[u].use.Some?, uid)
    {
      hide Link, Points, WebOk;
      assert UserMirrors(u) && DefMirrors(uid);
      ghost var w := web;
      LinkEnds(w, u, useArray[u].use.Some?, uid);
      LinkFirst(u, uid);
      forall v | v in useArray ensures UserMirrors(v) {
        assert old(UserMirrors(v));
        LinkOthers(w, u, useArray[u].use.Some?, uid, v);
      }
    }

    /** Link one more definition that reaches a user, with its list. */
    method LinkNext(u: Uid, d: Uid, ghost linked: map<Uid, set<Uid>>, ghost done: set<Uid>)
      requires Mirrors() && u in useArray && d in defArray && d !in done
      requires Linking(web, lists, linked, Simple(), u, done) && lists.Keys == defArray.Keys
      modifies this`web, this`lists, defArray.Values, useArray.Values
      ensures Mirrors() && Linking(web, lists, linked, Simple(), u, done + {d}) && lists.Keys == defArray.Keys
    {
      hide Linked, Linking, Link, DefMirrors, UserMirrors, Separate, Points, WebOk, Simple;
      SimpleAt(u);
      LinkStep(web, lists, linked, Simple(), u, done, d);
      ghost var l := lists[d := [u] + lists[d]];
      LinkOne(u, d);
      lists := l;
    }

    /** Link a user to all definitions that reach it, in any order. */
    method LinkUse(u: Uid, r: set<Uid>)
      requires Mirrors() && Linked(web, lists, reached, Simple())
      requires u in useArray && u !in reached && r <= defArray.Keys
      modifies this`web, this`lists, this`reached, defArray.Values, useArray.Values
      ensures Mirrors() && Linked(web, lists, reached, Simple())
      ensures reached == old(reached)[u := r]
    {
      hide Linked, Linking, Link, DefMirrors, UserMirrors, Separate, Points, WebOk, Simple;
      SimpleAt(u);
      LinkStart(web, lists, reached, Simple(), u);
      LinkingEnds(web, lists, reached, Simple(), u, {});
      var left := r;
      assert r - left == {};
      ghost var before := reached;
      while left != {}
        invariant left <= r && Mirrors()
        invariant lists.Keys == defArray.Keys
        invariant Linking(web, lists, before, Simple(), u, r - left)
        decreases left
      {
        var d :| d in left;
        assert r - (left - {d}) == (r - left) + {d};
        LinkNext(u, d, before, r - left);
        left := left - {d};
      }
      assert r - {} == r;
      LinkingEnds(web, lists, before, Simple(), u, r);
      reached := before[u := r];
    }

    lemma SimpleAt(u: Uid)
      requires u in useArray
      ensures u in Simple() && Simple()[u] == useArray[u].use.Some?
    {
    }

    lemma Apart()
      requires Separate()
      ensures forall d, e :: d in defArray && e in defArray && defArray[d] == defArray[e] ==> d == e
      ensures forall u, v :: u in useArray && v in useArray && useArray[u] == useArray[v] ==> u == v
    {
    }

    lemma FirstIn(u: Uid)
      requires Mirrors() && u in useArray
      ensures useArray[u].firstReachingDef.Some? ==> u in web.first && web.first[u] in defArray
                                                     && useArray[u].firstReachingDef == Some(web.first[u])
      ensures useArray[u].firstReachingDef.None? ==> u !in web.first
    {
      assert UserMirrors(u);
    }

    lemma PointsAt(user: BtrUser, u: Uid)
      requires u in useArray && useArray[u] == user
      ensures Points(user, Some(u))
    {
    }
  }

  /** Link a definition to a user; first is the one found before, if any. */
  method LinkObjects(user: BtrUser, def: BtrDef, uid: Uid, first: BtrDef?)
    requires user.firstReachingDef.Some? <==> first != null
    modifies user`next, user`firstReachingDef, def
    modifies (if first != null then {first} else {})`hasAmbiguousUse
    ensures user.firstReachingDef == if first != null then old(user.firstReachingDef) else Some(uid)
    ensures user.next == old(def.uses) && def.uses == user
    ensures def.hasAmbiguousUse == (old(def.hasAmbiguousUse) || user.use.None? || first != null)
    ensures first != null ==> first.hasAmbiguousUse
  {
    if user.use.None? {
      def.hasAmbiguousUse := true;
    }
    if first != null {
      def.hasAmbiguousUse := true;
      first.hasAmbiguousUse := true;
    } else {
      user.firstReachingDef := Some(uid);
    }
    user.next := def.uses;
    def.uses := user;
  }

  lemma LinkEnds(w: Web, u: Uid, simple: bool, d: Uid)
    requires WebOk(w) && d in w.heads
    ensures var w' := Link(w, u, simple, d);
            && WebOk(w') && w'.heads.Keys == w.heads.Keys && w'.next.Keys == w.next.Keys + {u}
            && w'.heads[d] == Some(u) && w'.next[u] == w.heads[d] && d in w'.flags
            && w'.flags[d] == (w.flags[d] || !simple || u in w.first)
            && w'.first == (if u in w.first then w.first else w.first[u := d])
            && (u in w.first ==> w.first[u] in w'.flags && w'.flags[w.first[u]])
  {
  }

  /** Other definitions and users keep their fields. */
  lemma LinkOthers(w: Web, u: Uid, simple: bool, d: Uid, x: Uid)
    requires WebOk(w) && d in w.heads
    ensures var w' := Link(w, u, simple, d);
            && (x != d && x in w.heads ==> x in w'.heads && w'.heads[x] == w.heads[x])
            && (x != d && x in w.heads ==> x in w'.flags && w'.flags[x] == (w.flags[x] || (u in w.first && x == w.first[u])))
            && (x != u ==> (x in w'.next <==> x in w.next) && (x in w.next ==> w'.next[x] == w.next[x]))
            && (x != u ==> (x in w'.first <==> x in w.first) && (x in w.first ==> w'.first[x] == w.first[x]))
  {
  }
  /** One instruction for the reaching definitions. */
  lemma ReachingNext(c: Code, i: nat, start: set<Uid>, p: nat)
    requires i < |c.blocks| && p < |c.blocks[i]|
    ensures ReachingAt(c, i, start, p + 1) ==
            match c.blocks[i][p]
            case SetBtr(r) => Without(c, ReachingAt(c, i, start, p), {r}) + {(i, p)}
            case Plain(_, _, call) => if call == NoCall then ReachingAt(c, i, start, p)
                                      else Without(c, ReachingAt(c, i, start, p), c.callUsed)
            case Blockage => ReachingAt(c, i, start, p)
  {
  }

  /** The users before position p of block i are linked to the definitions that reach them. */
  ghost predicate UsersDone(c: Code, g: Flow, out: seq<set<Uid>>, reached: map<Uid, set<Uid>>, i: nat, p: nat)
    requires FlowOk(g) && |g.preds| == |out| == |c.blocks|
  {
    && (forall u: Uid :: u in reached <==> IsUser(c, u) && (u.0 < i || (u.0 == i && u.1 < p)))
    && (forall u: Uid :: u in reached ==> reached[u] == ReachingUse(c, g, out, u))
  }

  /** The arrays hold an object for each definition and each user, which is simple as its instruction says. */
  ghost predicate ArraysOk(c: Code, w: Webs) {
    && (forall d: Uid :: d in w.defArray <==> IsDef(c, d))
    && (forall u: Uid :: u in w.useArray <==> IsUser(c, u))
    && (forall u: Uid :: u in w.useArray ==> w.useArray[u].use == InsnAt(c, u).use)
  }

  /** link_btr_uses. */
  method LinkBtrUses(c: Code, g: Flow, out: seq<set<Uid>>, w: Webs)
    requires CodeOk(c) && FlowOk(g) && |g.preds| == |out| == |c.blocks| && ArraysOk(c, w)
    requires w.Mirrors() && w.reached == map[] && Linked(w.web, w.lists, w.reached, w.Simple())
    modifies w, w.defArray.Values, w.useArray.Values
    ensures w.Mirrors() && Linked(w.web, w.lists, w.reached, w.Simple())
    ensures UsersDone(c, g, out, w.reached, |c.blocks|, 0)
  {
    hide Linked, Writes;
    var i := 0;
    while i < |c.blocks|
      invariant 0 <= i <= |c.blocks| && w.Mirrors() && Linked(w.web, w.lists, w.reached, w.Simple())
      invariant UsersDone(c, g, out, w.reached, i, 0)
    {
      LinkBlock(c, g, out, w, i);
      i := i + 1;
    }
  }

  method LinkBlock(c: Code, g: Flow, out: seq<set<Uid>>, w: Webs, i: nat)
    requires CodeOk(c) && FlowOk(g) && |g.preds| == |out| == |c.blocks| && ArraysOk(c, w) && i < |c.blocks|
    requires w.Mirrors() && Linked(w.web, w.lists, w.reached, w.Simple()) && UsersDone(c, g, out, w.reached, i, 0)
    modifies w, w.defArray.Values, w.useArray.Values
    ensures w.Mirrors() && Linked(w.web, w.lists, w.reached, w.Simple())
    ensures UsersDone(c, g, out, w.reached, i + 1, 0)
  {
    hide Linked, Writes, ReachingAt, UsersDone, ArraysOk, CodeOk;
    ReachingZero(c, i, UnionOfPreds(g.preds[i], out));
    var reachingDefs := UnionOfPreds(g.preds[i], out);
    ghost var start := reachingDefs;
    var p := 0;
    while p < |c.blocks[i]|
      invariant 0 <= p <= |c.blocks[i]| && w.Mirrors() && Linked(w.web, w.lists, w.reached, w.Simple())
      invariant UsersDone(c, g, out, w.reached, i, p)
      invariant reachingDefs == ReachingAt(c, i, start, p)
    {
      ReachingNext(c, i, start, p);
      LinkInsn(c, g, out, w, i, p, reachingDefs);
      match c.blocks[i][p] {
        case SetBtr(r) =>
          reachingDefs := Without(c, reachingDefs, {r}) + {(i, p)};
        case Plain(_, _, call) =>
          if call != NoCall {
            reachingDefs := Without(c, reachingDefs, c.callUsed);
          }
        case Blockage =>
      }
      p := p + 1;
    }
    BlockDone(c, g, out, w.reached, i);
  }

  lemma BlockDone(c: Code, g: Flow, out: seq<set<Uid>>, reached: map<Uid, set<Uid>>, i: nat)
    requires FlowOk(g) && |g.preds| == |out| == |c.blocks| && i < |c.blocks|
    requires UsersDone(c, g, out, reached, i, |c.blocks[i]|)
    ensures UsersDone(c, g, out, reached, i + 1, 0)
  {
    hide ReachingUse;
  }

  /** Link the user at position p, if there is one. */
  method LinkInsn(c: Code, g: Flow, out: seq<set<Uid>>, w: Webs, i: nat, p: nat, reachingDefs: set<Uid>)
    requires CodeOk(c) && FlowOk(g) && |g.preds| == |out| == |c.blocks| && ArraysOk(c, w)
    requires i < |c.blocks| && p < |c.blocks[i]|
    requires w.Mirrors() && Linked(w.web, w.lists, w.reached, w.Simple()) && UsersDone(c, g, out, w.reached, i, p)
    requires reachingDefs == ReachingAt(c, i, UnionOfPreds(g.preds[i], out), p)
    modifies w, w.defArray.Values, w.useArray.Values
    ensures w.Mirrors() && Linked(w.web, w.lists, w.reached, w.Simple())
    ensures UsersDone(c, g, out, w.reached, i, p + 1)
  {
    hide Linked, Writes, ReachingAt, UsersDone, CodeOk, ReachingUse;
    UserNext(c, g, out, w.reached, i, p);
    if c.blocks[i][p].Plain? && c.blocks[i][p].refs != {} {
      var r := set d | d in reachingDefs && IsDef(c, d) && InsnAt(c, d).reg in c.blocks[i][p].refs;
      UseIs(c, g, out, (i, p), r);
      w.LinkUse((i, p), r);
    }
  }

  lemma UseIs(c: Code, g: Flow, out: seq<set<Uid>>, u: Uid, r: set<Uid>)
    requires FlowOk(g) && |g.preds| == |out| == |c.blocks| && IsUser(c, u)
    requires r == set d | d in ReachingAt(c, u.0, UnionOfPreds(g.preds[u.0], out), u.1) &&
                          IsDef(c, d) && InsnAt(c, d).reg in InsnAt(c, u).refs
    ensures r == ReachingUse(c, g, out, u)
  {
  }

  /** The user at position p is the next one, if there is one. */
  lemma UserNext(c: Code, g: Flow, out: seq<set<Uid>>, reached: map<Uid, set<Uid>>, i: nat, p: nat)
    requires FlowOk(g) && |g.preds| == |out| == |c.blocks| && i < |c.blocks| && p < |c.blocks[i]|
    requires UsersDone(c, g, out, reached, i, p)
    ensures (i, p) !in reached
    ensures IsUser(c, (i, p)) ==>
              UsersDone(c, g, out, reached[(i, p) := ReachingUse(c, g, out, (i, p))], i, p + 1)
    ensures !IsUser(c, (i, p)) ==> UsersDone(c, g, out, reached, i, p + 1)
  {
    hide ReachingUse;
  }

  lemma ReachingZero(c: Code, i: nat, start: set<Uid>)
    requires i < |c.blocks|
    ensures ReachingAt(c, i, start, 0) == start
  {
  }

  /** The users of a definition that can be followed: all users it reaches, each once, and reached by nothing else. */
  lemma ExactWebs(c: Code, g: Flow, out: seq<set<Uid>>, w: Web, lists: map<Uid, seq<Uid>>, reached: map<Uid, set<Uid>>,
                  simple: map<Uid, bool>, d: Uid)
    requires FlowOk(g) && |g.preds| == |out| == |c.blocks| && UsersDone(c, g, out, reached, |c.blocks|, 0)
    requires Linked(w, lists, reached, simple) && d in w.heads
    ensures w.flags[d] <==> exists u :: IsUser(c, u) && u in simple && d in ReachingUse(c, g, out, u)
                                        && Spoils(simple[u], ReachingUse(c, g, out, u))
    ensures (!w.flags[d] ==>
               && Listed(w, w.heads[d], lists[d])
               && (forall u: Uid :: u in lists[d] <==> IsUser(c, u) && d in ReachingUse(c, g, out, u))
               && (forall k, m :: 0 <= k < m < |lists[d]| ==> lists[d][k] != lists[d][m])
               && (forall u: Uid :: u in lists[d] ==> ReachingUse(c, g, out, u) == {d}))
  {
    hide ReachingUse, Listed;
    assert LinkRight(w, lists, d) && ListRight(lists[d], reached, d) && (w.flags[d] <==> Spoilt(reached, simple, d));
    forall u | IsUser(c, u) ensures u in reached && reached[u] == ReachingUse(c, g, out, u) && u in simple {
    }
    if Spoilt(reached, simple, d) {
      var u :| u in reached && u in simple && d in reached[u] && Spoils(simple[u], reached[u]);
      assert IsUser(c, u);
    }
    if !w.flags[d] {
      forall u: Uid | u in lists[d] ensures reached[u] == {d} {
        assert !Spoils(simple[u], reached[u]);
        forall e | e in reached[u] ensures e == d {
          OneOrMore(reached[u], e, d);
        }
      }
    }
  }
  // ---------- build_btr_def_use_webs ----------

  /** A walk from the block of d, where d survives to the end, to block i, along which no later block writes the
      register of d. */
  ghost predicate FlowsTo(c: Code, g: Flow, d: Uid, i: int)
    requires |g.preds| == |c.blocks|
  {
    exists p: seq<int> :: IsWalk(g, p) && p[|p|-1] == i && FlowsAlong(c, g, d, p)
  }

  ghost predicate FlowsAlong(c: Code, g: Flow, d: Uid, p: seq<int>)
    requires |g.preds| == |c.blocks| && IsWalk(g, p)
  {
    p[0] == d.0 && Survives(c, d, |c.blocks[d.0]|) && forall k {:trigger p[k]} :: 0 < k < |p| ==> !Kills(c, p[k], d)
  }

  /** The dataflow part of build_btr_def_use_webs: the definitions at the end of each block are those that flow
      there. */
  method ComputeReaching(c: Code, g: Flow) returns (out: seq<set<Uid>>)
    requires CodeOk(c) && FlowOk(g) && |g.preds| == |c.blocks|
    ensures |out| == |c.blocks|
    ensures forall i, d: Uid :: 0 <= i < |out| ==> (d in out[i] <==> FlowsTo(c, g, d, i))
  {
    hide Survives, Written, Equation, Reaches, IsWalk, Solves, Kills, FlowsTo, IsDef;
    var gen, written, defs := ComputeDefsAndGen(c);
    var kill := ComputeKill(c, written, defs);
    var bbOut := new set<Uid>[|c.blocks|];
    GenWithin(c, gen, defs);
    ComputeOut(g, gen, kill, bbOut, defs);
    out := bbOut[..];
    forall i, d: Uid | 0 <= i < |out| ensures d in out[i] <==> FlowsTo(c, g, d, i) {
      SameFlow(c, g, gen, kill, d, i);
    }
  }

  lemma GenWithin(c: Code, gen: seq<set<Uid>>, defs: set<Uid>)
    requires |gen| == |c.blocks| && GenRight(c, gen) && forall u: Uid :: u in defs <==> IsDef(c, u)
    ensures forall i :: 0 <= i < |gen| ==> gen[i] <= defs
  {
  }

  lemma SameFlow(c: Code, g: Flow, gen: seq<set<Uid>>, kill: seq<set<Uid>>, d: Uid, i: int)
    requires |g.preds| == |c.blocks| == |gen| == |kill| && GenRight(c, gen)
    requires forall k, u: Uid :: 0 <= k < |kill| ==> (u in kill[k] <==> Kills(c, k, u))
    ensures Reaches(g, gen, kill, d, i) <==> FlowsTo(c, g, d, i)
  {
    hide Survives, Kills;
    forall p: seq<int> | IsWalk(g, p) ensures Carries(gen, kill, d, p) <==> FlowsAlong(c, g, d, p) {
      assert d in gen[p[0]] <==> d.0 == p[0] && Survives(c, d, |c.blocks[p[0]]|);
    }
  }
}