/** How a set operation walks two lists and overwrites a third: the steps, on values. */
module Merging {
  import opened Chunks

  predicate KeepsFirst(op: Op) {
    op != And
  }

  predicate KeepsSecond(op: Op) {
    op == Ior || op == Xor
  }

  predicate TakesFirst(a: seq<Chunk>, b: seq<Chunk>, i: nat, j: nat)
    requires i <= |a| && j <= |b|
  {
    i < |a| && (j == |b| || a[i].indx < b[j].indx)
  }

  predicate Matches(a: seq<Chunk>, b: seq<Chunk>, i: nat, j: nat)
    requires i <= |a| && j <= |b|
  {
    i < |a| && j < |b| && a[i].indx == b[j].indx
  }

  function Combined(op: Op, x: Chunk, y: Chunk): Chunk {
    Chunk(x.indx, BitsOp(op, x.bits, y.bits))
  }

  /** Merging the rest of both lists. */
  function Rest(op: Op, a: seq<Chunk>, b: seq<Chunk>, i: nat, j: nat): seq<Chunk>
    requires i <= |a| && j <= |b|
  {
    Merge(op, a[i..], b[j..])
  }

  lemma RestFirst(op: Op, a: seq<Chunk>, b: seq<Chunk>, i: nat, j: nat)
    requires i <= |a| && j <= |b| && TakesFirst(a, b, i, j)
    ensures Rest(op, a, b, i, j) == Keeps(KeepsFirst(op), a[i]) + Rest(op, a, b, i + 1, j)
  {
    assert a[i..] == [a[i]] + a[i+1..];
    if j == |b| {
      MergeEmpty(op, a[i..], b[j..]);
      MergeEmpty(op, a[i+1..], b[j..]);
    } else {
      MergeStep(op, a[i..], b[j..]);
    }
  }

  lemma RestSecond(op: Op, a: seq<Chunk>, b: seq<Chunk>, i: nat, j: nat)
    requires i <= |a| && j <= |b| && TakesFirst(b, a, j, i)
    ensures Rest(op, a, b, i, j) == Keeps(KeepsSecond(op), b[j]) + Rest(op, a, b, i, j + 1)
  {
    assert b[j..] == [b[j]] + b[j+1..];
    if i == |a| {
      MergeEmpty(op, a[i..], b[j..]);
      MergeEmpty(op, a[i..], b[j+1..]);
    } else {
      MergeStep(op, a[i..], b[j..]);
    }
  }

  lemma RestMatch(op: Op, a: seq<Chunk>, b: seq<Chunk>, i: nat, j: nat)
    requires i <= |a| && j <= |b| && Matches(a, b, i, j)
    ensures Rest(op, a, b, i, j) == Keep(Combined(op, a[i], b[j])) + Rest(op, a, b, i + 1, j + 1)
  {
    MergeStep(op, a[i..], b[j..]);
  }

  lemma RestEnd(op: Op, a: seq<Chunk>, b: seq<Chunk>, i: nat, j: nat)
    requires i <= |a| && j <= |b|
    requires (i == |a| || op == And) && (j == |b| || !KeepsSecond(op)) && (i == |a| || j == |b|)
    ensures Rest(op, a, b, i, j) == []
  {
    MergeEmpty(op, a[i..], b[j..]);
  }

  // ---------- overwriting the destination ----------

  /** The destination after c is written at position k. */
  function Written(c: seq<Chunk>, k: nat, x: Chunk): (r: seq<Chunk>)
    requires k <= |c|
    ensures k < |r| && r[k] == x && r[..k] == c[..k] && |c| <= |r| <= |c| + 1
  {
    if k < |c| then c[k := x] else c + [x]
  }

  /** Whether the walk ends with an empty chunk written in the slot after the results: the last chunks that
      were written matched and cancelled out. */
  function Spill(op: Op, a: seq<Chunk>, b: seq<Chunk>, spilt: bool): bool
    decreases |a| + |b|
  {
    if a == [] && b == [] then spilt
    else if b == [] || (a != [] && a[0].indx < b[0].indx) then
      Spill(op, a[1..], b, spilt && !KeepsFirst(op))
    else if a == [] || b[0].indx < a[0].indx then
      Spill(op, a, b[1..], spilt && !KeepsSecond(op))
    else Spill(op, a[1..], b[1..], BitsZero(BitsOp(op, a[0].bits, b[0].bits)))
  }

  lemma {:induction false} SpillEnd(op: Op, a: seq<Chunk>, b: seq<Chunk>, spilt: bool)
    requires (a == [] || op == And) && (b == [] || !KeepsSecond(op)) && (a == [] || b == [])
    ensures Spill(op, a, b, spilt) == spilt
    decreases |a| + |b|
  {
    if a != [] {
      SpillEnd(op, a[1..], b, spilt);
    } else if b != [] {
      SpillEnd(op, a, b[1..], spilt);
    }
  }

  /** All chunk numbers left in a and b are beyond the last result. */
  ghost predicate Outrun(a: seq<Chunk>, b: seq<Chunk>, i: nat, j: nat, c: seq<Chunk>, k: nat)
    requires i <= |a| && j <= |b| && k <= |c|
  {
    k > 0 ==> (i < |a| ==> c[k-1].indx < a[i].indx) && (j < |b| ==> c[k-1].indx < b[j].indx)
  }

  /** The walk has consumed i and j chunks and left k results in the destination, which held d at first: the
      results so far and the merge of the rest make up the merge; slots not reached hold what they held.  The
      slot at k may hold an empty chunk, if spilt. */
  ghost predicate Progress(op: Op, a: seq<Chunk>, b: seq<Chunk>, i: nat, j: nat,
                           d: seq<Chunk>, c: seq<Chunk>, k: nat, spilt: bool) {
    && i <= |a| && j <= |b| && k <= |c|
    && c[..k] + Rest(op, a, b, i, j) == Merge(op, a, b)
    && Untouched(d, c, k, spilt)
    && Outrun(a, b, i, j, c, k)
    && (spilt ==> k < |c| && (k > 0 ==> c[k].indx > c[k-1].indx))
    && Spill(op, a[i..], b[j..], spilt) == Spill(op, a, b, false)
  }

  ghost predicate Untouched(d: seq<Chunk>, c: seq<Chunk>, k: nat, spilt: bool) {
    && |d| <= |c| && (|c| > |d| ==> |c| <= k + 1)
    && (forall q :: k < q < |d| ==> c[q] == d[q])
    && (k < |d| && !spilt ==> c[k] == d[k])
  }

  lemma ProgressStart(op: Op, a: seq<Chunk>, b: seq<Chunk>, d: seq<Chunk>)
    ensures Progress(op, a, b, 0, 0, d, d, 0, false)
  {
    assert a[0..] == a && b[0..] == b;
  }

  /** A chunk of a that the operation drops. */
  lemma DropFirst(op: Op, a: seq<Chunk>, b: seq<Chunk>, i: nat, j: nat,
                  d: seq<Chunk>, c: seq<Chunk>, k: nat, spilt: bool)
    requires Progress(op, a, b, i, j, d, c, k, spilt)
    requires Canonical(a) && TakesFirst(a, b, i, j) && !KeepsFirst(op)
    ensures Progress(op, a, b, i + 1, j, d, c, k, spilt)
  {
    RestFirst(op, a, b, i, j);
    assert a[i..][1..] == a[i+1..];
    hide Rest, Merge, Untouched;
  }

  lemma DropSecond(op: Op, a: seq<Chunk>, b: seq<Chunk>, i: nat, j: nat,
                   d: seq<Chunk>, c: seq<Chunk>, k: nat, spilt: bool)
    requires Progress(op, a, b, i, j, d, c, k, spilt)
    requires Canonical(b) && TakesFirst(b, a, j, i) && !KeepsSecond(op)
    ensures Progress(op, a, b, i, j + 1, d, c, k, spilt)
  {
    RestSecond(op, a, b, i, j);
    assert b[j..][1..] == b[j+1..];
    hide Rest, Merge, Untouched;
  }
  lemma WriteOne(d: seq<Chunk>, c: seq<Chunk>, k: nat, spilt: bool, x: Chunk)
    requires k <= |c| && Untouched(d, c, k, spilt)
    ensures Untouched(d, Written(c, k, x), k + 1, false) && Untouched(d, Written(c, k, x), k, true)
    ensures Written(c, k, x)[..k+1] == c[..k] + [x]
  {
  }

  /** The next result is written to the slot. */
  lemma Emit(op: Op, a: seq<Chunk>, b: seq<Chunk>, i: nat, j: nat, i': nat, j': nat,
             d: seq<Chunk>, c: seq<Chunk>, k: nat, spilt: bool, x: Chunk)
    requires Progress(op, a, b, i, j, d, c, k, spilt)
    requires i <= i' <= |a| && j <= j' <= |b|
    requires Rest(op, a, b, i, j) == [x] + Rest(op, a, b, i', j')
    requires (i' < |a| ==> x.indx < a[i'].indx) && (j' < |b| ==> x.indx < b[j'].indx)
    requires Spill(op, a[i..], b[j..], spilt) == Spill(op, a[i'..], b[j'..], false)
    ensures Progress(op, a, b, i', j', d, Written(c, k, x), k + 1, false)
  {
    hide Rest, Merge;
    WriteOne(d, c, k, spilt, x);
    hide Untouched;
    assert c[..k] + ([x] + Rest(op, a, b, i', j')) == (c[..k] + [x]) + Rest(op, a, b, i', j');
  }

  lemma EmitFirst(op: Op, a: seq<Chunk>, b: seq<Chunk>, i: nat, j: nat,
                  d: seq<Chunk>, c: seq<Chunk>, k: nat, spilt: bool)
    requires Progress(op, a, b, i, j, d, c, k, spilt)
    requires Canonical(a) && TakesFirst(a, b, i, j) && KeepsFirst(op)
    ensures Progress(op, a, b, i + 1, j, d, Written(c, k, a[i]), k + 1, false)
  {
    RestFirst(op, a, b, i, j);
    assert a[i..][1..] == a[i+1..];
    hide Rest, Merge, Untouched;
    Emit(op, a, b, i, j, i + 1, j, d, c, k, spilt, a[i]);
  }

  lemma EmitSecond(op: Op, a: seq<Chunk>, b: seq<Chunk>, i: nat, j: nat,
                   d: seq<Chunk>, c: seq<Chunk>, k: nat, spilt: bool)
    requires Progress(op, a, b, i, j, d, c, k, spilt)
    requires Canonical(b) && TakesFirst(b, a, j, i) && KeepsSecond(op)
    ensures Progress(op, a, b, i, j + 1, d, Written(c, k, b[j]), k + 1, false)
  {
    RestSecond(op, a, b, i, j);
    assert b[j..][1..] == b[j+1..];
    hide Rest, Merge, Untouched;
    Emit(op, a, b, i, j, i, j + 1, d, c, k, spilt, b[j]);
  }

  lemma SpillMatch(op: Op, a: seq<Chunk>, b: seq<Chunk>, i: nat, j: nat, spilt: bool)
    requires i <= |a| && j <= |b| && Matches(a, b, i, j)
    ensures Spill(op, a[i..], b[j..], spilt) == Spill(op, a[i+1..], b[j+1..], BitsZero(BitsOp(op, a[i].bits, b[j].bits)))
  {
    hide BitsZero, BitsOp;
    assert a[i..][1..] == a[i+1..] && b[j..][1..] == b[j+1..];
  }

  /** Matching chunks: the combination is a result unless it is empty, when it is left in the slot. */
  lemma EmitMatch(op: Op, a: seq<Chunk>, b: seq<Chunk>, i: nat, j: nat,
                  d: seq<Chunk>, c: seq<Chunk>, k: nat, spilt: bool)
    requires Progress(op, a, b, i, j, d, c, k, spilt)
    requires Canonical(a) && Canonical(b) && Matches(a, b, i, j)
    ensures var x := Combined(op, a[i], b[j]);
            if BitsZero(x.bits) then Progress(op, a, b, i + 1, j + 1, d, Written(c, k, x), k, true)
            else Progress(op, a, b, i + 1, j + 1, d, Written(c, k, x), k + 1, false)
  {
    RestMatch(op, a, b, i, j);
    var x := Combined(op, a[i], b[j]);
    SpillMatch(op, a, b, i, j, spilt);
    hide Spill, Rest, Merge, Untouched, BitsZero, BitsOp;
    if BitsZero(x.bits) {
      WriteOne(d, c, k, spilt, x);
    } else {
      Emit(op, a, b, i, j, i + 1, j + 1, d, c, k, spilt, x);
    }
  }

  lemma ProgressEnd(op: Op, a: seq<Chunk>, b: seq<Chunk>, i: nat, j: nat,
                    d: seq<Chunk>, c: seq<Chunk>, k: nat, spilt: bool)
    requires Progress(op, a, b, i, j, d, c, k, spilt) && Canonical(a) && Canonical(b)
    requires (i == |a| || op == And) && (j == |b| || !KeepsSecond(op)) && (i == |a| || j == |b|)
    ensures c[..k] == Merge(op, a, b) && Canonical(c[..k])
    ensures spilt == Spill(op, a, b, false)
  {
    RestEnd(op, a, b, i, j);
    MergeCanonical(op, a, b, 0);
    SpillEnd(op, a[i..], b[j..], spilt);
  }
  /** A set combined with itself. */
  lemma MergeSelf(a: seq<Chunk>)
    requires Canonical(a)
    ensures Merge(And, a, a) == a && Merge(AndCompl, a, a) == [] && Merge(Xor, a, a) == []
  {
    SameSet(And, a, a);
    SameSet(AndCompl, a, []);
    SameSet(Xor, a, []);
  }

  lemma SameSet(op: Op, a: seq<Chunk>, r: seq<Chunk>)
    requires Canonical(a) && Canonical(r)
    requires forall x: nat :: Member(r, x) == Apply(op, Member(a, x), Member(a, x))
    ensures Merge(op, a, a) == r
  {
    MergeCanonical(op, a, a, 0);
    forall x: nat ensures Member(Merge(op, a, a), x) == Member(r, x) {
      MergeMember(op, a, a, x);
    }
    CanonicalUnique(Merge(op, a, a), r);
  }

  /** Lists of this form are equal exactly when the sets are. */
  lemma SetsDiffer(a: seq<Chunk>, b: seq<Chunk>)
    requires Canonical(a) && Canonical(b)
    ensures a != b <==> exists x: nat :: Member(a, x) != Member(b, x)
  {
    if forall x: nat :: Member(a, x) == Member(b, x) {
      CanonicalUnique(a, b);
    }
  }

  /** Whether the slot changes when x is written at k. */
  predicate SlotChanges(c: seq<Chunk>, k: nat, x: Chunk) {
    k >= |c| || c[k] != x
  }

  /** While nothing has changed the destination is as it was; afterwards the result cannot be what it was. */
  ghost predicate ChangeSeen(changed: bool, op: Op, a: seq<Chunk>, b: seq<Chunk>, d: seq<Chunk>, c: seq<Chunk>) {
    if changed then Merge(op, a, b) != d else c == d
  }

  lemma ChangeStep(changed: bool, op: Op, a: seq<Chunk>, b: seq<Chunk>, i': nat, j': nat,
                   d: seq<Chunk>, c: seq<Chunk>, k: nat, x: Chunk)
    requires ChangeSeen(changed, op, a, b, d, c) && k <= |c|
    requires Progress(op, a, b, i', j', d, Written(c, k, x), k + 1, false)
    ensures ChangeSeen(changed || SlotChanges(c, k, x), op, a, b, d, Written(c, k, x))
  {
    hide Merge, Rest, Untouched, Spill;
    if !changed {
      assert Merge(op, a, b)[k] == Written(c, k, x)[..k+1][k];
    }
  }
}
