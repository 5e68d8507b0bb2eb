/** Case labels of a switch: bounds, and the search tree that keeps them from overlapping. */
module CaseLabels {
  import opened Options

  // ---------- check_case_bounds ----------

  /** The range of the type of the original testing expression. */
  datatype Bounds = Bounds(min: int, max: int)

  /** A label for low ... high; high is absent for an ordinary label. */
  datatype Label = Label(low: int, high: Option<int>)

  function Upper(l: Label): int {
    if l.high.Some? then l.high.value else l.low
  }

  /** check_case_bounds: None if the label is out of range, otherwise the label, saturated.  A type that had a
      problem has no bounds. */
  function CheckCaseBounds(bounds: Option<Bounds>, l: Label): Option<Label> {
    if bounds.None? then Some(l)
    else
      var Bounds(min, max) := bounds.value;
      var low, high := l.low, Upper(l);
      if low < min && high < min then None
      else if low > max && high > max then None
      else
        var low' := if high >= min && low < min then min else low;
        var high' := if low' <= max && high > max then max else high;
        Some(Label(low', if l.high.Some? then Some(high') else None))
  }

  /** The values a label names. */
  predicate Names(l: Label, v: int) {
    l.low <= v <= Upper(l)
  }

  predicate Within(b: Bounds, v: int) {
    b.min <= v <= b.max
  }

  /** A label that is not empty keeps exactly its values inside the bounds, and is dropped exactly if there are
      none. */
  lemma BoundsExact(b: Bounds, l: Label)
    requires b.min <= b.max && l.low <= Upper(l)
    ensures match CheckCaseBounds(Some(b), l)
            case None => forall v :: Names(l, v) ==> !Within(b, v)
            case Some(r) => forall v :: Names(r, v) <==> Names(l, v) && Within(b, v)
    ensures CheckCaseBounds(Some(b), l).Some? ==>
              Within(b, CheckCaseBounds(Some(b), l).value.low) && Within(b, Upper(CheckCaseBounds(Some(b), l).value))
  {
    var r := CheckCaseBounds(Some(b), l);
    if r.None? {
      forall v | Names(l, v) ensures !Within(b, v) {
      }
    } else {
      forall v ensures Names(r.value, v) <==> Names(l, v) && Within(b, v) {
      }
    }
  }

  /** An empty range is kept as it is unless both ends lie on the same side: so its ends are in bounds only if they
      were. */
  lemma BoundsEmptyRange(b: Bounds, l: Label)
    requires b.min <= b.max && l.low > Upper(l)
    ensures CheckCaseBounds(Some(b), l).None? <==> l.low < b.min || Upper(l) > b.max
    ensures CheckCaseBounds(Some(b), l).Some? ==> CheckCaseBounds(Some(b), l).value == l
  {
  }

  /** For an original type with the range 0 ... 255 the empty range 300 ... -5 is kept as it is, out of bounds at both
      ends. */
  lemma EmptyRangeExample()
    ensures var b, l := Bounds(0, 255), Label(300, Some(-5));
            CheckCaseBounds(Some(b), l) == Some(l) && !Within(b, l.low) && !Within(b, Upper(l))
  {
  }

  /** Exactly when the result of check_case_bounds lies in the bounds with both ends. */
  lemma BoundsKept(b: Bounds, l: Label)
    requires b.min <= b.max
    ensures (CheckCaseBounds(Some(b), l).Some? ==>
               Within(b, CheckCaseBounds(Some(b), l).value.low) && Within(b, Upper(CheckCaseBounds(Some(b), l).value)))
            <==> l.low <= Upper(l) || l.low < b.min || Upper(l) > b.max || (Upper(l) >= b.min && l.low <= b.max)
  {
  }

  // ---------- the search tree ----------

  /** NULL for the default label, and smaller than every other key. */
  type Key = Option<int>

  function CaseCompare(k1: Key, k2: Key): int {
    if k1.None? then (if k2.Some? then -1 else 0)
    else if k2.None? then 1
    else if k1.value < k2.value then -1
    else if k1.value > k2.value then 1
    else 0
  }

  /** case_compare is a total order. */
  lemma CaseCompareOrders(k1: Key, k2: Key, k3: Key)
    ensures CaseCompare(k1, k2) == 0 <==> k1 == k2
    ensures CaseCompare(k1, k2) == 0 - CaseCompare(k2, k1)
    ensures CaseCompare(k1, k2) < 0 && CaseCompare(k2, k3) < 0 ==> CaseCompare(k1, k3) < 0
  {
  }

  /** A stored entry: its upper end, if it is a range.  The lower end is the key. */
  type Cases = map<Key, Option<int>>

  /** The values that a stored label keeps others from using: its lower end at least, even for an empty range. */
  predicate Covers(k: Key, high: Option<int>, v: int) {
    k.Some? && (v == k.value || (high.Some? && k.value <= v <= high.value))
  }

  ghost predicate Overlap(k1: Key, h1: Option<int>, k2: Key, h2: Option<int>) {
    exists v :: Covers(k1, h1, v) && Covers(k2, h2, v)
  }

  /** Stored labels do not overlap, and the default label is no range. */
  ghost predicate CasesOk(c: Cases) {
    && (forall k1, k2 :: k1 in c && k2 in c && k1 != k2 ==> !Overlap(k1, c[k1], k2, c[k2]))
    && (None in c ==> c[None] == None)
  }

  /** No value is covered twice. */
  lemma OneLabel(c: Cases, k1: Key, k2: Key, v: int)
    requires CasesOk(c) && k1 in c && k2 in c && Covers(k1, c[k1], v) && Covers(k2, c[k2], v)
    ensures k1 == k2
  {
  }

  /** What the caller passes as an end of a label, after check_case_value and convert_and_check. */
  datatype CaseValue = Missing | Pointer | Erroneous | Value(v: int)

  datatype AddResult = Added(entry: CaseLabelExpr) | OutOfRange | Failed

  datatype CaseLabelExpr = DefaultLabel | CaseLabel(entry: Label)

  class Switch {
    var cases: Cases

    ghost predicate Valid()
      reads this
    {
      CasesOk(cases)
    }

    constructor ()
      ensures Valid() && cases == map[]
    {
      cases := map[];
    }

    /** splay_tree_predecessor: the greatest key below k. */
    method Predecessor(k: Key) returns (r: Option<Key>)
      ensures r.Some? ==> r.value in cases && CaseCompare(r.value, k) < 0
      ensures r.Some? ==> forall q :: q in cases && CaseCompare(q, k) < 0 ==> CaseCompare(q, r.value) <= 0
      ensures r.None? ==> forall q :: q in cases ==> CaseCompare(q, k) >= 0
    {
      r := None;
      var left := cases.Keys;
      while left != {}
        invariant left <= cases.Keys
        invariant r.Some? ==> r.value in cases && CaseCompare(r.value, k) < 0
        invariant r.Some? ==> forall q :: q in cases.Keys - left && CaseCompare(q, k) < 0 ==> CaseCompare(q, r.value) <= 0
        invariant r.None? ==> forall q :: q in cases.Keys - left ==> CaseCompare(q, k) >= 0
        decreases left
      {
        var q :| q in left;
        left := left - {q};
        if CaseCompare(q, k) < 0 && (r.None? || CaseCompare(r.value, q) < 0) {
          r := Some(q);
        }
      }
    }

    /** splay_tree_successor: the least key above k. */
    method Successor(k: Key) returns (r: Option<Key>)
      ensures r.Some? ==> r.value in cases && CaseCompare(r.value, k) > 0
      ensures r.Some? ==> forall q :: q in cases && CaseCompare(q, k) > 0 ==> CaseCompare(q, r.value) >= 0
      ensures r.None? ==> forall q :: q in cases ==> CaseCompare(q, k) <= 0
    {
      r := None;
      var left := cases.Keys;
      while left != {}
        invariant left <= cases.Keys
        invariant r.Some? ==> r.value in cases && CaseCompare(r.value, k) > 0
        invariant r.Some? ==> forall q :: q in cases.Keys - left && CaseCompare(q, k) > 0 ==> CaseCompare(q, r.value) >= 0
        invariant r.None? ==> forall q :: q in cases.Keys - left ==> CaseCompare(q, k) <= 0
        decreases left
      {
        var q :| q in left;
        left := left - {q};
        if CaseCompare(q, k) > 0 && (r.None? || CaseCompare(r.value, q) > 0) {
          r := Some(q);
        }
      }
    }

    /** Find a stored label that overlaps a new one, looking only at an exact match and the two neighbours. */
    method FindOverlap(k: Key, high: Option<int>) returns (node: Option<Key>)
      requires Valid() && (k.None? ==> high.None?)
      ensures node.Some? ==> node.value in cases
      ensures node.Some? <==> k in cases || exists q :: q in cases && Overlap(q, cases[q], k, high)
      ensures node.Some? && k !in cases ==> Overlap(node.value, cases[node.value], k, high)
    {
      node := if k in cases then Some(k) else None;
      if node.None? && k.Some? {
        var lowBound := Predecessor(k);
        var highBound := Successor(k);
        if lowBound.Some? && cases[lowBound.value].Some? && cases[lowBound.value].value >= k.value {
          node := lowBound;
          BelowOverlaps(cases, lowBound.value, k, high);
        } else if highBound.Some? && high.Some? && highBound.value.value <= high.value {
          node := highBound;
          AboveOverlaps(cases, highBound.value, k, high);
        } else {
          NeighboursSuffice(cases, k, high, lowBound, highBound);
        }
      }
    }

    /** c_add_case_label. */
    method AddCaseLabel(condOk: bool, orig: Option<Bounds>, lowValue: CaseValue, highValue: CaseValue)
      returns (r: AddResult)
      requires Valid() && (lowValue.Missing? ==> highValue.Missing?)
      modifies this
      ensures Valid()
      ensures r == Expected(condOk, orig, lowValue, highValue, old(cases))
      ensures cases == if r.Added? then old(cases)[KeyOf(r.entry) := HighOf(r.entry)] else old(cases)
    {
      if !condOk || lowValue.Pointer? || highValue.Pointer? || lowValue.Erroneous? || highValue.Erroneous? {
        return Failed;
      }
      var key: Key, high: Option<int> := None, None;
      if lowValue.Value? {
        var l := Label(lowValue.v, if highValue.Value? && highValue.v != lowValue.v then Some(highValue.v) else None);
        var b := CheckCaseBounds(orig, l);
        if b.None? {
          return OutOfRange;
        }
        key, high := Some(b.value.low), b.value.high;
      }
      var node := FindOverlap(key, high);
      if key.Some? && key in cases {
        SameKeyOverlaps(key, cases[key], high);
      }
      if node.Some? {
        return Failed;
      }
      InsertOk(cases, key, high);
      cases := cases[key := high];
      r := Added(if key.None? then DefaultLabel else CaseLabel(Label(key.value, high)));
    }
  }

  function KeyOf(l: CaseLabelExpr): Key {
    if l.DefaultLabel? then None else Some(l.entry.low)
  }

  function HighOf(l: CaseLabelExpr): Option<int> {
    if l.DefaultLabel? then None else l.entry.high
  }

  /** What adding a label should do, told with a scan of all stored labels. */
  ghost function Expected(condOk: bool, orig: Option<Bounds>, lowValue: CaseValue, highValue: CaseValue, c: Cases): AddResult {
    if !condOk || lowValue.Pointer? || highValue.Pointer? || lowValue.Erroneous? || highValue.Erroneous? then Failed
    else if lowValue.Missing? then (if None in c then Failed else Added(DefaultLabel))
    else
      var l := Label(lowValue.v, if highValue.Value? && highValue.v != lowValue.v then Some(highValue.v) else None);
      match CheckCaseBounds(orig, l)
      case None => OutOfRange
      case Some(b) =>
        if exists q :: q in c && Overlap(q, c[q], Some(b.low), b.high) then Failed else Added(CaseLabel(b))
  }

  lemma SameKeyOverlaps(k: Key, h1: Option<int>, h2: Option<int>)
    requires k.Some?
    ensures Overlap(k, h1, k, h2)
  {
    assert Covers(k, h1, k.value) && Covers(k, h2, k.value);
  }

  lemma BelowOverlaps(c: Cases, q: Key, k: Key, high: Option<int>)
    requires q in c && k.Some? && CaseCompare(q, k) < 0 && c[q].Some? && c[q].value >= k.value
    requires None in c ==> c[None] == None
    ensures Overlap(q, c[q], k, high)
  {
    assert Covers(q, c[q], k.value) && Covers(k, high, k.value);
  }

  lemma AboveOverlaps(c: Cases, q: Key, k: Key, high: Option<int>)
    requires q in c && k.Some? && CaseCompare(q, k) > 0 && high.Some? && q.value <= high.value
    ensures Overlap(q, c[q], k, high)
  {
    assert Covers(q, c[q], q.value) && Covers(k, high, q.value);
  }

  /** Since stored labels do not overlap, a label that misses its two neighbours misses all. */
  lemma NeighboursSuffice(c: Cases, k: Key, high: Option<int>, below: Option<Key>, above: Option<Key>)
    requires CasesOk(c) && k.Some? && k !in c
    requires below.Some? ==> below.value in c && CaseCompare(below.value, k) < 0
    requires forall q :: q in c && CaseCompare(q, k) < 0 ==> below.Some? && CaseCompare(q, below.value) <= 0
    requires above.Some? ==> above.value in c && CaseCompare(above.value, k) > 0
    requires forall q :: q in c && CaseCompare(q, k) > 0 ==> above.Some? && CaseCompare(q, above.value) >= 0
    requires below.Some? && c[below.value].Some? ==> c[below.value].value < k.value
    requires above.Some? && high.Some? ==> above.value.value > high.value
    ensures forall q :: q in c ==> !Overlap(q, c[q], k, high)
  {
    forall q | q in c ensures !Overlap(q, c[q], k, high) {
      if q.Some? && CaseCompare(q, k) < 0 && q != below.value && c[q].Some? && c[q].value >= k.value {
        // Then q would reach over its neighbour.
        assert Covers(q, c[q], below.value.value) && Covers(below.value, c[below.value], below.value.value);
        assert Overlap(q, c[q], below.value, c[below.value]);
      }
    }
  }

  lemma InsertOk(c: Cases, k: Key, high: Option<int>)
    requires CasesOk(c) && k !in c && (k.None? ==> high.None?)
    requires forall q :: q in c ==> !Overlap(q, c[q], k, high)
    ensures CasesOk(c[k := high])
  {
    var d := c[k := high];
    forall k1, k2 | k1 in d && k2 in d && k1 != k2 ensures !Overlap(k1, d[k1], k2, d[k2]) {
      if k1 == k {
        assert !Overlap(k2, c[k2], k, high);
      } else if k2 == k {
        assert !Overlap(k1, c[k1], k, high);
      }
    }
  }
}
