/** Integer types of the C front end, wrap-around, and conversion chains. */
module IntTypes {
  function Pow2(n: nat): (p: nat)
    ensures p >= 1
  {
    if n == 0 then 1 else 2 * Pow2(n - 1)
  }

  lemma {:induction false} Pow2Add(m: nat, n: nat)
    ensures Pow2(m + n) == Pow2(m) * Pow2(n)
  {
    if m > 0 {
      Pow2Add(m - 1, n);
      assert Pow2(m + n) == 2 * Pow2(m - 1 + n);
    }
  }

  lemma {:induction false} Pow2Grows(m: nat, n: nat)
    requires m < n
    ensures 2 * Pow2(m) <= Pow2(n)
  {
    if m + 1 < n {
      Pow2Grows(m, n - 1);
    }
  }

  /** An integer type by precision and signedness. */
  datatype IntType = IntType(prec: nat, uns: bool)

  predicate TypeOk(t: IntType) {
    t.prec >= 1
  }

  function MinValue(t: IntType): int
    requires TypeOk(t)
  {
    if t.uns then 0 else 0 - Pow2(t.prec - 1)
  }

  function MaxValue(t: IntType): int
    requires TypeOk(t)
  {
    if t.uns then Pow2(t.prec) - 1 else Pow2(t.prec - 1) - 1
  }

  predicate InRange(t: IntType, v: int)
    requires TypeOk(t)
  {
    MinValue(t) <= v <= MaxValue(t)
  }

  /** Conversion to t: the value of the low bits. */
  function Wrap(t: IntType, v: int): int
    requires TypeOk(t)
  {
    var m := v % Pow2(t.prec);
    if t.uns || m < Pow2(t.prec - 1) then m else m - Pow2(t.prec)
  }

  /** Conversion stays in range and changes the value by a multiple of the modulus. */
  lemma WrapBy(t: IntType, v: int) returns (k: int)
    requires TypeOk(t)
    ensures InRange(t, Wrap(t, v)) && v == Wrap(t, v) + k * Pow2(t.prec)
  {
    var p := Pow2(t.prec);
    k := v / p;
    assert v == k * p + v % p;
    if Wrap(t, v) != v % p {
      k := k + 1;
      assert k * p == (k - 1) * p + p;
    }
  }

  lemma MultipleAtLeast(k: int, p: nat)
    requires p > 0
    ensures k >= 1 ==> k * p >= p
    ensures k <= -1 ==> k * p <= 0 - p
  {
  }

  lemma Unique(p: nat, x: int, y: int, k: int)
    requires p > 0 && x - y == k * p && 0 - p < x - y < p
    ensures x == y
  {
    MultipleAtLeast(k, p);
  }

  lemma Distribute(k: int, j: int, m: int, p: int)
    ensures (k + j * m) * p == k * p + j * (p * m)
  {
    assert j * (p * m) == (j * m) * p;
  }

  /** The one value in range that differs by a multiple of the modulus. */
  lemma WrapIs(t: IntType, v: int, w: int, k: int)
    requires TypeOk(t) && InRange(t, w) && v == w + k * Pow2(t.prec)
    ensures Wrap(t, v) == w
  {
    var j := WrapBy(t, v);
    var p := Pow2(t.prec);
    Distribute(j, -k, 1, p);
    assert p == 2 * Pow2(t.prec - 1);
    Unique(p, w, Wrap(t, v), j - k);
  }

  lemma WrapInRange(t: IntType, v: int)
    requires TypeOk(t) && InRange(t, v)
    ensures Wrap(t, v) == v
  {
    WrapIs(t, v, v, 0);
  }

  /** Converting first to a type at least as wide changes nothing. */
  lemma WrapWrap(t: IntType, s: IntType, v: int)
    requires TypeOk(t) && TypeOk(s) && t.prec <= s.prec
    ensures Wrap(t, Wrap(s, v)) == Wrap(t, v)
  {
    hide Wrap, Pow2, InRange;
    var j := WrapBy(s, v);
    var k := WrapBy(t, Wrap(s, v));
    var m := Pow2(s.prec - t.prec);
    Pow2Add(t.prec, s.prec - t.prec);
    Distribute(k, j, m, Pow2(t.prec));
    WrapIs(t, v, Wrap(t, Wrap(s, v)), k + j * m);
  }

  /** The values of a narrower type fit, unless it is signed and the wider one is not. */
  lemma Fits(t: IntType, s: IntType, v: int)
    requires TypeOk(t) && TypeOk(s) && InRange(t, v) && t.prec < s.prec && (t.uns || !s.uns)
    ensures InRange(s, v)
  {
    Pow2Grows(t.prec, s.prec);
    Pow2Grows(t.prec - 1, s.prec - 1);
  }

  // ---------- expressions ----------

  /** Integer constants, other operands, and the conversions (NOP_EXPR) on top of them. */
  datatype Expr = Const(value: int, ty: IntType) | Var(name: nat, ty: IntType) | Convert(op: Expr, ty: IntType)

  /** Constants are in range, and conversions of constants have been folded. */
  predicate ExprOk(e: Expr) {
    TypeOk(e.ty) &&
    match e
    case Const(v, t) => InRange(t, v)
    case Var(_, _) => true
    case Convert(op, _) => !op.Const? && ExprOk(op)
  }

  function Eval(e: Expr, env: nat -> int): int
    requires ExprOk(e)
  {
    match e
    case Const(v, _) => v
    case Var(x, t) => Wrap(t, env(x))
    case Convert(op, t) => Wrap(t, Eval(op, env))
  }

  lemma EvalInRange(e: Expr, env: nat -> int)
    requires ExprOk(e)
    ensures InRange(e.ty, Eval(e, env))
  {
    match e
    case Const(_, _) =>
    case Var(x, t) =>
      var k := WrapBy(t, env(x));
    case Convert(op, t) =>
      var k := WrapBy(t, Eval(op, env));
  }

  /** convert: nothing for the same type, folded for a constant. */
  function ConvertTo(t: IntType, e: Expr): (r: Expr)
    requires TypeOk(t) && ExprOk(e)
    ensures r.ty == t
  {
    if e.ty == t then e
    else match e
    case Const(v, _) => Const(Wrap(t, v), t)
    case _ => Convert(e, t)
  }

  lemma ConvertEval(t: IntType, e: Expr, env: nat -> int)
    requires TypeOk(t) && ExprOk(e)
    ensures ExprOk(ConvertTo(t, e)) && Eval(ConvertTo(t, e), env) == Wrap(t, Eval(e, env))
  {
    if e.ty == t {
      EvalInRange(e, env);
      WrapInRange(t, Eval(e, env));
    } else if e.Const? {
      var k := WrapBy(t, e.value);
    }
  }

  // ---------- get_narrower ----------

  /** The bits of e read with a given signedness. */
  function Read(uns: bool, e: Expr, env: nat -> int): int
    requires ExprOk(e)
  {
    Wrap(IntType(e.ty.prec, uns), Eval(e, env))
  }

  /** The conversions that can be stripped from op: an extension or a change of signedness, and below the first
      one only extensions of its kind; and whether the value left is to be zero-extended. */
  function Strip(op: Expr, uns: bool, first: bool): (Expr, bool)
    decreases op
  {
    match op
    case Convert(inner, t) =>
      if t.prec < inner.ty.prec then (op, uns)
      else if t.prec > inner.ty.prec then
        if first then Strip(inner, inner.ty.uns, false)
        else if uns != inner.ty.uns then (op, uns)
        else Strip(inner, uns, false)
      else Strip(inner, if first then t.uns else uns, false)
    case _ => (op, uns)
  }

  /** get_narrower, without its second part about bit-field references. */
  method GetNarrower(op: Expr) returns (win: Expr, uns: bool)
    requires ExprOk(op)
    ensures (win, uns) == Strip(op, false, true)
  {
    win, uns := op, false;
    var e, first := op, true;
    while e.Convert?
      invariant win == e
      invariant Strip(e, uns, first) == Strip(op, false, true)
      decreases e
    {
      var bitschange := e.ty.prec - e.op.ty.prec;
      if bitschange < 0 {
        break;
      }
      if bitschange > 0 {
        e := e.op;
        if first {
          uns := e.ty.uns;
        } else if uns != e.ty.uns {
          break;
        }
        first := false;
      } else {
        if first {
          uns := e.ty.uns;
        }
        first := false;
        e := e.op;
      }
      win := e;
    }
  }

  /** Once one conversion is stripped, the value read in the chosen way does not change. */
  lemma {:induction false} StripReads(op: Expr, uns: bool, env: nat -> int)
    requires ExprOk(op)
    ensures var (w, u) := Strip(op, uns, false);
            ExprOk(w) && u == uns && w.ty.prec <= op.ty.prec && Read(uns, w, env) == Read(uns, op, env)
    decreases op
  {
    if op.Convert? && op.ty.prec >= op.op.ty.prec && (op.ty.prec > op.op.ty.prec ==> uns == op.op.ty.uns) {
      StripReads(op.op, uns, env);
      ReadThrough(op, uns, env);
    }
  }

  /** A change of signedness keeps the bits; an extension of the same kind keeps the value. */
  lemma ReadThrough(op: Expr, uns: bool, env: nat -> int)
    requires ExprOk(op) && op.Convert? && op.ty.prec >= op.op.ty.prec
    requires op.ty.prec > op.op.ty.prec ==> uns == op.op.ty.uns
    ensures Read(uns, op.op, env) == Read(uns, op, env)
  {
    var v := Eval(op.op, env);
    var t := IntType(op.ty.prec, uns);
    WrapWrap(t, op.ty, v);
    if op.ty.prec > op.op.ty.prec {
      EvalInRange(op.op, env);
      WrapInRange(op.op.ty, v);
      Fits(op.op.ty, t, v);
      WrapInRange(t, v);
    }
  }

  /** get_narrower's promise: extending what is left gives op back, in op's own precision.  If no bits are
      stripped the signedness is op's own. */
  lemma NarrowExtends(op: Expr, env: nat -> int)
    requires ExprOk(op)
    ensures var (w, u) := Strip(op, false, true);
            && ExprOk(w) && w.ty.prec <= op.ty.prec
            && Wrap(op.ty, Read(u, w, env)) == Eval(op, env)
            && (w != op && w.ty.prec == op.ty.prec ==> u == op.ty.uns)
            && (w == op ==> !u)
  {
    var (w, u) := Strip(op, false, true);
    if op.Convert? && op.ty.prec > op.op.ty.prec {
      StripReads(op.op, op.op.ty.uns, env);
      EvalInRange(op.op, env);
      WrapInRange(op.op.ty, Eval(op.op, env));
      StripSmaller(op.op, op.op.ty.uns);
    } else if op.Convert? && op.ty.prec == op.op.ty.prec {
      StripReads(op.op, op.ty.uns, env);
      WrapWrap(op.ty, op.ty, Eval(op.op, env));
      StripSmaller(op.op, op.ty.uns);
    } else {
      WrapWrap(op.ty, IntType(op.ty.prec, false), Eval(op, env));
      EvalInRange(op, env);
      WrapInRange(op.ty, Eval(op, env));
    }
  }

  /** Stripping leaves a part of the expression. */
  lemma {:induction false} StripSmaller(op: Expr, uns: bool)
    ensures Strip(op, uns, false).0 == op || Strip(op, uns, false).0 < op
    decreases op
  {
    if op.Convert? {
      StripSmaller(op.op, uns);
      SmallerTrans(Strip(op.op, uns, false).0, op.op, op);
    }
  }

  lemma SmallerTrans(x: Expr, y: Expr, z: Expr)
    requires (x == y || x < y) && y < z
    ensures x < z
  {
  }
}
