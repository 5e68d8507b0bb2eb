/** shorten_compare: comparing converted integers in a narrower type. */
module Shorten {
  import opened IntTypes

  datatype Code = Eq | Ne | Lt | Le | Gt | Ge

  predicate Compare(code: Code, x: int, y: int) {
    match code
    case Eq => x == y
    case Ne => x != y
    case Lt => x < y
    case Le => x <= y
    case Gt => x > y
    case Ge => x >= y
  }

  function Mirror(code: Code): Code {
    match code
    case Lt => Gt
    case Gt => Lt
    case Le => Ge
    case Ge => Le
    case _ => code
  }

  /** A known truth value, or the comparison to do instead. */
  datatype Outcome = Constant(value: bool) | Rewritten(op0: Expr, op1: Expr, code: Code)

  predicate OutcomeOk(r: Outcome) {
    r.Rewritten? ==> ExprOk(r.op0) && ExprOk(r.op1) && r.op0.ty == r.op1.ty
  }

  predicate Result(r: Outcome, env: nat -> int)
    requires OutcomeOk(r)
  {
    match r
    case Constant(v) => v
    case Rewritten(x, y, code) => Compare(code, Eval(x, env), Eval(y, env))
  }

  /** What the comparison means: both operands converted to the nominal type. */
  predicate Meaning(code: Code, x: Expr, y: Expr, restype: IntType, env: nat -> int)
    requires ExprOk(x) && ExprOk(y) && TypeOk(restype)
  {
    Compare(code, Wrap(restype, Eval(x, env)), Wrap(restype, Eval(y, env)))
  }

  /** An operand, what get_narrower left of it, and how that is taken to be extended. */
  datatype Operand = Operand(op: Expr, prim: Expr, uns: bool)

  predicate OperandOk(a: Operand, restype: IntType) {
    && ExprOk(a.op) && ExprOk(a.prim) && TypeOk(restype) && a.op.ty.prec <= restype.prec
    && (a.op.Const? || a.prim.Const? ==> a.op == a.prim)
  }

  /** The operand as the function first looks at it: one that contains no conversion but needs one is extended
      as its type says. */
  function Operate(op: Expr, restype: IntType): Operand {
    var (w, u) := Strip(op, false, true);
    Operand(op, w, if op == w && op.ty != restype then op.ty.uns else u)
  }

  /** The truth value that follows from the range [mn, mx] of a variable compared with c, if any. */
  function Fixed(code: Code, mn: int, mx: int, c: int): (r: Truth) {
    match code
    case Ne => if mx < c || c < mn then Known(true) else Unknown
    case Eq => if mx < c || c < mn then Known(false) else Unknown
    case Lt => if !(mn < c) then Known(false) else if mx < c then Known(true) else Unknown
    case Gt => if !(c < mx) then Known(false) else if c < mn then Known(true) else Unknown
    case Le => if c < mn then Known(false) else if !(c < mx) then Known(true) else Unknown
    case Ge => if mx < c then Known(false) else if !(mn < c) then Known(true) else Unknown
  }

  datatype Truth = Unknown | Known(value: bool)

  /** A constant against a narrower operand. */
  function AgainstConstant(a: Operand, v: int, restype: IntType, code: Code): Outcome
    requires OperandOk(a, restype)
  {
    var signedly := restype.uns && !a.uns;
    var ty := IntType(a.prim.ty.prec, a.uns);
    var rt := if signedly then IntType(restype.prec, false) else restype;
    var c := Wrap(rt, v);
    var val := Fixed(code, Wrap(rt, MinValue(ty)), Wrap(rt, MaxValue(ty)), c);
    if signedly then
      var uty := IntType(ty.prec, true);
      if val.Known? && (code == Eq || code == Ne) then Constant(val.value)
      else
        // A fixed result of the signed comparison means that the unsigned one tests the sign in reverse.
        var limit := if val.Unknown? then Wrap(uty, c)
                     else if code == Lt || code == Ge then Wrap(uty, MinValue(ty))
                     else Wrap(uty, MaxValue(ty));
        Rewritten(ConvertTo(uty, a.prim), Const(limit, uty), code)
    else if val.Known? then Constant(val.value)
    else Rewritten(ConvertTo(ty, a.prim), Const(Wrap(ty, c), ty), code)
  }

  /** Both operands narrower and extended alike: compare in the wider of their types. */
  function InWider(a: Operand, b: Operand, restype: IntType, code: Code): Outcome
    requires OperandOk(a, restype) && OperandOk(b, restype)
  {
    var p, q := a.prim.ty.prec, b.prim.ty.prec;
    var ty := IntType(if p < q then q else p, a.uns || restype.uns);
    var x, y := ConvertTo(IntType(p, a.uns), a.prim), ConvertTo(IntType(q, b.uns), b.prim);
    Rewritten(Again(ty, x), Again(ty, y), code)
  }

  /** A second conversion of an operand that is already converted. */
  function Again(t: IntType, e: Expr): Expr
    requires TypeOk(t) && TypeOk(e.ty)
  {
    if e.ty == t then e
    else match e
    case Const(v, _) => Const(Wrap(t, v), t)
    case _ => Convert(e, t)
  }

  /** The comparison in the nominal type, on the operands as received. */
  function Nominal(a: Operand, b: Operand, restype: IntType, code: Code): Outcome
    requires OperandOk(a, restype) && OperandOk(b, restype)
  {
    if b.op.Const? && b.op.value == 0 && restype.uns && code == Ge then Constant(true)
    else if b.op.Const? && b.op.value == 0 && restype.uns && code == Lt then Constant(false)
    else Rewritten(ConvertTo(restype, a.op), ConvertTo(restype, b.op), code)
  }

  function ShortenOrdered(a: Operand, b: Operand, restype: IntType, code: Code): Outcome
    requires OperandOk(a, restype) && OperandOk(b, restype)
  {
    if b.prim.Const? && a.prim.ty.prec < restype.prec then AgainstConstant(a, b.prim.value, restype, code)
    else if a.uns == b.uns && a.prim.ty.prec < restype.prec && b.prim.ty.prec < restype.prec then
      InWider(a, b, restype, code)
    else Nominal(a, b, restype, code)
  }

  /** A constant first operand is swapped to the second place, unless the second is 0. */
  predicate Swaps(a: Operand, b: Operand) {
    a.prim.Const? && !(b.prim.Const? && b.prim.value == 0)
  }

  function ShortenOperands(a: Operand, b: Operand, restype: IntType, code: Code): Outcome
    requires OperandOk(a, restype) && OperandOk(b, restype)
  {
    if Swaps(a, b) then ShortenOrdered(b, a, restype, Mirror(code)) else ShortenOrdered(a, b, restype, code)
  }

  // ---------- when the narrowed operand stands for the converted one ----------

  /** An operand that is sign-extended to an unsigned type and then zero-extended to the nominal type.  The
      function takes such an operand to be sign-extended all the way. */
  predicate Mixed(op: Expr, restype: IntType) {
    var (w, u) := Strip(op, false, true);
    w.ty.prec < op.ty.prec < restype.prec && !u && op.ty.uns
  }

  /** The comparison of the operands as the function takes them to be extended. */
  predicate Assumed(code: Code, a: Operand, b: Operand, restype: IntType, env: nat -> int)
    requires OperandOk(a, restype) && OperandOk(b, restype)
  {
    Compare(code, Wrap(restype, Read(a.uns, a.prim, env)), Wrap(restype, Read(b.uns, b.prim, env)))
  }

  /** Whether the comparison is done on narrowed operands. */
  predicate Narrows(a: Operand, b: Operand, restype: IntType) {
    && a.prim.ty.prec < restype.prec
    && (b.prim.Const? || (a.uns == b.uns && b.prim.ty.prec < restype.prec))
  }

  /** The extension that a.uns says gives the converted operand. */
  predicate Stands(a: Operand, restype: IntType, env: nat -> int)
    requires OperandOk(a, restype)
  {
    Wrap(restype, Read(a.uns, a.prim, env)) == Wrap(restype, Eval(a.op, env))
  }

  lemma OperateOk(op: Expr, restype: IntType, env: nat -> int)
    requires ExprOk(op) && TypeOk(restype) && op.ty.prec <= restype.prec
    ensures OperandOk(Operate(op, restype), restype)
  {
    NarrowExtends(op, env);
    StripConst(op, false, true);
  }

  lemma {:induction false} StripConst(op: Expr, uns: bool, first: bool)
    requires ExprOk(op)
    ensures Strip(op, uns, first).0.Const? || op.Const? ==> Strip(op, uns, first).0 == op
    decreases op
  {
    if op.Convert? && op.ty.prec >= op.op.ty.prec {
      StripConst(op.op, op.op.ty.uns, false);
      StripConst(op.op, uns, false);
      StripConst(op.op, op.ty.uns, false);
    }
  }

  /** Unless it is mixed, every operand stands for itself. */
  lemma Faithful(op: Expr, restype: IntType, env: nat -> int)
    requires ExprOk(op) && TypeOk(restype) && op.ty.prec <= restype.prec && !Mixed(op, restype)
    ensures OperandOk(Operate(op, restype), restype) && Stands(Operate(op, restype), restype, env)
  {
    OperateOk(op, restype, env);
    NarrowExtends(op, env);
    var a := Operate(op, restype);
    var r := Read(a.uns, a.prim, env);
    if a.prim == op {
      if op.ty.prec == restype.prec {
        WrapWrap(restype, IntType(op.ty.prec, a.uns), Eval(op, env));
      }
      EvalInRange(op, env);
      WrapInRange(op.ty, Eval(op, env));
    } else if op.ty.prec == restype.prec {
      WrapWrap(restype, op.ty, r);
    } else {
      var k := WrapBy(IntType(a.prim.ty.prec, a.uns), Eval(a.prim, env));
      if a.prim.ty.prec < op.ty.prec {
        Fits(IntType(a.prim.ty.prec, a.uns), op.ty, r);
      }
      WrapInRange(op.ty, r);
    }
  }
  // ---------- the three ways to compare ----------

  /** A signed value as an unsigned one of the same precision. */
  lemma Unsigned(n: nat, y: int)
    requires n >= 1 && InRange(IntType(n, false), y)
    ensures Wrap(IntType(n, true), y) == if y < 0 then y + Pow2(n) else y
  {
    WrapIs(IntType(n, true), y, if y < 0 then y + Pow2(n) else y, if y < 0 then -1 else 0);
  }

  /** A converted operand that stands for itself, read in a type at least as wide as the narrow one. */
  lemma ReadAs(a: Operand, t: IntType, env: nat -> int)
    requires ExprOk(a.prim) && TypeOk(t) && t.prec == a.prim.ty.prec
    ensures Wrap(t, Eval(a.prim, env)) == Wrap(t, Read(a.uns, a.prim, env))
  {
    WrapWrap(t, IntType(a.prim.ty.prec, a.uns), Eval(a.prim, env));
  }

  /** The range of the narrow type decides the comparison whenever Fixed says so, and otherwise contains the
      constant as far as the comparison can tell. */
  lemma FixedRight(code: Code, mn: int, mx: int, c: int, x: int)
    requires mn <= x <= mx
    ensures Fixed(code, mn, mx, c).Known? ==> Compare(code, x, c) == Fixed(code, mn, mx, c).value
    ensures Fixed(code, mn, mx, c).Unknown? ==> mn <= c <= mx
  {
  }

  lemma AgainstPlain(a: Operand, b: Operand, restype: IntType, code: Code, env: nat -> int)
    requires OperandOk(a, restype) && OperandOk(b, restype)
    requires b.prim.Const? && a.prim.ty.prec < restype.prec && (a.uns || !restype.uns)
    ensures var r := AgainstConstant(a, b.prim.value, restype, code);
            OutcomeOk(r) && Result(r, env) == Compare(code, Wrap(restype, Read(a.uns, a.prim, env)),
                                                      Wrap(restype, b.prim.value))
  {
    var ty := IntType(a.prim.ty.prec, a.uns);
    var x := Read(a.uns, a.prim, env);
    var c := Wrap(restype, b.prim.value);
    var k := WrapBy(ty, Eval(a.prim, env));
    Fits(ty, restype, x);
    Fits(ty, restype, MinValue(ty));
    Fits(ty, restype, MaxValue(ty));
    WrapInRange(restype, x);
    WrapInRange(restype, MinValue(ty));
    WrapInRange(restype, MaxValue(ty));
    FixedRight(code, MinValue(ty), MaxValue(ty), c, x);
    if Fixed(code, MinValue(ty), MaxValue(ty), c).Unknown? {
      WrapInRange(ty, c);
      ConvertEval(ty, a.prim, env);
    }
  }

  function Lifted(y: int, m: int): int {
    if y < 0 then y + m else y
  }

  /** Comparing sign-extended values as unsigned ones, with h and g half the two moduli. */
  lemma SignValues(code: Code, h: int, g: int, x: int, c: int)
    requires 1 <= h && 2 * h <= g && -h <= x < h && -g <= c < g
    ensures var val := Fixed(code, -h, h - 1, c);
            var limit := if val.Unknown? then Lifted(c, 2 * h)
                         else if code == Lt || code == Ge then Lifted(-h, 2 * h) else h - 1;
            var right := Compare(code, Lifted(x, 2 * g), Lifted(c, 2 * g));
            if val.Known? && (code == Eq || code == Ne) then val.value == right
            else Compare(code, Lifted(x, 2 * h), limit) == right
  {
    FixedRight(code, -h, h - 1, c, x);
  }

  /** A sign-extended operand in an unsigned comparison: the values on both sides, and the outcome on them. */
  lemma SignTest(code: Code, p: nat, n: nat, x: int, c: int)
    requires 1 <= p < n && InRange(IntType(p, false), x) && InRange(IntType(n, false), c)
    ensures var ty, uty := IntType(p, false), IntType(p, true);
            var val := Fixed(code, MinValue(ty), MaxValue(ty), c);
            var limit := if val.Unknown? then Wrap(uty, c)
                         else if code == Lt || code == Ge then Wrap(uty, MinValue(ty)) else Wrap(uty, MaxValue(ty));
            var right := Compare(code, Wrap(IntType(n, true), x), Wrap(IntType(n, true), c));
            if val.Known? && (code == Eq || code == Ne) then val.value == right
            else Compare(code, Wrap(uty, x), limit) == right
  {
    hide Wrap, Compare, Fixed, Pow2;
    var h: int, g: int := HalfOf(p), HalfOf(n);
    HalfGrows(p, n);
    SignValues(code, h, g, x, c);
    Unsigned(n, x);
    Unsigned(n, c);
    Unsigned(p, x);
    Unsigned(p, -h);
    Unsigned(p, h - 1);
    FixedRight(code, -h, h - 1, c, x);
    if Fixed(code, -h, h - 1, c).Unknown? {
      Unsigned(p, c);
    }
  }

  /** Half the modulus of a type. */
  function HalfOf(p: nat): (h: nat)
    requires p >= 1
    ensures h >= 1 && Pow2(p) == 2 * h && h == Pow2(p - 1)
  {
    Pow2(p - 1)
  }

  lemma HalfGrows(p: nat, n: nat)
    requires 1 <= p < n
    ensures 2 * HalfOf(p) <= HalfOf(n)
  {
    Pow2Grows(p - 1, n - 1);
  }

  lemma AgainstSigned(a: Operand, b: Operand, restype: IntType, code: Code, env: nat -> int)
    requires OperandOk(a, restype) && OperandOk(b, restype)
    requires b.prim.Const? && a.prim.ty.prec < restype.prec && restype.uns && !a.uns
    ensures var r := AgainstConstant(a, b.prim.value, restype, code);
            OutcomeOk(r) && Result(r, env) == Compare(code, Wrap(restype, Read(a.uns, a.prim, env)),
                                                      Wrap(restype, b.prim.value))
  {
    var p, n := a.prim.ty.prec, restype.prec;
    var ty, uty, rt := IntType(p, false), IntType(p, true), IntType(n, false);
    var x := Read(a.uns, a.prim, env);
    var c := Wrap(rt, b.prim.value);
    var k := WrapBy(ty, Eval(a.prim, env));
    var m := WrapBy(rt, b.prim.value);
    WrapWrap(restype, rt, b.prim.value);
    Fits(ty, rt, MinValue(ty));
    Fits(ty, rt, MaxValue(ty));
    WrapInRange(rt, MinValue(ty));
    WrapInRange(rt, MaxValue(ty));
    SignTest(code, p, n, x, c);
    ConvertEval(uty, a.prim, env);
    ReadAs(a, uty, env);
    var i := WrapBy(uty, c);
    var j := WrapBy(uty, MinValue(ty));
    var l := WrapBy(uty, MaxValue(ty));
  }

  lemma AgainEval(t: IntType, e: Expr, env: nat -> int)
    requires TypeOk(t) && ExprOk(e)
    ensures ExprOk(Again(t, e)) && Eval(Again(t, e), env) == Wrap(t, Eval(e, env))
  {
    ConvertEval(t, e, env);
  }

  /** Order is the same for sign-extended values in unsigned types of any precision wide enough. */
  lemma SameOrder(code: Code, m: nat, n: nat, x: int, y: int)
    requires 1 <= m < n && InRange(IntType(m, false), x) && InRange(IntType(m, false), y)
    ensures Compare(code, Wrap(IntType(m, true), x), Wrap(IntType(m, true), y))
            == Compare(code, Wrap(IntType(n, true), x), Wrap(IntType(n, true), y))
  {
    Pow2Grows(m - 1, n - 1);
    Unsigned(m, x);
    Unsigned(m, y);
    Unsigned(n, x);
    Unsigned(n, y);
    assert Pow2(m) == 2 * Pow2(m - 1) && Pow2(n) == 2 * Pow2(n - 1);
  }

  /** A value in the range of a type is in the range of a wider one of the same signedness. */
  lemma Widen(p: nat, m: nat, uns: bool, x: int)
    requires 1 <= p <= m && InRange(IntType(p, uns), x)
    ensures InRange(IntType(m, uns), x)
  {
    if p < m {
      Fits(IntType(p, uns), IntType(m, uns), x);
    }
  }

  /** What InWider compares. */
  lemma InWiderValues(a: Operand, b: Operand, restype: IntType, code: Code, env: nat -> int)
    requires OperandOk(a, restype) && OperandOk(b, restype) && a.uns == b.uns
    ensures var p, q := a.prim.ty.prec, b.prim.ty.prec;
            var ty := IntType(if p < q then q else p, a.uns || restype.uns);
            var r := InWider(a, b, restype, code);
            OutcomeOk(r) &&
            Result(r, env) == Compare(code, Wrap(ty, Read(a.uns, a.prim, env)), Wrap(ty, Read(b.uns, b.prim, env)))
  {
    hide Wrap, Compare;
    var p, q := a.prim.ty.prec, b.prim.ty.prec;
    var ty := IntType(if p < q then q else p, a.uns || restype.uns);
    ConvertEval(IntType(p, a.uns), a.prim, env);
    ConvertEval(IntType(q, b.uns), b.prim, env);
    AgainEval(ty, ConvertTo(IntType(p, a.uns), a.prim), env);
    AgainEval(ty, ConvertTo(IntType(q, b.uns), b.prim), env);
  }

  /** Values extended alike compare the same in both types. */
  lemma SameInBoth(code: Code, p: nat, q: nat, uns: bool, restype: IntType, x: int, y: int)
    requires 1 <= p < restype.prec && 1 <= q < restype.prec
    requires InRange(IntType(p, uns), x) && InRange(IntType(q, uns), y)
    ensures var ty := IntType(if p < q then q else p, uns || restype.uns);
            Compare(code, Wrap(ty, x), Wrap(ty, y)) == Compare(code, Wrap(restype, x), Wrap(restype, y))
  {
    hide Wrap, Compare;
    var m := if p < q then q else p;
    Widen(p, m, uns, x);
    Widen(q, m, uns, y);
    if uns || !restype.uns {
      var ty := IntType(m, uns);
      Fits(ty, restype, x);
      Fits(ty, restype, y);
      WrapInRange(restype, x);
      WrapInRange(restype, y);
      WrapInRange(ty, x);
      WrapInRange(ty, y);
    } else {
      SameOrder(code, m, restype.prec, x, y);
    }
  }

  lemma InWiderRight(a: Operand, b: Operand, restype: IntType, code: Code, env: nat -> int)
    requires OperandOk(a, restype) && OperandOk(b, restype)
    requires a.uns == b.uns && a.prim.ty.prec < restype.prec && b.prim.ty.prec < restype.prec
    ensures var r := InWider(a, b, restype, code);
            OutcomeOk(r) && Result(r, env) == Assumed(code, a, b, restype, env)
  {
    hide Wrap, Compare, InWider, Result, OutcomeOk;
    InWiderValues(a, b, restype, code, env);
    var k := WrapBy(IntType(a.prim.ty.prec, a.uns), Eval(a.prim, env));
    var l := WrapBy(IntType(b.prim.ty.prec, b.uns), Eval(b.prim, env));
    SameInBoth(code, a.prim.ty.prec, b.prim.ty.prec, a.uns, restype, Read(a.uns, a.prim, env), Read(b.uns, b.prim, env));
  }

  lemma NominalRight(a: Operand, b: Operand, restype: IntType, code: Code, env: nat -> int)
    requires OperandOk(a, restype) && OperandOk(b, restype)
    ensures var r := Nominal(a, b, restype, code);
            OutcomeOk(r) && Result(r, env) == Meaning(code, a.op, b.op, restype, env)
  {
    ConvertEval(restype, a.op, env);
    ConvertEval(restype, b.op, env);
    var k := WrapBy(restype, Eval(a.op, env));
    if b.op.Const? && b.op.value == 0 {
      WrapInRange(restype, 0);
    }
  }

  /** What the outcome computes, for any operands: the comparison of the values that the narrowed operands are
      taken to stand for, or else the comparison in the nominal type. */
  lemma OrderedComputes(a: Operand, b: Operand, restype: IntType, code: Code, env: nat -> int)
    requires OperandOk(a, restype) && OperandOk(b, restype) && (b.prim.Const? ==> Stands(b, restype, env))
    ensures var r := ShortenOrdered(a, b, restype, code);
            OutcomeOk(r) && Result(r, env) == if Narrows(a, b, restype) then Assumed(code, a, b, restype, env)
                                              else Meaning(code, a.op, b.op, restype, env)
  {
    hide Result, AgainstConstant, InWider, Nominal, OutcomeOk, Wrap, Compare;
    if b.prim.Const? && a.prim.ty.prec < restype.prec {
      if restype.uns && !a.uns {
        AgainstSigned(a, b, restype, code, env);
      } else {
        AgainstPlain(a, b, restype, code, env);
      }
    } else if a.uns == b.uns && a.prim.ty.prec < restype.prec && b.prim.ty.prec < restype.prec {
      InWiderRight(a, b, restype, code, env);
    } else {
      NominalRight(a, b, restype, code, env);
    }
  }

  lemma OrderedRight(a: Operand, b: Operand, restype: IntType, code: Code, env: nat -> int)
    requires OperandOk(a, restype) && OperandOk(b, restype) && Stands(a, restype, env) && Stands(b, restype, env)
    ensures var r := ShortenOrdered(a, b, restype, code);
            OutcomeOk(r) && Result(r, env) == Meaning(code, a.op, b.op, restype, env)
  {
    hide Result, OutcomeOk, ShortenOrdered, Wrap, Compare;
    OrderedComputes(a, b, restype, code, env);
  }

  lemma Mirrored(code: Code, x: int, y: int)
    ensures Compare(Mirror(code), y, x) == Compare(code, x, y)
  {
  }

  /** Operands that stand for themselves: the outcome is the truth value of the comparison. */
  lemma OperandsRight(a: Operand, b: Operand, restype: IntType, code: Code, env: nat -> int)
    requires OperandOk(a, restype) && OperandOk(b, restype) && Stands(a, restype, env) && Stands(b, restype, env)
    ensures var r := ShortenOperands(a, b, restype, code);
            OutcomeOk(r) && Result(r, env) == Meaning(code, a.op, b.op, restype, env)
  {
    hide Result, OutcomeOk, ShortenOrdered, Stands, Mirror;
    if Swaps(a, b) {
      OrderedRight(b, a, restype, Mirror(code), env);
      Mirrored(code, Wrap(restype, Eval(a.op, env)), Wrap(restype, Eval(b.op, env)));
    } else {
      OrderedRight(a, b, restype, code, env);
    }
  }

  /** The outcome is well formed for any operands. */
  lemma OutcomeFits(a: Operand, b: Operand, restype: IntType, code: Code)
    requires OperandOk(a, restype) && OperandOk(b, restype)
    ensures OutcomeOk(ShortenOperands(a, b, restype, code))
  {
    OrderedFits(a, b, restype, code);
    OrderedFits(b, a, restype, Mirror(code));
  }

  lemma OrderedFits(a: Operand, b: Operand, restype: IntType, code: Code)
    requires OperandOk(a, restype) && OperandOk(b, restype)
    ensures OutcomeOk(ShortenOrdered(a, b, restype, code))
  {
    if b.prim.Const? && a.prim.ty.prec < restype.prec {
      AgainstFits(a, b.prim.value, restype, code);
    } else if a.uns == b.uns && a.prim.ty.prec < restype.prec && b.prim.ty.prec < restype.prec {
      InWiderFits(a, b, restype, code);
    } else {
      NominalRight(a, b, restype, code, x => 0);
    }
  }

  lemma AgainstFits(a: Operand, v: int, restype: IntType, code: Code)
    requires OperandOk(a, restype)
    ensures OutcomeOk(AgainstConstant(a, v, restype, code))
  {
    var ty, uty := IntType(a.prim.ty.prec, a.uns), IntType(a.prim.ty.prec, true);
    ConvertEval(uty, a.prim, x => 0);
    ConvertEval(ty, a.prim, x => 0);
    forall c ensures InRange(uty, Wrap(uty, c)) && InRange(ty, Wrap(ty, c)) {
      var k := WrapBy(uty, c);
      var l := WrapBy(ty, c);
    }
  }

  lemma InWiderFits(a: Operand, b: Operand, restype: IntType, code: Code)
    requires OperandOk(a, restype) && OperandOk(b, restype)
    ensures OutcomeOk(InWider(a, b, restype, code))
  {
    var p, q := a.prim.ty.prec, b.prim.ty.prec;
    var ty := IntType(if p < q then q else p, a.uns || restype.uns);
    ConvertEval(IntType(p, a.uns), a.prim, x => 0);
    ConvertEval(IntType(q, b.uns), b.prim, x => 0);
    AgainEval(ty, ConvertTo(IntType(p, a.uns), a.prim), x => 0);
    AgainEval(ty, ConvertTo(IntType(q, b.uns), b.prim), x => 0);
  }

  // ---------- shorten_compare ----------

  function Shortened(op0: Expr, op1: Expr, restype: IntType, code: Code): Outcome
    requires OperandOk(Operate(op0, restype), restype) && OperandOk(Operate(op1, restype), restype)
  {
    ShortenOperands(Operate(op0, restype), Operate(op1, restype), restype, code)
  }

  /** Unless an operand is mixed, the outcome has the truth value of the comparison in the nominal type, whatever
      the values of the operands. */
  lemma ShortenedRight(op0: Expr, op1: Expr, restype: IntType, code: Code, env: nat -> int)
    requires ExprOk(op0) && ExprOk(op1) && TypeOk(restype)
    requires op0.ty.prec <= restype.prec && op1.ty.prec <= restype.prec
    ensures OperandOk(Operate(op0, restype), restype) && OperandOk(Operate(op1, restype), restype)
    ensures var r := Shortened(op0, op1, restype, code);
            && OutcomeOk(r)
            && (!Mixed(op0, restype) && !Mixed(op1, restype)
                ==> Result(r, env) == Meaning(code, op0, op1, restype, env))
  {
    hide Result, Meaning, ShortenOperands, Mixed, Operate, OutcomeOk;
    OperateOk(op0, restype, env);
    OperateOk(op1, restype, env);
    OutcomeFits(Operate(op0, restype), Operate(op1, restype), restype, code);
    if !Mixed(op0, restype) && !Mixed(op1, restype) {
      Faithful(op0, restype, env);
      Faithful(op1, restype, env);
      OperandsRight(Operate(op0, restype), Operate(op1, restype), restype, code, env);
      OperateKeeps(op0, restype);
      OperateKeeps(op1, restype);
    }
  }

  lemma OperateKeeps(op: Expr, restype: IntType)
    ensures Operate(op, restype).op == op
  {
  }

  // ---------- what is decided, and how narrow the rest is ----------

  /** The range decides a comparison exactly if all its values compare alike. */
  lemma FixedExact(code: Code, mn: int, mx: int, c: int, v: bool)
    requires mn < mx
    ensures Fixed(code, mn, mx, c) == Known(v) <==> forall x :: mn <= x <= mx ==> Compare(code, x, c) == v
  {
    assert mn <= mn <= mx && mn <= mx <= mx;
    assert Compare(code, mn, c) == v && Compare(code, mx, c) == v && (mn <= c <= mx ==> Compare(code, c, c) == v)
           ==> Fixed(code, mn, mx, c) == Known(v);
    FixedRight(code, mn, mx, c, mn);
    if Fixed(code, mn, mx, c) == Known(v) {
      forall x | mn <= x <= mx ensures Compare(code, x, c) == v {
        FixedRight(code, mn, mx, c, x);
      }
    }
  }

  /** All values of the narrow operand, extended as the function takes it to be, compare alike with the constant. */
  ghost predicate Decided(a: Operand, v: int, restype: IntType, code: Code, truth: bool)
    requires OperandOk(a, restype)
  {
    forall x :: InRange(IntType(a.prim.ty.prec, a.uns), x) ==> Compare(code, Wrap(restype, x), Wrap(restype, v)) == truth
  }

  lemma RangeOf(a: Operand, restype: IntType)
    requires OperandOk(a, restype) && a.prim.ty.prec < restype.prec
    ensures var ty := IntType(a.prim.ty.prec, a.uns);
            var rt := if restype.uns && !a.uns then IntType(restype.prec, false) else restype;
            && MinValue(ty) < MaxValue(ty) && (forall x :: InRange(ty, x) ==> Wrap(rt, x) == x)
            && Wrap(rt, MinValue(ty)) == MinValue(ty) && Wrap(rt, MaxValue(ty)) == MaxValue(ty)
  {
    hide Wrap;
    var ty := IntType(a.prim.ty.prec, a.uns);
    var rt := if restype.uns && !a.uns then IntType(restype.prec, false) else restype;
    assert MinValue(ty) < MaxValue(ty);
    forall x | InRange(ty, x) ensures Wrap(rt, x) == x {
      Fits(ty, rt, x);
      WrapInRange(rt, x);
    }
    assert InRange(ty, MinValue(ty)) && InRange(ty, MaxValue(ty));
  }

  /** A comparison of a narrower operand with a constant is decided exactly if all values of the operand compare alike;
      where a sign-extended operand is compared as unsigned, tests for order are never decided but test the sign. */
  lemma ConstantExact(a: Operand, v: int, restype: IntType, code: Code, truth: bool)
    requires OperandOk(a, restype) && a.prim.ty.prec < restype.prec
    ensures AgainstConstant(a, v, restype, code) == Constant(truth) <==>
              Decided(a, v, restype, code, truth) && (restype.uns && !a.uns ==> code == Eq || code == Ne)
  {
    hide Wrap;
    RangeOf(a, restype);
    var ty := IntType(a.prim.ty.prec, a.uns);
    if restype.uns && !a.uns {
      var rt := IntType(restype.prec, false);
      var c := Wrap(rt, v);
      FixedExact(code, MinValue(ty), MaxValue(ty), c, truth);
      if code == Eq || code == Ne {
        forall x | InRange(ty, x) ensures Compare(code, Wrap(restype, x), Wrap(restype, v)) == Compare(code, x, c) {
          Fits(ty, rt, x);
          SameBits(restype, x, v);
        }
        assert MinValue(ty) <= MinValue(ty) <= MaxValue(ty);
        assert forall x :: InRange(ty, x) <==> MinValue(ty) <= x <= MaxValue(ty);
      }
    } else {
      FixedExact(code, MinValue(ty), MaxValue(ty), Wrap(restype, v), truth);
      forall x ensures InRange(ty, x) <==> MinValue(ty) <= x <= MaxValue(ty) {
      }
      forall x | InRange(ty, x) ensures Compare(code, Wrap(restype, x), Wrap(restype, v)) == Compare(code, x, Wrap(restype, v)) {
      }
      if Decided(a, v, restype, code, truth) {
        forall x | MinValue(ty) <= x <= MaxValue(ty) ensures Compare(code, x, Wrap(restype, v)) == truth {
          assert InRange(ty, x);
        }
      }
    }
  }

  /** Equal as unsigned is equal as signed. */
  lemma SameBits(restype: IntType, x: int, v: int)
    requires TypeOk(restype) && restype.uns && InRange(IntType(restype.prec, false), x)
    ensures Wrap(restype, x) == Wrap(restype, v) <==> x == Wrap(IntType(restype.prec, false), v)
  {
    var rt := IntType(restype.prec, false);
    WrapInRange(rt, x);
    WrapWrap(rt, restype, x);
    WrapWrap(rt, restype, v);
    WrapWrap(restype, rt, v);
    WrapWrap(restype, rt, x);
  }

  /** What is left to compare is narrower than the nominal type exactly if the operands are narrowed; otherwise the nominal
      type is compared, or an unsigned value with 0. */
  lemma OrderedWidth(a: Operand, b: Operand, restype: IntType, code: Code)
    requires OperandOk(a, restype) && OperandOk(b, restype)
    ensures var r := ShortenOrdered(a, b, restype, code);
            && (r.Rewritten? ==> r.op0.ty == r.op1.ty)
            && (r.Rewritten? && Narrows(a, b, restype) ==> r.op0.ty.prec < restype.prec)
            && (r.Rewritten? && Narrows(a, b, restype) && b.prim.Const? ==> r.op0.ty.prec == a.prim.ty.prec)
            && (r.Rewritten? && !Narrows(a, b, restype) ==> r.op0.ty == restype)
            && (r.Constant? && !Narrows(a, b, restype) ==> restype.uns && b.op.Const? && b.op.value == 0 && (code == Ge || code == Lt))
  {
    hide Wrap, Fixed, MinValue, MaxValue, Compare;
  }

  /** shorten_compare on integer operands. */
  method ShortenCompare(op0: Expr, op1: Expr, restype: IntType, code: Code) returns (r: Outcome)
    requires ExprOk(op0) && ExprOk(op1) && TypeOk(restype)
    requires op0.ty.prec <= restype.prec && op1.ty.prec <= restype.prec
    ensures OperandOk(Operate(op0, restype), restype) && OperandOk(Operate(op1, restype), restype)
    ensures r == Shortened(op0, op1, restype, code) && OutcomeOk(r)
    ensures !Mixed(op0, restype) && !Mixed(op1, restype) ==>
              forall env: nat -> int :: Result(r, env) == Meaning(code, op0, op1, restype, env)
  {
    hide ShortenOrdered, Mirror, Strip, Mixed, Meaning, Result, OutcomeOk;
    ShortenedRight(op0, op1, restype, code, x => 0);
    forall env: nat -> int | !Mixed(op0, restype) && !Mixed(op1, restype)
      ensures Result(Shortened(op0, op1, restype, code), env) == Meaning(code, op0, op1, restype, env)
    {
      ShortenedRight(op0, op1, restype, code, env);
    }
    var primop0, unsignedp0 := GetNarrower(op0);
    var primop1, unsignedp1 := GetNarrower(op1);
    if op0 == primop0 && op0.ty != restype {
      unsignedp0 := op0.ty.uns;
    }
    if op1 == primop1 && op1.ty != restype {
      unsignedp1 := op1.ty.uns;
    }
    var a, b := Operand(op0, primop0, unsignedp0), Operand(op1, primop1, unsignedp1);
    assert a == Operate(op0, restype) && b == Operate(op1, restype);
    if Swaps(a, b) {
      r := ShortenOrdered(b, a, restype, Mirror(code));
    } else {
      r := ShortenOrdered(a, b, restype, code);
    }
  }
}
