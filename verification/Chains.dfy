/** The values that a chain of integer conversions can take. */
module Chains {
  import opened IntTypes
  import opened Shorten

  /** The variable at the bottom. */
  function NameOf(e: Expr): nat
    requires ExprOk(e) && !e.Const?
  {
    match e
    case Var(x, _) => x
    case Convert(op, _) => NameOf(op)
  }

  /** How many low bits of the variable are left. */
  function LowBits(e: Expr): (q: nat)
    requires ExprOk(e) && !e.Const?
    ensures 1 <= q <= e.ty.prec
  {
    match e
    case Var(_, t) => t.prec
    case Convert(op, t) => if LowBits(op) < t.prec then LowBits(op) else t.prec
  }

  /** The precision in which the low bits, sign-extended, were last taken to be unsigned; 0 if the chain can still be
      negative. */
  function LiftBits(e: Expr): (r: nat)
    requires ExprOk(e) && !e.Const?
    ensures r > 0 ==> LowBits(e) <= r <= e.ty.prec && (r == e.ty.prec ==> e.ty.uns)
    ensures r == 0 ==> !e.ty.uns
  {
    var below := match e
                 case Var(_, _) => 0
                 case Convert(op, _) => LiftBits(op);
    if 0 < below < e.ty.prec then below else if e.ty.uns then e.ty.prec else 0
  }

  /** The low bits that are left, as a signed number. */
  function Low(e: Expr, env: nat -> int): int
    requires ExprOk(e) && !e.Const?
  {
    Wrap(IntType(LowBits(e), false), env(NameOf(e)))
  }

  lemma WrapShift(t: IntType, v: int, r: nat)
    requires TypeOk(t) && t.prec <= r
    ensures Wrap(t, v + Pow2(r)) == Wrap(t, v)
  {
    hide Wrap, Pow2, InRange;
    var k := WrapBy(t, v);
    var m := Pow2(r - t.prec);
    Pow2Add(t.prec, r - t.prec);
    Distribute(k, 1, m, Pow2(t.prec));
    WrapIs(t, v + Pow2(r), Wrap(t, v), k + m);
  }

  /** Converting a signed value of q bits. */
  lemma WrapLow(t: IntType, q: nat, v: int)
    requires TypeOk(t) && q >= 1 && InRange(IntType(q, false), v)
    ensures var low := Wrap(IntType(if q < t.prec then q else t.prec, false), v);
            Wrap(t, v) == if t.uns then Lifted(low, Pow2(t.prec)) else low
  {
    hide Wrap, Pow2;
    var s := IntType(t.prec, false);
    var k := WrapBy(s, v);
    WrapWrap(t, s, v);
    if q < t.prec {
      Widen(q, t.prec, false, v);
      WrapInRange(s, v);
      WrapInRange(IntType(q, false), v);
    }
    if t.uns {
      Unsigned(t.prec, Wrap(s, v));
    }
  }

  /** The value of a chain of conversions depends on the low bits that are left alone: it is their signed value, with
      negative ones lifted to the precision in which they were last taken to be unsigned. */
  lemma {:induction false} ChainValue(e: Expr, env: nat -> int)
    requires ExprOk(e) && !e.Const?
    ensures InRange(IntType(LowBits(e), false), Low(e, env))
    ensures Eval(e, env) == if LiftBits(e) == 0 then Low(e, env) else Lifted(Low(e, env), Pow2(LiftBits(e)))
  {
    hide Wrap, Pow2, InRange;
    var t, q := e.ty, LowBits(e);
    var k := WrapBy(IntType(q, false), env(NameOf(e)));
    match e
    case Var(x, _) =>
      WrapWrap(t, IntType(q, false), env(x));
      WrapLow(t, q, Low(e, env));
      WrapInRange(IntType(q, false), Low(e, env));
    case Convert(op, _) =>
      ChainValue(op, env);
      var s, r := Low(op, env), LiftBits(op);
      WrapWrap(IntType(q, false), IntType(LowBits(op), false), env(NameOf(e)));
      if 0 < r < t.prec {
        LiftedFits(t, LowBits(op), r, s);
        WrapInRange(IntType(LowBits(op), false), s);
      } else {
        if r > 0 {
          WrapShift(t, s, r);
        }
        WrapLow(t, LowBits(op), s);
      }
  }

  lemma LiftedFits(t: IntType, q: nat, r: nat, s: int)
    requires TypeOk(t) && 1 <= q <= r < t.prec && InRange(IntType(q, false), s)
    ensures Wrap(t, Lifted(s, Pow2(r))) == Lifted(s, Pow2(r)) && 0 <= Lifted(s, Pow2(r)) < Pow2(r)
  {
    hide Wrap, Pow2;
    Widen(q, r, false, s);
    Unsigned(r, s);
    var k := WrapBy(IntType(r, true), s);
    Fits(IntType(r, true), t, Lifted(s, Pow2(r)));
    WrapInRange(t, Lifted(s, Pow2(r)));
  }

  // ---------- read as signed ----------

  /** The precision to which negative low bits are lifted when e is read as a signed number; 0 if they are not. */
  function SignedLift(e: Expr): (r: nat)
    requires ExprOk(e) && !e.Const?
    ensures r > 0 ==> LowBits(e) <= r < e.ty.prec
  {
    if 0 < LiftBits(e) < e.ty.prec then LiftBits(e) else 0
  }

  lemma SignedValue(e: Expr, env: nat -> int)
    requires ExprOk(e) && !e.Const?
    ensures var s, h := Low(e, env), HalfOf(LowBits(e));
            && -(h as int) <= s < h
            && Read(false, e, env) == if SignedLift(e) == 0 then s else Lifted(s, Pow2(SignedLift(e)))
  {
    ChainValue(Convert(e, IntType(e.ty.prec, false)), env);
  }

  /** Values of the variables that leave chosen low bits. */
  function Assign(n: nat, x: int, y: int): nat -> int {
    k => if k == n then x else y
  }

  lemma LowAssigned(e: Expr, n: nat, x: int, y: int)
    requires ExprOk(e) && !e.Const?
    requires var v := if NameOf(e) == n then x else y; -(HalfOf(LowBits(e)) as int) <= v < HalfOf(LowBits(e))
    ensures Low(e, Assign(n, x, y)) == if NameOf(e) == n then x else y
  {
    WrapInRange(IntType(LowBits(e), false), if NameOf(e) == n then x else y);
  }
}
