/** When shorten_compare is right for operands that are sign-extended and then zero-extended, and when not. */
module ShortenExact {
  import opened IntTypes
  import opened Shorten
  import opened Chains
  import opened ShortenValues

  /** An operand as shorten_compare looks at it. */
  predicate Looked(a: Operand, restype: IntType) {
    OperandOk(a, restype) && a == Operate(a.op, restype)
  }

  /** The modulus by which a converted operand lifts negative narrow values in an unsigned comparison. */
  function LiftOf(a: Operand, restype: IntType): nat {
    if Mixed(a.op, restype) then Pow2(a.op.ty.prec) else Pow2(restype.prec)
  }

  function PlainLiftOf(a: Operand, restype: IntType): nat {
    if Mixed(a.op, restype) then Pow2(a.op.ty.prec) else 0
  }

  /** Half the modulus of the low bits that are left of an operand. */
  function LowHalf(a: Operand): nat
    requires ExprOk(a.prim) && !a.prim.Const?
  {
    HalfOf(LowBits(a.prim))
  }

  /** The narrowed operand can be negative. */
  predicate Negative(a: Operand)
    requires ExprOk(a.prim) && !a.prim.Const?
  {
    SignedLift(a.prim) == 0
  }

  /** When a mixed operand compares rightly with a constant. */
  predicate ExactConst(a: Operand, b: Operand, restype: IntType, code: Code)
    requires Looked(a, restype) && Looked(b, restype) && b.prim.Const? && !a.prim.Const?
  {
    var c := Wrap(restype, b.prim.value);
    || !Negative(a)
    || (if restype.uns then AgreesUnsigned(code, LowHalf(a), Pow2(a.op.ty.prec), Pow2(restype.prec), c)
        else AgreesSigned(code, LowHalf(a), Pow2(a.op.ty.prec), c))
  }

  /** Both operands depend on the same variable. */
  predicate SameVariable(a: Operand, b: Operand)
    requires ExprOk(a.prim) && ExprOk(b.prim) && !a.prim.Const? && !b.prim.Const?
  {
    NameOf(a.prim) == NameOf(b.prim)
  }

  /** When two operands compare rightly that both may be negative. */
  predicate ExactBoth(a: Operand, b: Operand, restype: IntType, code: Code)
    requires Looked(a, restype) && Looked(b, restype) && !a.prim.Const? && !b.prim.Const?
  {
    var h, g := LowHalf(a), LowHalf(b);
    if restype.uns then
      if SameVariable(a, b) then SameLifted(code, h, g, LiftOf(a, restype), LiftOf(b, restype))
      else AgreesLifted(code, h, g, LiftOf(a, restype), LiftOf(b, restype))
    else
      if SameVariable(a, b) then SamePlain(code, h, g, PlainLiftOf(a, restype), PlainLiftOf(b, restype))
      else AgreesPlain(code, PlainLiftOf(a, restype), PlainLiftOf(b, restype))
  }

  /** When an operand that may be negative compares rightly with one that never is. */
  predicate ExactOne(a: Operand, b: Operand, restype: IntType, code: Code)
    requires Looked(a, restype) && Looked(b, restype) && !a.prim.Const? && !b.prim.Const?
  {
    var h, g, R, N := LowHalf(a), LowHalf(b), Pow2(SignedLift(b.prim)), Pow2(restype.prec);
    if restype.uns then
      if SameVariable(a, b) then SameOne(code, h, LiftOf(a, restype), N, g, R)
      else AgreesOne(code, h, LiftOf(a, restype), N, g, R)
    else
      if SameVariable(a, b) then SameOnePlain(code, h, PlainLiftOf(a, restype), g, R)
      else AgreesOnePlain(code, PlainLiftOf(a, restype), g, R)
  }

  predicate ExactVars(a: Operand, b: Operand, restype: IntType, code: Code)
    requires Looked(a, restype) && Looked(b, restype) && !a.prim.Const? && !b.prim.Const?
  {
    if Negative(a) && Negative(b) then ExactBoth(a, b, restype, code)
    else if Negative(a) then ExactOne(a, b, restype, code)
    else if Negative(b) then ExactOne(b, a, restype, Mirror(code))
    else true
  }

  /** When the outcome is the truth value of the comparison for all values of the operands. */
  predicate Exact(a: Operand, b: Operand, restype: IntType, code: Code)
    requires Looked(a, restype) && Looked(b, restype) && (a.prim.Const? ==> b.prim.Const?)
  {
    || !Narrows(a, b, restype)
    || (!Mixed(a.op, restype) && !Mixed(b.op, restype))
    || (!a.prim.Const? && if b.prim.Const? then ExactConst(a, b, restype, code) else ExactVars(a, b, restype, code))
  }

  /** The value of a mixed operand: negative narrow values become large ones of its own type. */
  lemma MixedValue(a: Operand, restype: IntType, env: nat -> int)
    requires Looked(a, restype) && Mixed(a.op, restype)
    ensures !a.uns && a.prim != a.op && !a.prim.Const?
    ensures InRange(IntType(a.prim.ty.prec, false), Read(false, a.prim, env))
    ensures Wrap(restype, Eval(a.op, env)) == Lifted(Read(false, a.prim, env), Pow2(a.op.ty.prec))
  {
    hide Wrap;
    var q := a.op.ty.prec;
    var x := Read(false, a.prim, env);
    NarrowExtends(a.op, env);
    var k := WrapBy(IntType(a.prim.ty.prec, false), Eval(a.prim, env));
    Widen(a.prim.ty.prec, q, false, x);
    Unsigned(q, x);
    EvalInRange(a.op, env);
    Fits(a.op.ty, restype, Eval(a.op, env));
    WrapInRange(restype, Eval(a.op, env));
  }

  /** The value that the comparison assumes for a sign-extended narrow operand. */
  lemma AssumedValue(a: Operand, restype: IntType, env: nat -> int)
    requires Looked(a, restype) && !a.uns && a.prim.ty.prec < restype.prec
    ensures InRange(IntType(a.prim.ty.prec, false), Read(false, a.prim, env))
    ensures Wrap(restype, Read(false, a.prim, env)) ==
            if restype.uns then Lifted(Read(false, a.prim, env), Pow2(restype.prec)) else Read(false, a.prim, env)
  {
    hide Wrap;
    var x := Read(false, a.prim, env);
    var k := WrapBy(IntType(a.prim.ty.prec, false), Eval(a.prim, env));
    Widen(a.prim.ty.prec, restype.prec, false, x);
    if restype.uns {
      Unsigned(restype.prec, x);
    } else {
      WrapInRange(restype, x);
    }
  }

  /** The value of a converted operand that is taken to be sign-extended, mixed or not. */
  lemma TrueValue(a: Operand, restype: IntType, env: nat -> int)
    requires Looked(a, restype) && !a.uns && a.prim.ty.prec < restype.prec
    ensures Wrap(restype, Eval(a.op, env)) ==
            Lifted(Read(false, a.prim, env), if restype.uns then LiftOf(a, restype) else PlainLiftOf(a, restype))
  {
    hide Wrap, Mixed;
    if Mixed(a.op, restype) {
      MixedValue(a, restype, env);
    } else {
      AssumedValue(a, restype, env);
      Faithful(a.op, restype, env);
    }
  }

  /** The moduli that lift operands are wide enough for their values and far enough apart. */
  lemma LiftSizes(a: Operand, b: Operand, restype: IntType)
    requires Looked(a, restype) && Looked(b, restype) && a.prim.ty.prec < restype.prec && b.prim.ty.prec < restype.prec
    ensures var (h, g, m, l, N) := (HalfOf(a.prim.ty.prec), HalfOf(b.prim.ty.prec), LiftOf(a, restype), LiftOf(b, restype),
                                    Pow2(restype.prec));
            && 4 * h <= m && 4 * g <= l && m <= N && l <= N && (2 * m <= l || m == l || 2 * l <= m)
            && (Mixed(a.op, restype) ==> 2 * m <= N) && (Mixed(b.op, restype) ==> 2 * l <= N)
            && (PlainLiftOf(a, restype) == 0 || PlainLiftOf(a, restype) == m)
            && (PlainLiftOf(b, restype) == 0 || PlainLiftOf(b, restype) == l)
  {
    hide Pow2;
    var q := if Mixed(a.op, restype) then a.op.ty.prec else restype.prec;
    var r := if Mixed(b.op, restype) then b.op.ty.prec else restype.prec;
    Order(a.prim.ty.prec, q);
    Order(b.prim.ty.prec, r);
    Order(q, r);
    Order(r, q);
    Order(q, restype.prec);
    Order(r, restype.prec);
  }

  lemma Order(m: nat, n: nat)
    ensures m < n ==> 2 * Pow2(m) <= Pow2(n)
  {
    if m < n {
      Pow2Grows(m, n);
    }
  }

  /** A mixed operand against a constant: both sides of the comparison, assumed and true. */
  lemma ConstSides(a: Operand, b: Operand, restype: IntType, code: Code, env: nat -> int)
    requires Looked(a, restype) && Looked(b, restype) && Narrows(a, b, restype) && b.prim.Const? && Mixed(a.op, restype)
    ensures var r := ShortenOrdered(a, b, restype, code);
            var x, c := Read(false, a.prim, env), Wrap(restype, b.prim.value);
            var h, m, N := HalfOf(a.prim.ty.prec), Pow2(a.op.ty.prec), Pow2(restype.prec);
            && OutcomeOk(r) && -(h as int) <= x < h && 4 * h <= m && 2 * m <= N
            && Result(r, env) == Compare(code, if restype.uns then Lifted(x, N) else x, c)
            && Meaning(code, a.op, b.op, restype, env) == Compare(code, Lifted(x, m), c)
            && (restype.uns ==> 0 <= c < N)
  {
    hide Compare, Result, OutcomeOk, ShortenOrdered, Wrap, Mixed, Pow2;
    ConstStands(b, restype, env);
    OrderedComputes(a, b, restype, code, env);
    MixedValue(a, restype, env);
    AssumedValue(a, restype, env);
    MixedOrder(a, restype);
    var k := WrapBy(restype, b.prim.value);
  }

  lemma MixedOrder(a: Operand, restype: IntType)
    requires Looked(a, restype) && Mixed(a.op, restype)
    ensures 4 * HalfOf(a.prim.ty.prec) <= Pow2(a.op.ty.prec) && 2 * Pow2(a.op.ty.prec) <= Pow2(restype.prec)
  {
    Order(a.prim.ty.prec, a.op.ty.prec);
    Order(a.op.ty.prec, restype.prec);
  }

  /** A constant stands for itself. */
  lemma ConstStands(b: Operand, restype: IntType, env: nat -> int)
    requires Looked(b, restype) && b.prim.Const?
    ensures Stands(b, restype, env) && b.op == b.prim && !Mixed(b.op, restype)
    ensures Wrap(restype, Read(b.uns, b.prim, env)) == Wrap(restype, b.prim.value)
  {
    Faithful(b.op, restype, env);
  }

  /** Two operands taken to be sign-extended: both sides of the comparison, assumed and true. */
  lemma VarSides(a: Operand, b: Operand, restype: IntType, code: Code, env: nat -> int)
    requires Looked(a, restype) && Looked(b, restype) && Narrows(a, b, restype) && !b.prim.Const? && !a.uns && !b.uns
    ensures var r := ShortenOrdered(a, b, restype, code);
            var x, y := Read(false, a.prim, env), Read(false, b.prim, env);
            var N := Pow2(restype.prec);
            && OutcomeOk(r)
            && -(HalfOf(a.prim.ty.prec) as int) <= x < HalfOf(a.prim.ty.prec)
            && -(HalfOf(b.prim.ty.prec) as int) <= y < HalfOf(b.prim.ty.prec)
            && Result(r, env) == (if restype.uns then Compare(code, Lifted(x, N), Lifted(y, N)) else Compare(code, x, y))
            && Meaning(code, a.op, b.op, restype, env) ==
               (if restype.uns then Compare(code, Lifted(x, LiftOf(a, restype)), Lifted(y, LiftOf(b, restype)))
                else Compare(code, Lifted(x, PlainLiftOf(a, restype)), Lifted(y, PlainLiftOf(b, restype))))
  {
    hide Compare, Result, OutcomeOk, ShortenOrdered, Wrap, Mixed, Pow2, LiftOf, PlainLiftOf;
    OrderedComputes(a, b, restype, code, env);
    AssumedValue(a, restype, env);
    AssumedValue(b, restype, env);
    TrueValue(a, restype, env);
    TrueValue(b, restype, env);
  }
  /** The values of a narrowed operand that can be negative, or cannot. */
  lemma LowValues(a: Operand, restype: IntType, env: nat -> int)
    requires Looked(a, restype) && !a.prim.Const?
    ensures var s, h, r := Low(a.prim, env), LowHalf(a), SignedLift(a.prim);
            && -(h as int) <= s < h <= HalfOf(a.prim.ty.prec)
            && (r > 0 ==> 2 * h <= Pow2(r) && 4 * Pow2(r) <= Pow2(a.prim.ty.prec + 1))
            && Read(false, a.prim, env) == if Negative(a) then s else Lifted(s, Pow2(r))
  {
    hide Pow2, Low;
    SignedValue(a.prim, env);
    Order(LowBits(a.prim) - 1, a.prim.ty.prec - 1);
    Order(LowBits(a.prim) - 1, SignedLift(a.prim));
    Order(SignedLift(a.prim), a.prim.ty.prec);
    Order(a.prim.ty.prec, a.prim.ty.prec + 1);
  }

  lemma PowersApart(m: nat, n: nat)
    ensures Apart(Pow2(m), Pow2(n))
  {
    Order(m, n);
    Order(n, m);
  }

  /** The moduli of an operand that may be negative and of one that never is are far enough apart. */
  lemma OneSizes(a: Operand, b: Operand, restype: IntType)
    requires Looked(a, restype) && Looked(b, restype) && a.prim.ty.prec < restype.prec && b.prim.ty.prec < restype.prec
    requires !a.prim.Const? && !b.prim.Const? && !Negative(b)
    ensures var h, m, N, g, R := LowHalf(a), LiftOf(a, restype), Pow2(restype.prec), LowHalf(b), Pow2(SignedLift(b.prim));
            && 4 * h <= m <= N && Apart(m, N) && Apart(m, R) && Apart(m, g) && 2 * g <= R && 4 * R <= N
            && (PlainLiftOf(a, restype) == 0 || PlainLiftOf(a, restype) == m)
  {
    hide Pow2;
    LowValues(a, restype, k => 0);
    LowValues(b, restype, k => 0);
    LiftSizes(a, b, restype);
    var q := if Mixed(a.op, restype) then a.op.ty.prec else restype.prec;
    PowersApart(q, restype.prec);
    PowersApart(q, SignedLift(b.prim));
    PowersApart(q, LowBits(b.prim) - 1);
    Order(b.prim.ty.prec + 1, restype.prec);
  }

  /** Halves of moduli are equal, twice as large, or more. */
  lemma HalvesApart(a: Operand, b: Operand)
    requires ExprOk(a.prim) && ExprOk(b.prim) && !a.prim.Const? && !b.prim.Const?
    ensures var h, g := LowHalf(a), LowHalf(b);
            Apart(h, g) && (2 * h < g ==> 4 * h <= g) && (2 * g < h ==> 4 * g <= h)
  {
    var m, n := LowBits(a.prim) - 1, LowBits(b.prim) - 1;
    PowersApart(m, n);
    Order(m + 1, n);
    Order(n + 1, m);
  }

  /** Low bits of the same variable. */
  lemma LowLinked(a: Operand, b: Operand, env: nat -> int)
    requires ExprOk(a.prim) && ExprOk(b.prim) && !a.prim.Const? && !b.prim.Const? && SameVariable(a, b)
    ensures Linked(LowHalf(a), LowHalf(b), Low(a.prim, env), Low(b.prim, env))
  {
    hide Wrap, Pow2;
    var s, t, v := IntType(LowBits(a.prim), false), IntType(LowBits(b.prim), false), env(NameOf(a.prim));
    if s.prec <= t.prec {
      WrapWrap(s, t, v);
      var k := WrapBy(s, Wrap(t, v));
      MultipleAtLeast(k, Pow2(s.prec));
      Order(s.prec - 1, t.prec - 1);
    } else {
      WrapWrap(t, s, v);
      var k := WrapBy(t, Wrap(s, v));
      MultipleAtLeast(k, Pow2(t.prec));
      Order(t.prec - 1, s.prec - 1);
    }
  }

  /** An operand that may be negative against one that never is: the outcome is right under the condition. */
  lemma OneHolds(a: Operand, b: Operand, restype: IntType, code: Code, env: nat -> int)
    requires Looked(a, restype) && Looked(b, restype) && a.prim.ty.prec < restype.prec && b.prim.ty.prec < restype.prec
    requires !a.prim.Const? && !b.prim.Const? && Negative(a) && !Negative(b) && ExactOne(a, b, restype, code)
    ensures var x, y, N := Read(false, a.prim, env), Read(false, b.prim, env), Pow2(restype.prec);
            && y >= 0
            && (restype.uns ==> Compare(code, Lifted(x, N), y) == Compare(code, Lifted(x, LiftOf(a, restype)), y))
            && (!restype.uns ==> Compare(code, x, y) == Compare(code, Lifted(x, PlainLiftOf(a, restype)), y))
  {
    hide Compare, Pow2, LiftOf, PlainLiftOf, AgreesOne, AgreesOnePlain, SameOne, SameOnePlain, Operate, Read, Low, Linked;
    LowValues(a, restype, env);
    LowValues(b, restype, env);
    OneSizes(a, b, restype);
    var h, g, R, x, s := LowHalf(a), LowHalf(b), Pow2(SignedLift(b.prim)), Low(a.prim, env), Low(b.prim, env);
    if SameVariable(a, b) {
      LowLinked(a, b, env);
      if restype.uns {
        SameOneValues(code, h, LiftOf(a, restype), Pow2(restype.prec), g, R, x, s);
      } else {
        SameOnePlainValues(code, h, PlainLiftOf(a, restype), g, R, x, s);
      }
    } else if restype.uns {
      OneValues(code, h, LiftOf(a, restype), Pow2(restype.prec), g, R, x, s);
    } else {
      OnePlainValues(code, h, PlainLiftOf(a, restype), g, R, x, s);
    }
  }

  /** Two operands that may be negative. */
  lemma BothHold(a: Operand, b: Operand, restype: IntType, code: Code, env: nat -> int)
    requires Looked(a, restype) && Looked(b, restype) && a.prim.ty.prec < restype.prec && b.prim.ty.prec < restype.prec
    requires !a.prim.Const? && !b.prim.Const? && Negative(a) && Negative(b) && ExactBoth(a, b, restype, code)
    ensures Agreed(a, b, restype, code, env)
  {
    hide Compare, Pow2, LiftOf, PlainLiftOf, AgreesLifted, AgreesPlain, SameLifted, SamePlain, Operate, Read, Low, Linked;
    LowValues(a, restype, env);
    LowValues(b, restype, env);
    LiftSizes(a, b, restype);
    var x, y, N := Read(false, a.prim, env), Read(false, b.prim, env), Pow2(restype.prec);
    var h, g, l, m := LowHalf(a), LowHalf(b), LiftOf(a, restype), LiftOf(b, restype);
    if SameVariable(a, b) {
      LowLinked(a, b, env);
      if restype.uns {
        SameLiftedValues(code, h, g, l, m, N, x, y);
      } else {
        SamePlainValues(code, h, g, PlainLiftOf(a, restype), PlainLiftOf(b, restype), x, y);
      }
    } else if restype.uns {
      LiftedValues(code, h, g, l, m, N, x, y);
    } else {
      PlainValues(code, h, g, PlainLiftOf(a, restype), PlainLiftOf(b, restype), x, y);
    }
  }

  /** The narrowed operands compare as the function assumes. */
  predicate Agreed(a: Operand, b: Operand, restype: IntType, code: Code, env: nat -> int)
    requires Looked(a, restype) && Looked(b, restype)
  {
    var x, y, N := Read(false, a.prim, env), Read(false, b.prim, env), Pow2(restype.prec);
    if restype.uns then
      Compare(code, Lifted(x, N), Lifted(y, N)) == Compare(code, Lifted(x, LiftOf(a, restype)), Lifted(y, LiftOf(b, restype)))
    else
      Compare(code, x, y) == Compare(code, Lifted(x, PlainLiftOf(a, restype)), Lifted(y, PlainLiftOf(b, restype)))
  }

  /** Two operands in reverse order. */
  lemma AgreedMirrored(a: Operand, b: Operand, restype: IntType, code: Code, env: nat -> int)
    requires Looked(a, restype) && Looked(b, restype)
    ensures Agreed(a, b, restype, code, env) == Agreed(b, a, restype, Mirror(code), env)
  {
    hide Compare, Pow2, LiftOf, PlainLiftOf, Operate, Read, Mirror;
    var x, y, N := Read(false, a.prim, env), Read(false, b.prim, env), Pow2(restype.prec);
    Mirrored(code, Lifted(x, N), Lifted(y, N));
    Mirrored(code, Lifted(x, LiftOf(a, restype)), Lifted(y, LiftOf(b, restype)));
    Mirrored(code, x, y);
    Mirrored(code, Lifted(x, PlainLiftOf(a, restype)), Lifted(y, PlainLiftOf(b, restype)));
  }

  /** Two operands that are not constants: the outcome is right under the condition. */
  lemma VarsHold(a: Operand, b: Operand, restype: IntType, code: Code, env: nat -> int)
    requires Looked(a, restype) && Looked(b, restype) && a.prim.ty.prec < restype.prec && b.prim.ty.prec < restype.prec
    requires !a.prim.Const? && !b.prim.Const? && ExactVars(a, b, restype, code)
    ensures Agreed(a, b, restype, code, env)
  {
    hide Compare, Pow2, LiftOf, PlainLiftOf, Operate, Read, ExactOne, ExactBoth, Mirror;
    if Negative(a) && Negative(b) {
      BothHold(a, b, restype, code, env);
    } else if Negative(a) {
      OneHolds(a, b, restype, code, env);
    } else if Negative(b) {
      OneHolds(b, a, restype, Mirror(code), env);
      AgreedMirrored(a, b, restype, code, env);
    } else {
      LowValues(a, restype, env);
      LowValues(b, restype, env);
    }
  }

  lemma ExactHolds(a: Operand, b: Operand, restype: IntType, code: Code, env: nat -> int)
    requires Looked(a, restype) && Looked(b, restype) && (a.prim.Const? ==> b.prim.Const?) && Exact(a, b, restype, code)
    ensures var r := ShortenOrdered(a, b, restype, code);
            OutcomeOk(r) && Result(r, env) == Meaning(code, a.op, b.op, restype, env)
  {
    hide Compare, Result, OutcomeOk, ShortenOrdered, Wrap, Mixed, Pow2, LiftOf, PlainLiftOf, Operate,
      AgreesUnsigned, AgreesSigned, ExactVars, Meaning;
    if b.prim.Const? {
      ConstStands(b, restype, env);
    }
    if !Mixed(a.op, restype) && !Mixed(b.op, restype) {
      Faithful(a.op, restype, env);
      Faithful(b.op, restype, env);
      OrderedRight(a, b, restype, code, env);
    } else if !Narrows(a, b, restype) {
      OrderedComputes(a, b, restype, code, env);
    } else if b.prim.Const? {
      ConstSides(a, b, restype, code, env);
      LowValues(a, restype, env);
      var x, c := Read(false, a.prim, env), Wrap(restype, b.prim.value);
      if !Negative(a) {
        assert x >= 0;
      } else if restype.uns {
        AgainstUnsigned(code, LowHalf(a), Pow2(a.op.ty.prec), Pow2(restype.prec), c, x);
      } else {
        AgainstSignedValues(code, LowHalf(a), Pow2(a.op.ty.prec), c, x);
      }
    } else {
      MixedSigns(a, b, restype, env);
      VarSides(a, b, restype, code, env);
      VarsHold(a, b, restype, code, env);
    }
  }

  /** If one of two operands that extend alike is mixed, both are taken to be sign-extended. */
  lemma MixedSigns(a: Operand, b: Operand, restype: IntType, env: nat -> int)
    requires Looked(a, restype) && Looked(b, restype) && Narrows(a, b, restype) && !b.prim.Const?
    requires Mixed(a.op, restype) || Mixed(b.op, restype)
    ensures !a.uns && !b.uns
  {
    if Mixed(a.op, restype) {
      MixedValue(a, restype, env);
    } else {
      MixedValue(b, restype, env);
    }
  }

  // ---------- values for which the outcome is wrong ----------

  /** Variables for which a narrowed operand that is not a constant has chosen low bits. */
  lemma Chosen(a: Operand, restype: IntType, n: nat, x: int, y: int)
    requires Looked(a, restype) && !a.prim.Const?
    requires var v := if NameOf(a.prim) == n then x else y; -(LowHalf(a) as int) <= v < LowHalf(a)
    ensures var v := if NameOf(a.prim) == n then x else y;
            Read(false, a.prim, Assign(n, x, y)) == if Negative(a) then v else Lifted(v, Pow2(SignedLift(a.prim)))
  {
    hide Pow2, Read;
    LowAssigned(a.prim, n, x, y);
    LowValues(a, restype, Assign(n, x, y));
  }

  /** A number for which an operand has chosen low bits. */
  lemma ChosenSame(a: Operand, restype: IntType, v: int, w: int, q: nat)
    requires Looked(a, restype) && !a.prim.Const? && -(LowHalf(a) as int) <= w < LowHalf(a)
    requires v == w || v == w + 2 * LowHalf(a) || v == w - 2 * LowHalf(a) || (q >= LowBits(a.prim) && v == w + Pow2(q))
    ensures Read(false, a.prim, k => v) == if Negative(a) then w else Lifted(w, Pow2(SignedLift(a.prim)))
  {
    hide Pow2, Read, Wrap;
    var t := IntType(LowBits(a.prim), false);
    WrapInRange(t, w);
    if v == w + 2 * LowHalf(a) {
      WrapIs(t, v, w, 1);
    } else if v == w - 2 * LowHalf(a) {
      WrapIs(t, v, w, -1);
    } else if v != w {
      WrapShift(t, w, q);
    }
    LowValues(a, restype, k => v);
  }

  /** Two operands that are not constants. */
  lemma VarsFail(a: Operand, b: Operand, restype: IntType, code: Code) returns (env: nat -> int)
    requires Looked(a, restype) && Looked(b, restype) && a.prim.ty.prec < restype.prec && b.prim.ty.prec < restype.prec
    requires !a.prim.Const? && !b.prim.Const? && !ExactVars(a, b, restype, code)
    ensures !Agreed(a, b, restype, code, env)
  {
    hide Compare, Pow2, LiftOf, PlainLiftOf, Operate, Read, ExactOne, Mirror, ExactBoth, Agreed;
    if Negative(a) && Negative(b) {
      if SameVariable(a, b) {
        env := SameBothFail(a, b, restype, code);
      } else {
        env := BothFail(a, b, restype, code);
      }
    } else if Negative(a) {
      env := OneOrSameFails(a, b, restype, code);
    } else {
      env := OneOrSameFails(b, a, restype, Mirror(code));
      AgreedMirrored(a, b, restype, code, env);
    }
  }

  lemma OneOrSameFails(a: Operand, b: Operand, restype: IntType, code: Code) returns (env: nat -> int)
    requires Looked(a, restype) && Looked(b, restype) && a.prim.ty.prec < restype.prec && b.prim.ty.prec < restype.prec
    requires !a.prim.Const? && !b.prim.Const? && Negative(a) && !Negative(b) && !ExactOne(a, b, restype, code)
    ensures !Agreed(a, b, restype, code, env)
  {
    hide Agreed, ExactOne, Operate, LiftOf, PlainLiftOf;
    if SameVariable(a, b) {
      env := SameOneFails(a, b, restype, code);
    } else {
      env := OneFails(a, b, restype, code);
    }
  }

  lemma BothFail(a: Operand, b: Operand, restype: IntType, code: Code) returns (env: nat -> int)
    requires Looked(a, restype) && Looked(b, restype) && a.prim.ty.prec < restype.prec && b.prim.ty.prec < restype.prec
    requires !a.prim.Const? && !b.prim.Const? && !SameVariable(a, b)
    requires Negative(a) && Negative(b) && !ExactBoth(a, b, restype, code)
    ensures !Agreed(a, b, restype, code, env)
  {
    hide Compare, Pow2, LiftOf, PlainLiftOf, AgreesLifted, AgreesPlain, Operate, Read, LiftedWitness, PlainWitness;
    var h, g := LowHalf(a), LowHalf(b);
    LiftSizes(a, b, restype);
    LowValues(a, restype, k => 0);
    LowValues(b, restype, k => 0);
    var (x, y) := if restype.uns then LiftedWitness(code, LiftOf(a, restype), LiftOf(b, restype))
                  else PlainWitness(code, PlainLiftOf(a, restype), PlainLiftOf(b, restype));
    if restype.uns {
      LiftedDisagrees(code, h, g, LiftOf(a, restype), LiftOf(b, restype), Pow2(restype.prec));
    } else {
      PlainDisagrees(code, h, g, PlainLiftOf(a, restype), PlainLiftOf(b, restype));
    }
    env := Assign(NameOf(a.prim), x, y);
    Chosen(a, restype, NameOf(a.prim), x, y);
    Chosen(b, restype, NameOf(a.prim), x, y);
  }

  lemma OneFails(a: Operand, b: Operand, restype: IntType, code: Code) returns (env: nat -> int)
    requires Looked(a, restype) && Looked(b, restype) && a.prim.ty.prec < restype.prec && b.prim.ty.prec < restype.prec
    requires !a.prim.Const? && !b.prim.Const? && !SameVariable(a, b)
    requires Negative(a) && !Negative(b) && !ExactOne(a, b, restype, code)
    ensures !Agreed(a, b, restype, code, env)
  {
    hide Compare, Pow2, LiftOf, PlainLiftOf, AgreesOne, AgreesOnePlain, Operate, Read, OneWitness, OnePlainWitness;
    var h, g, R := LowHalf(a), LowHalf(b), Pow2(SignedLift(b.prim));
    OneSizes(a, b, restype);
    var (x, s) := if restype.uns then OneWitness(code, LiftOf(a, restype), R)
                  else OnePlainWitness(code, PlainLiftOf(a, restype), R);
    if restype.uns {
      OneDisagrees(code, h, LiftOf(a, restype), Pow2(restype.prec), g, R);
    } else {
      OnePlainDisagrees(code, h, PlainLiftOf(a, restype), g, R);
    }
    env := Assign(NameOf(a.prim), x, s);
    Chosen(a, restype, NameOf(a.prim), x, s);
    Chosen(b, restype, NameOf(a.prim), x, s);
  }

  /** A choice made for both operands at once. */
  lemma ChosenBoth(a: Operand, b: Operand, restype: IntType, c: Choice, m: int)
    requires Looked(a, restype) && Looked(b, restype) && a.prim.ty.prec < restype.prec && b.prim.ty.prec < restype.prec
    requires !a.prim.Const? && !b.prim.Const? && SameVariable(a, b)
    requires ChoiceOk(c, LowHalf(a), LowHalf(b), m) && (m == 0 || m == LiftOf(a, restype))
    ensures Read(false, a.prim, k => c.v) == if Negative(a) then c.s else Lifted(c.s, Pow2(SignedLift(a.prim)))
    ensures Read(false, b.prim, k => c.v) == if Negative(b) then c.t else Lifted(c.t, Pow2(SignedLift(b.prim)))
  {
    hide Pow2, Read;
    ChosenSame(a, restype, c.v, c.s, if Mixed(a.op, restype) then a.op.ty.prec else restype.prec);
    ChosenSame(b, restype, c.v, c.t, LowBits(b.prim));
  }

  lemma SameBothFail(a: Operand, b: Operand, restype: IntType, code: Code) returns (env: nat -> int)
    requires Looked(a, restype) && Looked(b, restype) && a.prim.ty.prec < restype.prec && b.prim.ty.prec < restype.prec
    requires !a.prim.Const? && !b.prim.Const? && SameVariable(a, b)
    requires Negative(a) && Negative(b) && !ExactBoth(a, b, restype, code)
    ensures !Agreed(a, b, restype, code, env)
  {
    hide Compare, Pow2, LiftOf, PlainLiftOf, SameLifted, SamePlain, Operate, Read, SameLiftedChoice, SamePlainChoice, ChoiceOk;
    var h, g, m := LowHalf(a), LowHalf(b), LiftOf(a, restype);
    LiftSizes(a, b, restype);
    LowValues(a, restype, k => 0);
    LowValues(b, restype, k => 0);
    HalvesApart(a, b);
    var c;
    if restype.uns {
      SameLiftedDisagrees(code, h, g, m, LiftOf(b, restype), Pow2(restype.prec));
      c := SameLiftedChoice(code, h, g, m, LiftOf(b, restype));
      ChosenBoth(a, b, restype, c, m);
    } else {
      SamePlainDisagrees(code, h, g, PlainLiftOf(a, restype), PlainLiftOf(b, restype));
      c := SamePlainChoice(code, h, g, PlainLiftOf(a, restype), PlainLiftOf(b, restype));
      ChosenBoth(a, b, restype, c, PlainLiftOf(a, restype));
    }
    env := k => c.v;
  }

  lemma SameOneFails(a: Operand, b: Operand, restype: IntType, code: Code) returns (env: nat -> int)
    requires Looked(a, restype) && Looked(b, restype) && a.prim.ty.prec < restype.prec && b.prim.ty.prec < restype.prec
    requires !a.prim.Const? && !b.prim.Const? && SameVariable(a, b)
    requires Negative(a) && !Negative(b) && !ExactOne(a, b, restype, code)
    ensures !Agreed(a, b, restype, code, env)
  {
    hide Compare, Pow2, LiftOf, PlainLiftOf, SameOne, SameOnePlain, Operate, Read, SameOneChoice, SameOnePlainChoice, ChoiceOk;
    var h, g, m, R := LowHalf(a), LowHalf(b), LiftOf(a, restype), Pow2(SignedLift(b.prim));
    OneSizes(a, b, restype);
    HalvesApart(a, b);
    var c;
    if restype.uns {
      SameOneDisagrees(code, h, m, Pow2(restype.prec), g, R);
      c := SameOneChoice(code, h, m, g, R);
      ChosenBoth(a, b, restype, c, m);
    } else {
      SameOnePlainDisagrees(code, h, PlainLiftOf(a, restype), g, R);
      c := SameOnePlainChoice(code, h, PlainLiftOf(a, restype), g, R);
      ChosenBoth(a, b, restype, c, PlainLiftOf(a, restype));
    }
    env := k => c.v;
  }

  /** A mixed operand against a constant: values for which the outcome is wrong. */
  lemma ConstFails(a: Operand, b: Operand, restype: IntType, code: Code) returns (env: nat -> int)
    requires Looked(a, restype) && Looked(b, restype) && Narrows(a, b, restype) && b.prim.Const? && Mixed(a.op, restype)
    requires !a.prim.Const? && !ExactConst(a, b, restype, code)
    ensures var r := ShortenOrdered(a, b, restype, code);
            OutcomeOk(r) && Result(r, env) != Meaning(code, a.op, b.op, restype, env)
  {
    hide Compare, Result, OutcomeOk, ShortenOrdered, Wrap, Mixed, Pow2, Operate, AgreesUnsigned, AgreesSigned, Meaning,
      Lifted, Read, UnsignedWitness, SignedWitness;
    var h, m, N, c := LowHalf(a), Pow2(a.op.ty.prec), Pow2(restype.prec), Wrap(restype, b.prim.value);
    ConstSides(a, b, restype, code, k => 0);
    LowValues(a, restype, k => 0);
    var x := if restype.uns then UnsignedWitness(code, h, m, N, c) else SignedWitness(code, h, m, c);
    if restype.uns {
      AgainstUnsigned(code, h, m, N, c, 0);
    } else {
      AgainstSignedValues(code, h, m, c, 0);
    }
    env := Assign(NameOf(a.prim), x, 0);
    Chosen(a, restype, NameOf(a.prim), x, 0);
    ConstSides(a, b, restype, code, env);
  }

  lemma ExactFails(a: Operand, b: Operand, restype: IntType, code: Code) returns (env: nat -> int)
    requires Looked(a, restype) && Looked(b, restype) && (a.prim.Const? ==> b.prim.Const?)
    requires !Exact(a, b, restype, code)
    ensures var r := ShortenOrdered(a, b, restype, code);
            OutcomeOk(r) && Result(r, env) != Meaning(code, a.op, b.op, restype, env)
  {
    hide Compare, Result, OutcomeOk, ShortenOrdered, Wrap, Mixed, Pow2, LiftOf, PlainLiftOf, Operate, ExactConst,
      ExactVars, Meaning, Lifted, Read;
    if b.prim.Const? {
      ConstStands(b, restype, k => 0);
      MixedValue(a, restype, k => 0);
      env := ConstFails(a, b, restype, code);
    } else {
      MixedSigns(a, b, restype, k => 0);
      env := VarsFail(a, b, restype, code);
      VarSides(a, b, restype, code, env);
    }
  }

  /** The exact condition, before the operands are put in order. */
  predicate ExactFor(op0: Expr, op1: Expr, restype: IntType, code: Code)
    requires Looked(Operate(op0, restype), restype) && Looked(Operate(op1, restype), restype)
  {
    var a, b := Operate(op0, restype), Operate(op1, restype);
    if Swaps(a, b) then Exact(b, a, restype, Mirror(code)) else Exact(a, b, restype, code)
  }

  /** The outcome of shorten_compare is the truth value of the comparison for all values of the operands if and
      only if the condition holds. */
  lemma Exactness(op0: Expr, op1: Expr, restype: IntType, code: Code)
    requires ExprOk(op0) && ExprOk(op1) && TypeOk(restype)
    requires op0.ty.prec <= restype.prec && op1.ty.prec <= restype.prec
    ensures Looked(Operate(op0, restype), restype) && Looked(Operate(op1, restype), restype)
    ensures OutcomeOk(Shortened(op0, op1, restype, code))
    ensures ExactFor(op0, op1, restype, code) <==>
              forall env: nat -> int :: Result(Shortened(op0, op1, restype, code), env)
                                        == Meaning(code, op0, op1, restype, env)
  {
    hide Result, OutcomeOk, ShortenOrdered, Wrap, Exact, Compare, Strip;
    var a, b := Operate(op0, restype), Operate(op1, restype);
    ShortenedRight(op0, op1, restype, code, k => 0);
    OperateKeeps(op0, restype);
    OperateKeeps(op1, restype);
    var r := Shortened(op0, op1, restype, code);
    if ExactFor(op0, op1, restype, code) {
      forall env: nat -> int ensures Result(r, env) == Meaning(code, op0, op1, restype, env) {
        if Swaps(a, b) {
          ExactHolds(b, a, restype, Mirror(code), env);
          Mirrored(code, Wrap(restype, Eval(op0, env)), Wrap(restype, Eval(op1, env)));
        } else {
          ExactHolds(a, b, restype, code, env);
        }
      }
    } else {
      var env: nat -> int;
      if Swaps(a, b) {
        env := ExactFails(b, a, restype, Mirror(code));
        Mirrored(code, Wrap(restype, Eval(op0, env)), Wrap(restype, Eval(op1, env)));
      } else {
        env := ExactFails(a, b, restype, code);
      }
      assert Result(r, env) != Meaning(code, op0, op1, restype, env);
    }
  }

  // ---------- examples ----------

  lemma Powers()
    ensures Pow2(8) == 256 && Pow2(32) == 4294967296 && Pow2(64) == 18446744073709551616
    ensures Pow2(7) == 128 && Pow2(31) == 2147483648 && Pow2(63) == 9223372036854775808
  {
    assert Pow2(3) == 8 && Pow2(4) == 16;
    Pow2Add(4, 3);
    Pow2Add(4, 4);
    Pow2Add(8, 8);
    Pow2Add(16, 15);
    Pow2Add(16, 16);
    Pow2Add(32, 31);
    Pow2Add(32, 32);
  }

  /** (unsigned int) c == 4294967295UL for a signed char c: the function says it is always false, but it holds
      for c == -1. */
  lemma MixedExample(env: nat -> int)
    requires env(0) == -1
    ensures var ulong := IntType(64, true);
            var op0 := Convert(Var(0, IntType(8, false)), IntType(32, true));
            var op1 := Const(4294967295, ulong);
            && ExprOk(op0) && ExprOk(op1)
            && Looked(Operate(op0, ulong), ulong) && Looked(Operate(op1, ulong), ulong)
            && Shortened(op0, op1, ulong, Eq) == Constant(false)
            && Meaning(Eq, op0, op1, ulong, env)
  {
    var ulong, uint, schar := IntType(64, true), IntType(32, true), IntType(8, false);
    Powers();
    var op0 := Convert(Var(0, schar), uint);
    var op1 := Const(4294967295, ulong);
    ShortenedRight(op0, op1, ulong, Eq, env);
    var long := IntType(64, false);
    WrapInRange(schar, -1);
    WrapIs(uint, -1, 4294967295, -1);
    WrapInRange(ulong, 4294967295);
    WrapInRange(long, 4294967295);
    WrapInRange(long, -128);
    WrapInRange(long, 127);
    hide Wrap, Pow2;
    var a := Operate(op0, ulong);
    assert Strip(op0, false, true) == (Var(0, schar), false);
    assert a == Operand(op0, Var(0, schar), false);
    assert !Swaps(a, Operate(op1, ulong));
  }

  /** (unsigned int) (signed char) (int) b for a bit b. */
  function TruncatedBit(): Expr {
    Convert(Convert(Convert(Var(0, IntType(1, true)), IntType(32, false)), IntType(8, false)), IntType(32, true))
  }

  lemma TruncatedShape()
    ensures var small := Convert(Convert(Var(0, IntType(1, true)), IntType(32, false)), IntType(8, false));
            ExprOk(TruncatedBit()) && Operate(TruncatedBit(), IntType(64, true)) == Operand(TruncatedBit(), small, false)
  {
    var small := Convert(Convert(Var(0, IntType(1, true)), IntType(32, false)), IntType(8, false));
    assert Strip(small, false, false) == (small, false);
    assert Strip(TruncatedBit(), false, true) == (small, false);
  }

  lemma BigConstant()
    ensures var ulong := IntType(64, true); var op1 := Const(4294967295, ulong);
            ExprOk(op1) && Operate(op1, ulong).prim == op1 && Wrap(ulong, 4294967295) == 4294967295
  {
    Powers();
    WrapInRange(IntType(64, true), 4294967295);
  }

  /** A truncated operand whose values are never negative: for a bit b, (unsigned int) (signed char) (int) b ==
      4294967295UL is always false, as the function says, unlike the same comparison for a signed char. */
  lemma TruncatedExample()
    ensures var ulong := IntType(64, true);
            var op0, op1 := TruncatedBit(), Const(4294967295, ulong);
            && ExprOk(op0) && ExprOk(op1)
            && Looked(Operate(op0, ulong), ulong) && Looked(Operate(op1, ulong), ulong)
            && ExactFor(op0, op1, ulong, Eq) && Mixed(op0, ulong)
  {
    var ulong := IntType(64, true);
    TruncatedShape();
    BigConstant();
    var a := Operate(TruncatedBit(), ulong);
    assert SignedLift(a.prim) == 1;
  }
}
