/** memrefs_conflict_p: whether two memory references can overlap, from the form of their addresses. */
module Memrefs {
  /** Address expressions in one mode.  Constants are shared, so that equal values are the same expression. */
  datatype Rtx = Reg(regno: nat) | ConstInt(value: int) | Plus(x0: Rtx, x1: Rtx) | Mult(x0: Rtx, x1: Rtx)

  function Eval(x: Rtx, regs: nat -> int): int {
    match x
    case Reg(r) => regs(r)
    case ConstInt(v) => v
    case Plus(a, b) => Eval(a, regs) + Eval(b, regs)
    case Mult(a, b) => Eval(a, regs) * Eval(b, regs)
  }

  /** rtx_equal_for_memref_p: equal up to the order of operands. */
  predicate RtxEqual(x: Rtx, y: Rtx)
    decreases x
  {
    match (x, y)
    case (Plus(a, b), Plus(c, d)) => (RtxEqual(a, c) && RtxEqual(b, d)) || (RtxEqual(a, d) && RtxEqual(b, c))
    case (Mult(a, b), Mult(c, d)) => (RtxEqual(a, c) && RtxEqual(b, d)) || (RtxEqual(a, d) && RtxEqual(b, c))
    case _ => x == y
  }

  /** Equal expressions have the same value. */
  lemma {:induction false} RtxEqualSound(x: Rtx, y: Rtx, regs: nat -> int)
    requires RtxEqual(x, y)
    ensures Eval(x, regs) == Eval(y, regs)
    decreases x
  {
    match (x, y)
    case (Plus(a, b), Plus(c, d)) =>
      if RtxEqual(a, c) && RtxEqual(b, d) {
        RtxEqualSound(a, c, regs);
        RtxEqualSound(b, d, regs);
      } else {
        RtxEqualSound(a, d, regs);
        RtxEqualSound(b, c, regs);
      }
    case (Mult(a, b), Mult(c, d)) =>
      if RtxEqual(a, c) && RtxEqual(b, d) {
        RtxEqualSound(a, c, regs);
        RtxEqualSound(b, d, regs);
      } else {
        RtxEqualSound(a, d, regs);
        RtxEqualSound(b, c, regs);
      }
    case _ =>
  }

  /** Division that truncates towards zero. */
  function Div(a: int, b: int): int
    requires b != 0
  {
    if (a >= 0) == (b > 0) || a == 0 then (if a >= 0 then a else 0 - a) / (if b > 0 then b else 0 - b)
    else 0 - (if a >= 0 then a else 0 - a) / (if b > 0 then b else 0 - b)
  }

  /** The overlap test for two references at distance c. */
  predicate Near(xsize: int, ysize: int, c: int) {
    (c >= 0 && xsize > c) || (c < 0 && ysize + c > 0)
  }

  function Size(x: Rtx): nat {
    match x
    case Plus(a, b) => 1 + Size(a) + Size(b)
    case Mult(a, b) => 1 + Size(a) + Size(b)
    case _ => 1
  }

  /** Products have no zero factor: such an expression is not canonical, and dividing by it is undefined. */
  predicate RtxOk(x: Rtx) {
    match x
    case Plus(a, b) => RtxOk(a) && RtxOk(b)
    case Mult(a, b) => RtxOk(a) && RtxOk(b) && b != ConstInt(0)
    case _ => true
  }

  /** memrefs_conflict_p: could the xsize bytes at x and the ysize bytes at y + c overlap? */
  predicate Conflict(xsize: int, x: Rtx, ysize: int, y: Rtx, c: int)
    requires RtxOk(x) && RtxOk(y)
    decreases Size(x) + Size(y)
  {
    if RtxEqual(x, y) then xsize <= 0 || ysize <= 0 || Near(xsize, ysize, c)
    else if x.Plus? && y.Plus? then
      if RtxEqual(x.x1, y.x1) then Conflict(xsize, x.x0, ysize, y.x0, c)
      else if RtxEqual(x.x0, y.x0) then Conflict(xsize, x.x1, ysize, y.x1, c)
      else if x.x1.ConstInt? then
        if y.x1.ConstInt? then Conflict(xsize, x.x0, ysize, y.x0, c - x.x1.value + y.x1.value)
        else Conflict(xsize, x.x0, ysize, y, c - x.x1.value)
      else if y.x1.ConstInt? then Conflict(xsize, x, ysize, y.x0, c + y.x1.value)
      else true
    else if x.Plus? && x.x1.ConstInt? then Conflict(xsize, x.x0, ysize, y, c - x.x1.value)
    else if !x.Plus? && y.Plus? then
      if y.x1.ConstInt? then Conflict(xsize, x, ysize, y.x0, c + y.x1.value) else true
    else if x.Mult? && y.Mult? then
      if !RtxEqual(x.x1, y.x1) then true
      else if RtxEqual(x.x0, y.x0) then xsize == 0 || ysize == 0 || Near(xsize, ysize, c)
      else if !x.x1.ConstInt? then true
      else Conflict(Div(xsize, x.x1.value), x.x0, Div(ysize, x.x1.value), y.x0, Div(c, x.x1.value))
    else if x.ConstInt? && y.ConstInt? then
      xsize <= 0 || ysize <= 0 || Near(xsize, ysize, c + (y.value - x.value))
    else true
  }

  /** Whether every product that is divided out divides both sizes and the distance, as long as a whole unit of
      both sizes is left.  Without products this always holds. */
  predicate Divides(xsize: int, x: Rtx, ysize: int, y: Rtx, c: int)
    requires RtxOk(x) && RtxOk(y)
    decreases Size(x) + Size(y)
  {
    if RtxEqual(x, y) then true
    else if x.Plus? && y.Plus? then
      if RtxEqual(x.x1, y.x1) then Divides(xsize, x.x0, ysize, y.x0, c)
      else if RtxEqual(x.x0, y.x0) then Divides(xsize, x.x1, ysize, y.x1, c)
      else if x.x1.ConstInt? then
        if y.x1.ConstInt? then Divides(xsize, x.x0, ysize, y.x0, c - x.x1.value + y.x1.value)
        else Divides(xsize, x.x0, ysize, y, c - x.x1.value)
      else if y.x1.ConstInt? then Divides(xsize, x, ysize, y.x0, c + y.x1.value)
      else true
    else if x.Plus? && x.x1.ConstInt? then Divides(xsize, x.x0, ysize, y, c - x.x1.value)
    else if !x.Plus? && y.Plus? then
      if y.x1.ConstInt? then Divides(xsize, x, ysize, y.x0, c + y.x1.value) else true
    else if x.Mult? && y.Mult? && RtxEqual(x.x1, y.x1) && x.x1.ConstInt? then
      var m := x.x1.value;
      || Div(xsize, m) == 0 || Div(ysize, m) == 0
      || (xsize % m == 0 && ysize % m == 0 && c % m == 0
          && Divides(Div(xsize, m), x.x0, Div(ysize, m), y.x0, Div(c, m)))
    else true
  }

  /** References of the given sizes, the second d bytes after the first, have no byte in common.  Sizes scaled by
      a negative factor are both negative and count the other way. */
  predicate Apart(xsize: int, ysize: int, d: int) {
    if xsize > 0 then d >= xsize || d <= 0 - ysize
    else d <= xsize || d >= 0 - ysize
  }

  /** An unknown size always conflicts. */
  lemma {:induction false} UnknownSize(xsize: int, x: Rtx, ysize: int, y: Rtx, c: int)
    requires RtxOk(x) && RtxOk(y) && (xsize == 0 || ysize == 0)
    ensures Conflict(xsize, x, ysize, y, c)
    decreases Size(x) + Size(y)
  {
    if RtxEqual(x, y) {
    } else if x.Plus? && y.Plus? {
      UnknownSize(xsize, x.x0, ysize, y.x0, c);
      UnknownSize(xsize, x.x1, ysize, y.x1, c);
      if x.x1.ConstInt? {
        if y.x1.ConstInt? {
          UnknownSize(xsize, x.x0, ysize, y.x0, c - x.x1.value + y.x1.value);
        } else {
          UnknownSize(xsize, x.x0, ysize, y, c - x.x1.value);
        }
      } else if y.x1.ConstInt? {
        UnknownSize(xsize, x, ysize, y.x0, c + y.x1.value);
      }
    } else if x.Plus? && x.x1.ConstInt? {
      UnknownSize(xsize, x.x0, ysize, y, c - x.x1.value);
    } else if !x.Plus? && y.Plus? && y.x1.ConstInt? {
      UnknownSize(xsize, x, ysize, y.x0, c + y.x1.value);
    } else if x.Mult? && y.Mult? && RtxEqual(x.x1, y.x1) && x.x1.ConstInt? {
      UnknownSize(Div(xsize, x.x1.value), x.x0, Div(ysize, x.x1.value), y.x0, Div(c, x.x1.value));
    }
  }

  lemma {:induction false} AtLeast(m: int, k: int)
    requires m > 0 && k >= 1
    ensures m * k >= m
    decreases k
  {
    if k > 1 {
      AtLeast(m, k - 1);
      assert m * k == m * (k - 1) + m;
    }
  }

  lemma Sides(m: int, q: int, r: int)
    requires m > 0
    ensures q > r ==> m * q >= m * r + m
    ensures q < r ==> m * q <= m * r - m
  {
    if q > r {
      AtLeast(m, q - r);
      assert m * q == m * r + m * (q - r);
    } else if q < r {
      AtLeast(m, r - q);
      assert m * r == m * q + m * (r - q);
    }
  }

  lemma Quotient(a: int, m: int, q: int)
    requires m > 0 && a == m * q
    ensures a / m == q && a % m == 0
  {
    var r, s := a / m, a % m;
    assert a == m * r + s;
    Sides(m, q, r);
  }

  lemma ExactlyPositive(a: int, m: int)
    requires m > 0 && a % m == 0
    ensures a == m * Div(a, m)
  {
    var q := a / m;
    assert a == m * q;
    if a < 0 {
      assert 0 - a == m * (0 - q);
      Quotient(0 - a, m, 0 - q);
    }
  }

  lemma Exactly(a: int, m: int)
    requires m != 0 && a % m == 0
    ensures a == m * Div(a, m)
  {
    if m > 0 {
      ExactlyPositive(a, m);
    } else {
      var q, n := a / m, 0 - m;
      assert a == m * q;
      assert a == n * (0 - q);
      Quotient(a, n, 0 - q);
      ExactlyPositive(a, n);
      Negated(a, m);
      assert n * Div(a, n) == m * (0 - Div(a, n));
    }
  }

  lemma Negated(a: int, m: int)
    requires m < 0
    ensures Div(a, m) == 0 - Div(a, 0 - m)
  {
  }

  /** Scaling by m: references that are apart in units of m are apart in bytes. */
  lemma ScaledApart(xsize: int, ysize: int, d: int, m: int)
    requires m != 0 && ((xsize > 0 && ysize > 0) || (xsize < 0 && ysize < 0)) && Apart(xsize, ysize, d)
    ensures Apart(m * xsize, m * ysize, m * d)
  {
    if m > 0 {
      Monotone(m, xsize, d);
      Monotone(m, d, xsize);
      Monotone(m, d, 0 - ysize);
      Monotone(m, 0 - ysize, d);
      assert m * (0 - ysize) == 0 - m * ysize;
      Monotone(m, 0, xsize);
      Monotone(m, xsize, 0);
    } else {
      Monotone(0 - m, xsize, d);
      Monotone(0 - m, d, xsize);
      Monotone(0 - m, d, 0 - ysize);
      Monotone(0 - m, 0 - ysize, d);
      assert (0 - m) * (0 - ysize) == m * ysize;
      assert (0 - m) * d == 0 - m * d && (0 - m) * xsize == 0 - m * xsize;
      Monotone(0 - m, 0, xsize);
      Monotone(0 - m, xsize, 0);
    }
  }

  lemma Monotone(m: int, a: int, b: int)
    requires m > 0
    ensures a <= b ==> m * a <= m * b
    ensures a < b ==> m * a < m * b
  {
  }

  lemma SameSign(a: int, m: int)
    requires m != 0 && a % m == 0 && a != 0
    ensures Div(a, m) != 0 && (Div(a, m) > 0 <==> (a > 0) == (m > 0))
  {
    Exactly(a, m);
  }

  /** An answer of no is right: whatever the registers hold, the references share no byte. */
  lemma {:induction false} ConflictSound(xsize: int, x: Rtx, ysize: int, y: Rtx, c: int, regs: nat -> int)
    requires RtxOk(x) && RtxOk(y) && ((xsize > 0 && ysize > 0) || (xsize < 0 && ysize < 0))
    requires Divides(xsize, x, ysize, y, c) && !Conflict(xsize, x, ysize, y, c)
    ensures Apart(xsize, ysize, Eval(y, regs) + c - Eval(x, regs))
    decreases Size(x) + Size(y)
  {
    if RtxEqual(x, y) {
      RtxEqualSound(x, y, regs);
    } else if x.Plus? && y.Plus? {
      if RtxEqual(x.x1, y.x1) {
        RtxEqualSound(x.x1, y.x1, regs);
        ConflictSound(xsize, x.x0, ysize, y.x0, c, regs);
      } else if RtxEqual(x.x0, y.x0) {
        RtxEqualSound(x.x0, y.x0, regs);
        ConflictSound(xsize, x.x1, ysize, y.x1, c, regs);
      } else if x.x1.ConstInt? {
        if y.x1.ConstInt? {
          ConflictSound(xsize, x.x0, ysize, y.x0, c - x.x1.value + y.x1.value, regs);
        } else {
          ConflictSound(xsize, x.x0, ysize, y, c - x.x1.value, regs);
        }
      } else {
        ConflictSound(xsize, x, ysize, y.x0, c + y.x1.value, regs);
      }
    } else if x.Plus? {
      ConflictSound(xsize, x.x0, ysize, y, c - x.x1.value, regs);
    } else if y.Plus? {
      ConflictSound(xsize, x, ysize, y.x0, c + y.x1.value, regs);
    } else if x.Mult? {
      ProductSound(xsize, x, ysize, y, c, regs);
    }
  }

  lemma ProductSound(xsize: int, x: Rtx, ysize: int, y: Rtx, c: int, regs: nat -> int)
    requires RtxOk(x) && RtxOk(y) && ((xsize > 0 && ysize > 0) || (xsize < 0 && ysize < 0))
    requires Divides(xsize, x, ysize, y, c) && !Conflict(xsize, x, ysize, y, c)
    requires !RtxEqual(x, y) && x.Mult? && !y.Plus?
    ensures Apart(xsize, ysize, Eval(y, regs) + c - Eval(x, regs))
    decreases Size(x) + Size(y), 0
  {
    hide Div, Apart, Eval;
    var m := x.x1.value;
    var (xs, ys, d) := (Div(xsize, m), Div(ysize, m), Div(c, m));
    RtxEqualSound(x.x1, y.x1, regs);
    if xs == 0 || ys == 0 {
      UnknownSize(xs, x.x0, ys, y.x0, d);
      assert false;
    } else {
      Exactly(xsize, m);
      Exactly(ysize, m);
      Exactly(c, m);
      SameSign(xsize, m);
      SameSign(ysize, m);
      ConflictSound(xs, x.x0, ys, y.x0, d, regs);
      var (u, v) := (Eval(x.x0, regs), Eval(y.x0, regs));
      ScaledApart(xs, ys, v + d - u, m);
      ProductValue(x, regs);
      ProductValue(y, regs);
      SameConstant(x.x1, y.x1);
      Spread(m, v, d, u);
    }
  }

  predicate Touches(b: int, start: int, size: nat) {
    start <= b < start + size
  }

  /** For sizes as callers pass them, 0 when unknown: a no means that both sizes are known and that no byte belongs
      to both references. */
  lemma NoConflictNoSharedByte(xsize: nat, x: Rtx, ysize: nat, y: Rtx, c: int, regs: nat -> int)
    requires RtxOk(x) && RtxOk(y) && Divides(xsize, x, ysize, y, c) && !Conflict(xsize, x, ysize, y, c)
    ensures xsize > 0 && ysize > 0
    ensures forall b :: !(Touches(b, Eval(x, regs), xsize) && Touches(b, Eval(y, regs) + c, ysize))
  {
    if xsize == 0 || ysize == 0 {
      UnknownSize(xsize, x, ysize, y, c);
    }
    ConflictSound(xsize, x, ysize, y, c, regs);
  }

  predicate Products(x: Rtx) {
    match x
    case Plus(a, b) => Products(a) || Products(b)
    case Mult(_, _) => true
    case _ => false
  }

  /** Sums of registers and constants need no condition. */
  lemma {:induction false} SumsDivide(xsize: int, x: Rtx, ysize: int, y: Rtx, c: int)
    requires RtxOk(x) && RtxOk(y) && !(Products(x) && Products(y))
    ensures Divides(xsize, x, ysize, y, c)
    decreases Size(x) + Size(y)
  {
    if x.Plus? && y.Plus? {
      SumsDivide(xsize, x.x0, ysize, y.x0, c);
      SumsDivide(xsize, x.x1, ysize, y.x1, c);
      if x.x1.ConstInt? && y.x1.ConstInt? {
        SumsDivide(xsize, x.x0, ysize, y.x0, c - x.x1.value + y.x1.value);
      } else if x.x1.ConstInt? {
        SumsDivide(xsize, x.x0, ysize, y, c - x.x1.value);
      } else if y.x1.ConstInt? {
        SumsDivide(xsize, x, ysize, y.x0, c + y.x1.value);
      }
    } else if x.Plus? && x.x1.ConstInt? {
      SumsDivide(xsize, x.x0, ysize, y, c - x.x1.value);
    } else if y.Plus? && y.x1.ConstInt? {
      SumsDivide(xsize, x, ysize, y.x0, c + y.x1.value);
    }
  }

  lemma ProductValue(x: Rtx, regs: nat -> int)
    requires x.Mult? && x.x1.ConstInt?
    ensures Eval(x, regs) == Eval(x.x0, regs) * x.x1.value
  {
  }

  lemma SameConstant(x: Rtx, y: Rtx)
    requires RtxEqual(x, y) && x.ConstInt?
    ensures x == y
  {
  }

  lemma Spread(m: int, v: int, d: int, u: int)
    ensures m * (v + d - u) == v * m + m * d - u * m
  {
  }

  // ---------- which denials are right ----------

  /** Stripping equal terms, constants and common factors leaves nothing that depends on a register. */
  predicate Fixed(x: Rtx, y: Rtx)
    decreases Size(x) + Size(y)
  {
    if RtxEqual(x, y) then true
    else if x.Plus? && y.Plus? then
      if RtxEqual(x.x1, y.x1) then Fixed(x.x0, y.x0)
      else if RtxEqual(x.x0, y.x0) then Fixed(x.x1, y.x1)
      else if x.x1.ConstInt? then Fixed(x.x0, if y.x1.ConstInt? then y.x0 else y)
      else y.x1.ConstInt? && Fixed(x, y.x0)
    else if x.Plus? && x.x1.ConstInt? then Fixed(x.x0, y)
    else if !x.Plus? && y.Plus? then y.x1.ConstInt? && Fixed(x, y.x0)
    else if x.Mult? && y.Mult? then RtxEqual(x.x1, y.x1) && x.x1.ConstInt? && Fixed(x.x0, y.x0)
    else x.ConstInt? && y.ConstInt?
  }

  /** How far y lies after x, if that is fixed. */
  function Distance(x: Rtx, y: Rtx): int
    requires Fixed(x, y)
    decreases Size(x) + Size(y)
  {
    if RtxEqual(x, y) then 0
    else if x.Plus? && y.Plus? then
      if RtxEqual(x.x1, y.x1) then Distance(x.x0, y.x0)
      else if RtxEqual(x.x0, y.x0) then Distance(x.x1, y.x1)
      else if x.x1.ConstInt? then
        if y.x1.ConstInt? then Distance(x.x0, y.x0) + y.x1.value - x.x1.value else Distance(x.x0, y) - x.x1.value
      else Distance(x, y.x0) + y.x1.value
    else if x.Plus? && x.x1.ConstInt? then Distance(x.x0, y) - x.x1.value
    else if y.Plus? then Distance(x, y.x0) + y.x1.value
    else if x.Mult? then Distance(x.x0, y.x0) * x.x1.value
    else y.value - x.value
  }

  lemma {:induction false} FixedDistance(x: Rtx, y: Rtx, regs: nat -> int)
    requires Fixed(x, y)
    ensures Eval(y, regs) - Eval(x, regs) == Distance(x, y)
    decreases Size(x) + Size(y)
  {
    if RtxEqual(x, y) {
      RtxEqualSound(x, y, regs);
    } else if x.Plus? && y.Plus? {
      if RtxEqual(x.x1, y.x1) {
        RtxEqualSound(x.x1, y.x1, regs);
        FixedDistance(x.x0, y.x0, regs);
      } else if RtxEqual(x.x0, y.x0) {
        RtxEqualSound(x.x0, y.x0, regs);
        FixedDistance(x.x1, y.x1, regs);
      } else if x.x1.ConstInt? {
        FixedDistance(x.x0, if y.x1.ConstInt? then y.x0 else y, regs);
      } else {
        FixedDistance(x, y.x0, regs);
      }
    } else if x.Plus? {
      FixedDistance(x.x0, y, regs);
    } else if y.Plus? {
      FixedDistance(x, y.x0, regs);
    } else if x.Mult? {
      FixedDistance(x.x0, y.x0, regs);
      ProductDistance(x, y, Distance(x.x0, y.x0), regs);
    }
  }

  lemma ProductDistance(x: Rtx, y: Rtx, d: int, regs: nat -> int)
    requires x.Mult? && y.Mult? && RtxEqual(x.x1, y.x1) && x.x1.ConstInt? && Eval(y.x0, regs) - Eval(x.x0, regs) == d
    ensures Eval(y, regs) - Eval(x, regs) == d * x.x1.value
  {
    SameConstant(x.x1, y.x1);
    var m, u, v := x.x1.value, Eval(x.x0, regs), Eval(y.x0, regs);
    ProductValue(x, regs);
    ProductValue(y, regs);
    hide Eval;
    assert v * m - u * m == (v - u) * m;
  }

  /** Addresses whose distance depends on a register always may conflict. */
  lemma {:induction false} NotFixed(xsize: int, x: Rtx, ysize: int, y: Rtx, c: int)
    requires RtxOk(x) && RtxOk(y) && !Fixed(x, y)
    ensures Conflict(xsize, x, ysize, y, c)
    decreases Size(x) + Size(y)
  {
    if x.Plus? && y.Plus? {
      if RtxEqual(x.x1, y.x1) {
        NotFixed(xsize, x.x0, ysize, y.x0, c);
      } else if RtxEqual(x.x0, y.x0) {
        NotFixed(xsize, x.x1, ysize, y.x1, c);
      } else if x.x1.ConstInt? {
        if y.x1.ConstInt? {
          NotFixed(xsize, x.x0, ysize, y.x0, c - x.x1.value + y.x1.value);
        } else {
          NotFixed(xsize, x.x0, ysize, y, c - x.x1.value);
        }
      } else if y.x1.ConstInt? {
        NotFixed(xsize, x, ysize, y.x0, c + y.x1.value);
      }
    } else if x.Plus? && x.x1.ConstInt? {
      NotFixed(xsize, x.x0, ysize, y, c - x.x1.value);
    } else if !x.Plus? && y.Plus? && y.x1.ConstInt? {
      NotFixed(xsize, x, ysize, y.x0, c + y.x1.value);
    } else if x.Mult? && y.Mult? && RtxEqual(x.x1, y.x1) && x.x1.ConstInt? {
      NotFixed(Div(xsize, x.x1.value), x.x0, Div(ysize, x.x1.value), y.x0, Div(c, x.x1.value));
    }
  }

  /** A no depends on no register: it is given only for addresses at a fixed distance, and it is right, for one valuation
      of the registers or for all, if and only if the references are apart at that distance. */
  lemma DenialExact(xsize: int, x: Rtx, ysize: int, y: Rtx, c: int, regs: nat -> int)
    requires RtxOk(x) && RtxOk(y) && !Conflict(xsize, x, ysize, y, c)
    ensures Fixed(x, y)
    ensures Apart(xsize, ysize, Eval(y, regs) + c - Eval(x, regs)) <==> Apart(xsize, ysize, Distance(x, y) + c)
  {
    if !Fixed(x, y) {
      NotFixed(xsize, x, ysize, y, c);
    }
    FixedDistance(x, y, regs);
  }

  // ---------- which answers of yes are right ----------

  /** References apart are those without a common byte. */
  lemma ApartMeans(xsize: nat, ysize: nat, x: int, y: int)
    requires xsize > 0 && ysize > 0
    ensures Apart(xsize, ysize, y - x) <==> forall b :: !(Touches(b, x, xsize) && Touches(b, y, ysize))
  {
    if !Apart(xsize, ysize, y - x) {
      var b := if x < y then y else x;
      assert Touches(b, x, xsize) && Touches(b, y, ysize);
    }
  }

  /** Without two products to divide, the answer is yes exactly if the distance is not fixed, or the references are not
      apart at the fixed distance. */
  lemma {:induction false} SumsExact(xsize: int, x: Rtx, ysize: int, y: Rtx, c: int)
    requires RtxOk(x) && RtxOk(y) && !(Products(x) && Products(y)) && xsize > 0 && ysize > 0
    ensures Conflict(xsize, x, ysize, y, c) <==> !Fixed(x, y) || !Apart(xsize, ysize, Distance(x, y) + c)
    decreases Size(x) + Size(y)
  {
    if RtxEqual(x, y) {
    } else if x.Plus? && y.Plus? {
      if RtxEqual(x.x1, y.x1) {
        SumsExact(xsize, x.x0, ysize, y.x0, c);
      } else if RtxEqual(x.x0, y.x0) {
        SumsExact(xsize, x.x1, ysize, y.x1, c);
      } else if x.x1.ConstInt? {
        if y.x1.ConstInt? {
          SumsExact(xsize, x.x0, ysize, y.x0, c - x.x1.value + y.x1.value);
        } else {
          SumsExact(xsize, x.x0, ysize, y, c - x.x1.value);
        }
      } else if y.x1.ConstInt? {
        SumsExact(xsize, x, ysize, y.x0, c + y.x1.value);
      }
    } else if x.Plus? && x.x1.ConstInt? {
      SumsExact(xsize, x.x0, ysize, y, c - x.x1.value);
    } else if !x.Plus? && y.Plus? && y.x1.ConstInt? {
      SumsExact(xsize, x, ysize, y.x0, c + y.x1.value);
    }
  }

  lemma {:induction false} RtxEqualSelf(x: Rtx)
    ensures RtxEqual(x, x)
  {
    if x.Plus? || x.Mult? {
      RtxEqualSelf(x.x0);
      RtxEqualSelf(x.x1);
    }
  }

  lemma {:induction false} RtxEqualSize(x: Rtx, y: Rtx)
    requires RtxEqual(x, y)
    ensures Size(x) == Size(y)
    decreases x
  {
    match (x, y)
    case (Plus(a, b), Plus(c, d)) =>
      if RtxEqual(a, c) && RtxEqual(b, d) {
        RtxEqualSize(a, c);
        RtxEqualSize(b, d);
      } else {
        RtxEqualSize(a, d);
        RtxEqualSize(b, c);
      }
    case (Mult(a, b), Mult(c, d)) =>
      if RtxEqual(a, c) && RtxEqual(b, d) {
        RtxEqualSize(a, c);
        RtxEqualSize(b, d);
      } else {
        RtxEqualSize(a, d);
        RtxEqualSize(b, c);
      }
    case _ =>
  }

  /** A base, and the same base plus a constant. */
  function Slot(base: Rtx, k: int): Rtx {
    Plus(base, ConstInt(k))
  }

  lemma {:induction false} BaseFirst(xsize: int, ysize: int, base: Rtx, k: int, c: int)
    requires RtxOk(base) && xsize > 0 && ysize > 0
    ensures RtxOk(Slot(base, k)) && (Conflict(xsize, base, ysize, Slot(base, k), c) <==> !Apart(xsize, ysize, c + k))
    decreases Size(base)
  {
    var y := Slot(base, k);
    assert RtxOk(y.x1);
    RtxEqualSelf(base);
    if RtxEqual(base, y) {
      RtxEqualSize(base, y);
      assert false;
    } else if base.Plus? {
      if RtxEqual(base.x0, y.x0) {
        RtxEqualSize(base.x0, y.x0);
        assert false;
      } else if RtxEqual(base.x1, y.x1) {
        BaseFirst(xsize, ysize, base.x0, k, c);
      } else if base.x1.ConstInt? {
        BaseFirst(xsize, ysize, base.x0, base.x1.value, c - base.x1.value + k);
      }
    }
  }

  lemma {:induction false} BaseSecond(xsize: int, ysize: int, base: Rtx, k: int, c: int)
    requires RtxOk(base) && xsize > 0 && ysize > 0
    ensures RtxOk(Slot(base, k)) && (Conflict(xsize, Slot(base, k), ysize, base, c) <==> !Apart(xsize, ysize, c - k))
    decreases Size(base)
  {
    var x := Slot(base, k);
    assert RtxOk(x.x1);
    RtxEqualSelf(base);
    if RtxEqual(x, base) {
      RtxEqualSize(x, base);
      assert false;
    } else if base.Plus? {
      if RtxEqual(x.x0, base.x0) {
        RtxEqualSize(x.x0, base.x0);
        assert false;
      } else if RtxEqual(x.x1, base.x1) {
        BaseSecond(xsize, ysize, base.x0, k, c);
      } else if base.x1.ConstInt? {
        BaseSecond(xsize, ysize, base.x0, base.x1.value, c - k + base.x1.value);
      }
    }
  }

  /** Two slots at constant offsets from any base, or a slot and the base itself, or two constant addresses, conflict exactly
      if they have a byte in common, whatever the registers hold. */
  lemma SlotsExact(xsize: nat, ysize: nat, base: Rtx, k: int, l: int, c: int, regs: nat -> int)
    requires RtxOk(base) && xsize > 0 && ysize > 0
    ensures RtxOk(Slot(base, k)) && RtxOk(Slot(base, l)) && RtxOk(ConstInt(k)) && RtxOk(ConstInt(l))
    ensures Conflict(xsize, Slot(base, k), ysize, Slot(base, l), c) <==>
              exists b :: Touches(b, Eval(Slot(base, k), regs), xsize) && Touches(b, Eval(Slot(base, l), regs) + c, ysize)
    ensures Conflict(xsize, base, ysize, Slot(base, l), c) <==>
              exists b :: Touches(b, Eval(base, regs), xsize) && Touches(b, Eval(Slot(base, l), regs) + c, ysize)
    ensures Conflict(xsize, Slot(base, k), ysize, base, c) <==>
              exists b :: Touches(b, Eval(Slot(base, k), regs), xsize) && Touches(b, Eval(base, regs) + c, ysize)
    ensures Conflict(xsize, ConstInt(k), ysize, ConstInt(l), c) <==>
              exists b :: Touches(b, k, xsize) && Touches(b, l + c, ysize)
  {
    BaseFirst(xsize, ysize, base, l, c);
    BaseSecond(xsize, ysize, base, k, c);
    TwoSlots(xsize, ysize, base, k, l, c);
    var v := Eval(base, regs);
    assert Eval(ConstInt(k), regs) == k && Eval(ConstInt(l), regs) == l;
    assert Eval(Slot(base, k), regs) == v + k && Eval(Slot(base, l), regs) == v + l;
    hide Conflict, Eval, Touches, Apart;
    ApartMeans(xsize, ysize, v + k, v + l + c);
    ApartMeans(xsize, ysize, v, v + l + c);
    ApartMeans(xsize, ysize, v + k, v + c);
    ApartMeans(xsize, ysize, k, l + c);
  }

  lemma TwoSlots(xsize: int, ysize: int, base: Rtx, k: int, l: int, c: int)
    requires RtxOk(base) && xsize > 0 && ysize > 0
    ensures RtxOk(Slot(base, k)) && RtxOk(Slot(base, l)) && RtxOk(ConstInt(k)) && RtxOk(ConstInt(l))
    ensures Conflict(xsize, ConstInt(k), ysize, ConstInt(l), c) <==> !Apart(xsize, ysize, c + l - k)
    ensures Conflict(xsize, Slot(base, k), ysize, Slot(base, l), c) <==> !Apart(xsize, ysize, c + l - k)
  {
    RtxEqualSelf(base);
    assert Conflict(xsize, ConstInt(k), ysize, ConstInt(l), c) <==> Near(xsize, ysize, c + (l - k));
    if k != l {
      var x, y := Slot(base, k), Slot(base, l);
      assert !RtxEqual(x.x1, y.x1) && (RtxEqual(base, y.x1) ==> base == y.x1) && (RtxEqual(x.x1, base) ==> base == x.x1);
      assert !RtxEqual(x, y);
      assert Conflict(xsize, Slot(base, k), ysize, Slot(base, l), c) == Conflict(xsize, ConstInt(k), ysize, ConstInt(l), c);
    } else {
      assert RtxEqual(Slot(base, k), Slot(base, l));
    }
  }

  // ---------- products that do not divide ----------

  /** References that are apart in units of m are apart in bytes. */
  ghost predicate UnitsRight(xsize: int, ysize: int, c: int, m: int)
    requires m != 0
  {
    forall d: int :: Apart(Div(xsize, m), Div(ysize, m), d + Div(c, m)) ==> Apart(xsize, ysize, m * d + c)
  }

  /** At a product by m, with a whole unit of both sizes left, the divided test is right for every distance of the
      factors if and only if m divides both sizes and the offset. */
  lemma UnitsExact(xsize: int, ysize: int, c: int, m: int)
    requires m > 0 && xsize >= m && ysize >= m
    ensures UnitsRight(xsize, ysize, c, m) <==> xsize % m == 0 && ysize % m == 0 && c % m == 0
  {
    var (xs, ys, cs) := (Div(xsize, m), Div(ysize, m), Div(c, m));
    var (xr, yr, cr) := (xsize - m * xs, ysize - m * ys, c - m * cs);
    Remainder(xsize, m);
    Remainder(ysize, m);
    Remainder(c, m);
    WholeUnit(xsize, m);
    WholeUnit(ysize, m);
    if xr == 0 && yr == 0 && cr == 0 {
      forall d: int | Apart(xs, ys, d + cs) ensures Apart(xsize, ysize, m * d + c) {
        ScaledApart(xs, ys, d + cs, m);
        assert m * (d + cs) == m * d + c;
      }
    } else {
      var d := if cr < xr then xs - cs else 0 - ys - cs;
      assert Apart(xs, ys, d + cs);
      assert !Apart(xsize, ysize, m * d + c) by {
        assert m * (d + cs) == m * d + m * cs;
        if cr < xr {
          assert m * d + c == m * xs + cr;
          Monotone(m, 1, xs);
        } else {
          assert m * (0 - ys) == 0 - m * ys;
          assert m * d + c == cr - m * ys;
          Monotone(m, 1, ys);
        }
      }
    }
  }

  function ScaledReg(r: nat, m: int): (x: Rtx)
    requires m != 0
    ensures RtxOk(x) && forall regs: nat -> int :: Eval(x, regs) == regs(r) * m
  {
    Mult(Reg(r), ConstInt(m))
  }

  function ScaledSum(r: nat, k: int, m: int): (x: Rtx)
    requires m != 0
    ensures RtxOk(x) && forall regs: nat -> int :: Eval(x, regs) == (regs(r) + k) * m
  {
    var sum := Plus(Reg(r), ConstInt(k));
    assert RtxOk(Reg(r)) && RtxOk(ConstInt(k));
    assert forall regs: nat -> int :: Eval(Reg(r), regs) == regs(r) && Eval(ConstInt(k), regs) == k;
    assert forall regs: nat -> int :: Eval(sum, regs) == regs(r) + k;
    Mult(sum, ConstInt(m))
  }

  /** The test on m * r and m * (r + k). */
  lemma ScaledTest(xsize: int, ysize: int, c: int, r: nat, k: int, m: int)
    requires m != 0
    ensures Conflict(xsize, ScaledReg(r, m), ysize, ScaledSum(r, k, m), c) <==>
              Div(xsize, m) <= 0 || Div(ysize, m) <= 0 || Near(Div(xsize, m), Div(ysize, m), Div(c, m) + k)
  {
    hide Div, Near, Eval;
    var x, y := ScaledReg(r, m), ScaledSum(r, k, m);
    assert !RtxEqual(x, y) && !RtxEqual(x.x0, y.x0) && RtxEqual(x.x1, y.x1);
    var xs, ys, cs := Div(xsize, m), Div(ysize, m), Div(c, m);
    assert RtxOk(x.x0) && RtxOk(y.x0) && RtxOk(y.x0.x0);
    assert Conflict(xsize, x, ysize, y, c) == Conflict(xs, x.x0, ys, y.x0, cs);
    assert Conflict(xs, x.x0, ys, y.x0, cs) == Conflict(xs, x.x0, ys, y.x0.x0, cs + k);
  }

  /** A negative factor turns the sizes negative, and the answer is always that there may be a conflict. */
  lemma ScaledNegative(xsize: int, ysize: int, c: int, r: nat, k: int, m: int)
    requires m < 0 && xsize > 0 && ysize > 0
    ensures Conflict(xsize, ScaledReg(r, m), ysize, ScaledSum(r, k, m), c)
  {
    hide Conflict, Near, Eval, Div, ScaledReg, ScaledSum;
    ScaledTest(xsize, ysize, c, r, k, m);
    Negated(xsize, m);
    NotNegative(xsize, 0 - m);
  }

  lemma NotNegative(a: int, b: int)
    requires a > 0 && b > 0
    ensures Div(a, b) >= 0
  {
    assert a == b * (a / b) + a % b;
    Sides(b, a / b, 0);
  }

  lemma NearApart(xs: int, ys: int, d: int)
    requires xs > 0 && ys > 0
    ensures !Near(xs, ys, d) <==> Apart(xs, ys, d)
  {
  }

  lemma ScaledDistance(c: int, r: nat, k: int, m: int, regs: nat -> int)
    requires m != 0
    ensures Eval(ScaledSum(r, k, m), regs) + c - Eval(ScaledReg(r, m), regs) == m * k + c
  {
    hide Eval, ScaledSum, ScaledReg;
    assert Eval(ScaledSum(r, k, m), regs) == (regs(r) + k) * m == regs(r) * m + m * k;
  }

  /** No answer on addresses m * r and m * (r + k) denies an overlap. */
  ghost predicate AnswersRight(xsize: int, ysize: int, c: int, r: nat, m: int)
    requires m != 0
  {
    forall k: int, regs: nat -> int :: !Conflict(xsize, ScaledReg(r, m), ysize, ScaledSum(r, k, m), c) ==>
      Apart(xsize, ysize, Eval(ScaledSum(r, k, m), regs) + c - Eval(ScaledReg(r, m), regs))
  }

  lemma AnswerIs(xsize: int, ysize: int, c: int, r: nat, k: int, m: int, regs: nat -> int)
    requires m > 0 && xsize >= m && ysize >= m
    ensures !Conflict(xsize, ScaledReg(r, m), ysize, ScaledSum(r, k, m), c) <==>
              Apart(Div(xsize, m), Div(ysize, m), k + Div(c, m))
    ensures Eval(ScaledSum(r, k, m), regs) + c - Eval(ScaledReg(r, m), regs) == m * k + c
  {
    hide Conflict, Eval, Div, ScaledReg, ScaledSum, Near, Apart;
    WholeUnit(xsize, m);
    WholeUnit(ysize, m);
    ScaledTest(xsize, ysize, c, r, k, m);
    NearApart(Div(xsize, m), Div(ysize, m), k + Div(c, m));
    ScaledDistance(c, r, k, m, regs);
  }

  lemma AnswersUnits(xsize: int, ysize: int, c: int, r: nat, m: int)
    requires m > 0 && xsize >= m && ysize >= m
    ensures AnswersRight(xsize, ysize, c, r, m) <==> UnitsRight(xsize, ysize, c, m)
  {
    hide Conflict, Eval, Div, ScaledReg, ScaledSum, Near, Apart;
    if AnswersRight(xsize, ysize, c, r, m) {
      forall d: int | Apart(Div(xsize, m), Div(ysize, m), d + Div(c, m)) ensures Apart(xsize, ysize, m * d + c) {
        var regs: nat -> int := n => 0;
        AnswerIs(xsize, ysize, c, r, d, m, regs);
        assert !Conflict(xsize, ScaledReg(r, m), ysize, ScaledSum(r, d, m), c);
      }
    }
    if UnitsRight(xsize, ysize, c, m) {
      forall k: int, regs: nat -> int | !Conflict(xsize, ScaledReg(r, m), ysize, ScaledSum(r, k, m), c)
        ensures Apart(xsize, ysize, Eval(ScaledSum(r, k, m), regs) + c - Eval(ScaledReg(r, m), regs))
      {
        AnswerIs(xsize, ysize, c, r, k, m, regs);
      }
    }
  }

  /** Addresses m * r and m * (r + k), a whole unit of both sizes being left: no answer for any k denies an overlap if and
      only if m divides both sizes and the offset. */
  lemma ScaledExact(xsize: int, ysize: int, c: int, r: nat, m: int)
    requires m > 0 && xsize >= m && ysize >= m
    ensures AnswersRight(xsize, ysize, c, r, m) <==> xsize % m == 0 && ysize % m == 0 && c % m == 0
  {
    hide AnswersRight, UnitsRight;
    AnswersUnits(xsize, ysize, c, r, m);
    UnitsExact(xsize, ysize, c, m);
  }

  lemma WholeUnit(a: int, m: int)
    requires m > 0 && a >= m
    ensures Div(a, m) >= 1
  {
    assert a == m * (a / m) + a % m;
    Sides(m, a / m, 0);
  }

  lemma Remainder(a: int, m: int)
    requires m > 0
    ensures 0 - m < a - m * Div(a, m) < m && (a >= 0 ==> a - m * Div(a, m) >= 0)
    ensures a - m * Div(a, m) == 0 <==> a % m == 0
  {
    if a >= 0 {
      assert a == m * (a / m) + a % m;
    } else {
      var b := 0 - a;
      assert b == m * (b / m) + b % m;
      assert m * (0 - b / m) == 0 - m * (b / m);
      if b % m == 0 {
        assert a == m * (0 - (b / m));
        Multiple(0 - (b / m), m);
      }
      if a % m == 0 {
        assert a == m * (a / m);
        assert b == m * (0 - a / m);
        Multiple(0 - a / m, m);
      }
    }
  }

  lemma Multiple(q: int, m: int)
    requires m > 0
    ensures (m * q) % m == 0
  {
    Quotient(m * q, m, q);
  }

  /** A concrete failure: 12 bytes at 8 * r and 12 bytes at 8 * (r + 1) are said not to conflict, but they share
      the bytes 8 * r + 8 to 8 * r + 11 for every r. */
  lemma UnitsExample(regs: nat -> int)
    ensures var x := Mult(Reg(0), ConstInt(8));
            var y := Mult(Plus(Reg(0), ConstInt(1)), ConstInt(8));
            !Conflict(12, x, 12, y, 0) && !Apart(12, 12, Eval(y, regs) - Eval(x, regs))
  {
    var x := Mult(Reg(0), ConstInt(8));
    var y := Mult(Plus(Reg(0), ConstInt(1)), ConstInt(8));
    assert Div(12, 8) == 1 && Div(0, 8) == 0;
    assert Conflict(12, x, 12, y, 0) == Conflict(1, Reg(0), 1, Plus(Reg(0), ConstInt(1)), 0);
    assert Conflict(1, Reg(0), 1, Plus(Reg(0), ConstInt(1)), 0) == Conflict(1, Reg(0), 1, Reg(0), 1);
  }
}
