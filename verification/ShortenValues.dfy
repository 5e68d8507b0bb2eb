/** When two ways to extend narrow values compare alike: the conditions, and values for which they do not. */
module ShortenValues {
  import opened Shorten

  // ---------- on values: h is half the narrow modulus, m the modulus of the operand's own type, N the nominal ----------

  /** A mixed operand x against a constant c in an unsigned comparison. */
  predicate AgreesUnsigned(code: Code, h: int, m: int, N: int, c: int) {
    match code
    case Lt => c <= m - h
    case Ge => c <= m - h
    case Le => c < m - h || c == N - 1
    case Gt => c < m - h || c == N - 1
    case _ => !(m - h <= c < m) && c < N - h
  }

  /** A mixed operand x against a constant c in a signed comparison. */
  predicate AgreesSigned(code: Code, h: int, m: int, c: int) {
    match code
    case Lt => c <= -h || c >= m
    case Ge => c <= -h || c >= m
    case Le => c < -h || c >= m - 1
    case Gt => c < -h || c >= m - 1
    case _ => !(m - h <= c < m) && !(-h <= c < 0)
  }

  /** An x for which the outcomes differ, when there is one. */
  function UnsignedWitness(code: Code, h: int, m: int, N: int, c: int): int {
    match code
    case Lt => if -h < c - N then c - N else -h
    case Ge => if -h < c - N then c - N else -h
    case Le => if -h < c - N + 1 then c - N + 1 else -h
    case Gt => if -h < c - N + 1 then c - N + 1 else -h
    case _ => if c >= N - h then c - N else c - m
  }

  lemma AgainstUnsigned(code: Code, h: int, m: int, N: int, c: int, x: int)
    requires h >= 1 && 4 * h <= m && 2 * m <= N && 0 <= c < N && -h <= x < h
    ensures (AgreesUnsigned(code, h, m, N, c)
             ==> Compare(code, Lifted(x, N), c) == Compare(code, Lifted(x, m), c))
    ensures var w := UnsignedWitness(code, h, m, N, c);
            !AgreesUnsigned(code, h, m, N, c)
            ==> -h <= w < h && Compare(code, Lifted(w, N), c) != Compare(code, Lifted(w, m), c)
  {
  }

  function SignedWitness(code: Code, h: int, m: int, c: int): int {
    match code
    case Lt => if c - 1 < -1 then c - 1 else -1
    case Ge => if c - 1 < -1 then c - 1 else -1
    case Le => if c < -1 then c else -1
    case Gt => if c < -1 then c else -1
    case _ => if c < 0 then c else c - m
  }

  lemma AgainstSignedValues(code: Code, h: int, m: int, c: int, x: int)
    requires h >= 1 && 4 * h <= m && -h <= x < h
    ensures AgreesSigned(code, h, m, c) ==> Compare(code, x, c) == Compare(code, Lifted(x, m), c)
    ensures var w := SignedWitness(code, h, m, c);
            !AgreesSigned(code, h, m, c)
            ==> -h <= w < h && Compare(code, w, c) != Compare(code, Lifted(w, m), c)
  {
  }

  /** Two variables, lifted by a and b where the comparison assumes N for both: an operand that is not mixed is
      lifted by N itself. */
  predicate AgreesLifted(code: Code, h: int, g: int, a: int, b: int) {
    || a == b
    || (a < b && g == 1 && (code == Gt || code == Le))
    || (a > b && h == 1 && (code == Lt || code == Ge))
  }

  lemma LiftedValues(code: Code, h: int, g: int, a: int, b: int, N: int, x: int, y: int)
    requires h >= 1 && g >= 1 && 4 * h <= a && 4 * g <= b && a <= N && b <= N && (2 * a <= b || a == b || 2 * b <= a)
    requires h != 1 ==> h >= 2
    requires -h <= x < h && -g <= y < g
    ensures (AgreesLifted(code, h, g, a, b)
             ==> Compare(code, Lifted(x, N), Lifted(y, N)) == Compare(code, Lifted(x, a), Lifted(y, b)))
  {
  }

  /** Values for which two lifted operands compare otherwise than assumed. */
  function LiftedWitness(code: Code, a: int, b: int): (int, int) {
    match code
    case Lt => if a < b then (-1, -1) else (-2, -1)
    case Ge => if a < b then (-1, -1) else (-2, -1)
    case Le => if a < b then (-1, -2) else (-1, -1)
    case Gt => if a < b then (-1, -2) else (-1, -1)
    case _ => (-1, -1)
  }

  lemma LiftedDisagrees(code: Code, h: int, g: int, a: int, b: int, N: int)
    requires h >= 1 && g >= 1 && 4 * h <= a && 4 * g <= b && a <= N && b <= N && (2 * a <= b || a == b || 2 * b <= a)
    requires !AgreesLifted(code, h, g, a, b)
    ensures var (x, y) := LiftedWitness(code, a, b);
            -h <= x < h && -g <= y < g &&
            Compare(code, Lifted(x, N), Lifted(y, N)) != Compare(code, Lifted(x, a), Lifted(y, b))
  {
  }

  /** In a signed comparison an operand that is not mixed is not lifted: m is 0. */
  predicate AgreesPlain(code: Code, a: int, b: int) {
    a == b && (a == 0 || code == Eq || code == Ne)
  }

  lemma PlainValues(code: Code, h: int, g: int, a: int, b: int, x: int, y: int)
    requires h >= 1 && g >= 1 && (a == 0 || 4 * h <= a) && (b == 0 || 4 * g <= b)
    requires -h <= x < h && -g <= y < g
    ensures AgreesPlain(code, a, b) ==> Compare(code, x, y) == Compare(code, Lifted(x, a), Lifted(y, b))
  {
  }

  function PlainWitness(code: Code, a: int, b: int): (int, int) {
    if code == Eq || code == Ne then (-1, -1)
    else if a != 0 then (-1, 0)
    else (0, -1)
  }

  lemma PlainDisagrees(code: Code, h: int, g: int, a: int, b: int)
    requires h >= 1 && g >= 1 && (a == 0 || 4 * h <= a) && (b == 0 || 4 * g <= b)
    requires !AgreesPlain(code, a, b)
    ensures var (x, y) := PlainWitness(code, a, b);
            -h <= x < h && -g <= y < g && Compare(code, x, y) != Compare(code, Lifted(x, a), Lifted(y, b))
  {
  }

  /** An operand that may be negative, lifted by a where N is assumed, against one that never is: its low bits are a
      signed value from -g to g - 1, lifted by R. */
  predicate AgreesOne(code: Code, h: int, a: int, N: int, g: int, R: int) {
    a == N ||
    match code
    case Lt => a > R || (a == R && h == 1)
    case Ge => a > R || (a == R && h == 1)
    case Le => a > R
    case Gt => a > R
    case _ => a > g && a != R
  }

  predicate AgreesOnePlain(code: Code, a: int, g: int, R: int) {
    a == 0 || ((code == Eq || code == Ne) && a > g && a != R)
  }

  /** Different powers of two. */
  predicate Apart(a: int, b: int) {
    2 * a <= b || a == b || 2 * b <= a
  }

  lemma OneValues(code: Code, h: int, a: int, N: int, g: int, R: int, x: int, s: int)
    requires h >= 1 && g >= 1 && 4 * h <= a <= N && Apart(a, N) && Apart(a, R) && Apart(a, g) && 2 * g <= R && 4 * R <= N
    requires -h <= x < h && -g <= s < g
    ensures var y := Lifted(s, R);
            AgreesOne(code, h, a, N, g, R) ==> Compare(code, Lifted(x, N), y) == Compare(code, Lifted(x, a), y)
  {
  }

  lemma OnePlainValues(code: Code, h: int, a: int, g: int, R: int, x: int, s: int)
    requires h >= 1 && g >= 1 && (a == 0 || (4 * h <= a && Apart(a, R) && Apart(a, g))) && 2 * g <= R
    requires -h <= x < h && -g <= s < g
    ensures var y := Lifted(s, R);
            AgreesOnePlain(code, a, g, R) ==> Compare(code, x, y) == Compare(code, Lifted(x, a), y)
  {
  }

  /** Values, of the operand that may be negative and of the low bits of the other, that compare otherwise than
      assumed. */
  function OneWitness(code: Code, a: int, R: int): (int, int) {
    match code
    case Lt => if a == R then (-2, -1) else (-1, -1)
    case Ge => if a == R then (-2, -1) else (-1, -1)
    case Le => (-1, -1)
    case Gt => (-1, -1)
    case _ => if a == R then (-1, -1) else (-1, a - 1)
  }

  function OnePlainWitness(code: Code, a: int, R: int): (int, int) {
    if code != Eq && code != Ne then (-1, 0) else if a == R then (-1, -1) else (-1, a - 1)
  }

  lemma OneDisagrees(code: Code, h: int, a: int, N: int, g: int, R: int)
    requires h >= 1 && g >= 1 && 4 * h <= a <= N && Apart(a, N) && Apart(a, R) && Apart(a, g) && 2 * g <= R && 4 * R <= N
    requires !AgreesOne(code, h, a, N, g, R)
    ensures var (x, s) := OneWitness(code, a, R);
            && -h <= x < h && -g <= s < g
            && Compare(code, Lifted(x, N), Lifted(s, R)) != Compare(code, Lifted(x, a), Lifted(s, R))
  {
  }

  lemma OnePlainDisagrees(code: Code, h: int, a: int, g: int, R: int)
    requires h >= 1 && g >= 1 && (a == 0 || (4 * h <= a && Apart(a, R) && Apart(a, g))) && 2 * g <= R
    requires !AgreesOnePlain(code, a, g, R)
    ensures var (x, s) := OnePlainWitness(code, a, R);
            -h <= x < h && -g <= s < g && Compare(code, x, Lifted(s, R)) != Compare(code, Lifted(x, a), Lifted(s, R))
  {
  }

  // ---------- on values that come from the same variable ----------

  /** Low bits of the same number: they are equal or far apart. */
  predicate Linked(h: int, g: int, s: int, t: int) {
    var m := if h < g then h else g;
    s == t || t - s >= 2 * m || s - t >= 2 * m
  }

  predicate SameLifted(code: Code, h: int, g: int, a: int, b: int) {
    || a == b
    || (a < b && g <= 2 * h && (code == Gt || code == Le))
    || (a > b && h <= 2 * g && (code == Lt || code == Ge))
  }

  predicate SamePlain(code: Code, h: int, g: int, a: int, b: int) {
    || a == b == 0
    || (a == b && (h == g || code == Eq || code == Ne))
    || (a < b && h == g && (code == Gt || code == Le))
    || (a > b && h == g && (code == Lt || code == Ge))
  }

  predicate SameOne(code: Code, h: int, a: int, N: int, g: int, R: int) {
    a == N ||
    match code
    case Lt => a > R || (a == R && h <= 2 * g)
    case Ge => a > R || (a == R && h <= 2 * g)
    case Le => a > R
    case Gt => a > R
    case _ => a > g && a != R
  }

  predicate SameOnePlain(code: Code, h: int, a: int, g: int, R: int) {
    || a == 0
    || ((code == Eq || code == Ne) && a > g && a != R)
    || ((code == Lt || code == Ge) && h == g && a < R)
    || ((code == Le || code == Gt) && h == g && a <= R)
  }

  lemma SameLiftedValues(code: Code, h: int, g: int, a: int, b: int, N: int, s: int, t: int)
    requires h >= 1 && g >= 1 && 4 * h <= a <= N && 4 * g <= b <= N && Apart(a, b) && Linked(h, g, s, t)
    requires -h <= s < h && -g <= t < g
    ensures SameLifted(code, h, g, a, b)
            ==> Compare(code, Lifted(s, N), Lifted(t, N)) == Compare(code, Lifted(s, a), Lifted(t, b))
  {
  }

  lemma SamePlainValues(code: Code, h: int, g: int, a: int, b: int, s: int, t: int)
    requires h >= 1 && g >= 1 && (a == 0 || 4 * h <= a) && (b == 0 || 4 * g <= b) && Linked(h, g, s, t)
    requires -h <= s < h && -g <= t < g
    ensures SamePlain(code, h, g, a, b) ==> Compare(code, s, t) == Compare(code, Lifted(s, a), Lifted(t, b))
  {
  }

  lemma SameOneValues(code: Code, h: int, a: int, N: int, g: int, R: int, s: int, t: int)
    requires h >= 1 && g >= 1 && 4 * h <= a <= N && Apart(a, N) && Apart(a, R) && Apart(a, g) && 2 * g <= R && 4 * R <= N
    requires -h <= s < h && -g <= t < g && Linked(h, g, s, t)
    ensures var y := Lifted(t, R);
            SameOne(code, h, a, N, g, R) ==> Compare(code, Lifted(s, N), y) == Compare(code, Lifted(s, a), y)
  {
  }

  lemma SameOnePlainValues(code: Code, h: int, a: int, g: int, R: int, s: int, t: int)
    requires h >= 1 && g >= 1 && (a == 0 || (4 * h <= a && Apart(a, R) && Apart(a, g))) && 2 * g <= R
    requires -h <= s < h && -g <= t < g && Linked(h, g, s, t)
    ensures var y := Lifted(t, R);
            SameOnePlain(code, h, a, g, R) ==> Compare(code, s, y) == Compare(code, Lifted(s, a), y)
  {
  }

  /** A number and two signed remainders of it. */
  datatype Choice = Choice(v: int, s: int, t: int)

  predicate ChoiceOk(c: Choice, h: int, g: int, a: int) {
    && -h <= c.s < h && -g <= c.t < g
    && (c.v == c.s || c.v == c.s + 2 * h || c.v == c.s - 2 * h || c.v == c.s + a)
    && (c.v == c.t || c.v == c.t + 2 * g || c.v == c.t - 2 * g)
  }

  function SameLiftedChoice(code: Code, h: int, g: int, a: int, b: int): Choice {
    if a < b && (code == Gt || code == Le) then Choice(-1 - 2 * h, -1, -1 - 2 * h)
    else if a > b && (code == Lt || code == Ge) then Choice(-1 - 2 * g, -1 - 2 * g, -1)
    else Choice(-1, -1, -1)
  }

  lemma SameLiftedDisagrees(code: Code, h: int, g: int, a: int, b: int, N: int)
    requires h >= 1 && g >= 1 && 4 * h <= a <= N && 4 * g <= b <= N && Apart(a, b) && Apart(h, g)
    requires (2 * h < g ==> 4 * h <= g) && (2 * g < h ==> 4 * g <= h) && !SameLifted(code, h, g, a, b)
    ensures var c := SameLiftedChoice(code, h, g, a, b);
            && ChoiceOk(c, h, g, a)
            && Compare(code, Lifted(c.s, N), Lifted(c.t, N)) != Compare(code, Lifted(c.s, a), Lifted(c.t, b))
  {
  }

  function SamePlainChoice(code: Code, h: int, g: int, a: int, b: int): Choice {
    if code == Eq || code == Ne || h == g then Choice(-1, -1, -1)
    else if a == b then if h < g then Choice(2 * h - 1, -1, 2 * h - 1) else Choice(2 * g - 1, 2 * g - 1, -1)
    else if a < b then
      if code == Lt || code == Ge then Choice(-1, -1, -1)
      else if h < g then Choice(-2 * h, 0, -2 * h) else Choice(2 * g - 1, 2 * g - 1, -1)
    else
      if code == Gt || code == Le then Choice(-1, -1, -1)
      else if h < g then Choice(2 * h - 1, -1, 2 * h - 1) else Choice(-2 * g, -2 * g, 0)
  }

  lemma SamePlainDisagrees(code: Code, h: int, g: int, a: int, b: int)
    requires h >= 1 && g >= 1 && (a == 0 || 4 * h <= a) && (b == 0 || 4 * g <= b) && Apart(h, g)
    requires !SamePlain(code, h, g, a, b)
    ensures var c := SamePlainChoice(code, h, g, a, b);
            && ChoiceOk(c, h, g, a) && Compare(code, c.s, c.t) != Compare(code, Lifted(c.s, a), Lifted(c.t, b))
  {
  }

  function SameOneChoice(code: Code, h: int, a: int, g: int, R: int): Choice {
    if (code == Eq || code == Ne) && a != R then Choice(a - 1, -1, a - 1)
    else if (code == Lt || code == Ge) && a == R then Choice(-1 - 2 * g, -1 - 2 * g, -1)
    else Choice(-1, -1, -1)
  }

  lemma SameOneDisagrees(code: Code, h: int, a: int, N: int, g: int, R: int)
    requires h >= 1 && g >= 1 && 4 * h <= a <= N && Apart(a, N) && Apart(a, R) && Apart(a, g) && 2 * g <= R && 4 * R <= N
    requires (2 * g < h ==> 4 * g <= h) && !SameOne(code, h, a, N, g, R)
    ensures var c := SameOneChoice(code, h, a, g, R);
            && ChoiceOk(c, h, g, a)
            && Compare(code, Lifted(c.s, N), Lifted(c.t, R)) != Compare(code, Lifted(c.s, a), Lifted(c.t, R))
  {
  }

  function SameOnePlainChoice(code: Code, h: int, a: int, g: int, R: int): Choice {
    if code == Eq || code == Ne then if a != R then Choice(a - 1, -1, a - 1) else Choice(-1, -1, -1)
    else if h == g then Choice(-1, -1, -1)
    else if h < g then Choice(2 * h - 1, -1, 2 * h - 1)
    else Choice(-2 * g, -2 * g, 0)
  }

  lemma SameOnePlainDisagrees(code: Code, h: int, a: int, g: int, R: int)
    requires h >= 1 && g >= 1 && (a == 0 || (4 * h <= a && Apart(a, R) && Apart(a, g))) && Apart(h, g) && 2 * g <= R
    requires !SameOnePlain(code, h, a, g, R)
    ensures var c := SameOnePlainChoice(code, h, a, g, R);
            && ChoiceOk(c, h, g, a) && Compare(code, c.s, Lifted(c.t, R)) != Compare(code, Lifted(c.s, a), Lifted(c.t, R))
  {
  }
}
