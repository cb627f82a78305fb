/** The values the integer and character primitives of the prelude compute
    before writing them into the root node: the four division operators,
    comparison and equality outcomes, and `ord`/`chr`. */
module IntOps {
  import opened Machine

  /** The binary integer primitives `+ - * div mod quot rem`. */
  datatype BinOp = Plus | Minus | Times | Div | Mod | Quot | Rem

  /** The operation is defined in C++: no signed 64-bit overflow, no
      division by zero, and not INT64_MIN divided by -1. */
  predicate Defined(op: BinOp, x: int, y: int) {
    && InInt64(x) && InInt64(y)
    && match op
       case Plus => InInt64(x + y)
       case Minus => InInt64(x - y)
       case Times => InInt64(x * y)
       case _ => y != 0 && !(x == INT64_MIN && y == -1)
  }

  /** `CyPrelude_div`: C++ truncating quotient, decremented when the
      remainder is non-zero and its sign differs from the divisor's. */
  function FloorDiv(x: int, y: int): (r: int)
    requires y != 0
  {
    var q := CQuot(x, y);
    var r := CRem(x, y);
    if r != 0 && (r < 0) != (y < 0) then q - 1 else q
  }

  /** `CyPrelude_mod`: C++ remainder, moved by one divisor when it is
      non-zero and its sign differs from the divisor's. */
  function FloorMod(x: int, y: int): (r: int)
    requires y != 0
  {
    var r := CRem(x, y);
    if r != 0 && (r < 0) != (y < 0) then r + y else r
  }

  /** The value each primitive writes into the root. */
  function Compute(op: BinOp, x: int, y: int): (r: int)
    requires Defined(op, x, y)
  {
    match op
    case Plus => x + y
    case Minus => x - y
    case Times => x * y
    case Div => FloorDiv(x, y)
    case Mod => FloorMod(x, y)
    case Quot => CQuot(x, y)
    case Rem => CRem(x, y)
  }

  /** `div`/`mod` divide with the quotient rounded toward negative infinity:
      x == y*div + mod, and mod is zero or has the divisor's sign and is
      smaller than it in magnitude. */
  lemma {:induction false} FloorDivision(x: int, y: int)
    requires y != 0
    ensures x == y * FloorDiv(x, y) + FloorMod(x, y)
    ensures FloorMod(x, y) == 0 || (FloorMod(x, y) < 0 <==> y < 0)
    ensures Abs(FloorMod(x, y)) < Abs(y)
  {
    CDivision(x, y);
    var q, r := CQuot(x, y), CRem(x, y);
    if r != 0 && (r < 0) != (y < 0) {
      assert y * (q - 1) + (r + y) == y * q + r;
    }
  }

  /** `quot`/`rem` divide with the quotient truncated toward zero:
      x == y*quot + rem, and rem is zero or has the dividend's sign. */
  lemma {:induction false} TruncDivision(x: int, y: int)
    requires y != 0
    ensures x == y * CQuot(x, y) + CRem(x, y)
    ensures CRem(x, y) == 0 || (CRem(x, y) < 0 <==> x < 0)
    ensures Abs(CRem(x, y)) < Abs(y)
  {
    CDivision(x, y);
  }

  /** Independent definition of floor division, from Dafny's Euclidean
      division (which rounds down whenever the divisor is positive). */
  function FloorSpec(x: int, y: int): int
    requires y != 0
  {
    if y > 0 then x / y else (-x) / (-y)
  }

  /** The runtime's `div` is floor division and its `mod` is the remainder
      that goes with it; for a positive divisor they are Dafny's `/` and
      `%`. */
  lemma {:induction false} FloorDivIsFloor(x: int, y: int)
    requires y != 0
    ensures FloorDiv(x, y) == FloorSpec(x, y)
    ensures FloorMod(x, y) == x - y * FloorSpec(x, y)
    ensures y > 0 ==> FloorDiv(x, y) == x / y && FloorMod(x, y) == x % y
  {
    FloorDivision(x, y);
    var q, m := FloorDiv(x, y), FloorMod(x, y);
    var b := Abs(y);
    var sx := if y > 0 then x else -x;
    // sx == b*q + (±m) with the adjusted remainder in [0, b): the Euclidean
    // quotient of sx by b is therefore q.
    if y > 0 {
      assert sx == b * q + m && 0 <= m < b;
    } else {
      assert -m >= 0;
      assert sx == b * q + -m && 0 <= -m < b;
    }
    EuclideanUnique(sx, b, q, if y > 0 then m else -m);
  }

  /** Dafny's division is characterised by its remainder range. */
  lemma EuclideanUnique(a: int, b: int, q: int, r: int)
    requires b > 0 && a == b * q + r && 0 <= r < b
    ensures a / b == q && a % b == r
  {
    var q', r' := a / b, a % b;
    assert a == b * q' + r' && 0 <= r' < b;
    if q' > q {
      assert b * q' >= b * (q + 1) by { MulMonotone(b, q + 1, q'); }
    } else if q' < q {
      assert b * q >= b * (q' + 1) by { MulMonotone(b, q' + 1, q); }
    }
  }

  lemma MulMonotone(b: int, p: int, q: int)
    requires b > 0 && p <= q
    ensures b * p <= b * q
  {
    assert b * q - b * p == b * (q - p);
  }

  /** Whenever the operation is defined, its result is again a 64-bit
      integer, so the root can hold it. */
  lemma {:induction false} ComputeInRange(op: BinOp, x: int, y: int)
    requires Defined(op, x, y)
    ensures InInt64(Compute(op, x, y))
  {
    match op
    case Div => QuotientsInRange(x, y);
    case Mod => FloorDivision(x, y);
    case Quot => QuotientsInRange(x, y);
    case Rem => CDivision(x, y);
    case _ =>
  }

  lemma {:induction false} QuotientsInRange(x: int, y: int)
    requires InInt64(x) && InInt64(y) && y != 0 && !(x == INT64_MIN && y == -1)
    ensures InInt64(CQuot(x, y)) && InInt64(FloorDiv(x, y))
  {
    var a: int, b: int := Abs(x), Abs(y);
    var q: int := a / b;
    NatDivision(a, b);
    assert CQuot(x, y) == q || CQuot(x, y) == -q;
    assert FloorDiv(x, y) == CQuot(x, y) || FloorDiv(x, y) == CQuot(x, y) - 1;
    if b == 1 {
      assert q == a && a % b == 0;
      assert CRem(x, y) == 0;
      assert FloorDiv(x, y) == CQuot(x, y);
    } else {
      if q > 0 {
        MulMonotone(q, 2, b);
      }
      assert q * 2 <= a;
    }
  }

  // ---- Comparison and equality outcomes ----

  /** The constructor index of the `Ordering` value `compare` produces:
      LT (0), EQ (1) or GT (2). */
  function CompareTag(x: int, y: int): (r: int) {
    if x < y then 0 else if y < x then 2 else 1
  }

  /** Exactly one of LT, EQ, GT, and which one is decided by the order of
      the two data. */
  lemma CompareTrichotomy(x: int, y: int)
    ensures 0 <= CompareTag(x, y) <= 2
    ensures CompareTag(x, y) == 0 <==> x < y
    ensures CompareTag(x, y) == 1 <==> x == y
    ensures CompareTag(x, y) == 2 <==> x > y
  {
  }

  /** Swapping the operands swaps LT and GT. */
  lemma CompareAntisymmetric(x: int, y: int)
    ensures CompareTag(y, x) == 2 - CompareTag(x, y)
  {
  }

  /** The constructor index of the `Bool` value `==` produces: True (1) when
      the data are equal, False (0) otherwise. */
  function EqTag(x: int, y: int): (r: int) {
    if x == y then 1 else 0
  }

  /** `==` agrees with `compare`: True exactly when compare says EQ. */
  lemma EqAgreesWithCompare(x: int, y: int)
    ensures EqTag(x, y) == 1 <==> CompareTag(x, y) == 1
    ensures EqTag(x, y) == EqTag(y, x)
    ensures EqTag(x, y) == 0 || EqTag(x, y) == 1
  {
  }

  // ---- ord / chr ----

  /** `ord`: a `char` widened to `int64_t` (sign extension). */
  function Ord(c: CChar): (r: int) {
    c as int
  }

  /** `chr`: `static_cast<char>` of a 64-bit integer. */
  function Chr(i: int): (r: CChar) {
    ToCChar(i)
  }

  /** `chr (ord c) == c` for every character, and `ord (chr i) == i`
      exactly for the integers in the `char` range; otherwise `chr` keeps
      the low eight bits. */
  lemma {:induction false} OrdChrRoundTrip(c: CChar, i: int)
    ensures Chr(Ord(c)) == c
    ensures Ord(Chr(i)) == i <==> -128 <= i < 128
    ensures (Ord(Chr(i)) - i) % 256 == 0
  {
    ToCCharOfChar(c);
    ToCCharRoundTrip(i);
  }
}
