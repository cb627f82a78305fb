/** Machine-level value domains of the runtime: 64-bit signed integers, the
    (signed, 8-bit) C `char`, `size_t`, and the C++ operators on them whose
    meaning differs from Dafny's (truncating `/` and `%`, narrowing casts). */
module Machine {

  const INT64_MIN: int := -0x8000_0000_0000_0000
  const INT64_MAX: int := 0x7FFF_FFFF_FFFF_FFFF
  const SIZE_MAX: nat := 0xFFFF_FFFF_FFFF_FFFF

  predicate InInt64(x: int) {
    INT64_MIN <= x <= INT64_MAX
  }

  /** A C `char` on the runtime's platforms: signed, 8 bits. */
  newtype CChar = x: int | -128 <= x < 128

  const NUL: CChar := 0

  /** Absolute value. */
  function Abs(x: int): (r: nat)
    ensures r == x || r == -x
  {
    if x < 0 then -x else x
  }

  /** C++11 `x / y` on integers: the quotient truncated toward zero. */
  function CQuot(x: int, y: int): (r: int)
    requires y != 0
  {
    if (x < 0) == (y < 0) then Abs(x) / Abs(y) else -(Abs(x) / Abs(y))
  }

  /** C++11 `x % y` on integers: the remainder that goes with `CQuot`,
      carrying the sign of the dividend. */
  function CRem(x: int, y: int): (r: int)
    requires y != 0
  {
    if x < 0 then -(Abs(x) % Abs(y)) else Abs(x) % Abs(y)
  }

  /** C++ `x / y` and `x % y` satisfy x == y*(x/y) + x%y, the remainder is 0
      or has the sign of x, and it is smaller than y in magnitude. */
  lemma {:induction false} CDivision(x: int, y: int)
    requires y != 0
    ensures x == y * CQuot(x, y) + CRem(x, y)
    ensures CRem(x, y) == 0 || (CRem(x, y) < 0 <==> x < 0)
    ensures Abs(CRem(x, y)) < Abs(y)
    ensures Abs(CQuot(x, y)) <= Abs(x)
  {
    var a: int, b: int := Abs(x), Abs(y);
    var q: int, r: int := a / b, a % b;
    var cq, cr := CQuot(x, y), CRem(x, y);
    assert cq == (if (x < 0) == (y < 0) then q else -q);
    assert cr == (if x < 0 then -r else r);
    DivFacts(a, b, q, r);
    SignCases(x, y, a, b, q, r, cq, cr);
  }

  /** `CDivision` with the unsigned quotient `q` and remainder `r` of
      |x| by |y| given, so that no division is involved. */
  lemma SignCases(x: int, y: int, a: int, b: int, q: int, r: int, cq: int, cr: int)
    requires b > 0 && a == b * q + r && 0 <= r < b && 0 <= q <= a
    requires (x < 0 ==> x == -a) && (x >= 0 ==> x == a)
    requires (y < 0 ==> y == -b) && (y >= 0 ==> y == b)
    requires cq == (if (x < 0) == (y < 0) then q else -q)
    requires cr == (if x < 0 then -r else r)
    ensures x == y * cq + cr
    ensures cr == 0 || (cr < 0 <==> x < 0)
    ensures Abs(cr) < b && Abs(cq) <= a
  {
    if x < 0 && y < 0 {
      assert y * cq == -(b * q);
    } else if x < 0 {
      assert y * cq == -(b * q);
    } else if y < 0 {
      assert y * cq == b * q;
    }
  }

  /** The Euclidean division facts about given quotient and remainder. */
  lemma DivFacts(a: nat, b: nat, q: int, r: int)
    requires b > 0 && q == a / b && r == a % b
    ensures a == b * q + r && 0 <= r < b && 0 <= q <= a
  {
    NatDivision(a, b);
  }

  lemma NatDivision(a: nat, b: nat)
    requires b > 0
    ensures a == b * (a / b) + a % b && 0 <= a % b < b
    ensures a / b <= a
  {
    var q: int := a / b;
    MulGrows(q, b);
  }

  lemma MulGrows(q: nat, b: nat)
    requires b > 0
    ensures q <= b * q
  {
  }

  /** A `static_cast<char>` of a 64-bit integer: the low 8 bits, read as a
      signed value. */
  function ToCChar(i: int): (c: CChar)
    ensures (c as int - i) % 256 == 0
  {
    var low := i % 256;
    if low < 128 then low as CChar else (low - 256) as CChar
  }

  /** Widening a `char` to `int64_t` and narrowing it back is the identity. */
  lemma ToCCharOfChar(c: CChar)
    ensures ToCChar(c as int) == c
  {
  }

  /** Narrowing an integer to `char` and widening it back gives the integer
      back exactly when it is in the `char` range. */
  lemma {:induction false} ToCCharRoundTrip(i: int)
    ensures ToCChar(i) as int == i <==> -128 <= i < 128
  {
    var low := i % 256;
    assert i == 256 * (i / 256) + low;
    if -128 <= i < 0 {
      assert i / 256 == -1;
    } else if 0 <= i < 128 {
      assert i / 256 == 0;
    }
  }

  /** `strlen`: the index of the first NUL of a NUL-terminated buffer. */
  function Strlen(s: seq<CChar>): (n: nat)
    requires NUL in s
    ensures n < |s| && s[n] == NUL
    ensures forall i :: 0 <= i < n ==> s[i] != NUL
  {
    if s[0] == NUL then 0 else 1 + Strlen(s[1..])
  }

  function Min(a: nat, b: nat): nat {
    if a < b then a else b
  }
}
