/** Java's 32-bit two's-complement `int` arithmetic written out over Dafny's
    unbounded integers: `+`, `-` and `*` keep the low 32 bits of the exact
    result (Java Language Specification, sections 15.18.2 and 15.17.1), and
    `/` rounds toward zero, with `MIN / -1 == MIN` (section 15.17.2). */
module JavaInt {

  const MIN: int := -0x8000_0000
  const MAX: int := 0x7fff_ffff
  const MODULUS: int := 0x1_0000_0000

  /** The values of a Java `int`. */
  type Int32 = x: int | -0x8000_0000 <= x <= 0x7fff_ffff

  function Abs(x: int): nat {
    if x < 0 then -x else x
  }

  /** Reduces `x` to the `int` that has the same low 32 bits. */
  function Wrap32(x: int): (r: Int32)
    ensures (x - r) % MODULUS == 0
    ensures MIN <= x <= MAX ==> r == x
  {
    var k := (x - MIN) / MODULUS;
    assert x - MIN == k * MODULUS + (x - MIN) % MODULUS;
    assert x - ((x - MIN) % MODULUS + MIN) == k * MODULUS;
    (x - MIN) % MODULUS + MIN
  }

  /** Integer division rounding toward zero, unlike Dafny's Euclidean `/`:
      the remainder `a - q * b` is smaller than `b` in magnitude and never
      has the opposite sign of the dividend. */
  function TruncDiv(a: int, b: int): (q: int)
    requires b != 0
    ensures Abs(a - q * b) < Abs(b)
    ensures a - q * b == 0 || (a - q * b < 0 <==> a < 0)
    ensures Abs(q) <= Abs(a)
    ensures Abs(b) >= 2 ==> 2 * Abs(q) <= Abs(a)
  {
    var m := Abs(a) / Abs(b);
    var q: int := if (a < 0) == (b < 0) then m as int else -(m as int);
    DivisionFacts(a, b, m, q);
    q
  }

  /** The facts about `m == |a| / |b|` that make `TruncDiv` round toward
      zero, given Euclid's `|a| == m * |b| + rem`. */
  lemma DivisionFacts(a: int, b: int, m: nat, q: int)
    requires b != 0 && m == Abs(a) / Abs(b)
    requires q == if (a < 0) == (b < 0) then m as int else -(m as int)
    ensures Abs(a - q * b) < Abs(b)
    ensures a - q * b == 0 || (a - q * b < 0 <==> a < 0)
    ensures Abs(q) <= Abs(a)
    ensures Abs(b) >= 2 ==> 2 * Abs(q) <= Abs(a)
  {
    var rem := Abs(a) % Abs(b);
    var mb := m * Abs(b);
    Euclid(Abs(a), Abs(b), m, rem, mb);
    MulAtLeast(m, Abs(b));
    SignedProduct(m, b, q, a < 0, mb);
    var qb := q * b;
    if a < 0 {
      assert qb == -mb && a - qb == -rem;
    } else {
      assert qb == mb && a - qb == rem;
    }
    assert Abs(q) == m;
  }

  /** Euclidean division of naturals, named so the solver sees it once. */
  lemma Euclid(x: nat, y: nat, m: nat, rem: int, mb: int)
    requires y > 0 && m == x / y && rem == x % y && mb == m * y
    ensures x == mb + rem && 0 <= rem < y
  {
  }

  /** `q * b` is `m * |b|` with the sign of the dividend. */
  lemma SignedProduct(m: nat, b: int, q: int, negative: bool, mb: int)
    requires b != 0 && mb == m * Abs(b)
    requires q == if negative == (b < 0) then m as int else -(m as int)
    ensures q * b == if negative then -mb else mb
  {
  }

  /** `m * k` is at least `m`, and at least `2 * m` once `k >= 2`. */
  lemma MulAtLeast(m: nat, k: nat)
    requires k >= 1
    ensures m <= m * k
    ensures k >= 2 ==> 2 * m <= m * k
  {
  }

  /** Java's `a + b` on two `int`s. */
  function JavaAdd(a: Int32, b: Int32): (r: Int32)
    ensures (a + b - r) % MODULUS == 0
    ensures MIN <= a + b <= MAX ==> r == a + b
  {
    Wrap32(a + b)
  }

  /** Java's `a - b` on two `int`s. */
  function JavaSub(a: Int32, b: Int32): (r: Int32)
    ensures (a - b - r) % MODULUS == 0
    ensures MIN <= a - b <= MAX ==> r == a - b
  {
    Wrap32(a - b)
  }

  /** Java's `a * b` on two `int`s. */
  function JavaMul(a: Int32, b: Int32): (r: Int32)
    ensures (a * b - r) % MODULUS == 0
    ensures MIN <= a * b <= MAX ==> r == a * b
  {
    Wrap32(a * b)
  }

  /** Java's `a / b` on two `int`s; the caller has ruled out `b == 0`,
      for which Java throws instead of returning. The only quotient that
      does not fit is `MIN / -1`, which wraps back to `MIN`. */
  function JavaDiv(a: Int32, b: Int32): (r: Int32)
    requires b != 0
    ensures a == MIN && b == -1 ==> r == MIN
    ensures !(a == MIN && b == -1) ==> r == TruncDiv(a, b)
  {
    var q := TruncDiv(a, b);
    assert a == MIN && b == -1 ==> q == -MIN;
    Wrap32(q)
  }
}
