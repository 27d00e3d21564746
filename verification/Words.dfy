/** Fixed-width unsigned integers as the C++ code uses them, and a few shared definitions. */
module Words {
  const TWO32: int := 0x1_0000_0000
  const TWO64: int := 0x1_0000_0000_0000_0000

  type U32 = x: int | 0 <= x < TWO32
  type U64 = x: int | 0 <= x < TWO64

  /** A positive number, for durations the code divides by. */
  type Pos = x: int | 1 <= x witness 1

  /** Unsigned arithmetic wraps; `%` is never negative in Dafny, so a difference wraps too. */
  function Wrap32(x: int): U32 { x % TWO32 }

  function Wrap64(x: int): U64 { x % TWO64 }

  lemma WrapSmall(x: int)
    ensures 0 <= x < TWO32 ==> Wrap32(x) == x
    ensures 0 <= x < TWO64 ==> Wrap64(x) == x
  {
  }

  function Add64(x: int, y: int): U64 { Wrap64(x + y) }

  function Sub64(x: int, y: int): U64 { Wrap64(x - y) }

  /** Unsigned division rounds down and never exceeds the dividend. */
  function Quotient(n: nat, d: Pos): (q: nat)
    ensures q <= n
  {
    QuotientBounds(n, d);
    n / d
  }

  lemma MulMono(a: int, b: int, c: nat)
    requires a <= b
    ensures a * c <= b * c
  {
  }

  lemma QuotientBounds(n: nat, d: Pos)
    ensures n / d * d <= n < (n / d + 1) * d
    ensures 0 <= n / d <= n
  {
    assert n == n / d * d + n % d;
    if n / d > 0 {
      MulMono(1, d, n / d);
    }
  }

  lemma QuotientBetween(n: nat, d: Pos, lo: int, hi: int)
    requires lo * d <= n < hi * d
    ensures lo <= n / d < hi
  {
    QuotientBounds(n, d);
    if n / d < lo {
      MulMono(n / d + 1, lo, d);
    } else if n / d >= hi {
      MulMono(hi, n / d, d);
    }
  }

  lemma QuotientBelow(n: nat, d: Pos, bound: nat)
    ensures Quotient(n, d) < bound <==> n < bound * d
  {
    QuotientBounds(n, d);
    if n / d < bound {
      MulMono(n / d + 1, bound, d);
    } else {
      MulMono(bound, n / d, d);
    }
  }

  /** Dropping a multiple of 2^64 changes a quotient by a divisor below 2^64. */
  lemma OverflowMovesQuotient(n: nat, d: Pos)
    requires d < TWO64 <= n
    ensures Quotient(Wrap64(n), d) < Quotient(n, d)
  {
    var w: int := Wrap64(n);
    assert w + TWO64 <= n;
    QuotientBounds(w, d);
    QuotientBounds(n, d);
    if n / d <= w / d {
      MulMono(n / d + 1, w / d + 1, d);
    }
  }

  /** A quotient is the only number whose multiple by `d` is within `d` below `n`. */
  lemma QuotientUnique(n: nat, d: Pos, q: int)
    requires q * d <= n < (q + 1) * d
    ensures n / d == q
  {
    QuotientBetween(n, d, q, q + 1);
  }

  lemma RemainderUnique(n: int, q: int, rest: nat, d: Pos)
    requires n == q * d + rest && rest < d
    ensures n % d == rest
  {
    assert n == n / d * d + n % d;
    if n / d < q {
      MulMono(n / d + 1, q, d);
    } else if n / d > q {
      MulMono(q + 1, n / d, d);
    }
  }

  /** Adding a multiple of the modulus changes nothing. */
  lemma ModuloShift(n: int, k: int, d: Pos)
    ensures (k * d + n) % d == n % d
  {
    assert n == n / d * d + n % d;
    assert k * d + n == (k + n / d) * d + n % d;
    RemainderUnique(k * d + n, k + n / d, n % d, d);
  }

  /** Numbers that agree modulo `d` agree after adding numbers that agree. */
  lemma AddModulo(a: int, b: int, x: int, y: int, d: Pos)
    requires a % d == x % d && b % d == y % d
    ensures (a + b) % d == (x + y) % d
  {
    ModuloOfSum(a, b, d);
    ModuloOfSum(x, y, d);
  }

  lemma ModuloOfSum(a: int, b: int, d: Pos)
    ensures (a + b) % d == (a % d + b % d) % d
  {
    var p, q := a / d, b / d;
    assert a == p * d + a % d && b == q * d + b % d;
    assert (p + q) * d == p * d + q * d;
    ModuloShift(a % d + b % d, p + q, d);
  }

  lemma ModuloTwice(a: int, d: Pos)
    ensures a % d % d == a % d
  {
    RemainderUnique(a % d, 0, a % d, d);
  }

  /** The three timers that drive the data sources. */
  datatype Lane = Fast | Pace | Slow

  datatype Option<+T> = None | Some(value: T)
}
