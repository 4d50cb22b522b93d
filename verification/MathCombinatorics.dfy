/**
 * fn_fac and fn_ncr of core/math_expr.c: accumulator loops in 64-bit
 * arithmetic with a division test in front of every multiplication. Arguments
 * are reals, cut to whole numbers as the casts do; the rounding of a result
 * to double is not modelled.
 */
module MathCombinatorics {
  const UINT_MAX := 0xFFFF_FFFF
  const ULONG_MAX := 0xFFFF_FFFF_FFFF_FFFF

  datatype Result = NaN | Infinity | Value(n: nat)

  function Factorial(n: nat): (f: nat)
    ensures f >= 1
  {
    if n == 0 then 1 else n * Factorial(n - 1)
  }

  /** Pascal's triangle. */
  function Choose(n: nat, k: nat): nat {
    if k == 0 then 1 else if n == 0 then 0 else Choose(n - 1, k - 1) + Choose(n - 1, k)
  }

  lemma {:induction false} ChooseNone(n: nat, k: nat)
    requires k > n
    ensures Choose(n, k) == 0
  {
    if n > 0 { ChooseNone(n - 1, k - 1); ChooseNone(n - 1, k); }
  }

  lemma {:induction false} ChooseAll(n: nat)
    ensures Choose(n, n) == 1
  {
    if n > 0 { ChooseAll(n - 1); ChooseNone(n - 1, n); }
  }

  lemma AbsorbStep(n: int, k: int, a: int, b: int, c: int, d: int)
    requires a == b + c && k * d == (n - 1) * c && (k - 1) * a == (n - 1) * b
    ensures k * (a + d) == n * a
  {
    assert k * (a + d) == k * a + k * d;
    assert k * a == (k - 1) * a + a;
    assert (n - 1) * a == (n - 1) * b + (n - 1) * c;
  }

  /** The identity behind the exact division: k C(n, k) == n C(n-1, k-1). */
  lemma {:induction false} Absorb(n: nat, k: nat)
    requires n > 0 && k > 0
    ensures k * Choose(n, k) == n * Choose(n - 1, k - 1)
  {
    if n == 1 {
      if k > 1 { ChooseNone(0, k - 1); ChooseNone(1, k); }
    } else if k == 1 {
      Absorb(n - 1, 1);
    } else {
      Absorb(n - 1, k);
      Absorb(n - 1, k - 1);
      AbsorbStep(n, k, Choose(n - 1, k - 1), Choose(n - 2, k - 2), Choose(n - 2, k - 1), Choose(n - 1, k));
    }
  }

  lemma {:induction false} Symmetric(n: nat, k: nat)
    requires k <= n
    ensures Choose(n, k) == Choose(n, n - k)
  {
    if k == 0 {
      ChooseAll(n);
    } else if k == n {
      ChooseAll(n);
    } else {
      Symmetric(n - 1, k - 1);
      Symmetric(n - 1, k);
    }
  }

  lemma {:induction false} FactorialGrows(n: nat, m: nat)
    requires n <= m
    ensures Factorial(n) <= Factorial(m)
  {
    if n < m {
      FactorialGrows(n, m - 1);
      assert m * Factorial(m - 1) >= Factorial(m - 1);
    }
  }

  lemma FactorialOverflows(n: nat)
    requires n >= 21
    ensures Factorial(n) > ULONG_MAX
  {
    assert Factorial(7) == 5040;
    assert Factorial(14) == 87178291200;
    assert Factorial(21) == 51090942171709440000;
    FactorialGrows(21, n);
  }

  /** fn_fac: the factorial of the whole part exactly when it fits in 64 bits. */
  method Fac(a: real) returns (r: Result)
    ensures a < 0.0 ==> r == NaN
    ensures a >= 0.0 ==>
      r == if Factorial(a.Floor) <= ULONG_MAX then Value(Factorial(a.Floor)) else Infinity
  {
    if a < 0.0 { return NaN; }
    if a > UINT_MAX as real {
      FactorialOverflows(a.Floor);
      return Infinity;
    }
    var n := a.Floor;
    var result := 1;
    for i := 1 to n + 1
      invariant result == Factorial(i - 1) && 1 <= result <= ULONG_MAX
    {
      if i > ULONG_MAX / result {
        TooBig(i, result, ULONG_MAX);
        FactorialGrows(i, n);
        return Infinity;
      }
      Fits(i, result, ULONG_MAX);
      result := result * i;
    }
    return Value(result);
  }

  /** The overflow test: x * y exceeds m exactly when x exceeds m / y. */
  lemma TooBig(x: nat, y: nat, m: nat)
    requires y > 0 && x > m / y
    ensures x * y > m
  {
    assert x >= m / y + 1;
    assert x * y >= (m / y + 1) * y;
  }

  lemma Fits(x: nat, y: nat, m: nat)
    requires y > 0 && x <= m / y
    ensures x * y <= m
  {
    assert x * y <= m / y * y;
  }

  /** The product formed at step `i` of the loop for C(m + k, k). */
  function Product(m: nat, i: nat): nat
    requires i > 0
  {
    Choose(m + i - 1, i - 1) * (m + i)
  }

  /** Dividing the product by `i` is exact and gives the next binomial coefficient. */
  lemma ExactDivision(m: nat, i: nat)
    requires i > 0
    ensures Product(m, i) % i == 0 && Product(m, i) / i == Choose(m + i, i)
  {
    Absorb(m + i, i);
    Divides(i, Choose(m + i, i), Product(m, i));
  }

  lemma Divides(i: nat, q: nat, p: nat)
    requires i > 0 && p == i * q
    ensures p % i == 0 && p / i == q
  {
    var d := p / i;
    assert i * (q - d) == p % i;
    AtLeast(i, q - d);
  }

  lemma AtLeast(i: int, x: int)
    requires i >= 0
    ensures x >= 1 ==> i * x >= i
    ensures x <= -1 ==> i * x <= -i
  {
  }

  /** The loop length: the smaller of `r` and `n - r`, in whole numbers. */
  function Short(n: nat, r: nat): (k: nat)
    requires r <= n
    ensures k <= n
  {
    if r > n / 2 then n - r else r
  }

  /** No product of the loop leaves 64 bits. */
  ghost predicate Representable(m: nat, k: nat) { forall i :: 0 < i <= k ==> Product(m, i) <= ULONG_MAX }

  /** fn_ncr: the binomial coefficient when every intermediate product fits, infinity when one does not. */
  method Ncr(n: real, r: real) returns (v: Result)
    ensures n < 0.0 || r < 0.0 || n < r ==> v == NaN
    ensures 0.0 <= r <= n && n > UINT_MAX as real ==> v == Infinity
    ensures 0.0 <= r <= n <= UINT_MAX as real ==>
      var k := Short(n.Floor, r.Floor);
      v == if Representable(n.Floor - k, k) then Value(Choose(n.Floor, r.Floor)) else Infinity
  {
    if n < 0.0 || r < 0.0 || n < r { return NaN; }
    if n > UINT_MAX as real || r > UINT_MAX as real { return Infinity; }
    var un, ur := n.Floor, r.Floor;
    Symmetric(un, ur);
    if ur > un / 2 { ur := un - ur; }
    var m, result := un - ur, 1;
    for i := 1 to ur + 1
      invariant result == Choose(m + i - 1, i - 1) && Representable(m, i - 1)
    {
      if result > ULONG_MAX / (m + i) {
        TooBig(result, m + i, ULONG_MAX);
        assert Product(m, i) > ULONG_MAX;
        return Infinity;
      }
      Fits(result, m + i, ULONG_MAX);
      ExactDivision(m, i);
      result := result * (m + i);
      result := result / i;
    }
    return Value(result);
  }
}
