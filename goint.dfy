/** Go integer operators that differ from Dafny's: `/` and `%` truncate
    toward zero in Go, whereas Dafny's are Euclidean; and the `min`/`max`
    builtins on `int`. */
module GoInt {
  function Abs(a: int): (r: nat)
    ensures r == a || r == -a
  {
    if a < 0 then -a else a
  }

  function Min(a: int, b: int): (r: int)
    ensures r <= a && r <= b && (r == a || r == b)
  {
    if a <= b then a else b
  }

  function Max(a: int, b: int): (r: int)
    ensures r >= a && r >= b && (r == a || r == b)
  {
    if a >= b then a else b
  }

  lemma {:induction false} DivModBounds(x: nat, y: nat)
    requires y > 0
    ensures x / y >= 0 && 0 <= x % y < y
    ensures x == (x / y) * y + x % y
  {
  }

  /** Go's `a / b`: the quotient truncated toward zero. */
  function Quot(a: int, b: int): (q: int)
    requires b != 0
    ensures Abs(q) == Abs(a) / Abs(b)
    ensures (a >= 0) == (b > 0) ==> q >= 0
    ensures (a >= 0) != (b > 0) ==> q <= 0
  {
    DivModBounds(Abs(a), Abs(b));
    var m: int := Abs(a) / Abs(b);
    if (a >= 0) == (b > 0) then m else -m
  }

  /** Go's `a % b`: the remainder takes the sign of the dividend. */
  function Rem(a: int, b: int): (r: int)
    requires b != 0
    ensures Abs(r) < Abs(b)
    ensures a >= 0 ==> r >= 0
    ensures a <= 0 ==> r <= 0
  {
    DivModBounds(Abs(a), Abs(b));
    var m: int := Abs(a) % Abs(b);
    if a >= 0 then m else -m
  }

  /** Go guarantees `a == (a / b) * b + a % b`. */
  lemma {:induction false} QuotRem(a: int, b: int)
    requires b != 0
    ensures a == Quot(a, b) * b + Rem(a, b)
  {
    var x: int, y: int := Abs(a), Abs(b);
    DivModBounds(x, y);
    var m: int, k: int := x / y, x % y;
    assert x == m * y + k;
    if a >= 0 && b > 0 {
    } else if a >= 0 {
      assert Quot(a, b) * b == (-m) * (-y) == m * y;
    } else if b > 0 {
      assert Quot(a, b) * b == (-m) * y;
    } else {
      assert Quot(a, b) * b == m * (-y);
    }
  }

  /** On non-negative operands Go's operators agree with Dafny's. */
  lemma {:induction false} NonNegativeAgree(a: int, b: int)
    requires a >= 0 && b > 0
    ensures Quot(a, b) == a / b && Rem(a, b) == a % b
  {
  }

  lemma {:induction false} MulAtLeast(k: int, n: int)
    requires n > 0 && k >= 1
    ensures k * n >= n
  {
    assert k * n == (k - 1) * n + n;
    assert (k - 1) * n >= 0;
  }

  /** Division with remainder is unique. */
  lemma {:induction false} DivModUnique(x: int, q: int, r: int, n: int)
    requires n > 0 && 0 <= r < n && x == q * n + r
    ensures x / n == q && x % n == r
  {
    var q0, r0 := x / n, x % n;
    assert x == q0 * n + r0 && 0 <= r0 < n;
    assert (q - q0) * n == r0 - r;
    if q - q0 >= 1 {
      MulAtLeast(q - q0, n);
    } else if q0 - q >= 1 {
      MulAtLeast(q0 - q, n);
    }
  }

  lemma {:induction false} ModAddMod(a: nat, b: nat, n: int)
    requires n > 0
    ensures (a % n + b) % n == (a + b) % n
  {
    var q, r := a / n, a % n;
    var q2, r2 := (r + b) / n, (r + b) % n;
    assert r + b == q2 * n + r2;
    assert a == q * n + r;
    assert a + b == (q + q2) * n + r2;
    DivModUnique(a + b, q + q2, r2, n);
  }

  /** Fewer than `n` steps apart never meet modulo `n`. */
  lemma {:induction false} ModDistinct(a: nat, i: nat, j: nat, n: int)
    requires i < j < n
    ensures (a + i) % n != (a + j) % n
  {
    var q, r := (a + i) / n, (a + i) % n;
    assert a + i == q * n + r;
    if r + (j - i) < n {
      DivModUnique(a + j, q, r + (j - i), n);
    } else {
      DivModUnique(a + j, q + 1, r + (j - i) - n, n);
    }
  }

  /** Go's `a % 2 == 0` tests evenness for negative `a` too. */
  lemma {:induction false} RemTwoEven(a: int)
    ensures Rem(a, 2) == 0 <==> a % 2 == 0
  {
    QuotRem(a, 2);
    var q, r := Quot(a, 2), Rem(a, 2);
    if r == 0 {
      DivModUnique(a, q, 0, 2);
    } else if r == 1 {
      DivModUnique(a, q, 1, 2);
    } else {
      DivModUnique(a, q - 1, 1, 2);
    }
  }

  /** Negating the dividend negates Go's quotient and remainder. */
  lemma {:induction false} QuotRemNegate(a: int, b: int)
    requires b != 0
    ensures Quot(-a, b) == -Quot(a, b) && Rem(-a, b) == -Rem(a, b)
  {
    assert Abs(-a) == Abs(a);
  }
}
