/** Powers of two and the bits of natural numbers. */
module PowersOfTwo {

  function Pow2(n: nat): (p: nat)
    ensures p > 0
  {
    if n == 0 then 1 else 2 * Pow2(n - 1)
  }

  function BitLength(x: nat): (n: nat) {
    if x == 0 then 0 else 1 + BitLength(x / 2)
  }

  /** `x >> k`. */
  function Shift(x: nat, k: nat): (n: nat) {
    if k == 0 then x else Shift(x / 2, k - 1)
  }

  /** `a | b`. */
  function Or(a: nat, b: nat): (n: nat) {
    if a == 0 && b == 0 then 0
    else 2 * Or(a / 2, b / 2) + if a % 2 == 1 || b % 2 == 1 then 1 else 0
  }

  /** Of the `n` bits of `x`, the `w` most significant ones are set. */
  predicate TopOnes(x: nat, n: nat, w: nat) {
    if n == 0 then x == 0 else (n <= w ==> x % 2 == 1) && TopOnes(x / 2, n - 1, w)
  }

  lemma {:induction false} Monotone(m: nat, n: nat)
    requires m <= n
    ensures Pow2(m) <= Pow2(n)
    decreases n
  {
    if m < n {
      Monotone(m, n - 1);
    }
  }

  lemma {:induction false} PowersMultiply(m: nat, n: nat)
    ensures Pow2(m + n) == Pow2(m) * Pow2(n)
  {
    if m > 0 {
      PowersMultiply(m - 1, n);
      assert Pow2(m + n) == 2 * Pow2(m - 1 + n) && Pow2(m) == 2 * Pow2(m - 1);
      Doubled(Pow2(m - 1), Pow2(n));
    }
  }

  lemma {:induction false} Doubled(a: nat, b: nat)
    ensures 2 * a * b == 2 * (a * b)
  {
  }

  lemma {:induction false} Divides(m: nat, n: nat)
    requires m <= n
    ensures Pow2(n) % Pow2(m) == 0
  {
    PowersMultiply(n - m, m);
    Modulo(Pow2(n), Pow2(m), Pow2(n - m), 0);
  }

  lemma {:induction false} Below(p: int, q: int, a: nat)
    requires p < q
    ensures p * a + a <= q * a
  {
    assert q * a == p * a + (q - p) * a;
    assert (q - p) * a == (q - p - 1) * a + a;
  }

  /** Quotient and remainder are unique. */
  lemma {:induction false} Modulo(x: int, a: nat, k: int, r: nat)
    requires x == k * a + r && r < a
    ensures x / a == k && x % a == r
  {
    var q := x / a;
    assert q * a <= x < q * a + a;
    if q < k {
      Below(q, k, a);
    } else if k < q {
      Below(k, q, a);
    }
  }

  lemma {:induction false} BitLengthBounds(x: nat)
    ensures x < Pow2(BitLength(x))
    ensures x > 0 ==> Pow2(BitLength(x) - 1) <= x
  {
    if x > 0 {
      BitLengthBounds(x / 2);
    }
  }

  lemma {:induction false} TopBitSet(x: nat)
    ensures TopOnes(x, BitLength(x), 1)
  {
    if x > 0 {
      TopBitSet(x / 2);
    }
  }

  lemma {:induction false} TopOnesSetsBit(x: nat, n: nat, w: nat, j: nat)
    requires TopOnes(x, n, w) && j < n <= w + j
    ensures Shift(x, j) % 2 == 1
  {
    if j > 0 {
      TopOnesSetsBit(x / 2, n - 1, w, j - 1);
    }
  }

  lemma {:induction false} AllOnes(x: nat, n: nat, w: nat)
    requires TopOnes(x, n, w) && n <= w
    ensures x == Pow2(n) - 1
  {
    if n > 0 {
      AllOnes(x / 2, n - 1, w);
    }
  }

  lemma {:induction false} ShiftHalves(x: nat, k: nat)
    ensures Shift(x, k) / 2 == Shift(x / 2, k)
  {
    if k > 0 {
      ShiftHalves(x / 2, k - 1);
    }
  }

  lemma {:induction false} OrHalves(a: nat, b: nat)
    ensures Or(a, b) / 2 == Or(a / 2, b / 2)
    ensures Or(a, b) % 2 == 1 <==> a % 2 == 1 || b % 2 == 1
  {
    if a == 0 && b == 0 {
      assert Or(a / 2, b / 2) == 0;
    }
  }

  /** `x | (x >> w)` doubles a run of ones at the top. */
  lemma {:induction false} SmearDoubles(x: nat, n: nat, w: nat)
    requires w > 0 && TopOnes(x, n, w)
    ensures TopOnes(Or(x, Shift(x, w)), n, 2 * w)
    decreases n
  {
    if n == 0 {
      ShiftZero(w);
    } else {
      SmearDoubles(x / 2, n - 1, w);
      ShiftHalves(x, w);
      OrHalves(x, Shift(x, w));
      if w < n <= 2 * w {
        TopOnesSetsBit(x, n, w, w);
      }
    }
  }

  lemma {:induction false} ShiftZero(k: nat)
    ensures Shift(0, k) == 0
  {
    if k > 0 {
      ShiftZero(k - 1);
    }
  }
}
