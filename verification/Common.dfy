/** Definitions and arithmetic facts that several modules share. */
module Common {

  datatype Option<+T> = None | Some(value: T)

  const TWO_32: nat := 0x1_0000_0000

  /** DIV_ROUND_UP. */
  function DivRoundUp(a: nat, b: nat): (r: nat)
    requires b >= 1
  {
    (a + b - 1) / b
  }

  lemma MulMonotone(a: nat, b: nat, n: nat)
    requires a <= b
    ensures a * n <= b * n
  {
  }

  lemma MulApart(d: int, n: nat)
    ensures d >= 1 ==> d * n >= n
    ensures d <= -1 ==> d * n + n <= 0
  {
    if d >= 1 {
      assert d * n == n + (d - 1) * n;
    } else if d <= -1 {
      assert d * n + n == (d + 1) * n;
    }
  }

  /** Quotient and remainder are unique. */
  lemma DivModUnique(x: nat, n: nat, q: nat, r: nat)
    requires x == q * n + r && r < n
    ensures x / n == q && x % n == r
  {
    var q1, r1 := x / n, x % n;
    assert x == q1 * n + r1;
    assert (q1 - q) * n == r - r1;
    MulApart(q1 - q, n);
  }

  lemma DivMonotone(a: nat, b: nat, n: nat)
    requires a <= b && n >= 1
    ensures a / n <= b / n
  {
    var q, q1 := a / n, b / n;
    assert a == q * n + a % n && b == q1 * n + b % n;
    assert (q - q1) * n == (a - b) - (a % n - b % n);
    MulApart(q - q1, n);
  }

  lemma ModDiffers(s: nat, t: nat, n: nat)
    requires s < t < s + n
    ensures s % n != t % n
  {
    hide *;
    var q, r := s / n, s % n + (t - s);
    JoinMod(s, n);
    if r < n {
      DivModUnique(t, n, q, r);
    } else {
      assert (q + 1) * n == q * n + n;
      DivModUnique(t, n, q + 1, r - n);
    }
  }

  lemma JoinMod(s: nat, n: nat)
    requires n >= 1
    ensures s == (s / n) * n + s % n && s % n < n
  {
  }
}
