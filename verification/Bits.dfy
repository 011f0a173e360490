/** Bitwise and on naturals, and the powers of two that masks are made of. */
module Bits {
  function And(a: nat, b: nat): (r: nat)
    ensures r <= a && r <= b
  {
    if a == 0 || b == 0 then 0
    else 2 * And(a / 2, b / 2) + (if a % 2 == 1 && b % 2 == 1 then 1 else 0)
  }

  predicate PowerOfTwo(n: nat) {
    n == 1 || (n > 0 && n % 2 == 0 && PowerOfTwo(n / 2))
  }

  /** Masking with one less than a power of two is the remainder. */
  lemma {:induction false} MaskIsRemainder(h: nat, n: nat)
    requires PowerOfTwo(n)
    ensures And(h, n - 1) == h % n
  {
    if n > 1 {
      var m := n / 2;
      MaskIsRemainder(h / 2, m);
      assert (n - 1) / 2 == m - 1 && (n - 1) % 2 == 1;
      RemainderByHalves(h, m);
      assert And(h, n - 1) == 2 * And(h / 2, m - 1) + h % 2;
    }
  }

  lemma RemainderByHalves(h: nat, m: nat)
    requires m > 0
    ensures h % (2 * m) == 2 * ((h / 2) % m) + h % 2
  {
    var q, r := (h / 2) / m, (h / 2) % m;
    assert h == 2 * (h / 2) + h % 2 && h / 2 == m * q + r;
    assert h == (2 * m) * q + (2 * r + h % 2) by {
      assert 2 * (m * q + r) == (2 * m) * q + 2 * r;
    }
    RemainderIs(h, 2 * m, q, 2 * r + h % 2);
  }

  lemma RemainderIs(h: int, n: int, q: int, r: int)
    requires n > 0 && 0 <= r < n && h == n * q + r
    ensures h % n == r
  {
    var d := h / n - q;
    assert h == n * (h / n) + h % n;
    assert n * d == r - h % n by {
      assert n * (h / n) - n * q == n * d;
    }
    assert d >= 1 ==> n * d >= n;
    assert d <= -1 ==> n * d <= -n;
  }

  /** The test of NewWithBkts. */
  lemma {:induction false} PowerOfTwoTest(n: nat)
    requires n > 0
    ensures And(n, n - 1) == 0 <==> PowerOfTwo(n)
  {
    if n > 1 {
      if n % 2 == 0 {
        assert (n - 1) / 2 == n / 2 - 1 && (n - 1) % 2 == 1;
        PowerOfTwoTest(n / 2);
      } else {
        assert (n - 1) / 2 == n / 2 && (n - 1) % 2 == 0;
        AndSelf(n / 2);
      }
    }
  }

  lemma {:induction false} AndSelf(n: nat)
    ensures And(n, n) == n
  {
    if n > 0 { AndSelf(n / 2); }
  }

  lemma Doubled(n: nat)
    requires PowerOfTwo(n)
    ensures PowerOfTwo(2 * n)
  {
  }

  /** The test for a word left over. */
  lemma FourIsSet(k: nat)
    requires k < 8
    ensures And(k, 4) > 0 <==> k >= 4
  {
    assert And(k / 2, 2) > 0 <==> k / 2 >= 2 by { TwoIsSet(k / 2); }
  }

  lemma TwoIsSet(k: nat)
    requires k < 4
    ensures And(k, 2) > 0 <==> k >= 2
  {
    assert And(k / 2, 1) > 0 <==> k / 2 >= 1;
  }
}
