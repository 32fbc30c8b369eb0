/** Binary digits of natural numbers: masks and powers of two. */
module Bits {

  // Digit by digit.
  function And(a: nat, b: nat): (r: nat)
    ensures r <= a && r <= b
  {
    if a == 0 || b == 0 then 0 else (if a % 2 == 1 && b % 2 == 1 then 1 else 0) + 2 * And(a / 2, b / 2)
  }

  predicate PowerOfTwo(n: nat) {
    n == 1 || (n > 1 && n % 2 == 0 && PowerOfTwo(n / 2))
  }

  lemma {:induction false} AndSelf(n: nat)
    ensures And(n, n) == n
  {
    if n > 0 { AndSelf(n / 2); }
  }

  lemma {:induction false} AndOnes(h: nat, n: nat)
    requires PowerOfTwo(n)
    ensures And(h, n - 1) == h % n
    decreases n
  {
    if n > 1 {
      AndOnes(h / 2, n / 2);
      assert (n - 1) / 2 == n / 2 - 1 && (n - 1) % 2 == 1;
      HalfRemainder(h, n / 2);
    }
  }

  lemma HalfRemainder(h: nat, m: nat)
    requires m > 0
    ensures h % (2 * m) == h % 2 + 2 * (h / 2 % m)
  {
    var q, r := h / 2 / m, h / 2 % m;
    assert h / 2 == q * m + r;
    assert h == (2 * m) * q + (h % 2 + 2 * r) by {
      assert h == 2 * (h / 2) + h % 2;
      assert 2 * (q * m) == (2 * m) * q;
    }
    RemainderIs(h, 2 * m, q, h % 2 + 2 * r);
  }

  lemma RemainderIs(h: nat, n: nat, q: nat, r: nat)
    requires n > 0 && h == n * q + r && r < n
    ensures h % n == r
  {
    var d, r' := q - h / n, h % n;
    assert n * d == r' - r;
    AtLeast(n, d);
    AtLeast(n, -d);
  }

  lemma AtLeast(n: nat, d: int)
    ensures d >= 1 ==> n * d >= n
    ensures n * -d == -(n * d)
  {
  }

  // The test for a power of two.
  lemma {:induction false} AndBelow(n: nat)
    requires n > 0
    ensures And(n, n - 1) == 0 <==> PowerOfTwo(n)
    decreases n
  {
    if n > 1 {
      if n % 2 == 0 {
        AndBelow(n / 2);
        assert (n - 1) / 2 == n / 2 - 1;
      } else {
        assert (n - 1) / 2 == n / 2;
        AndSelf(n / 2);
      }
    }
  }

  // Around a ring of a power of two slots.
  lemma AndNext(i: nat, n: nat)
    requires PowerOfTwo(n) && i < n
    ensures And(i + 1, n - 1) == if i + 1 == n then 0 else i + 1
  {
    AndOnes(i + 1, n);
    hide And, PowerOfTwo;
    RemainderIs(i + 1, n, if i + 1 == n then 1 else 0, if i + 1 == n then 0 else i + 1);
  }

  function NextPowerOfTwo(n: nat, from: nat): (p: nat)
    requires PowerOfTwo(from)
    ensures PowerOfTwo(p) && p >= n && p >= from && (p == from || p < 2 * n)
    decreases n - from
  {
    if n <= from then from else NextPowerOfTwo(n, 2 * from)
  }

  lemma Doubles(n: nat)
    requires n == 1 || PowerOfTwo(n)
    ensures PowerOfTwo(n * 2) && PowerOfTwo(16)
  {
    assert PowerOfTwo(1) && PowerOfTwo(2) && PowerOfTwo(4) && PowerOfTwo(8);
  }
}
