// Remainders by a divisor that is not a constant.
module Division {
  lemma DivisionIsUnique(a: int, n: nat, q: int, r: nat)
    requires n > 0 && r < n && a == q * n + r
    ensures a % n == r
  {
    RemaindersAgree(n, q, r, a / n, a % n);
  }

  lemma RemaindersAgree(n: nat, q: int, r: nat, q': int, r': nat)
    requires r < n && r' < n && q * n + r == q' * n + r'
    ensures r == r'
  {
    var d := q - q';
    assert d * n == r' - r;
    if d >= 1 {
      MultipleAtLeast(d, n);
    } else if d <= -1 {
      MultipleAtLeast(-d, n);
    }
  }

  lemma MultipleAtLeast(d: int, n: nat)
    requires d >= 1
    ensures d * n >= n
  {
  }

  lemma ModulusRepeats(a: nat, n: nat, k: nat)
    requires n > 0
    ensures (a + n) % n == a % n
    ensures 0 < k < n ==> (a + k) % n != a % n
    ensures (a % n + k) % n == (a + k) % n
  {
    var q, r := a / n, a % n;
    assert a == q * n + r;
    assert (a + n) == (q + 1) * n + r;
    DivisionIsUnique(a + n, n, q + 1, r);
    if r + k < n {
      DivisionIsUnique(a + k, n, q, r + k);
    } else if k < n {
      assert a + k == (q + 1) * n + (r + k - n);
      DivisionIsUnique(a + k, n, q + 1, r + k - n);
    }
    var q', r' := (r + k) / n, (r + k) % n;
    assert a + k == (q + q') * n + r' by {
      assert (q + q') * n == q * n + q' * n;
    }
    DivisionIsUnique(a + k, n, q + q', r');
  }
}
