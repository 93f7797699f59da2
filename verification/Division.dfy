/** Facts about integer division by a variable. */
module Division {
  lemma {:induction false} Scale(a: int, b: int, c: nat)
    requires a <= b
    ensures a * c <= b * c && c * a <= c * b
  {
  }

  /** q is the quotient when p * q is at most t and less than p away. */
  lemma {:induction false} Quotient(t: int, p: int, q: int)
    requires p >= 1 && p * q <= t < p * q + p
    ensures t / p == q && t % p == t - p * q
  {
    var w := t / p;
    assert t == p * w + t % p;
    if w > q {
      Scale(q + 1, w, p);
    } else if w < q {
      Scale(w + 1, q, p);
    }
  }

  lemma {:induction false} QuotientStep(t: nat, p: int)
    requires p >= 1
    ensures (t + 1) / p == t / p + if (t + 1) % p == 0 then 1 else 0
    ensures (t + 1) % p == if t % p + 1 == p then 0 else t % p + 1
  {
    var q, r := t / p, t % p;
    assert t == p * q + r;
    if r == p - 1 {
      assert p * (q + 1) == p * q + p;
      Quotient(t + 1, p, q + 1);
    } else {
      Quotient(t + 1, p, q);
    }
  }

  lemma {:induction false} QuotientShift(t: nat, p: int, n: nat)
    requires p >= 1
    ensures (t + p * n) / p == t / p + n && (t + p * n) % p == t % p
  {
    var q := t / p;
    assert t == p * q + t % p;
    assert p * (q + n) == p * q + p * n;
    Quotient(t + p * n, p, q + n);
  }

  lemma {:induction false} QuotientGrows(s: nat, t: nat, p: int)
    requires p >= 1 && s <= t
    ensures s / p <= t / p
  {
    assert s == p * (s / p) + s % p && t == p * (t / p) + t % p;
    if t / p < s / p {
      Scale(t / p + 1, s / p, p);
    }
  }
}
