// Two facts about division.
module Division {
  lemma MultipleIsFar(x: int, d: int)
    requires d > 0 && x != 0
    ensures x * d >= d || x * d <= -d
  {
  }

  lemma DivisionUnique(a: int, d: int, q: int, m: int)
    requires d > 0 && 0 <= m < d && a == q * d + m
    ensures a / d == q && a % d == m
  {
    var q', m' := a / d, a % d;
    assert a == q' * d + m';
    assert (q' - q) * d == q' * d - q * d;
    if q' != q {
      MultipleIsFar(q' - q, d);
    }
  }
}
