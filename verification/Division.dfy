/** Facts about integer division used for windows of time. */
module Division {
  lemma MulMonotone(a: nat, b: nat, c: nat)
    requires a <= b
    ensures a * c <= b * c
  {
    assert b * c == a * c + (b - a) * c;
  }

  lemma MulCancel(a: nat, b: nat, w: nat)
    requires a * w < b * w + w
    ensures a <= b
  {
    assert (b + 1) * w == b * w + w;
    assert a >= b + 1 ==> a * w >= (b + 1) * w by {
      if a >= b + 1 {
        MulMonotone(b + 1, a, w);
      }
    }
  }

  function Quotient(a: nat, w: nat): (q: nat)
    requires w >= 1
    ensures q * w <= a < q * w + w
  {
    a / w
  }

  lemma QuotientUnique(a: nat, q: nat, w: nat)
    requires w >= 1 && q * w <= a < q * w + w
    ensures Quotient(a, w) == q
  {
    hide Quotient;
    var r := Quotient(a, w);
    MulCancel(r, q, w);
    MulCancel(q, r, w);
  }

  lemma QuotientMonotone(a: nat, b: nat, w: nat)
    requires a <= b && w >= 1
    ensures Quotient(a, w) <= Quotient(b, w)
  {
    hide Quotient;
    var q, r := Quotient(a, w), Quotient(b, w);
    MulCancel(q, r, w);
  }
}
