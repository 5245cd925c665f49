/** Facts about products, quotients and remainders that the other modules share. */
module Numbers {

  lemma MulNat(x: nat, p: nat)
    ensures x * p >= 0
  {
  }

  lemma MulLess(x: int, y: int, p: nat)
    requires p > 0
    ensures x < y <==> x * p < y * p
  {
    if x < y {
      assert (y - x) * p > 0;
    } else {
      assert (x - y) * p >= 0;
    }
  }

  lemma MulAtMost(unit: nat, n: nat, top: nat)
    requires n <= top
    ensures unit * n <= unit * top
  {
    assert unit * (top - n) >= 0;
  }

  lemma MulDiv(x: int, p: nat)
    requires p > 0
    ensures x * p / p == x
  {
    var (d, m) := (x * p / p, x * p % p);
    assert x * p == p * d + m;
    assert (x - d) * p == x * p - d * p;
    MulLess(x - d, 1, p);
    MulLess(-1, x - d, p);
  }

  lemma MulMod(x: nat, p: nat)
    requires p > 0
    ensures x * p % p == 0
  {
    MulDiv(x, p);
    assert x * p == p * (x * p / p) + x * p % p;
  }

  lemma Distribute(unit: nat, m: int, n: int)
    ensures unit * (0x80 * m + n) == (0x80 * unit) * m + unit * n
  {
  }
}
