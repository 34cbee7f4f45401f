/** Facts about products and quotients, kept apart from the proofs that use them. */
module Arith {
  lemma MulGap(d: nat, s: nat)
    requires d >= 1
    ensures d * s >= s
  {
  }

  lemma MulLess(a: nat, b: nat, s: nat)
    requires a < b
    ensures a * s + s <= b * s
  {
    MulGap(b - a, s);
    assert (b - a) * s == b * s - a * s;
  }

  lemma DivMod(x: nat, s: nat)
    requires s > 0
    ensures x == x / s * s + x % s && x % s < s
  {
  }

  lemma MulMod4(e: nat, s: nat)
    requires s % 4 == 0
    ensures e * s % 4 == 0
  {
    assert e * s == 4 * (e * (s / 4)) by {
      assert s == 4 * (s / 4);
    }
  }

  lemma Mod4Sum(p: nat, o: nat)
    requires p % 4 == 0
    ensures (p + o) % 4 == o % 4
  {
    var q, r := p / 4, o / 4;
    assert p + o == 4 * (q + r) + o % 4;
  }

  lemma Mod4Base(x: nat, q: nat, o: nat, s: nat)
    requires x == q * s + o && s % 4 == 0
    ensures x % 4 == o % 4
  {
    MulMod4(q, s);
    Mod4Sum(q * s, o);
  }

  /** The e-th chunk of size s of a buffer that reaches into it is counted by a rounded-up division. */
  lemma CeilCovers(e: nat, s: nat, x: nat, len: nat)
    requires s > 0 && e * s <= x < len
    ensures e < (len + s - 1) / s
  {
    var n := (len + s - 1) / s;
    DivMod(len + s - 1, s);
    if n < e {
      MulLess(n, e, s);
    }
  }
}
