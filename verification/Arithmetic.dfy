/** Division by a divisor that is not a constant, in steps small enough to be checked quickly.

    Multiplication by a variable is kept out of every other proof: what the trie's radix digits, the schedule's
    windows and the digest's octets need of / and % is stated here once, and cited with the numbers at hand.

    DivUnique is the fact the rest follow from: a quotient and a remainder below the divisor are the only ones.
    */
module Arithmetic {

  lemma MulLe(a: int, b: int, w: nat)
    requires a <= b
    ensures a * w <= b * w
  {}

  lemma MulNext(a: int, w: nat)
    ensures (a + 1) * w == a * w + w
  {}

  lemma DivMod(a: nat, w: nat)
    requires w > 0
    ensures a == a / w * w + a % w && 0 <= a % w < w && 0 <= a / w
  {}

  lemma DivUnique(a: nat, w: nat, q: nat, r: nat)
    requires w > 0 && r < w && a == q * w + r
    ensures a / w == q && a % w == r
  {
    DivMod(a, w);
    if a / w > q {
      MulLe(q + 1, a / w, w);
      MulNext(q, w);
    } else if a / w < q {
      MulLe(a / w + 1, q, w);
      MulNext(a / w, w);
    }
  }

  lemma Regroup(e: nat, d: nat, v: nat, w: nat, r: nat)
    ensures (e * v + d) * w + r == e * (v * w) + (d * w + r)
  {}

  /** Dividing twice is dividing by the product. */
  lemma DivDiv(a: nat, v: nat, w: nat)
    requires v > 0 && w > 0
    ensures v * w > 0 && a / w / v == a / (v * w)
    ensures a % (v * w) / w == a / w % v && a % (v * w) % w == a % w
    ensures a % (v * w) == (a / w % v) * w + a % w
  {
    var q, r := a / w, a % w;
    DivMod(a, w);
    var e, d := q / v, q % v;
    DivMod(q, v);
    Regroup(e, d, v, w, r);
    MulLe(d, v - 1, w);
    MulNext(v - 1, w);
    var j := d * w + r;
    DivUnique(a, v * w, e, j);
    DivUnique(j, w, d, r);
  }
}
