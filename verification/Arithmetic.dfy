/** The facts about products, quotients, remainders and sequences the solver needs spelled out. */
module Arithmetic {
  lemma ProductOrder(p: nat, q: nat, d: nat)
    ensures p < q ==> p * d + d <= q * d
  {
    if p < q {
      assert (p + 1) * d <= q * d;
    }
  }

  lemma DivUnique(a: nat, d: nat, q: nat)
    requires d > 0 && q * d <= a < q * d + d
    ensures a / d == q
  {
    var r := a / d;
    assert r * d <= a < r * d + d;
    ProductOrder(r, q, d);
    ProductOrder(q, r, d);
  }

  lemma ModUnique(a: nat, d: nat, q: nat, r: nat)
    requires r < d && a == q * d + r
    ensures a % d == r
  {
    DivUnique(a, d, q);
    assert a == a / d * d + a % d;
  }

  lemma Assoc<T>(a: seq<T>, b: seq<T>, c: seq<T>)
    ensures (a + b) + c == a + (b + c)
  {
  }

  lemma DropOfConcat<T>(a: seq<T>, b: seq<T>, n: nat)
    requires n <= |a|
    ensures (a + b)[n..] == a[n..] + b
  {
  }
}
