/** Amounts held by accounts, and what they come to together. */
module Sums {
  import opened Types

  type Amounts = map<Address, nat>

  ghost function Sum(m: Amounts): nat {
    if m == map[] then 0 else
      var a :| a in m;
      m[a] + Sum(m - {a})
  }

  /** The sum does not depend on the order of summation. */
  lemma {:induction false} SumWithout(m: Amounts, a: Address)
    requires a in m
    ensures Sum(m) == m[a] + Sum(m - {a})
    decreases |m|
  {
    var b :| b in m && Sum(m) == m[b] + Sum(m - {b});
    assert |m - {b}| < |m| by { assert (m - {b}).Keys == m.Keys - {b}; }
    if b != a {
      SumWithout(m - {b}, a);
      assert m - {b} - {a} == m - {a} - {b};
      assert |m - {a}| < |m| by { assert (m - {a}).Keys == m.Keys - {a}; }
      SumWithout(m - {a}, b);
    }
  }

  /** Setting one amount changes the sum by the difference. */
  lemma SumUpdate(m: Amounts, a: Address, n: nat)
    ensures Sum(m[a := n]) == Sum(m) - (if a in m then m[a] else 0) + n
  {
    SumWithout(m[a := n], a);
    assert m[a := n] - {a} == m - {a};
    if a in m {
      SumWithout(m, a);
    } else {
      assert m - {a} == m;
    }
  }

  lemma {:induction false} SumMonotone(m: Amounts, n: Amounts)
    requires m.Keys == n.Keys && forall a :: a in m ==> m[a] <= n[a]
    ensures Sum(m) <= Sum(n)
    decreases |m|
  {
    if m == map[] {
      assert n == map[];
    } else {
      var a :| a in m;
      SumWithout(m, a);
      SumWithout(n, a);
      assert (m - {a}).Keys == m.Keys - {a} == (n - {a}).Keys;
      SumMonotone(m - {a}, n - {a});
    }
  }
}
