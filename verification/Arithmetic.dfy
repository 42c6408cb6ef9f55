/** Sums, products and quotients the proofs share. */
module Arithmetic {
  lemma MulMono(a: int, b: int, c: nat)
    ensures a <= b ==> a * c <= b * c && c * a <= c * b
  {
  }

  /** Dividing q * d + r by d. */
  lemma DivMod(q: nat, d: nat, r: nat)
    requires r < d
    ensures (q * d + r) / d == q && (q * d + r) % d == r
  {
    var m := q * d + r;
    var k := m / d;
    assert m == k * d + m % d;
    MulMono(k + 1, q, d);
    MulMono(q + 1, k, d);
    assert (k + 1) * d == k * d + d && (q + 1) * d == q * d + d;
  }

  lemma DivMono(a: nat, b: nat, d: nat)
    requires a <= b && d > 0
    ensures a / d <= b / d
  {
    var p, q := a / d, b / d;
    assert a == p * d + a % d && b == q * d + b % d;
    MulMono(q + 1, p, d);
    assert (q + 1) * d == q * d + d;
  }

  function Sum(s: seq<nat>): nat {
    if s == [] then 0 else Sum(s[..|s| - 1]) + s[|s| - 1]
  }

  lemma {:induction false} SumUpdate(s: seq<nat>, i: nat, x: nat)
    requires i < |s|
    ensures Sum(s[i := x]) + s[i] == Sum(s) + x
  {
    var n := |s| - 1;
    if i < n {
      SumUpdate(s[..n], i, x);
      assert s[i := x][..n] == s[..n][i := x];
    } else {
      assert s[i := x][..n] == s[..n];
    }
  }

  lemma SumPush(s: seq<nat>, x: nat)
    ensures Sum(s + [x]) == Sum(s) + x
  {
    assert (s + [x])[..|s|] == s;
  }

  lemma {:induction false} SumZeros(s: seq<nat>)
    requires forall i :: 0 <= i < |s| ==> s[i] == 0
    ensures Sum(s) == 0
  {
    if s != [] {
      SumZeros(s[..|s| - 1]);
    }
  }
}
