/** What several modules share: optional values, sums, and the sizes of the machine's integers. */
module Common {

  const TWO32 := 0x1_0000_0000
  const TWO64 := 0x1_0000_0000_0000_0000

  datatype Option<+T> = None | Some(value: T)

  function Min(a: nat, b: nat): nat { if a < b then a else b }

  function Sum(xs: seq<nat>): nat {
    if xs == [] then 0 else Sum(xs[..|xs| - 1]) + xs[|xs| - 1]
  }

  lemma {:induction false} SumMonotone(p: seq<nat>, q: seq<nat>)
    requires |p| == |q| && forall i | 0 <= i < |p| :: p[i] <= q[i]
    ensures Sum(p) <= Sum(q)
  {
    if p != [] { SumMonotone(p[..|p| - 1], q[..|q| - 1]); }
  }

  /** A multiple of n is zero or at least n in size. */
  lemma Multiples(n: int, d: int)
    requires n > 0
    ensures d == 0 || n * d >= n || n * d <= -n
  {}

  lemma DivideBy(x: int, d: int, q: int, r: int)
    requires d > 0 && x == d * q + r && 0 <= r < d
    ensures x / d == q
  {
    var e := x / d - q;
    assert d * e == r - x % d;
    Multiples(d, e);
  }

  lemma Regroup(a: int, b: int, p: int, s: int)
    ensures a * (b * p + s) == (a * b) * p + a * s
  {
    assert a * (b * p) == (a * b) * p;
  }

  lemma RestIsSmall(a: int, b: int, s: int, r: int)
    requires 0 <= s < b && 0 <= r < a
    ensures 0 <= a * s + r < a * b
  {
    assert a * s + a == a * (s + 1) <= a * b;
  }

  lemma DivideTwice(x: nat, a: nat, b: nat)
    requires a > 0 && b > 0
    ensures a * b > 0 && x / a / b == x / (a * b)
  {
    var q, r := x / a, x % a;
    var p, s := q / b, q % b;
    RestIsSmall(a, b, s, r);
    assert x == a * q + r && q == b * p + s;
    Regroup(a, b, p, s);
    DivideBy(x, a * b, p, a * s + r);
  }

  function Pow2(i: nat): (r: nat)
    ensures r > 0
  {
    if i == 0 then 1 else 2 * Pow2(i - 1)
  }
}
