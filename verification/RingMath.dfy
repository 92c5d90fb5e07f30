// Arithmetic of positions on a ring of `n` slots.
module RingMath {

  lemma MulApart(d: int, n: int)
    requires n > 0
    ensures d > 0 ==> d * n >= n
    ensures d < 0 ==> d * n <= -n
  {
  }

  lemma ModUnique(x: int, n: int, q: int, r: int)
    requires n > 0 && 0 <= r < n && x == q * n + r
    ensures x % n == r && x / n == q
  {
    var d := x / n - q;
    assert d * n == (x / n) * n - q * n;
    MulApart(d, n);
  }

  // The slot `d` steps after slot `p`.
  function Ahead(p: nat, d: nat, n: nat): nat
    requires p < n && d <= n
  {
    if p + d < n then p + d else p + d - n
  }

  // The number of steps from slot `p` forward to slot `i`.
  function Steps(p: nat, i: nat, n: nat): nat
    requires p < n && i < n
  {
    if i >= p then i - p else i + n - p
  }

  lemma ModAhead(x: nat, d: nat, n: nat)
    requires n > 0 && d <= n
    ensures (x + d) % n == Ahead(x % n, d, n)
  {
    var q, r := x / n, x % n;
    if r + d < n {
      ModUnique(x + d, n, q, r + d);
    } else if r + d < 2 * n {
      assert (q + 1) * n == q * n + n;
      ModUnique(x + d, n, q + 1, r + d - n);
    }
  }

  lemma ModSmall(x: nat, n: nat)
    requires n > 0 && x < 2 * n
    ensures x % n == if x < n then x else x - n
  {
    if x < n {
      ModUnique(x, n, 0, x);
    } else {
      ModUnique(x, n, 1, x - n);
    }
  }
}
