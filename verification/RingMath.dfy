/**
 Arithmetic of positions in a ring of n slots, where position t lives in slot t % n.
 */
module RingMath {

  lemma ModUnique(x: int, n: nat, q: int, r: nat)
    requires x == n * q + r && r < n
    ensures x % n == r
  {
    var d := x / n - q;
    assert n * d == r - x % n;
    assert d == 0 by {
      assert n * d < n;
      assert n * d > 0 - n;
    }
  }

  // Two positions less than a ring's length apart have different slots.
  lemma SlotsDiffer(a: nat, b: nat, n: nat)
    requires a < b < a + n
    ensures a % n != b % n
  {
    var q, r := a / n, a % n + (b - a);
    if r < n {
      ModUnique(b, n, q, r);
    } else {
      assert n * (q + 1) == n * q + n;
      ModUnique(b, n, q + 1, r - n);
    }
  }

  // The slot after that of position t.
  lemma NextSlot(t: nat, n: nat)
    requires n >= 1
    ensures (t + 1) % n == if t % n + 1 >= n then 0 else t % n + 1
  {
    var q, r := t / n, t % n;
    if r + 1 >= n {
      assert n * (q + 1) == n * q + n;
      ModUnique(t + 1, n, q + 1, 0);
    } else {
      ModUnique(t + 1, n, q, r + 1);
    }
  }
}
