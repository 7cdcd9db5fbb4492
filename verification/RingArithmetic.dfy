/** Slots of a ring: remainders of positions that only grow or step back. */
module RingArithmetic {
  lemma AtLeastOnce(n: int, d: int)
    requires 0 < n && 1 <= d
    ensures n <= n * d
  {
    assert 0 <= n * (d - 1);
  }

  lemma MultipleBelow(n: int, d: int)
    requires 0 < n && -n < n * d < n
    ensures d == 0
  {
    if d >= 1 {
      AtLeastOnce(n, d);
      assert false;
    } else if d <= -1 {
      AtLeastOnce(n, -d);
      assert false;
    }
  }

  lemma SlotOf(q: int, r: nat, n: nat)
    requires r < n
    ensures (n * q + r) % n == r
  {
    var a := n * q + r;
    assert n * (a / n - q) == r - a % n;
    MultipleBelow(n, a / n - q);
  }

  /** Two numbers less than `n` apart have different remainders. */
  lemma DistinctSlots(a: nat, b: nat, n: nat)
    requires a < b < a + n
    ensures a % n != b % n
  {
    if a % n == b % n {
      assert n * (b / n - a / n) == b - a;
      MultipleBelow(n, b / n - a / n);
    }
  }

  lemma Quotient(a: nat, n: nat)
    requires n > 0
    ensures a == n * (a / n) + a % n && a % n < n
  {
  }

  lemma NextSlot(a: nat, n: nat)
    requires n > 0
    ensures (a % n + 1) % n == (a + 1) % n
  {
    Quotient(a, n);
    NextSlotFrom(a / n, a % n, n);
    SameRemainder(a + 1, n * (a / n) + (a % n + 1), n);
  }

  lemma SameRemainder(a: int, b: int, n: nat)
    requires n > 0 && a == b
    ensures a % n == b % n
  {
  }

  lemma NextSlotFrom(q: int, r: nat, n: nat)
    requires r < n
    ensures (r + 1) % n == (n * q + (r + 1)) % n
  {
    if r + 1 < n {
      SlotOf(0, r + 1, n);
      SlotOf(q, r + 1, n);
    } else {
      SlotOf(1, 0, n);
      SlotOf(q + 1, 0, n);
      Distribute(n, q);
    }
  }

  lemma Distribute(n: int, q: int)
    ensures n * (q + 1) == n * q + n
  {
  }

  lemma SlotAgain(a: nat, n: nat)
    requires 0 < n <= a
    ensures (a - n) % n == a % n
  {
    Quotient(a, n);
    Distribute(n, a / n - 1);
    SlotOf(a / n - 1, a % n, n);
    SameRemainder(a - n, n * (a / n - 1) + a % n, n);
  }

  /** The slot reached by going back `k` slots the way the code does. */
  lemma SlotBack(a: nat, k: nat, n: nat)
    requires 0 < n && k <= n && k <= a
    ensures (a % n - k + n) % n == (a - k) % n
  {
    var q, r := a / n, a % n;
    assert a == n * q + r;
    SlotBackFrom(q, r, k, n);
  }

  lemma SlotBackFrom(q: int, r: nat, k: nat, n: nat)
    requires r < n && k <= n
    ensures (r - k + n) % n == (n * q + r - k) % n
  {
    if k <= r {
      SlotOf(1, r - k, n);
      SlotOf(q, r - k, n);
    } else {
      SlotOf(0, r - k + n, n);
      SlotOf(q - 1, r - k + n, n);
      assert n * (q - 1) == n * q - n;
    }
  }
}
