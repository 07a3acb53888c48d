/** Tick arithmetic: TickType_t is a 32-bit unsigned integer that wraps. */
module Ticks {
  // One more than the largest tick value.
  const W: nat := 0x1_0000_0000

  // portMAX_DELAY.
  const MAX_DELAY: nat := W - 1

  // The value a 32-bit tick variable holds when n is stored in it.
  function Wrap(n: int): (r: nat)
    ensures r < W
  {
    n % W
  }

  // A number split into its epoch (how often the tick count has wrapped) and its wrapped value is
  // determined by the two, in either order.
  lemma SplitUnique(e: nat, v: nat)
    requires v < W
    ensures Wrap(e * W + v) == v && (e * W + v) / W == e
  {
  }

  lemma SplitOf(n: nat)
    ensures n == (n / W) * W + Wrap(n)
  {
  }

  // The sum and the difference of two tick values, as 32-bit arithmetic computes them.
  function TickAdd(a: nat, b: nat): nat {
    if a + b < W then a + b else a + b - W
  }

  function TickSub(a: nat, b: nat): nat {
    if b <= a then a - b else if a + W >= b then a + W - b else 0
  }

  lemma TickAddWraps(m: nat, n: nat)
    ensures TickAdd(Wrap(m), Wrap(n)) == Wrap(m + n)
  {
    SplitOf(m);
    SplitOf(n);
    hide Wrap;
    var e, v := m / W + n / W, Wrap(m) + Wrap(n);
    if v < W {
      SplitUnique(e, v);
    } else {
      SplitUnique(e + 1, v - W);
    }
  }

  lemma TickSubWraps(m: nat, n: nat)
    requires n <= m
    ensures TickSub(Wrap(m), Wrap(n)) == Wrap(m - n)
  {
    SplitOf(m);
    SplitOf(n);
    hide Wrap;
    var e := m / W - n / W;
    if Wrap(n) <= Wrap(m) {
      SplitUnique(e, Wrap(m) - Wrap(n));
    } else {
      SplitUnique(e - 1, Wrap(m) + W - Wrap(n));
    }
  }

  lemma NextEpoch(e: nat)
    ensures (e + 1) * W == e * W + W
  {
  }

  lemma WrapBelow(n: nat)
    ensures Wrap(n) < W && (n < W ==> Wrap(n) == n)
  {
  }

  // The k-th instant of a period that starts at start.
  function Nth(start: nat, increment: nat, k: nat): nat {
    start + k * increment
  }

  lemma NthNext(start: nat, increment: nat, k: nat)
    ensures Nth(start + increment, increment, k) == Nth(start, increment, k + 1) == Nth(start, increment, k) + increment
    ensures Nth(start, increment, 0) == start && Nth(start, increment, 1) == start + increment
  {
  }
}
