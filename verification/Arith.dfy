/** Division facts with a symbolic divisor, stated once so that no other proof unfolds `%`. */
module Arith {

  /** A non-zero multiple of c is at least c away from zero. */
  lemma MultipleApart(c: nat, k: int)
    ensures k == 0 || c * k >= c || c * k <= -(c as int)
  {
    if k >= 1 {
      assert c * k == c + c * (k - 1);
    } else if k <= -1 {
      assert c * k == -(c as int) + c * (k + 1);
    }
  }

  /** Quotient and remainder are unique. */
  lemma DivModUnique(x: int, c: nat, q: int, r: int)
    requires c > 0 && x == c * q + r && 0 <= r < c
    ensures x / c == q && x % c == r
  {
    assert x == c * (x / c) + x % c;
    MultipleApart(c, x / c - q);
    assert c * (x / c - q) == c * (x / c) - c * q;
  }

  /** Adding one period does not change the remainder. */
  lemma ModPeriod(x: int, c: nat)
    requires c > 0
    ensures (x + c) % c == x % c
  {
    assert x + c == c * (x / c + 1) + x % c;
    DivModUnique(x + c, c, x / c + 1, x % c);
  }

  /** Numbers less than c apart with the same remainder are equal. */
  lemma ModInjective(a: int, b: int, c: nat)
    requires c > 0 && a <= b < a + c && a % c == b % c
    ensures a == b
  {
    assert a == c * (a / c) + a % c;
    assert b == c * (b / c) + b % c;
    MultipleApart(c, b / c - a / c);
    assert c * (b / c - a / c) == c * (b / c) - c * (a / c);
  }

  function Pow2(k: nat): nat {
    if k == 0 then 1 else 2 * Pow2(k - 1)
  }

  lemma {:induction false} Pow2Positive(k: nat)
    ensures Pow2(k) >= 1
  {
    if k > 0 { Pow2Positive(k - 1); }
  }

  /** The remainder of t by cap: the place of ticket t in a ring of cap places. */
  function Slot(cap: nat, t: nat): (r: nat)
    requires cap > 0
    ensures r < cap
    decreases t
  {
    if t < cap then t else Slot(cap, t - cap)
  }

  lemma {:induction false} SlotIsMod(cap: nat, t: nat)
    requires cap > 0
    ensures Slot(cap, t) == t % cap
  {
    if t < cap {
      DivModUnique(t, cap, 0, t);
    } else {
      SlotIsMod(cap, t - cap);
      ModPeriod(t - cap, cap);
    }
  }

  /** How a program computes the place: with the remainder operator. */
  function Place(cap: nat, t: nat): (r: nat)
    requires cap > 0
    ensures r == Slot(cap, t)
  {
    SlotIsMod(cap, t);
    t % cap
  }

  lemma SlotPeriod(cap: nat, t: nat)
    requires cap > 0
    ensures Slot(cap, t + cap) == Slot(cap, t)
  {
  }

  /** Tickets less than cap apart have different places. */
  lemma SlotInjective(cap: nat, a: nat, b: nat)
    requires cap > 0 && a <= b < a + cap && Slot(cap, a) == Slot(cap, b)
    ensures a == b
  {
    SlotIsMod(cap, a);
    SlotIsMod(cap, b);
    ModInjective(a, b, cap);
  }

  /** Inside one window every other ticket has another place. */
  lemma OtherSlots(cap: nat, lo: nat, pos: nat)
    requires cap > 0 && lo <= pos < lo + cap
    ensures forall t: nat | lo <= t < lo + cap && t != pos :: Slot(cap, t) != Slot(cap, pos)
  {
    forall t: nat | lo <= t < lo + cap && t != pos
      ensures Slot(cap, t) != Slot(cap, pos)
    {
      if Slot(cap, t) == Slot(cap, pos) {
        if t <= pos { SlotInjective(cap, t, pos); } else { SlotInjective(cap, pos, t); }
      }
    }
  }

  lemma {:induction false} SlotPeriods(cap: nat, t: nat, k: nat)
    requires cap > 0
    ensures Slot(cap, t + cap * k) == Slot(cap, t)
    decreases k
  {
    if k > 0 {
      SlotPeriods(cap, t, k - 1);
      assert t + cap * k == (t + cap * (k - 1)) + cap;
    }
  }

  /** A counter that wraps at a multiple of cap still finds its place. */
  lemma {:induction false} SlotOfWrapped(cap: nat, m: nat, n: nat)
    requires cap > 0 && m > 0 && m % cap == 0
    ensures Slot(cap, n % m) == Slot(cap, n)
    decreases n
  {
    if n < m {
      DivModUnique(n, m, 0, n);
    } else {
      SlotOfWrapped(cap, m, n - m);
      ModPeriod(n - m, m);
      assert m == cap * (m / cap);
      SlotPeriods(cap, n - m, m / cap);
    }
  }
}
