/**
 The fixed-point iteration of sched-pelt.c, which finds the largest load average that a task can reach.
 */
module Pelt {

  const UNIT := 1024

  const ONE := 0x1_0000_0000

  /** One period: the load decays by y, given as `yInv` / 2^32, and grows by a full period. */
  function Decay(yInv: nat, m: nat): nat
  {
    m * yInv / ONE + UNIT
  }

  /** The load after `k` periods. */
  function Load(yInv: nat, k: nat): nat
  {
    if k == 0 then UNIT else Decay(yInv, Load(yInv, k - 1))
  }

  predicate Bounded(yInv: nat, m: nat)
  {
    m * (ONE - yInv) <= UNIT * ONE
  }

  lemma Times(a: nat, b: nat, c: nat)
    requires a <= b
    ensures a * c <= b * c
  {
  }

  lemma Divided(a: nat)
    ensures a / ONE * ONE <= a
  {
  }

  lemma DivMonotone(a: nat, b: nat)
    requires a <= b
    ensures a / ONE <= b / ONE
  {
  }

  lemma DecayMonotone(yInv: nat, a: nat, b: nat)
    requires a <= b
    ensures Decay(yInv, a) <= Decay(yInv, b)
  {
    Times(a, b, yInv);
    DivMonotone(a * yInv, b * yInv);
  }

  /** The loads never shrink. */
  lemma {:induction false} LoadGrows(yInv: nat, k: nat)
    ensures Load(yInv, k) <= Load(yInv, k + 1)
  {
    if k > 0 {
      LoadGrows(yInv, k - 1);
      DecayMonotone(yInv, Load(yInv, k - 1), Load(yInv, k));
    }
  }

  lemma Rearranged(m: nat, y: nat, d: nat, q: nat)
    ensures m * y * d == m * d * y && q * ONE * d == q * d * ONE && (q + UNIT) * d == q * d + UNIT * d
  {
  }

  lemma DecayBounded(yInv: nat, m: nat)
    requires yInv < ONE && Bounded(yInv, m)
    ensures Bounded(yInv, Decay(yInv, m))
  {
    var d, p := ONE - yInv, m * yInv;
    var q := p / ONE;
    Divided(p);
    Times(q * ONE, p, d);
    Times(m * d, UNIT * ONE, yInv);
    Rearranged(m, yInv, d, q);
    assert q * d * ONE <= UNIT * yInv * ONE;
    assert q * d <= UNIT * yInv;
    assert Decay(yInv, m) == q + UNIT;
  }

  lemma {:induction false} LoadBounded(yInv: nat, k: nat)
    requires yInv < ONE
    ensures Bounded(yInv, Load(yInv, k)) && UNIT <= Load(yInv, k) <= UNIT * ONE
  {
    if k > 0 {
      LoadBounded(yInv, k - 1);
      DecayBounded(yInv, Load(yInv, k - 1));
    }
    hide Decay;
    Times(1, ONE - yInv, Load(yInv, k));
    AtLeastUnit(yInv, k);
  }

  lemma AtLeastUnit(yInv: nat, k: nat)
    ensures UNIT <= Load(yInv, k)
  {
  }

  /** Every fixed point is at least as large as all loads. */
  lemma {:induction false} LoadBelowFixedPoints(yInv: nat, k: nat, x: nat)
    requires Decay(yInv, x) == x
    ensures Load(yInv, k) <= x
  {
    if k > 0 {
      LoadBelowFixedPoints(yInv, k - 1, x);
      DecayMonotone(yInv, Load(yInv, k - 1), x);
    }
  }

  lemma LoadFirst(yInv: nat)
    ensures Load(yInv, 0) == UNIT
  {
  }

  lemma LoadStep(yInv: nat, n: nat, before: nat, after: nat)
    requires yInv < ONE && before == Load(yInv, n) && after == before * yInv / ONE + UNIT
    ensures after == Load(yInv, n + 1) && before <= after <= UNIT * ONE
  {
    LoadGrows(yInv, n);
    LoadBounded(yInv, n + 1);
  }

  /** Which loads a period does not change. */
  lemma FixedExactly(yInv: nat, m: nat)
    requires yInv < ONE
    ensures Decay(yInv, m) == m <==> 1023 * ONE < m * (ONE - yInv) <= 1024 * ONE
  {
    var p := m * yInv;
    var q := p / ONE;
    assert q * ONE <= p < (q + 1) * ONE;
    assert m * (ONE - yInv) == m * ONE - p;
    assert Decay(yInv, m) == q + 1024;
    if q + 1024 == m {
      assert m * ONE == q * ONE + 1024 * ONE;
    }
  }

  /** The least of them, in closed form. */
  lemma LeastFixed(yInv: nat, m: nat)
    requires yInv < ONE && Decay(yInv, m) == m && forall x: nat :: Decay(yInv, x) == x ==> m <= x
    ensures m == 1023 * ONE / (ONE - yInv) + 1
  {
    hide Decay;
    var d := ONE - yInv;
    var q := 1023 * ONE / d;
    assert q * d <= 1023 * ONE < (q + 1) * d;
    assert (q + 1) * d == q * d + d;
    FixedExactly(yInv, q + 1);
    FixedExactly(yInv, m);
    if m < q + 1 {
      Times(m, q, d);
    }
  }

  /** When a period changes nothing, the load is the least fixed point. */
  lemma LoadFixed(yInv: nat, n: nat)
    requires yInv < ONE
    ensures var m := Load(yInv, n);
            && UNIT <= m && m * (ONE - yInv) <= UNIT * ONE
            && (Load(yInv, n + 1) == m ==> Decay(yInv, m) == m && forall x: nat :: Decay(yInv, x) == x ==> m <= x)
  {
    hide Decay;
    LoadBounded(yInv, n);
    forall x: nat | Decay(yInv, x) == x ensures Load(yInv, n) <= x {
      LoadBelowFixedPoints(yInv, n, x);
    }
  }

  /**
   calc_converged_max: stops at the least fixed point of a period, which is 47742 for the y of a half-life of 32
   periods. `n` counts the periods like the global of
   that name, which starts at -1: the load is reached after n + 1 periods, and not before.
   */
  method ConvergedMax(yInv: nat) returns (max: nat, n: int)
    requires yInv < ONE
    ensures Decay(yInv, max) == max && forall x: nat :: Decay(yInv, x) == x ==> max <= x
    ensures UNIT <= max && max * (ONE - yInv) <= UNIT * ONE
    ensures max == 1023 * 0x1_0000_0000 / (0x1_0000_0000 - yInv) + 1
    ensures yInv == 0xFA83_B2DA ==> max == 47742
    ensures -1 <= n && max == Load(yInv, n + 1) && forall k: nat :: k <= n ==> Load(yInv, k) < Load(yInv, k + 1)
  {
    hide Load, Decay, Bounded;
    max, n := UNIT, -1;
    var last := 0;
    LoadFirst(yInv);
    while true
      invariant -1 <= n
      invariant n == -1 ==> max == UNIT && last == 0
      invariant n >= 0 ==> max == last == Load(yInv, n)
      invariant forall k: nat :: k < n ==> Load(yInv, k) < Load(yInv, k + 1)
      invariant max <= UNIT * ONE && max > 0
      decreases n < 0, UNIT * ONE - max
    {
      if n > -1 {
        max := max * yInv / ONE + UNIT;
        LoadStep(yInv, n, last, max);
      }
      if last == max {
        break;
      }
      last := max;
      n := n + 1;
    }
    LoadFixed(yInv, n);
    LeastFixed(yInv, max);
    n := n - 1;
  }

  /** Unless y is within 2^-21 of 1, no product of the loop overflows a signed 64-bit integer. */
  lemma NoOverflow(yInv: nat, k: nat)
    requires yInv + 2048 <= ONE
    ensures Load(yInv, k) * yInv < 0x8000_0000_0000_0000
  {
    hide Load;
    LoadBounded(yInv, k);
    var m := Load(yInv, k);
    Times(2048, ONE - yInv, m);
    Times(m, 0x8000_0000, yInv);
  }
}
