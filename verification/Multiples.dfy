/** Products by repeated addition, which keeps proofs about them linear, and a line divided
    into equal steps: step k starts at Times(k, width). */
module Multiples {

  /** k * width. */
  function Times(k: nat, width: nat): nat {
    if k == 0 then 0 else Times(k - 1, width) + width
  }

  lemma {:induction false} TimesIsProduct(k: nat, width: nat)
    ensures Times(k, width) == k * width
  {
    if k > 0 {
      TimesIsProduct(k - 1, width);
      assert k * width == (k - 1) * width + width;
    }
  }

  lemma {:induction false} TimesAdds(j: nat, k: nat, width: nat)
    ensures Times(j + k, width) == Times(j, width) + Times(k, width)
  {
    if k > 0 {
      TimesAdds(j, k - 1, width);
    }
  }

  lemma {:induction false} TimesMonotone(k: nat, width: nat, wider: nat)
    requires width <= wider
    ensures Times(k, width) <= Times(k, wider)
  {
    if k > 0 {
      TimesMonotone(k - 1, width, wider);
    }
  }

  /** Different steps do not overlap. */
  lemma {:induction false} StepsApart(k: nat, other: nat, width: nat)
    requires k < other
    ensures Times(k, width) + width <= Times(other, width)
    decreases other
  {
    if k < other - 1 {
      StepsApart(k, other - 1, width);
    }
  }

  /** Every point lies in the step that division computes. */
  lemma PointInStep(p: nat, width: nat)
    requires width > 0
    ensures Times(p / width, width) <= p < Times(p / width, width) + width
  {
    TimesIsProduct(p / width, width);
    assert p == (p / width) * width + p % width;
  }

  /** Division finds the step a point lies in. */
  lemma DivisionFindsStep(k: nat, p: nat, width: nat)
    requires width > 0 && Times(k, width) <= p < Times(k, width) + width
    ensures p / width == k
  {
    PointInStep(p, width);
    var q := p / width;
    if q < k {
      StepsApart(q, k, width);
    } else if k < q {
      StepsApart(k, q, width);
    }
  }
}
