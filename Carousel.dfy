// The rotating product demo of the landing page (script.js, setupSolutionDemo):
// a step counter that cycles through 1, 2, 3, 4, advanced by a periodic tick
// and set directly by a click on a step.

module Carousel {

  /** The number of demo steps the counter cycles through. */
  const StepCount := 4

  /** `currentStep >= 4 ? 1 : currentStep + 1`. */
  function NextStep(s: int): (r: int)
    ensures s >= 0 ==> 1 <= r <= StepCount
  {
    if s >= StepCount then 1 else s + 1
  }

  /** The counter after `n` advances from `s`. */
  function Advanced(s: int, n: nat): int
    decreases n
  {
    if n == 0 then s else NextStep(Advanced(s, n - 1))
  }

  /** From a step in range, `n` advances move the counter `n` places round the cycle. */
  lemma {:induction false} AdvancedClosedForm(s: int, n: nat)
    requires 1 <= s <= StepCount
    ensures Advanced(s, n) == (s - 1 + n) % StepCount + 1
    decreases n
  {
    if n > 0 {
      AdvancedClosedForm(s, n - 1);
    }
  }

  /** Four consecutive advances bring the counter back to where it started. */
  lemma FourAdvancesReturn(s: int, k: nat)
    requires 1 <= s <= StepCount
    ensures Advanced(s, 4 * k) == s
  {
    AdvancedClosedForm(s, 4 * k);
  }

  class SolutionDemo {
    /** The closure variable `currentStep`: the step the next advance shows. */
    var currentStep: int

    ghost predicate Valid()
      reads this
    {
      1 <= currentStep <= StepCount
    }

    constructor ()
      ensures currentStep == 1 && Valid()
    {
      currentStep := 1;
    }

    /**
     * `advanceDemo`: marks the current step and its screen as shown, then
     * moves the counter on; `shown` is the step whose `data-step` element is
     * made active.
     */
    method AdvanceDemo() returns (shown: int)
      requires currentStep >= 0
      modifies this
      ensures shown == old(currentStep)
      ensures currentStep == NextStep(old(currentStep)) && Valid()
    {
      shown := currentStep;
      currentStep := if currentStep >= StepCount then 1 else currentStep + 1;
    }

    /** The click handler of the step at 0-based position `index`: shows step `index + 1`, then advances. */
    method SelectStep(index: nat) returns (shown: int)
      modifies this
      ensures shown == index + 1
      ensures currentStep == NextStep(index + 1) && Valid()
    {
      currentStep := index + 1;
      shown := AdvanceDemo();
    }
  }
}
