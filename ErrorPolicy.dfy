/**
 * The exponential back-off applied by the host loop after an error
 * (ExponentialBackOffErrorPolicy in contextualizethat/errorpolicy.py). The
 * sleep time is `base` raised to `factor * errors`; the model keeps the
 * exponent, since real powers are outside Dafny's arithmetic.
 */
module ErrorPolicy {

  /** `_sleep_time` as an exponent: the sleep after `errors` errors is `base ** (factor * errors)`. */
  function SleepExponent(factor: real, errors: nat): (exponent: real)
    ensures errors == 0 ==> exponent == 0.0
    ensures factor >= 0.0 ==> exponent >= 0.0
  {
    factor * errors as real
  }

  /** With a positive factor the exponent strictly grows with the error count. */
  lemma {:induction false} SleepExponentIncreasing(factor: real, e1: nat, e2: nat)
    requires factor > 0.0 && e1 < e2
    ensures SleepExponent(factor, e1) < SleepExponent(factor, e2)
  {
    var d := (e2 - e1) as real;
    assert e2 as real == e1 as real + d;
    assert factor * e2 as real == factor * e1 as real + factor * d;
    assert factor * d > 0.0;
  }

  /** One more error adds exactly `factor` to the exponent. */
  lemma SleepExponentStep(factor: real, errors: nat)
    ensures SleepExponent(factor, errors + 1) == SleepExponent(factor, errors) + factor
  {
  }

  class ExponentialBackOffErrorPolicy {
    const base: real
    const factor: real
    var errors: nat

    /** A new policy has seen no error; the defaults are base 2 and factor 0.25. */
    constructor (base: real := 2.0, factor: real := 0.25)
      ensures this.base == base && this.factor == factor && errors == 0
    {
      this.base := base;
      this.factor := factor;
      errors := 0;
    }

    /**
     * `accept_error`: counts one more error, then returns the exponent of the
     * sleep time `base ** exponent` for the new count; `base` and `factor` stay.
     */
    method AcceptError() returns (exponent: real)
      modifies this
      ensures errors == old(errors) + 1
      ensures exponent == SleepExponent(factor, errors)
      ensures factor > 0.0 ==> exponent > SleepExponent(factor, old(errors))
    {
      errors := errors + 1;
      exponent := SleepExponent(factor, errors);
      if factor > 0.0 {
        SleepExponentIncreasing(factor, errors - 1, errors);
      }
    }
  }

  /**
   * Successive errors on a fresh default policy give the exponents 0.25, 0.5,
   * 0.75 and 1.0, that is sleep times of 2 to those powers.
   */
  method DefaultBackOff() returns (x1: real, x2: real, x3: real, x4: real)
    ensures x1 == 0.25 && x2 == 0.5 && x3 == 0.75 && x4 == 1.0
  {
    var policy := new ExponentialBackOffErrorPolicy();
    x1 := policy.AcceptError();
    x2 := policy.AcceptError();
    x3 := policy.AcceptError();
    x4 := policy.AcceptError();
  }
}
