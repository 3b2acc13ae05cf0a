/** The doubling, capped delays of the retry loops. */
module Backoff {
  import Words

  /** One more failure. */
  function Doubled(backoff: nat, maximum: nat): nat {
    if backoff * 2 > maximum then maximum else backoff * 2
  }

  /** The delay base after `failures` failures in a row. */
  function After(initial: nat, maximum: nat, failures: nat): nat {
    if initial * Words.Pow2(failures) > maximum then maximum else initial * Words.Pow2(failures)
  }

  /** Doubling with a cap, failure after failure, is min(initial * 2^failures, maximum). */
  lemma {:induction false} DoubledIsAfter(initial: nat, maximum: nat, failures: nat)
    requires initial <= maximum
    ensures After(initial, maximum, 0) == initial
    ensures Doubled(After(initial, maximum, failures), maximum) == After(initial, maximum, failures + 1)
  {
    assert Words.Pow2(failures + 1) == 2 * Words.Pow2(failures);
    assert initial * Words.Pow2(failures + 1) == 2 * (initial * Words.Pow2(failures));
  }
}
