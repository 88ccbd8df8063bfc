/** The warning callback of the XML parsers: its n-th call may ask to stop the parse. */
module WarningCallback {
  type Toll = string -> (int, bool)  // strtoll: the value, and whether it warns

  ghost predicate NeverStops(warn: nat -> bool) {
    forall n :: !warn(n)
  }

  /** A callback that lets every warning pass; without a callback the parsers behave the same. */
  function Silent(): nat -> bool {
    (n: nat) => false
  }

  /** Some warning from the first up to the last number makes the callback stop the parse. */
  ghost predicate Stopped(warn: nat -> bool, first: nat, last: nat) {
    exists i: nat :: first <= i < last && warn(i)
  }

  lemma StoppedSplit(warn: nat -> bool, a: nat, b: nat, c: nat)
    requires a <= b <= a + 2 && b <= c
    ensures Stopped(warn, a, c) <==> (b > a && warn(a)) || (b > a + 1 && warn(a + 1)) || Stopped(warn, b, c)
  {
  }

  function Count(condition: bool): nat {
    if condition then 1 else 0
  }
}
