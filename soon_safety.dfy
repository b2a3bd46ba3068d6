/**
 * The run-time checks behind a `Soon` value (soon/src/safety.rs): it may be
 * given its value once, only on the thread that created it, and may be read
 * only after that.
 */
module SoonSafety {

  /** How a check ends: normally, or with one of the two panics of `on_replace`. */
  datatype Check = Passed | WrongThread | AlreadySet

  /** `SoonSafety`; thread ids are plain numbers, the atomics plain fields. */
  class SoonSafety {
    var initThread: nat
    var hasValue: bool
    /** How many `on_replace` calls have passed. */
    ghost var replaced: nat

    ghost predicate Valid()
      reads this
    {
      replaced <= 1 && (hasValue <==> replaced == 1)
    }

    /** `Default for SoonSafety`: no value yet, created on the `current` thread. */
    constructor (current: nat)
      ensures Valid()
      ensures initThread == current && !hasValue && replaced == 0
    {
      initThread := current;
      hasValue := false;
      replaced := 0;
    }

    /**
     * `on_replace` called from thread `current`: the thread is checked
     * first, then that no value was set; only then is the flag raised.
     */
    method OnReplace(current: nat) returns (r: Check)
      requires Valid()
      modifies this`hasValue, this`replaced
      ensures Valid()
      ensures current != initThread ==> r == WrongThread
      ensures current == initThread && old(hasValue) ==> r == AlreadySet
      ensures r == Passed <==> current == initThread && !old(hasValue)
      ensures r == Passed ==> hasValue && replaced == old(replaced) + 1
      ensures r != Passed ==> hasValue == old(hasValue) && replaced == old(replaced)
    {
      if initThread != current {
        return WrongThread;
      }
      if hasValue {
        return AlreadySet;
      }
      hasValue := true;
      replaced := replaced + 1;
      r := Passed;
    }

    /** `on_deref`: passes exactly when a value has been set. */
    method OnDeref() returns (ok: bool)
      ensures ok <==> hasValue
    {
      ok := hasValue;
    }
  }

  /** Two replacements in a row on the right thread: the first passes, the second panics. */
  method ReplaceTwice(current: nat) returns (first: Check, second: Check)
    ensures first == Passed && second == AlreadySet
  {
    var s := new SoonSafety(current);
    first := s.OnReplace(current);
    second := s.OnReplace(current);
  }
}
