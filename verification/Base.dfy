/** Small datatypes and facts shared by every component. */
module Base {

  datatype Option<+T> = None | Some(value: T)

  /** Times and durations are nanoseconds, as in Go's time package. */
  const SECOND := 1_000_000_000
  const MINUTE := 60 * SECOND
  const HOUR := 60 * MINUTE

  /** The whole second an instant falls in, as Go's Time.Unix() reports it (floored). */
  function Unix(now: int): int {
    now / SECOND
  }

  ghost predicate NoRepeats<T>(s: seq<T>) {
    forall i, j :: 0 <= i < j < |s| ==> s[i] != s[j]
  }

  ghost predicate NonDecreasing(s: seq<int>) {
    forall i, j :: 0 <= i < j < |s| ==> s[i] <= s[j]
  }
}
