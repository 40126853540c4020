/** Shared value types and the few generic facts several components rely on. */
module Common {
  /** SQL NULL, or a present value. */
  datatype Option<+T> = None | Some(value: T)

  /** Timestamps are whole microseconds, the resolution PostgreSQL stores. */
  const DAY := 86_400_000_000

  ghost predicate Distinct<T>(s: seq<T>) {
    forall i, j :: 0 <= i < j < |s| ==> s[i] != s[j]
  }
}
