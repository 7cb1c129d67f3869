/** What several models share. */
module Basics {

  datatype Option<+T> = None | Some(value: T)

  function Or<T>(a: Option<T>, b: Option<T>): Option<T> {
    if a.Some? then a else b
  }

  function Max(a: int, b: int): int {
    if a < b then b else a
  }

  /** The quality of a telemetry value. */
  datatype Quality = Good | Uncertain | Stale | Bad
}
