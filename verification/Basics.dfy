/** Types and constants shared by every part of the model. */
module Basics {

  datatype Option<+T> = None | Some(value: T)

  newtype byte = x: int | 0 <= x < 256

  type Bytes = seq<byte>

  /** A point in time, in nanoseconds since Go's zero time (year 1). */
  type Time = int

  const ZERO_TIME: Time := 0
  const SECOND := 1_000_000_000
  const MINUTE := 60 * SECOND
  const HOUR := 60 * MINUTE

  /** The four notification destinations. */
  datatype Dest = Pd | Tg | Di | Slk

  /** Alarm text to the time it was raised. */
  type Times = map<string, Time>

  /** A stream of trigger (false) and resolution (true) that begins with `first` and never repeats itself. */
  predicate Alternates(first: bool, kinds: seq<bool>) {
    && (kinds != [] ==> kinds[0] == first)
    && (forall i :: 0 < i < |kinds| ==> kinds[i] != kinds[i - 1])
  }

  /** What may come next in such a stream. */
  function Turn(first: bool, kinds: seq<bool>): bool {
    if kinds == [] then first else !kinds[|kinds| - 1]
  }
}
