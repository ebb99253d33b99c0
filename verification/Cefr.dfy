/** Cefr: the six base levels, A1 to C2. */
module Cefr {
  const MIN_BASE := 1
  const MAX_BASE := 6

  type Level = l: int | MIN_BASE <= l <= MAX_BASE witness 1
}
