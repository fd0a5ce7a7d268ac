/** What several modules share: optional values, text as code units, minima and maxima, and white space. */
module Basics {
  datatype Option<+T> = None | Some(value: T)

  /** Text as JavaScript has it: UTF-16 code units. */
  type Text = seq<nat>

  function Min(a: int, b: int): int { if a <= b then a else b }
  function Max(a: int, b: int): int { if a >= b then a else b }

  /** JavaScript white space, by code unit. */
  predicate Space(c: nat) {
    || 9 <= c <= 13 || c == 32 || c == 0xA0 || c == 0x1680 || 0x2000 <= c <= 0x200A
    || c == 0x2028 || c == 0x2029 || c == 0x202F || c == 0x205F || c == 0x3000 || c == 0xFEFF
  }
}
