/** The kernel's expression language, which lowering targets, and its evaluator. */
module TermKinds {
  type TermKind = n: nat | n < 256

  const LITERAL: TermKind := 1
  const FIELD: TermKind := 2
  const EXISTS: TermKind := 3
  const NOT: TermKind := 4
  const ALL: TermKind := 5
  const ANY: TermKind := 6
  const EQUAL: TermKind := 7
  const LESS: TermKind := 8
  const ADD: TermKind := 9
  const ALL_MEMBERS: TermKind := 10
  const ANY_MEMBERS: TermKind := 11
  const ALL_EQUAL: TermKind := 12
  const COUNT: TermKind := 13
  const SUM: TermKind := 14
  const MIN: TermKind := 15
  const MAX: TermKind := 16
  const SUBTRACT: TermKind := 17
  const MULTIPLY: TermKind := 18
  const DIVIDE: TermKind := 19
  const MODULO: TermKind := 20
  const ABS: TermKind := 21
  const CLAMP: TermKind := 22
  const TIMESTAMP_ADD: TermKind := 23
  const TIMESTAMP_DIFF: TermKind := 24
  const DATE_EXTRACT: TermKind := 25
  const CONCAT: TermKind := 26
  const SUBSTRING: TermKind := 27
  const TRIM: TermKind := 28
  const IF: TermKind := 29
  const COALESCE: TermKind := 30
}
