/** What several of the models use. */
module Basics {

  type byte = x: int | 0 <= x < 256

  function Max(a: int, b: int): int {
    if a < b then b else a
  }

  function Min(a: int, b: int): int {
    if a < b then a else b
  }

  /** 1 for true, 0 for false. */
  function One(b: bool): int {
    if b then 1 else 0
  }
}
