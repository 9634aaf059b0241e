/** What several of the modules need: an optional value, the smaller and the larger of two numbers, a stereo frame. */
module Common {

  datatype Option<+T> = None | Some(value: T)

  function Min(a: int, b: int): int {
    if a < b then a else b
  }

  function Max(a: int, b: int): int {
    if a < b then b else a
  }

  /** One sample of the left and one of the right channel. */
  datatype Frame = Frame(left: real, right: real)
}
