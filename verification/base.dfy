/**
 * Small shared vocabulary: an optional value and the integer minimum
 * (the `Math.Min` of the menu builder).
 */
module Base {

  datatype Option<T> = None | Some(value: T)

  function Min(a: int, b: int): int
  {
    if a <= b then a else b
  }
}
