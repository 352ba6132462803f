/// Small building blocks shared by the two models: C++'s 32-bit `int` and an
/// optional value.
module Basics {

  /// Whether `n` is in the range of a C++ `int` on the platforms the editor
  /// targets.
  predicate IsInt32(n: int) {
    -0x8000_0000 <= n < 0x8000_0000
  }

  newtype int32 = x: int | IsInt32(x)

  datatype Option<+T> = None | Some(value: T)
}
