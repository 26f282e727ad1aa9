/** Optional values, the model of C++ `std::optional`. */
module Wrappers {

  datatype Option<+T> = None | Some(value: T)

  /** C++ `o == 0` on a `std::optional<int>`: false when `o` is empty. */
  predicate IsZero(o: Option<int>) {
    o == Some(0)
  }
}
