/** The conventional optional value, for `std::optional` results and for constructors that throw. */
module Options {
  datatype Option<+T> = None | Some(value: T)
}
