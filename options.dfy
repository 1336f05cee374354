/** Rust's `Option`, as returned by `Collector::push` and `Iterator::next`. */
module Options {
  datatype Option<+T> = None | Some(value: T)
}
