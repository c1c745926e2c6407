// Optional values, for the source's std::optional results and nullable pointers.
module Wrappers {
  datatype Option<T> = None | Some(value: T)
  {
    predicate IsSome() { Some? }
  }
}
