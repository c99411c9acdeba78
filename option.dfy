/** A value that may be missing: pandas' NaN / Python's None in the pipeline. */
module Opt {
  datatype Option<T> = None | Some(value: T)
}
