/** Optional values and failure-carrying results, standing in for Python's
    `None` and for the exceptions the importer and exporter raise. */
module Outcomes {

  datatype Option<+T> = None | Some(value: T)

  datatype Result<+T, +E> = Ok(value: T) | Err(error: E)
}
