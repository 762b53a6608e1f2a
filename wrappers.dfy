/** Optional values and error results, used wherever the scraper returns
    `None` or raises an exception that ends an operation. */
module Wrappers {

  datatype Option<+T> = None | Some(value: T)

  datatype Result<+R, +E> = Ok(value: R) | Err(error: E)
}
