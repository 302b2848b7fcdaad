/** The optional value that stands for PHP's `null` wherever api.php tests for it. */
module Wrappers {

  datatype Option<+T> = None | Some(value: T)
}
