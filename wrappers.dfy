/** The absent-or-present value used wherever the site's code tests a lookup
    result or an optional attribute for `undefined`/`null`. */
module Wrappers {

  datatype Option<+T> = None | Some(value: T)
}
