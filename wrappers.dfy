/** The optional value used wherever the crawler may find nothing: a missing
    file, a missing page element, a failed fetch. */
module Wrappers {

  datatype Option<+T> = None | Some(value: T)
}
