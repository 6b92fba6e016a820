/** The optional value used wherever the scraper either produces something or
    lets an exception end the operation. */
module Wrappers {

  datatype Option<+T> = None | Some(value: T)
}
