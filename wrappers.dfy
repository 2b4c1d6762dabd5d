/** The optional value used for every measurement that can fail: `None` stands
    for a check whose computation raised an exception. */
module Wrappers {

  datatype Option<+T> = None | Some(value: T)
}
