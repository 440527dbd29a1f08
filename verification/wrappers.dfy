/** The optional-value datatype shared by every module: it stands for a Python
    value that may be `None`. */
module Wrappers {

  datatype Option<+T> = None | Some(value: T)
}
