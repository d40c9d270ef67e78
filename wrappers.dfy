/** The optional value used throughout the model: `None` stands for JavaScript's
    `undefined` or `null` where the program can produce one. */
module Wrappers {

  datatype Option<+T> = None | Some(value: T)
}
