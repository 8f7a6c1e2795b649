/** The optional value used for the pipeline's parse failure and for a
    figure that cannot be laid out. */
module Wrappers {

  datatype Option<+T> = None | Some(value: T)

}
