/** Small shared vocabulary: optional values. */
module Basics {

  datatype Option<+T> = None | Some(value: T)
}
