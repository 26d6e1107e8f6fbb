/** Small types shared by the model. */
module Prelude {
  datatype Option<+T> = None | Some(value: T)
}
