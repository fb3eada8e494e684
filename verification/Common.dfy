/** Small datatypes shared by the models. */
module Common {
  /** An 8-bit unit of file or memory contents. */
  type byte = x: int | 0 <= x < 256

  datatype Option<+T> = None | Some(value: T)
}
