/** Types that several components share. */
module Common {

  /** unsigned char */
  type Byte = b: int | 0 <= b < 256

  datatype Option<+T> = None | Some(value: T)
}
