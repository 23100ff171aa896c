/** What all parts of the model share. */
module Common {
  datatype Option<+T> = None | Some(value: T)

  const INT_MAX := 0x7FFF_FFFF
  const TWO32 := 0x1_0000_0000
}
