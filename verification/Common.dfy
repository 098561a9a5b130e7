/** What several parts of the model share. */
module Common {
  datatype Option<+T> = None | Some(value: T)

  const TWO64 := 0x1_0000_0000_0000_0000
}
