/** Small datatypes shared by every module. */
module Prelude {
  datatype Option<+T> = None | Some(value: T)

  datatype Result<+T, +E> = Ok(value: T) | Err(error: E)

  type byte = bv8

  const U64: nat := 0x1_0000_0000_0000_0000

  function One(b: bool): nat { if b then 1 else 0 }
}
