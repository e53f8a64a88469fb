/** Types that the models share. */
module Types {
  datatype Option<+T> = None | Some(value: T)

  type FrameId = nat
  /** A link to a frame, or none. */
  type Link = Option<FrameId>

  newtype Byte = x: int | 0 <= x < 256

  /** A block of a file. */
  datatype Tag = Tag(file: nat, block: nat)
}
