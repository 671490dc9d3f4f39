/** Names that several components share. */
module Common {
  /** A byte of a frame or of an address. */
  type Byte = b: int | 0 <= b < 256

  datatype Option<T> = None | Some(value: T)

  /** The kind field of the protocol header. */
  datatype PacketKind = Data | SptpSync | SptpRequestSync

  /** The quadrant field where no quadrant is known. */
  const QUADRANT_NONE: nat := 0xff
}
