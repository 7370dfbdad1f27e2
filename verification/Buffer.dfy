/** A disk block's name and the buffer that may hold it. */
module Buffer {
  import opened Bytes

  datatype Key = Key(dev: nat, blockno: nat)

  /** The key of a buffer that was never used; nobody asks for this block. */
  const UNUSED: Key := Key(0, 0)

  datatype Buf = Buf(key: Key, valid: bool, dirty: bool, locked: bool, refcnt: nat, data: Block)
}
