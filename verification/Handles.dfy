/** The identities every table is keyed by. */
module Handles {

  type FileId = nat
  type TreeId = nat
  type SessionId = nat
  type TaskId = nat

  /** A file by device and inode, never by path. */
  datatype FileKey = FileKey(dev: nat, ino: nat)

  /** One Open. The id stands for the pointer; the other fields are the ones
      that never change after the handle is built. */
  datatype Open = Open(id: nat, fileId: FileId, tree: TreeId, session: SessionId, file: FileKey)
}
