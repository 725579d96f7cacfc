/** Values shared by every layer of the filesystem: inodes, extents and raw bytes. */
module Base {

  type Byte = bv8
  type Bytes = seq<Byte>
  type Ino = nat

  /** The contents of every chunk that can be read, by chunk ID. */
  type View = map<string, Bytes>

  datatype Option<+T> = None | Some(value: T)

  // A file type is the upper bits of a Linux mode word.
  type FileType = nat
  const REGULAR: FileType := 0x8000
  const DIRECTORY: FileType := 0x4000
  const SYMLINK: FileType := 0xA000

  const ROOT_INO: Ino := 1

  datatype Inode = Inode(
    ino: Ino, fileType: FileType, mode: nat, nlink: nat, uid: nat, gid: nat, size: nat,
    atime: int, mtime: int, ctime: int, blksize: int, blocks: nat, rdev: nat)

  /** A contiguous run of one file's bytes inside one chunk. */
  datatype Extent = Extent(chunkId: string, chunkOffset: nat, length: nat, fileOffset: nat) {

    function End(): nat {
      fileOffset + length
    }

    function ChunkEnd(): nat {
      chunkOffset + length
    }

    /** The key under which the compactor remaps this extent. */
    function Key(): (string, nat) {
      (chunkId, chunkOffset)
    }
  }

  function Max(a: int, b: int): int {
    if a > b then a else b
  }

  function Min(a: int, b: int): int {
    if a < b then a else b
  }

  function Blocks512(size: nat): nat {
    (size + 511) / 512
  }
}
