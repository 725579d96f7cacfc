/**
 The in-memory index as a value: inodes, directory entries, extent lists,
 symlink targets and extended attributes, with one function per operation.
 A result of None is the operation's error return; the index is then unchanged.
 */
module IndexModel {
  import opened Base
  import opened Extents
  import opened InPlaceFilter

  type Children = map<string, Ino>

  datatype IndexData = IndexData(
    inodes: map<Ino, Inode>,
    dirs: map<Ino, Children>,
    extents: map<Ino, seq<Extent>>,
    symlinks: map<Ino, string>,
    xattrs: map<Ino, map<string, string>>,
    nextIno: Ino)

  /** How surviving extents are collected: as documented, or as the loop runs. */
  datatype FilterMode = FreshList | InPlace

  const NLINK_MODULUS: nat := 0x1_0000_0000

  function NewIndex(now: int, blockSize: int): IndexData {
    var root := Inode(ROOT_INO, DIRECTORY, 0x1ED, 1, 0, 0, 0, now, now, now, blockSize, 0, 0);
    IndexData(map[ROOT_INO := root], map[ROOT_INO := map[]], map[], map[], map[], ROOT_INO + 1)
  }

  function ChildrenOf(d: IndexData, p: Ino): Children {
    if p in d.dirs then d.dirs[p] else map[]
  }

  predicate IsDir(d: IndexData, i: Ino) {
    i in d.inodes && d.inodes[i].fileType == DIRECTORY
  }

  predicate IsRegular(d: IndexData, i: Ino) {
    i in d.inodes && d.inodes[i].fileType == REGULAR
  }

  function ExtentsOf(d: IndexData, i: Ino): seq<Extent> {
    if i in d.extents then d.extents[i] else []
  }

  function SizeOf(d: IndexData, i: Ino): nat {
    if i in d.inodes then d.inodes[i].size else 0
  }

  /** Both stamps of a directory whose entries changed. */
  function StampDir(inodes: map<Ino, Inode>, p: Ino, now: int): map<Ino, Inode> {
    if p in inodes then inodes[p := inodes[p].(mtime := now, ctime := now)] else inodes
  }

  function StampCtime(inodes: map<Ino, Inode>, i: Ino, now: int): map<Ino, Inode> {
    if i in inodes then inodes[i := inodes[i].(ctime := now)] else inodes
  }

  function CreateInode(d: IndexData, fileType: FileType, mode: nat, uid: nat, gid: nat, rdev: nat, now: int,
                       blockSize: int): IndexData
  {
    var ino := d.nextIno;
    var inode := Inode(ino, fileType, mode, if fileType == DIRECTORY then 1 else 0, uid, gid, 0, now, now, now,
                       blockSize, 0, rdev);
    d.(nextIno := ino + 1,
       inodes := d.inodes[ino := inode],
       extents := if fileType == REGULAR then d.extents[ino := []] else d.extents,
       dirs := if fileType == DIRECTORY then d.dirs[ino := map[]] else d.dirs)
  }

  function AddDirEntry(d: IndexData, p: Ino, name: string, c: Ino, now: int): Option<IndexData> {
    if !IsDir(d, p) || c !in d.inodes || name in ChildrenOf(d, p) then None
    else
      var linked := d.inodes[c := d.inodes[c].(nlink := (d.inodes[c].nlink + 1) % NLINK_MODULUS, ctime := now)];
      Some(AddName(d, p, name, c).(inodes := StampDir(linked, p, now)))
  }

  /** The link count at which an inode is freed: a directory keeps one link to itself. */
  function FreeThreshold(inode: Inode): nat {
    if inode.fileType == DIRECTORY then 1 else 0
  }

  /** The index without inode `c` and all that belongs to it. */
  function Freed(d: IndexData, c: Ino): IndexData {
    d.(inodes := d.inodes - {c}, extents := d.extents - {c}, symlinks := d.symlinks - {c},
       xattrs := d.xattrs - {c}, dirs := d.dirs - {c})
  }

  /** Drops one link of `c`, and frees it with the last one. */
  function DropLink(d: IndexData, c: Ino): IndexData
    requires c in d.inodes
  {
    var n := d.inodes[c].nlink;
    var n' := if n == 0 then NLINK_MODULUS - 1 else n - 1;
    if n' <= FreeThreshold(d.inodes[c]) then Freed(d, c)
    else d.(inodes := d.inodes[c := d.inodes[c].(nlink := n')])
  }

  function AddName(d: IndexData, p: Ino, name: string, c: Ino): IndexData {
    d.(dirs := d.dirs[p := ChildrenOf(d, p)[name := c]])
  }

  function DeleteName(d: IndexData, p: Ino, name: string): IndexData {
    if p in d.dirs then d.(dirs := d.dirs[p := d.dirs[p] - {name}]) else d
  }

  predicate NonEmptyDir(d: IndexData, c: Ino) {
    IsDir(d, c) && ChildrenOf(d, c) != map[]
  }

  function RemoveDirEntry(d: IndexData, p: Ino, name: string, now: int): Option<IndexData> {
    if p !in d.inodes || name !in ChildrenOf(d, p) then None
    else
      var c := ChildrenOf(d, p)[name];
      if c !in d.inodes || NonEmptyDir(d, c) then None
      else
        var d1 := DropLink(DeleteName(d, p, name), c);
        Some(d1.(inodes := StampDir(StampCtime(d1.inodes, c, now), p, now)))
  }

  function Rename(d: IndexData, sp: Ino, sn: string, dp: Ino, dn: string, now: int): Option<IndexData> {
    if sn !in ChildrenOf(d, sp) then None
    else
      var c := ChildrenOf(d, sp)[sn];
      var taken := dn in ChildrenOf(d, dp);
      if taken && (ChildrenOf(d, dp)[dn] !in d.inodes || NonEmptyDir(d, ChildrenOf(d, dp)[dn])) then None
      else
        var d1 := if taken then DropLink(d, ChildrenOf(d, dp)[dn]) else d;
        Some(MoveName(d1, sp, sn, dp, dn, c, now))
  }

  /** The second half of a rename: the name moves, over whatever the destination name was. */
  function MoveName(d: IndexData, sp: Ino, sn: string, dp: Ino, dn: string, c: Ino, now: int): IndexData {
    AddName(DeleteName(d, sp, sn), dp, dn, c).(
      inodes := StampDir(StampDir(StampCtime(d.inodes, c, now), sp, now), dp, now))
  }

  datatype AttrChange = AttrChange(
    mode: Option<nat>, uid: Option<nat>, gid: Option<nat>, size: Option<nat>, atime: Option<int>, mtime: Option<int>)

  function OrElse<T>(o: Option<T>, t: T): T {
    if o.Some? then o.value else t
  }

  predicate Resizes(n: Inode, a: AttrChange) {
    a.size.Some? && a.size.value != n.size
  }

  function WithAttrs(n: Inode, a: AttrChange, now: int): Inode {
    var n1 := n.(mode := OrElse(a.mode, n.mode), uid := OrElse(a.uid, n.uid), gid := OrElse(a.gid, n.gid),
                 atime := OrElse(a.atime, n.atime), mtime := OrElse(a.mtime, n.mtime), ctime := now);
    if Resizes(n, a) then n1.(size := a.size.value, blocks := Blocks512(a.size.value), mtime := now) else n1
  }

  function SetAttr(d: IndexData, i: Ino, a: AttrChange, now: int): Option<IndexData> {
    if i !in d.inodes then None
    else
      var n := d.inodes[i];
      Some(d.(inodes := d.inodes[i := WithAttrs(n, a, now)],
              extents := if Resizes(n, a) && n.fileType == REGULAR
                         then d.extents[i := Trim(ExtentsOf(d, i), a.size.value)] else d.extents))
  }

  function WriteList(exts: seq<Extent>, w: Extent, fm: FilterMode): seq<Extent> {
    if fm.FreshList? then WriteFresh(exts, w) else WriteInPlace(exts, w)
  }

  function WriteExtent(d: IndexData, i: Ino, w: Extent, now: int, fm: FilterMode): Option<IndexData> {
    if !IsRegular(d, i) then None
    else
      var n := d.inodes[i];
      var n1 := if w.End() > n.size then n.(size := w.End(), blocks := Blocks512(w.End())) else n;
      Some(d.(extents := d.extents[i := WriteList(ExtentsOf(d, i), w, fm)],
              inodes := d.inodes[i := n1.(mtime := now, ctime := now)]))
  }

  function SetSymlink(d: IndexData, i: Ino, target: string, now: int): Option<IndexData> {
    if i !in d.inodes || d.inodes[i].fileType != SYMLINK then None
    else Some(d.(symlinks := d.symlinks[i := target],
                 inodes := d.inodes[i := d.inodes[i].(size := |target|, ctime := now)]))
  }

  function XattrsOf(d: IndexData, i: Ino): map<string, string> {
    if i in d.xattrs then d.xattrs[i] else map[]
  }

  function SetXattr(d: IndexData, i: Ino, name: string, value: string, now: int): Option<IndexData> {
    if i !in d.inodes then None
    else Some(d.(xattrs := d.xattrs[i := XattrsOf(d, i)[name := value]], inodes := StampCtime(d.inodes, i, now)))
  }

  function RemoveXattr(d: IndexData, i: Ino, name: string, now: int): Option<IndexData> {
    if i !in d.inodes || name !in XattrsOf(d, i) then None
    else Some(d.(xattrs := d.xattrs[i := XattrsOf(d, i) - {name}], inodes := StampCtime(d.inodes, i, now)))
  }

  function TouchAtime(d: IndexData, i: Ino, now: int): Option<IndexData> {
    if i !in d.inodes then None else Some(d.(inodes := d.inodes[i := d.inodes[i].(atime := now)]))
  }

  type RemapTable = map<(string, nat), Extent>

  function RemapOne(e: Extent, m: RemapTable): Extent {
    if e.Key() in m then m[e.Key()] else e
  }

  function RemapList(exts: seq<Extent>, m: RemapTable): (r: seq<Extent>)
    ensures |r| == |exts|
  {
    seq(|exts|, i requires 0 <= i < |exts| => RemapOne(exts[i], m))
  }

  function RemapExtents(d: IndexData, m: RemapTable): IndexData {
    d.(extents := map i | i in d.extents :: RemapList(d.extents[i], m))
  }

  lemma RemapExtentsLists(d: IndexData, m: RemapTable)
    ensures RemapExtents(d, m).extents.Keys == d.extents.Keys
    ensures forall i | i in d.extents :: RemapExtents(d, m).extents[i] == RemapList(d.extents[i], m)
  {
  }

  // ---- The operations that the file system composes from these ----

  datatype MetaOp =
    | MakeNode(parent: Ino, name: string, fileType: FileType, mode: nat, uid: nat, gid: nat, now: int)
    | MakeSymlink(parent: Ino, name: string, target: string, uid: nat, gid: nat, now: int)
    | Link(parent: Ino, name: string, existing: Ino, now: int)
    | Remove(parent: Ino, name: string, now: int)
    | Move(srcParent: Ino, srcName: string, dstParent: Ino, dstName: string, now: int)
    | PutXattr(ino: Ino, name: string, value: string, now: int)
    | DropXattr(ino: Ino, name: string, now: int)

  /** A new inode under a new name; if the name cannot be added the inode stays, unreachable. */
  function MakeNamed(d: IndexData, parent: Ino, name: string, fileType: FileType, mode: nat, uid: nat, gid: nat,
                     now: int, blockSize: int): IndexData
  {
    var d1 := CreateInode(d, fileType, mode, uid, gid, 0, now, blockSize);
    var r := AddDirEntry(d1, parent, name, d.nextIno, now);
    if r.Some? then r.value else d1
  }

  function LinkNamed(d: IndexData, parent: Ino, name: string, target: Ino, now: int): Option<IndexData> {
    if target !in d.inodes || IsDir(d, target) then None else AddDirEntry(d, parent, name, target, now)
  }

  function MakeNamedSymlink(d: IndexData, parent: Ino, name: string, target: string, uid: nat, gid: nat, now: int,
                            blockSize: int): IndexData
  {
    var d1 := CreateInode(d, SYMLINK, 0x1FF, uid, gid, 0, now, blockSize);
    var r := AddDirEntry(d1, parent, name, d.nextIno, now);
    if r.None? then d1
    else
      var r2 := SetSymlink(r.value, d.nextIno, target, now);
      if r2.Some? then r2.value else r.value
  }

  function ApplyMeta(d: IndexData, op: MetaOp, blockSize: int): Option<IndexData> {
    match op
    case MakeNode(p, n, t, mode, uid, gid, now) => Some(MakeNamed(d, p, n, t, mode, uid, gid, now, blockSize))
    case MakeSymlink(p, n, target, uid, gid, now) =>
      Some(MakeNamedSymlink(d, p, n, target, uid, gid, now, blockSize))
    case Link(p, n, t, now) => LinkNamed(d, p, n, t, now)
    case Remove(p, n, now) => RemoveDirEntry(d, p, n, now)
    case Move(sp, sn, dp, dn, now) => Rename(d, sp, sn, dp, dn, now)
    case PutXattr(i, n, v, now) => SetXattr(d, i, n, v, now)
    case DropXattr(i, n, now) => RemoveXattr(d, i, n, now)
  }
}
