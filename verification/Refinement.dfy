/**
 The reference: a table of entries, a type, permissions, owner, size and times for
 every inode, a byte array for every regular file, symlink targets and extended
 attributes, with no chunks, no extents and no link counts.  It is kept as it is
 now, as a cold start would restore it, and as the index in hand has it.  Every
 run of the stack is a run of the reference; all it is told is whether the store
 took the data of a write.
 */
module Refinement {
  import opened Base
  import opened Extents
  import opened IndexModel
  import opened FileData
  import opened ChunkModel
  import opened Sums
  import opened Names
  import opened Tree
  import opened Filesystem
  import opened Runs
  import opened Flags
  import opened Attributes

  datatype Shape = Shape(
    entries: EntryTable, types: map<Ino, FileType>,
    targets: map<Ino, string>, xattrs: map<Ino, map<string, string>>, next: Ino)

  datatype Image = Image(names: Shape, stats: Stats, files: map<Ino, Bytes>)

  /** There is no stored image before the first index has been put. */
  datatype Ref = Ref(now: Image, stored: Option<Image>, pending: Option<Image>, capacity: nat)

  /** An empty root, made at that time. */
  function Fresh(now: int): Image {
    Image(Shape(map[], map[ROOT_INO := DIRECTORY], map[], map[], ROOT_INO + 1),
          map[ROOT_INO := Stat(0x1ED, 0, 0, 0, now, now, now)], map[])
  }

  // ---- The reference operations on names ----

  predicate Free(n: Shape, x: EntryName) {
    x.0 in n.types && n.types[x.0] == DIRECTORY && x !in n.entries
  }

  predicate Occupied(n: Shape, c: Ino) {
    exists x :: x in n.entries && x.0 == c
  }

  function Bind(n: Shape, x: EntryName, c: Ino): Shape {
    if Free(n, x) then n.(entries := n.entries[x := c]) else n
  }

  /** A new inode of type `t`, without a name. */
  function Born(n: Shape, t: FileType): Shape {
    n.(types := n.types[n.next := t], next := n.next + 1)
  }

  function Make(n: Shape, x: EntryName, t: FileType): Shape {
    Bind(Born(n, t), x, n.next)
  }

  function MakeLink(n: Shape, x: EntryName, target: string): Shape {
    var made := Make(n, x, SYMLINK);
    if x in n.entries || x !in made.entries then made else made.(targets := n.targets[n.next := target])
  }

  /** A file goes exactly when its last entry has gone. */
  function Forget(n: Shape, c: Ino): Shape {
    if Refs(n.entries, c) != {} then n
    else n.(types := n.types - {c}, targets := n.targets - {c}, xattrs := n.xattrs - {c})
  }

  predicate Removable(n: Shape, x: EntryName) {
    x in n.entries && !Occupied(n, n.entries[x])
  }

  function Unbind(n: Shape, x: EntryName): Shape {
    if Removable(n, x) then Forget(n.(entries := n.entries - {x}), n.entries[x]) else n
  }

  predicate Movable(n: Shape, src: EntryName, dst: EntryName) {
    src in n.entries && (dst in n.entries ==> !Occupied(n, n.entries[dst]))
  }

  function Rebind(n: Shape, src: EntryName, dst: EntryName): Shape {
    if !Movable(n, src, dst) then n
    else
      var moved := n.(entries := (n.entries - {src})[dst := n.entries[src]]);
      if dst in n.entries then Forget(moved, n.entries[dst]) else moved
  }

  function XattrsAt(n: Shape, i: Ino): map<string, string> {
    if i in n.xattrs then n.xattrs[i] else map[]
  }

  predicate Linkable(n: Shape, c: Ino) {
    c in n.types && n.types[c] != DIRECTORY
  }

  function RefMeta(n: Shape, m: MetaOp): Shape {
    match m
    case MakeNode(p, name, t, _, _, _, _) => Make(n, (p, name), t)
    case MakeSymlink(p, name, target, _, _, _) => MakeLink(n, (p, name), target)
    case Link(p, name, c, _) => if Linkable(n, c) then Bind(n, (p, name), c) else n
    case Remove(p, name, _) => Unbind(n, (p, name))
    case Move(sp, sn, dp, dn, _) => Rebind(n, (sp, sn), (dp, dn))
    case PutXattr(i, name, value, _) =>
      if i in n.types then n.(xattrs := n.xattrs[i := XattrsAt(n, i)[name := value]]) else n
    case DropXattr(i, name, _) =>
      if i in n.types && name in XattrsAt(n, i) then n.(xattrs := n.xattrs[i := XattrsAt(n, i) - {name}]) else n
  }

  /** A new inode has what its maker gave it and the time; a directory with a new name is stamped. */
  function RefMake(n: Shape, st: Stats, x: EntryName, t: FileType, made: Stat, now: int): Stats {
    var st1 := st[n.next := made];
    if Free(Born(n, t), x) then Stamped(st1, {x.0}, {x.0, n.next}, now) else st1
  }

  /** What an operation on names does to the attributes: it stamps the directories and the inode named. */
  function RefStats(n: Shape, st: Stats, m: MetaOp): Stats {
    match m
    case MakeNode(p, name, t, mode, uid, gid, now) =>
      RefMake(n, st, (p, name), t, Stat(mode, uid, gid, 0, now, now, now), now)
    case MakeSymlink(p, name, target, uid, gid, now) =>
      var size := if Free(Born(n, SYMLINK), (p, name)) then |target| else 0;
      RefMake(n, st, (p, name), SYMLINK, Stat(0x1FF, uid, gid, size, now, now, now), now)
    case Link(p, name, c, now) =>
      if Linkable(n, c) && Free(n, (p, name)) then Stamped(st, {p}, {p, c}, now) else st
    case Remove(p, name, now) =>
      if Removable(n, (p, name))
      then Stamped(Living(st, RefMeta(n, m).types.Keys), {p}, {p, n.entries[(p, name)]}, now) else st
    case Move(sp, sn, dp, dn, now) =>
      if Movable(n, (sp, sn), (dp, dn))
      then Stamped(Living(st, RefMeta(n, m).types.Keys), {sp, dp}, {sp, dp, n.entries[(sp, sn)]}, now) else st
    case PutXattr(i, _, _, now) => if i in n.types then Stamped(st, {}, {i}, now) else st
    case DropXattr(i, name, now) =>
      if i in n.types && name in XattrsAt(n, i) then Stamped(st, {}, {i}, now) else st
  }

  function Regulars(types: map<Ino, FileType>): set<Ino> {
    set i | i in types && types[i] == REGULAR
  }

  function Lengths(files: map<Ino, Bytes>): map<Ino, nat> {
    map i | i in files :: |files[i]|
  }

  ghost predicate Fits(r: Ref, i: Ino, end: nat)
    requires i in r.now.files
  {
    var n := |r.now.files[i]|;
    end > n ==> Sum(Lengths(r.now.files)) + (end - n) <= r.capacity
  }

  function RefAlter(st: Stats, i: Ino, a: AttrChange, now: int): Stats {
    if i in st then st[i := Altered(st[i], a, now)] else st
  }

  function RefResize(files: map<Ino, Bytes>, i: Ino, size: Option<nat>): map<Ino, Bytes> {
    if i in files && size.Some? then files[i := Resize(files[i], size.value)] else files
  }

  function RefTouch(st: Stats, i: Ino, now: int): Stats {
    if i in st then st[i := st[i].(atime := now)] else st
  }

  function RefWritten(st: Stats, i: Ino, end: nat, now: int): Stats {
    if i in st then st[i := st[i].(size := Max(st[i].size, end), mtime := now, ctime := now)] else st
  }

  /** `took` says whether the store took the data of a write. */
  ghost function RefStep(r: Ref, op: Op, took: bool): Ref {
    match op
    case Meta(m) =>
      var names := RefMeta(r.now.names, m);
      r.(now := Image(names, RefStats(r.now.names, r.now.stats, m), Retain(r.now.files, Regulars(names.types))))
    case ChangeAttr(i, a, now) =>
      r.(now := r.now.(stats := RefAlter(r.now.stats, i, a, now), files := RefResize(r.now.files, i, a.size)))
    case Touch(i, now) => r.(now := r.now.(stats := RefTouch(r.now.stats, i, now)))
    case Write(i, data, off, now, _, _) =>
      if i in r.now.files && Fits(r, i, off + |data|) && took
      then r.(now := r.now.(stats := RefWritten(r.now.stats, i, off + |data|, now),
                            files := r.now.files[i := Overlay(r.now.files[i], off, data)])) else r
    case EncodeIndex => r.(pending := Some(r.now))
    case PutIndex(o) =>
      if r.pending.None? then r
      else r.(stored := if o.Lost? then r.stored else r.pending, pending := None)
    case Restart(_, now, c) =>
      Ref(if r.stored.Some? then r.stored.value else Fresh(now), r.stored, None, c.maxFsSize)
    case _ => r
  }

  // ---- The stack, as the reference shows it ----

  function Types(inodes: map<Ino, Inode>): map<Ino, FileType> {
    map i | i in inodes :: inodes[i].fileType
  }

  ghost function ShapeOf(d: IndexData): Shape {
    Shape(Entries(d.dirs), Types(d.inodes), d.symlinks, d.xattrs, d.nextIno)
  }

  ghost function ImageOf(d: IndexData, files: map<Ino, Bytes>): Image {
    Image(ShapeOf(d), StatsOf(d.inodes), files)
  }

  ghost function Shown(s: Fs): Ref {
    Ref(ImageOf(s.idx, Abs(s).files),
        if s.durable.Some? then Some(ImageOf(s.durable.value, Abs(s).durable)) else None,
        if s.remote.InHand? then Some(ImageOf(s.remote.data, Abs(s).pending.value)) else None,
        s.maxFsSize)
  }

  ghost predicate Took(s: Fs, op: Op) {
    op.Write? ==> Append(s.chunks, s.objects, op.data, op.off, op.put).result.Some?
  }

  // ---- The operations on names ----

  lemma SameTypes(inodes: map<Ino, Inode>, inodes': map<Ino, Inode>)
    requires SameCounts(inodes, inodes')
    ensures Types(inodes') == Types(inodes)
  {
  }

  lemma FreeIff(d: IndexData, p: Ino, n: string)
    requires Owned(d)
    ensures Free(ShapeOf(d), (p, n)) <==> IsDir(d, p) && n !in ChildrenOf(d, p)
  {
    assert (p, n) in Entries(d.dirs) <==> HasEntry(d.dirs, (p, n));
  }

  lemma OccupiedIff(d: IndexData, c: Ino)
    requires Owned(d)
    ensures Occupied(ShapeOf(d), c) <==> NonEmptyDir(d, c)
  {
    var t := Entries(d.dirs);
    if NonEmptyDir(d, c) {
      var n :| n in d.dirs[c];
      assert HasEntry(d.dirs, (c, n));
      assert (c, n) in t && (c, n).0 == c;
    }
    if Occupied(ShapeOf(d), c) {
      var x :| x in t && x.0 == c;
      assert HasEntry(d.dirs, x);
    }
  }

  lemma EntryIff(d: IndexData, p: Ino, n: string)
    ensures (p, n) in Entries(d.dirs) <==> n in ChildrenOf(d, p)
    ensures n in ChildrenOf(d, p) ==> Entries(d.dirs)[(p, n)] == ChildrenOf(d, p)[n]
  {
    assert (p, n) in Entries(d.dirs) <==> HasEntry(d.dirs, (p, n));
  }

  lemma AddedTypesMap(d: IndexData, p: Ino, n: string, c: Ino, now: int)
    requires AddDirEntry(d, p, n, c, now).Some?
    ensures Types(AddDirEntry(d, p, n, c, now).value.inodes) == Types(d.inodes)
  {
  }

  lemma BindShows(d: IndexData, p: Ino, n: string, c: Ino, now: int)
    requires LinkOk(d) && c in d.inodes
    ensures var r := AddDirEntry(d, p, n, c, now);
            ShapeOf(if r.Some? then r.value else d) == Bind(ShapeOf(d), (p, n), c)
  {
    FreeIff(d, p, n);
    if AddDirEntry(d, p, n, c, now).Some? {
      AddDirEntryEntries(d, p, n, c, now);
      AddedTypesMap(d, p, n, c, now);
    }
  }

  lemma CreateTypes(d: IndexData, t: FileType, mode: nat, uid: nat, gid: nat, now: int, blk: int)
    ensures var d1 := CreateInode(d, t, mode, uid, gid, 0, now, blk);
            && Types(d1.inodes) == Types(d.inodes)[d.nextIno := t] && d.nextIno in d1.inodes
            && d1.nextIno == d.nextIno + 1 && d1.symlinks == d.symlinks && d1.xattrs == d.xattrs
  {
  }

  lemma CreateShows(d: IndexData, t: FileType, mode: nat, uid: nat, gid: nat, now: int, blk: int)
    requires LinkOk(d)
    ensures var d1 := CreateInode(d, t, mode, uid, gid, 0, now, blk);
            LinkOk(d1) && d.nextIno in d1.inodes && ShapeOf(d1) == Born(ShapeOf(d), t)
  {
    CreateInodeLinks(d, t, mode, uid, gid, 0, now, blk);
    CreateTypes(d, t, mode, uid, gid, now, blk);
  }

  lemma MakeShows(d: IndexData, p: Ino, n: string, t: FileType, mode: nat, uid: nat, gid: nat, now: int, blk: int)
    requires LinkOk(d)
    ensures ShapeOf(MakeNamed(d, p, n, t, mode, uid, gid, now, blk)) == Make(ShapeOf(d), (p, n), t)
  {
    CreateShows(d, t, mode, uid, gid, now, blk);
    BindShows(CreateInode(d, t, mode, uid, gid, 0, now, blk), p, n, d.nextIno, now);
  }

  lemma TargetShows(d: IndexData, i: Ino, target: string, now: int)
    requires i in d.inodes && d.inodes[i].fileType == SYMLINK
    ensures ShapeOf(SetSymlink(d, i, target, now).value) == ShapeOf(d).(targets := d.symlinks[i := target])
  {
    assert Types(SetSymlink(d, i, target, now).value.inodes) == Types(d.inodes);
  }

  lemma MakeLinkShows(d: IndexData, p: Ino, n: string, target: string, uid: nat, gid: nat, now: int, blk: int)
    requires LinkOk(d)
    ensures ShapeOf(MakeNamedSymlink(d, p, n, target, uid, gid, now, blk)) == MakeLink(ShapeOf(d), (p, n), target)
  {
    MakeShows(d, p, n, SYMLINK, 0x1FF, uid, gid, now, blk);
    CreateShows(d, SYMLINK, 0x1FF, uid, gid, now, blk);
    var d1 := CreateInode(d, SYMLINK, 0x1FF, uid, gid, 0, now, blk);
    var d2 := MakeNamed(d, p, n, SYMLINK, 0x1FF, uid, gid, now, blk);
    FreeIff(d1, p, n);
    if AddDirEntry(d1, p, n, d.nextIno, now).Some? {
      TargetShows(d2, d.nextIno, target, now);
    }
  }

  lemma DropLinkShows(d: IndexData, c: Ino)
    requires c in d.inodes
    ensures var d' := DropLink(d, c);
            if c in d'.inodes then
              Types(d'.inodes) == Types(d.inodes) && d'.symlinks == d.symlinks && d'.xattrs == d.xattrs
            else
              && Types(d'.inodes) == Types(d.inodes) - {c}
              && d'.symlinks == d.symlinks - {c} && d'.xattrs == d.xattrs - {c}
  {
  }

  /** The name goes, and with the last one the file. */
  lemma UnlinkedShows(d: IndexData, p: Ino, n: string)
    requires LinkOk(d) && p in d.dirs && n in d.dirs[p]
    requires d.dirs[p][n] in d.inodes && !NonEmptyDir(DeleteName(d, p, n), d.dirs[p][n])
    ensures ShapeOf(DropLink(DeleteName(d, p, n), d.dirs[p][n])) ==
            Forget(ShapeOf(d).(entries := Entries(d.dirs) - {(p, n)}), d.dirs[p][n])
  {
    UnlinkedLinks(d, p, n);
    DropLinkShows(DeleteName(d, p, n), d.dirs[p][n]);
  }

  lemma EntryChild(d: IndexData, p: Ino, n: string)
    requires LinkOk(d) && n in ChildrenOf(d, p)
    ensures IsDir(d, p) && ChildrenOf(d, p)[n] in d.inodes
  {
    EntryIff(d, p, n);
  }

  lemma RemoveShows(d: IndexData, p: Ino, n: string, now: int)
    requires LinkOk(d)
    ensures var r := RemoveDirEntry(d, p, n, now);
            ShapeOf(if r.Some? then r.value else d) == Unbind(ShapeOf(d), (p, n))
  {
    EntryIff(d, p, n);
    if n in ChildrenOf(d, p) {
      var c := ChildrenOf(d, p)[n];
      EntryChild(d, p, n);
      OccupiedIff(d, c);
      if !NonEmptyDir(d, c) {
        UnlinkedShows(d, p, n);
        var d1 := DropLink(DeleteName(d, p, n), c);
        StampRemovedLinks(d1, c, p, now);
        SameTypes(d1.inodes, RemoveDirEntry(d, p, n, now).value.inodes);
      }
    }
  }

  lemma MoveShows(d: IndexData, sp: Ino, sn: string, dp: Ino, dn: string, c: Ino, now: int)
    requires sp in d.dirs && dp in d.dirs
    ensures ShapeOf(MoveName(d, sp, sn, dp, dn, c, now)) ==
            ShapeOf(d).(entries := (Entries(d.dirs) - {(sp, sn)})[(dp, dn) := c])
  {
    MoveNameEntries(d, sp, sn, dp, dn, c, now);
    StampMoveLinks(d, c, sp, dp, now);
    SameTypes(d.inodes, MoveName(d, sp, sn, dp, dn, c, now).inodes);
  }

  /** After the moved entry has taken the place of the old one, the old file goes as it would have before. */
  lemma ForgetCommutes(n: Shape, src: EntryName, dst: EntryName)
    requires src in n.entries && dst in n.entries && src != dst
    ensures var c, dead := n.entries[src], n.entries[dst];
            var gone := Forget(n.(entries := n.entries - {dst}), dead);
            gone.(entries := (gone.entries - {src})[dst := c]) ==
            Forget(n.(entries := (n.entries - {src})[dst := c]), dead)
  {
    var c, dead := n.entries[src], n.entries[dst];
    var e1, e2 := n.entries - {dst}, (n.entries - {src})[dst := c];
    assert (e1 - {src})[dst := c] == e2;
    if Refs(e1, dead) != {} {
      var x :| x in Refs(e1, dead);
      assert (if x == src then dst else x) in Refs(e2, dead);
    }
    if Refs(e2, dead) != {} {
      var x :| x in Refs(e2, dead);
      assert (if x == dst then src else x) in Refs(e1, dead);
    }
  }

  lemma RenameOverShows(d: IndexData, sp: Ino, sn: string, dp: Ino, dn: string, now: int)
    requires LinkOk(d) && Rename(d, sp, sn, dp, dn, now).Some?
    requires dp in d.dirs && dn in d.dirs[dp] && (sp, sn) != (dp, dn)
    ensures ShapeOf(Rename(d, sp, sn, dp, dn, now).value) == Rebind(ShapeOf(d), (sp, sn), (dp, dn))
  {
    TakenIsApart(d, sp, sn, dp, dn, now);
    MoveOverTaken(d, sp, sn, dp, dn, now);
    UnlinkedShows(d, dp, dn);
    RemovedKeepsDir(d, dp, dn, sp);
    RemovedKeepsDir(d, dp, dn, dp);
    var d1 := DropLink(DeleteName(d, dp, dn), d.dirs[dp][dn]);
    MoveShows(d1, sp, sn, dp, dn, d.dirs[sp][sn], now);
    EntryIff(d, sp, sn);
    EntryIff(d, dp, dn);
    OccupiedIff(d, d.dirs[dp][dn]);
    ForgetCommutes(ShapeOf(d), (sp, sn), (dp, dn));
  }

  lemma RenameShows(d: IndexData, sp: Ino, sn: string, dp: Ino, dn: string, now: int)
    requires LinkOk(d) && (Rename(d, sp, sn, dp, dn, now).Some? ==> IsDir(d, dp) && (sp, sn) != (dp, dn))
    ensures var r := Rename(d, sp, sn, dp, dn, now);
            ShapeOf(if r.Some? then r.value else d) == Rebind(ShapeOf(d), (sp, sn), (dp, dn))
  {
    EntryIff(d, sp, sn);
    EntryIff(d, dp, dn);
    if Rename(d, sp, sn, dp, dn, now).None? {
      if dn in ChildrenOf(d, dp) {
        EntryChild(d, dp, dn);
        OccupiedIff(d, ChildrenOf(d, dp)[dn]);
      }
    } else if dn in ChildrenOf(d, dp) {
      RenameOverShows(d, sp, sn, dp, dn, now);
    } else {
      EntryChild(d, sp, sn);
      MoveShows(d, sp, sn, dp, dn, d.dirs[sp][sn], now);
    }
  }

  lemma XattrShows(d: IndexData, i: Ino, attrs: map<string, string>, now: int)
    requires i in d.inodes
    ensures ShapeOf(d.(xattrs := d.xattrs[i := attrs], inodes := StampCtime(d.inodes, i, now))) ==
            ShapeOf(d).(xattrs := d.xattrs[i := attrs])
  {
    StampCtimeLinks(d, i, now);
    SameTypes(d.inodes, StampCtime(d.inodes, i, now));
  }

  /** Every operation on names that passes `MetaOk` does what the reference does with it. */
  lemma MetaShows(d: IndexData, m: MetaOp, blockSize: int)
    requires LinkOk(d) && (ApplyMeta(d, m, blockSize).Some? ==> Defined(d, m) && MetaOk(d, m))
    ensures var r := ApplyMeta(d, m, blockSize);
            ShapeOf(if r.Some? then r.value else d) == RefMeta(ShapeOf(d), m)
  {
    match m
    case MakeNode(p, n, t, mode, uid, gid, now) => MakeShows(d, p, n, t, mode, uid, gid, now, blockSize);
    case MakeSymlink(p, n, target, uid, gid, now) => MakeLinkShows(d, p, n, target, uid, gid, now, blockSize);
    case Link(p, n, c, now) =>
      if c in d.inodes && !IsDir(d, c) {
        BindShows(d, p, n, c, now);
      }
    case Remove(p, n, now) => RemoveShows(d, p, n, now);
    case Move(sp, sn, dp, dn, now) => RenameShows(d, sp, sn, dp, dn, now);
    case PutXattr(i, n, v, now) =>
      if i in d.inodes {
        XattrShows(d, i, XattrsOf(d, i)[n := v], now);
      }
    case DropXattr(i, n, now) =>
      if i in d.inodes && n in XattrsOf(d, i) {
        XattrShows(d, i, XattrsOf(d, i) - {n}, now);
      }
  }

  lemma MakeStats(d: IndexData, p: Ino, n: string, t: FileType, mode: nat, uid: nat, gid: nat, now: int, blk: int)
    requires LinkOk(d)
    ensures StatsOf(MakeNamed(d, p, n, t, mode, uid, gid, now, blk).inodes) ==
            RefMake(ShapeOf(d), StatsOf(d.inodes), (p, n), t, Stat(mode, uid, gid, 0, now, now, now), now)
  {
    CreateShows(d, t, mode, uid, gid, now, blk);
    CreateStats(d, t, mode, uid, gid, now, blk);
    var d1 := CreateInode(d, t, mode, uid, gid, 0, now, blk);
    FreeIff(d1, p, n);
    if AddDirEntry(d1, p, n, d.nextIno, now).Some? {
      AddDirEntryStats(d1, p, n, d.nextIno, now);
    }
  }

  /** The size is set after the stamps. */
  lemma SizedStamped(st: Stats, x: Ino, i: Ino, made: Stat, size: nat, now: int)
    requires made.ctime == now
    ensures var st1 := Stamped(st[i := made], {x}, {x, i}, now);
            i in st1 && st1[i := st1[i].(size := size, ctime := now)] ==
                        Stamped(st[i := made.(size := size)], {x}, {x, i}, now)
  {
  }

  lemma TargetStats(d: IndexData, st: Stats, p: Ino, i: Ino, target: string, uid: nat, gid: nat, now: int)
    requires i in d.inodes && d.inodes[i].fileType == SYMLINK
    requires StatsOf(d.inodes) == Stamped(st[i := Stat(0x1FF, uid, gid, 0, now, now, now)], {p}, {p, i}, now)
    ensures StatsOf(SetSymlink(d, i, target, now).value.inodes) ==
            Stamped(st[i := Stat(0x1FF, uid, gid, |target|, now, now, now)], {p}, {p, i}, now)
  {
    SetSymlinkStats(d, i, target, now);
    SizedStamped(st, p, i, Stat(0x1FF, uid, gid, 0, now, now, now), |target|, now);
    assert StatsOf(d.inodes)[i] == StatOf(d.inodes[i]);
  }

  lemma MakeLinkStats(d: IndexData, p: Ino, n: string, target: string, uid: nat, gid: nat, now: int, blk: int)
    requires LinkOk(d)
    ensures StatsOf(MakeNamedSymlink(d, p, n, target, uid, gid, now, blk).inodes) ==
            RefStats(ShapeOf(d), StatsOf(d.inodes), MakeSymlink(p, n, target, uid, gid, now))
  {
    MakeStats(d, p, n, SYMLINK, 0x1FF, uid, gid, now, blk);
    CreateShows(d, SYMLINK, 0x1FF, uid, gid, now, blk);
    var d1 := CreateInode(d, SYMLINK, 0x1FF, uid, gid, 0, now, blk);
    var d2 := MakeNamed(d, p, n, SYMLINK, 0x1FF, uid, gid, now, blk);
    FreeIff(d1, p, n);
    if AddDirEntry(d1, p, n, d.nextIno, now).Some? {
      MakeFields(d, p, n, SYMLINK, 0x1FF, uid, gid, now, blk);
      TargetStats(d2, StatsOf(d.inodes), p, d.nextIno, target, uid, gid, now);
    }
  }

  lemma RemovableIff(d: IndexData, p: Ino, n: string, now: int)
    requires LinkOk(d)
    ensures RemoveDirEntry(d, p, n, now).Some? <==> Removable(ShapeOf(d), (p, n))
    ensures n in ChildrenOf(d, p) ==> (p, n) in Entries(d.dirs) && Entries(d.dirs)[(p, n)] == ChildrenOf(d, p)[n]
  {
    EntryIff(d, p, n);
    if n in ChildrenOf(d, p) {
      EntryChild(d, p, n);
      OccupiedIff(d, ChildrenOf(d, p)[n]);
    }
  }

  lemma RemoveShowsStats(d: IndexData, p: Ino, n: string, now: int)
    requires LinkOk(d)
    ensures var r := RemoveDirEntry(d, p, n, now);
            StatsOf((if r.Some? then r.value else d).inodes) ==
            RefStats(ShapeOf(d), StatsOf(d.inodes), Remove(p, n, now))
  {
    RemovableIff(d, p, n, now);
    RemoveShows(d, p, n, now);
    if RemoveDirEntry(d, p, n, now).Some? {
      RemoveStats(d, p, n, now);
      var d' := RemoveDirEntry(d, p, n, now).value;
      assert d'.inodes.Keys == Types(d'.inodes).Keys;
    }
  }

  lemma RenameShowsStats(d: IndexData, sp: Ino, sn: string, dp: Ino, dn: string, now: int)
    requires LinkOk(d) && (Rename(d, sp, sn, dp, dn, now).Some? ==> IsDir(d, dp) && (sp, sn) != (dp, dn))
    ensures var r := Rename(d, sp, sn, dp, dn, now);
            StatsOf((if r.Some? then r.value else d).inodes) ==
            RefStats(ShapeOf(d), StatsOf(d.inodes), Move(sp, sn, dp, dn, now))
  {
    EntryIff(d, sp, sn);
    EntryIff(d, dp, dn);
    RenameShows(d, sp, sn, dp, dn, now);
    if dn in ChildrenOf(d, dp) {
      EntryChild(d, dp, dn);
      OccupiedIff(d, ChildrenOf(d, dp)[dn]);
    }
    if Rename(d, sp, sn, dp, dn, now).Some? {
      RenameStats(d, sp, sn, dp, dn, now);
      var d' := Rename(d, sp, sn, dp, dn, now).value;
      assert d'.inodes.Keys == Types(d'.inodes).Keys;
    }
  }

  lemma LinkShowsStats(d: IndexData, p: Ino, n: string, c: Ino, now: int)
    requires LinkOk(d)
    ensures var r := LinkNamed(d, p, n, c, now);
            StatsOf((if r.Some? then r.value else d).inodes) ==
            RefStats(ShapeOf(d), StatsOf(d.inodes), Link(p, n, c, now))
  {
    FreeIff(d, p, n);
    if LinkNamed(d, p, n, c, now).Some? {
      AddDirEntryStats(d, p, n, c, now);
    }
  }

  /** And every such operation leaves the attributes that the reference computes. */
  lemma MetaShowsStats(d: IndexData, m: MetaOp, blockSize: int)
    requires LinkOk(d) && (ApplyMeta(d, m, blockSize).Some? ==> Defined(d, m) && MetaOk(d, m))
    ensures var r := ApplyMeta(d, m, blockSize);
            StatsOf((if r.Some? then r.value else d).inodes) == RefStats(ShapeOf(d), StatsOf(d.inodes), m)
  {
    match m
    case MakeNode(p, n, t, mode, uid, gid, now) => MakeStats(d, p, n, t, mode, uid, gid, now, blockSize);
    case MakeSymlink(p, n, target, uid, gid, now) => MakeLinkStats(d, p, n, target, uid, gid, now, blockSize);
    case Link(p, n, c, now) => LinkShowsStats(d, p, n, c, now);
    case Remove(p, n, now) => RemoveShowsStats(d, p, n, now);
    case Move(sp, sn, dp, dn, now) => RenameShowsStats(d, sp, sn, dp, dn, now);
    case PutXattr(i, _, _, now) => StampStats(d.inodes, i, now);
    case DropXattr(i, _, now) => StampStats(d.inodes, i, now);
  }

  // ---- Every step ----

  lemma LiveIsRegular(d: IndexData)
    requires KeysOk(d)
    ensures d.extents.Keys == Regulars(Types(d.inodes))
  {
  }

  /** The capacity check adds up what the reference adds up. */
  lemma UsedIsLengths(d: IndexData, v: View)
    requires DataOk(d, v)
    ensures SizesOf(d.inodes) == Lengths(Files(d, v))
    ensures forall i | i in d.extents :: |Files(d, v)[i]| == SizeOf(d, i)
  {
    forall i | i in d.extents ensures |Files(d, v)[i]| == SizeOf(d, i) {
      assert ListOk(d.extents[i], SizeOf(d, i), v);
    }
  }

  lemma AcceptedIff(s: Fs, op: Op)
    requires Inv(s) && op.Write?
    ensures var r := Shown(s);
            Accepted(s, op) <==> op.ino in r.now.files && Fits(r, op.ino, op.off + |op.data|) && Took(s, op)
  {
    UsedIsLengths(s.idx, FsView(s));
    assert op.ino in s.idx.extents <==> IsRegular(s.idx, op.ino);
  }

  lemma SameShape(d: IndexData, d': IndexData)
    requires SameLinks(d, d') && d'.symlinks == d.symlinks && d'.xattrs == d.xattrs
    ensures ShapeOf(d') == ShapeOf(d)
  {
    SameTypes(d.inodes, d'.inodes);
  }

  lemma DataOpFrame(s: Fs, op: Op)
    requires DataOp(op)
    ensures var t := Step(s, op);
            t.idx.symlinks == s.idx.symlinks && t.idx.xattrs == s.idx.xattrs && t.maxFsSize == s.maxFsSize
  {
  }

  lemma DataOpShape(s: Fs, op: Op)
    requires Owned(s.idx) && DataOp(op)
    ensures var t := Step(s, op);
            ShapeOf(t.idx) == ShapeOf(s.idx) && SameCopies(s, t) && t.maxFsSize == s.maxFsSize
  {
    DataStepLinks(s, op);
    DataOpFrame(s, op);
    SameShape(s.idx, Step(s, op).idx);
  }

  lemma MetaRefines(s: Fs, op: Op)
    requires Inv(s) && LinkInv(s) && LinkOpOk(s, op) && op.Meta?
    ensures Shown(Step(s, op)) == RefStep(Shown(s), op, true)
  {
    StepSimulates(s, op);
    MetaShows(s.idx, op.meta, s.blockSize);
    MetaShowsStats(s.idx, op.meta, s.blockSize);
    LiveIsRegular(Step(s, op).idx);
  }

  /** What a data operation does to the bytes. */
  lemma DataOpBytes(s: Fs, op: Op)
    requires Inv(s) && OpOk(s, op) && DataOp(op)
    ensures Abs(Step(s, op)) == Abs(s).(files := RefStep(Shown(s), op, Took(s, op)).now.files)
  {
    StepSimulates(s, op);
    if op.Write? {
      AcceptedIff(s, op);
    }
  }

  lemma WriteOpStats(s: Fs, op: Op)
    requires Inv(s) && op.Write?
    ensures StatsOf(Step(s, op).idx.inodes) ==
            if Accepted(s, op) then RefWritten(StatsOf(s.idx.inodes), op.ino, op.off + |op.data|, op.now)
            else StatsOf(s.idx.inodes)
  {
    WriteStepIndex(s, op);
    AppendKeeps(s.chunks, s.objects, op.data, op.off, op.put);
    if Accepted(s, op) {
      var w := Append(s.chunks, s.objects, op.data, op.off, op.put).result.value;
      WriteStats(s.idx, op.ino, w, op.now, op.fm);
    }
  }

  lemma AttrOpStats(s: Fs, op: Op)
    requires op.ChangeAttr? || op.Touch? || op.Remap?
    ensures StatsOf(Step(s, op).idx.inodes) ==
            if op.ChangeAttr? then RefAlter(StatsOf(s.idx.inodes), op.ino, op.change, op.now)
            else if op.Touch? then RefTouch(StatsOf(s.idx.inodes), op.ino, op.now) else StatsOf(s.idx.inodes)
  {
    if op.ChangeAttr? && op.ino in s.idx.inodes {
      SetAttrStats(s.idx, op.ino, op.change, op.now);
    } else if op.Touch? && op.ino in s.idx.inodes {
      TouchStats(s.idx, op.ino, op.now);
    }
  }

  /** What a data operation does to the attributes. */
  lemma DataOpStats(s: Fs, op: Op)
    requires Inv(s) && DataOp(op)
    ensures StatsOf(Step(s, op).idx.inodes) == RefStep(Shown(s), op, Took(s, op)).now.stats
  {
    if op.Write? {
      AcceptedIff(s, op);
      WriteOpStats(s, op);
    } else {
      AttrOpStats(s, op);
    }
  }

  lemma DataOpRefines(s: Fs, op: Op)
    requires Inv(s) && OpOk(s, op) && LinkInv(s) && DataOp(op)
    ensures Shown(Step(s, op)) == RefStep(Shown(s), op, Took(s, op))
  {
    DataOpBytes(s, op);
    DataOpStats(s, op);
    DataOpShape(s, op);
  }

  lemma FreshShows(now: int, blockSize: int)
    ensures ImageOf(NewIndex(now, blockSize), map[]) == Fresh(now)
  {
    FreshLinks(now, blockSize);
  }

  lemma RestartRefines(s: Fs, op: Op)
    requires Inv(s) && OpOk(s, op) && op.Restart?
    ensures Shown(Step(s, op)) == RefStep(Shown(s), op, true)
  {
    StepSimulates(s, op);
    FreshShows(op.now, op.config.blockSize);
  }

  lemma PersistRefines(s: Fs, op: Op)
    requires Inv(s) && OpOk(s, op) && (op.EncodeIndex? || op.PutIndex?)
    ensures Shown(Step(s, op)) == RefStep(Shown(s), op, true)
  {
    StepSimulates(s, op);
  }

  predicate Silent(op: Op) {
    !op.Meta? && !DataOp(op) && !TouchesHand(op)
  }

  lemma SilentFrame(s: Fs, op: Op)
    requires Silent(op)
    ensures var t := Step(s, op);
            && t.idx == s.idx && t.durable == s.durable && t.maxFsSize == s.maxFsSize
            && (t.remote.InHand? <==> s.remote.InHand?) && (s.remote.InHand? ==> t.remote == s.remote)
  {
  }

  lemma SilentBytes(s: Fs, op: Op)
    requires Inv(s) && OpOk(s, op) && Silent(op)
    ensures Abs(Step(s, op)) == Abs(s)
  {
    StepSimulates(s, op);
  }

  /** What neither the names nor the bytes show. */
  lemma SilentRefines(s: Fs, op: Op)
    requires Inv(s) && OpOk(s, op) && Silent(op)
    ensures Shown(Step(s, op)) == Shown(s)
  {
    SilentFrame(s, op);
    SilentBytes(s, op);
  }

  /** Every step of the stack is the step of the reference. */
  lemma StepRefines(s: Fs, op: Op)
    requires Inv(s) && OpOk(s, op) && LinkInv(s) && LinkOpOk(s, op)
    ensures Shown(Step(s, op)) == RefStep(Shown(s), op, Took(s, op))
  {
    if op.Meta? {
      MetaRefines(s, op);
    } else if DataOp(op) {
      DataOpRefines(s, op);
    } else if op.Restart? {
      RestartRefines(s, op);
    } else if op.EncodeIndex? || op.PutIndex? {
      PersistRefines(s, op);
    } else {
      SilentRefines(s, op);
    }
  }

  // ---- Every run ----

  ghost predicate LinkRunOk(s: Fs, ops: seq<Op>)
    decreases |ops|
  {
    ops == [] || (LinkOpOk(s, ops[0]) && LinkRunOk(Step(s, ops[0]), ops[1..]))
  }

  /** What the store said to each operation of the run. */
  ghost function Answers(s: Fs, ops: seq<Op>): (took: seq<bool>)
    ensures |took| == |ops|
    decreases |ops|
  {
    if ops == [] then [] else [Took(s, ops[0])] + Answers(Step(s, ops[0]), ops[1..])
  }

  ghost function RefRun(r: Ref, ops: seq<Op>, took: seq<bool>): Ref
    requires |took| == |ops|
    decreases |ops|
  {
    if ops == [] then r else RefRun(RefStep(r, ops[0], took[0]), ops[1..], took[1..])
  }

  lemma {:induction false} RunRefines(s: Fs, ops: seq<Op>)
    requires Inv(s) && RunOk(s, ops) && LinkInv(s) && LinkRunOk(s, ops)
    ensures Inv(Run(s, ops)) && LinkInv(Run(s, ops))
    ensures Shown(Run(s, ops)) == RefRun(Shown(s), ops, Answers(s, ops))
    decreases |ops|
  {
    if ops == [] {
    } else {
      StepKeeps(s, ops[0]);
      LinkStep(s, ops[0]);
      StepRefines(s, ops[0]);
      RunRefines(Step(s, ops[0]), ops[1..]);
      assert Answers(s, ops)[1..] == Answers(Step(s, ops[0]), ops[1..]);
    }
  }

  // ---- From the first mount on ----

  lemma MountHolds(c: Config, now: int)
    ensures var s := Mount(c, now);
            && Inv(s) && NameInv(s) && CapInv(s) && FlagInv(s, Since(true, true)) && StorePrinted(s) && SizesInv(s)
            && Shown(s) == Ref(Fresh(now), None, None, c.maxFsSize)
  {
    MountInv(c, now);
    FreshLinks(now, c.blockSize);
    FreshTree(now, c.blockSize);
    FreshUses(now, c.blockSize);
    FreshFlags(Mount(c, now), now);
    FreshShows(now, c.blockSize);
    FreshSizes(now, c.blockSize);
  }

  /**
   Every run from a fresh mount shows, and would restore after a crash, exactly
   the names, types, permissions, owners, sizes, times, bytes, targets and
   extended attributes of the reference run.
   */
  lemma FilesystemRefines(c: Config, now: int, ops: seq<Op>)
    requires RunOk(Mount(c, now), ops) && LinkRunOk(Mount(c, now), ops)
    ensures var s := Mount(c, now);
            && Inv(Run(s, ops)) && LinkInv(Run(s, ops))
            && Shown(Run(s, ops)) == RefRun(Ref(Fresh(now), None, None, c.maxFsSize), ops, Answers(s, ops))
  {
    MountHolds(c, now);
    RunRefines(Mount(c, now), ops);
  }
}
