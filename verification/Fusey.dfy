/**
 The file system layer: file handles and the operations on names, composed from
 index and chunk store calls.  Every method is proved to be a step of the whole
 machine, so what holds of its runs holds of every sequence of calls.
 */
module FuseyLayer {
  import opened Base
  import opened Extents
  import opened IndexModel
  import opened FileData
  import opened ChunkModel
  import opened ChunkStores
  import opened Names
  import opened Filesystem
  import opened Attributes
  import opened Indexes

  datatype Errno = OK | ENOENT | EEXIST | ENOTDIR | ENOTEMPTY | EPERM | ENOSPC | EIO

  /** The directory that holds the local index snapshot; while `up` holds, every write to it works. */
  class CacheDir {
    var snapshot: Option<IndexData>
    var up: bool

    constructor (up: bool)
      ensures snapshot.None? && this.up == up
    {
      snapshot := None;
      this.up := up;
    }

    /** Replaces the snapshot atomically, or leaves the previous one. */
    method Replace(d: IndexData) returns (ok: bool)
      modifies `snapshot
      ensures snapshot == if ok then Some(d) else old(snapshot)
      ensures up ==> ok
    {
      var luck: bool := *;
      ok := up || luck;
      if ok {
        snapshot := Some(d);
      }
    }
  }

  /** The part of a file that a read of `len` bytes at `off` returns. */
  function Window(c: Bytes, off: nat, len: nat): (r: Bytes)
    ensures |r| == Max(0, Min(len, |c| - off)) && forall k | 0 <= k < |r| :: r[k] == c[off + k]
  {
    if off >= |c| then [] else c[off..Min(off + len, |c|)]
  }

  /** The attributes that a caller asks to set: mode with its type bits, times in seconds and nanoseconds. */
  datatype SetAttrIn = SetAttrIn(
    mode: Option<nat>, uid: Option<nat>, gid: Option<nat>, size: Option<nat>,
    atime: Option<(nat, nat)>, mtime: Option<(nat, nat)>)

  /** The bits of a mode word that tell the file type. */
  function TypeBits(mode: nat): nat {
    mode / 0x1000 % 0x10
  }

  function WithoutType(mode: nat): (m: nat)
    ensures TypeBits(m) == 0 && m % 0x1000 == mode % 0x1000 && m / 0x10000 == mode / 0x10000
  {
    mode / 0x10000 * 0x10000 + mode % 0x1000
  }

  function Nanos(t: Option<(nat, nat)>): Option<int> {
    if t.Some? then Some(t.value.0 * 1_000_000_000 + t.value.1) else None
  }

  function ToChange(a: SetAttrIn): AttrChange {
    AttrChange(if a.mode.Some? then Some(WithoutType(a.mode.value)) else None, a.uid, a.gid, a.size,
               Nanos(a.atime), Nanos(a.mtime))
  }

  /** A time as given, in seconds and nanoseconds, or as it was. */
  predicate TimeSet(given: Option<(nat, nat)>, was: int, t: int) {
    if given.Some? then t == given.value.0 * 1_000_000_000 + given.value.1 else t == was
  }

  /** The permission bits as given and no type bits, or the mode as it was. */
  predicate ModeSet(given: Option<nat>, was: nat, mode: nat) {
    if given.Some?
    then TypeBits(mode) == 0 && mode % 0x1000 == given.value % 0x1000 && mode / 0x10000 == given.value / 0x10000
    else mode == was
  }

  /** An inode whose attributes have been set as requested, field by field. */
  predicate AttrsSet(n: Inode, n': Inode, a: SetAttrIn, now: int) {
    && ModeSet(a.mode, n.mode, n'.mode)
    && (n'.uid == if a.uid.Some? then a.uid.value else n.uid)
    && (n'.gid == if a.gid.Some? then a.gid.value else n.gid)
    && (n'.size == if a.size.Some? then a.size.value else n.size)
    && TimeSet(a.atime, n.atime, n'.atime) && n'.ctime == now
    && (if n'.size == n.size then TimeSet(a.mtime, n.mtime, n'.mtime) && n'.blocks == n.blocks
        else n'.mtime == now && BlocksHold(n'))
    && n'.ino == n.ino && n'.fileType == n.fileType && n'.nlink == n.nlink && n'.blksize == n.blksize
    && n'.rdev == n.rdev
  }

  lemma SetsAttrs(n: Inode, a: SetAttrIn, now: int)
    ensures AttrsSet(n, WithAttrs(n, ToChange(a), now), a, now)
  {
    var n' := WithAttrs(n, ToChange(a), now);
    if Resizes(n, ToChange(a)) {
      Blocks512Hold(n');
    }
  }

  lemma SetsFields(d: IndexData, i: Ino, a: SetAttrIn, now: int)
    requires i in d.inodes
    ensures var d' := SetAttr(d, i, ToChange(a), now).value;
            OthersKept(d.inodes, d'.inodes, i, None, now) && AttrsSet(d.inodes[i], d'.inodes[i], a, now)
  {
    SetsAttrs(d.inodes[i], a, now);
  }

  /** The byte of the file at `p`, after the extent `x` has been copied over what was there. */
  function Over(x: Extent, v: View, p: nat, was: Byte): Byte {
    if Covers(x, p) then ChunkByte(v, x.chunkId, x.chunkOffset + (p - x.fileOffset)) else was
  }

  lemma OverIsNext(exts: seq<Extent>, k: nat, v: View, p: nat)
    requires k < |exts|
    ensures Over(exts[k], v, p, ByteAt(exts[..k], v, p)) == ByteAt(exts[..k + 1], v, p)
  {
    assert exts[..k + 1] == exts[..k] + [exts[k]];
    ByteAtSnoc(exts[..k], exts[k], v, p);
  }

  lemma ShowsNext(buf: Bytes, buf': Bytes, exts: seq<Extent>, k: nat, v: View, off: nat)
    requires k < |exts| && ShowsFile(buf, exts[..k], v, off) && |buf'| == |buf|
    requires forall i | 0 <= i < |buf| :: buf'[i] == Over(exts[k], v, off + i, buf[i])
    ensures ShowsFile(buf', exts[..k + 1], v, off)
  {
    forall i | 0 <= i < |buf'| ensures buf'[i] == ByteAt(exts[..k + 1], v, off + i) {
      OverIsNext(exts, k, v, off + i);
    }
  }

  class Fusey {
    const idx: Index
    const cs: ChunkStore
    const cacheDir: CacheDir
    const maxFsSize: nat
    ghost var remote: Slot   // how far a persist towards the store has come
    ghost var local: Slot    // and one towards the local file

    ghost function State(): Fs
      reads this, idx, cs, cs.store, cacheDir
    {
      Fs(idx.Data(), idx.dirty, idx.remoteDirty, cs.State(), cs.store.objects, cs.store.index, cacheDir.snapshot,
         remote, local, maxFsSize, idx.blockSize)
    }

    /** The invariant of the whole machine, and that of the cache beside it. */
    ghost predicate Valid()
      reads this, idx, cs, cs.store, cacheDir
    {
      Inv(State()) && cs.Valid()
    }

    constructor (idx: Index, cs: ChunkStore, cacheDir: CacheDir, maxFsSize: nat)
      ensures this.idx == idx && this.cs == cs && this.cacheDir == cacheDir && this.maxFsSize == maxFsSize
      ensures remote == Idle && local == Idle
    {
      this.idx, this.cs, this.cacheDir, this.maxFsSize := idx, cs, cacheDir, maxFsSize;
      remote, local := Idle, Idle;
    }

    static lemma PartIsOver(x: Extent, v: View, start: nat, end: nat, part: Bytes)
      requires InView(x, v) && x.fileOffset <= start <= end <= x.End()
      requires ReadChunk(v, x.chunkId, x.chunkOffset + (start - x.fileOffset), end - start) == Some(part)
      ensures |part| == end - start && forall i | 0 <= i < end - start :: part[i] == Over(x, v, start + i, 0)
    {
    }

    /** The bytes [start, end) of the file, which lie in one extent. */
    method ReadPart(x: Extent, start: nat, end: nat, ghost v: View) returns (r: Option<Bytes>)
      requires cs.Valid() && v == cs.View() && InView(x, v) && x.fileOffset <= start <= end <= x.End()
      modifies cs`files
      ensures cs.Valid()
      ensures r.Some? ==> |r.value| == end - start
      ensures r.Some? ==> forall i | 0 <= i < end - start :: r.value[i] == Over(x, v, start + i, 0)
      ensures cs.Reachable() ==> r.Some?
    {
      r := cs.Read(x.chunkId, x.chunkOffset + (start - x.fileOffset), end - start);
      if r.Some? {
        PartIsOver(x, v, start, end, r.value);
      }
    }

    /** Copies into the buffer for [off, end) what one extent holds of it. */
    method CopyExtent(x: Extent, buf: array<Byte>, off: nat, end: nat, ghost v: View) returns (ok: bool)
      requires cs.Valid() && v == cs.View() && InView(x, v)
      requires off <= end && buf.Length == end - off
      modifies buf, cs`files
      ensures cs.Valid() && v == cs.View()
      ensures ok ==> forall i | 0 <= i < end - off :: buf[..][i] == Over(x, v, off + i, old(buf[..])[i])
      ensures cs.Reachable() ==> ok
    {
      if x.End() <= off || x.fileOffset >= end {
        return true;
      }
      var readStart := Max(off, x.fileOffset);
      var readEnd := Min(end, x.End());
      var part := ReadPart(x, readStart, readEnd, v);
      if part.None? {
        return false;
      }
      forall i | 0 <= i < readEnd - readStart {
        buf[readStart - off + i] := part.value[i];
      }
      ok := true;
    }

    method CopyNext(exts: seq<Extent>, k: nat, buf: array<Byte>, off: nat, end: nat, ghost v: View)
      returns (ok: bool)
      requires k < |exts| && cs.Valid() && v == cs.View() && InView(exts[k], v)
      requires off <= end && buf.Length == end - off && ShowsFile(buf[..], exts[..k], v, off)
      modifies buf, cs`files
      ensures cs.Valid() && v == cs.View() && (ok ==> ShowsFile(buf[..], exts[..k + 1], v, off))
      ensures cs.Reachable() ==> ok
    {
      ghost var was := buf[..];
      ok := CopyExtent(exts[k], buf, off, end, v);
      if ok {
        ShowsNext(was, buf[..], exts, k, v, off);
      }
    }

    /** Fills a zeroed buffer for [off, end) from the extents, in list order. */
    method FillBuffer(exts: seq<Extent>, off: nat, end: nat, ghost v: View) returns (r: Option<Bytes>)
      requires cs.Valid() && v == cs.View() && off <= end && forall k | 0 <= k < |exts| :: InView(exts[k], v)
      modifies cs`files
      ensures cs.Valid()
      ensures r.Some? ==> |r.value| == end - off && ShowsFile(r.value, exts, v, off)
      ensures cs.Reachable() ==> r.Some?
    {
      var buf := new Byte[end - off](_ => 0);
      assert ShowsFile(buf[..], exts[..0], v, off);
      for k := 0 to |exts|
        invariant cs.Valid() && v == cs.View() && ShowsFile(buf[..], exts[..k], v, off)
        modifies buf, cs`files
      {
        var ok := CopyNext(exts, k, buf, off, end, v);
        if !ok {
          return None;
        }
      }
      assert exts[..|exts|] == exts;
      r := Some(buf[..]);
    }

    static lemma Readable(s: Fs, ino: Ino)
      requires Inv(s) && ino in s.idx.extents
      ensures forall k | 0 <= k < |s.idx.extents[ino]| :: InView(s.idx.extents[ino][k], FsView(s))
    {
      assert ListOk(s.idx.extents[ino], SizeOf(s.idx, ino), FsView(s));
    }

    static lemma WindowFilled(exts: seq<Extent>, size: nat, v: View, off: nat, len: nat, data: Bytes)
      requires off < size && |data| == Min(off + len, size) - off
      requires ShowsFile(data, exts, v, off)
      ensures data == Window(Content(exts, size, v), off, len)
    {
    }

    /** The bytes of a read, or none if the store does not answer. */
    method ReadBytes(ino: Ino, len: nat, off: nat) returns (r: Option<Bytes>)
      requires Valid() && ino in idx.inodes && ino in idx.extents && off < idx.inodes[ino].size
      modifies cs`files
      ensures Valid() && State() == old(State())
      ensures r.Some? ==> r.value == Window(Files(idx.Data(), cs.View())[ino], off, len)
      ensures cs.Reachable() ==> r.Some?
    {
      Readable(State(), ino);
      var size := idx.inodes[ino].size;
      var end := off + len;
      if end > size {
        end := size;
      }
      r := FillBuffer(idx.extents[ino], off, end, cs.View());
      if r.Some? {
        WindowFilled(idx.extents[ino], size, cs.View(), off, len, r.value);
      }
    }

    /**
     A read of a regular file, through the cache, is exactly that part of its
     bytes, and succeeds on every live inode while store and cache disk are up.
     */
    method Read(ino: Ino, len: nat, off: nat, now: int) returns (e: Errno, data: Bytes)
      requires Valid()
      modifies idx, cs`files
      ensures e == OK ==>
                data == if ino in old(State()).idx.extents then Window(old(Abs(State())).files[ino], off, len) else []
      ensures e == ENOENT <==> ino !in old(State()).idx.inodes
      ensures cs.Reachable() && ino in old(State()).idx.inodes ==> e == OK
      ensures var s := old(State());
              State() == if e == OK && ino in s.idx.extents && off < SizeOf(s.idx, ino) then Step(s, Touch(ino, now))
                         else s
      ensures cs.Valid()
    {
      if ino !in idx.inodes {
        return ENOENT, [];
      }
      if off >= idx.inodes[ino].size || ino !in idx.extents {
        return OK, [];
      }
      var r := ReadBytes(ino, len, off);
      if r.None? {
        return EIO, [];
      }
      data := r.value;
      idx.TouchAtime(ino, now);
      e := OK;
    }

    /** Only bytes beyond the present end of the file are charged against the limit. */
    method Admit(ino: Ino, newEnd: nat) returns (e: Errno)
      ensures e == ENOENT <==> ino !in State().idx.inodes
      ensures e == OK <==> ino in State().idx.inodes && HasRoom(State(), ino, newEnd)
      ensures e == ENOSPC <==> ino in State().idx.inodes && !HasRoom(State(), ino, newEnd)
    {
      if ino !in idx.inodes {
        return ENOENT;
      }
      if newEnd > idx.inodes[ino].size {
        var delta := newEnd - idx.inodes[ino].size;
        var used := idx.UsedBytes();
        if used + delta > maxFsSize {
          return ENOSPC;
        }
      }
      e := OK;
    }

    /** Appends the data and records the extent. */
    method StoreAndRecord(ino: Ino, data: Bytes, off: nat, now: int) returns (ok: bool, ghost o: PutOutcome)
      requires cs.Valid() && ino in idx.inodes && HasRoom(State(), ino, off + |data|)
      modifies idx, cs, cs.store`objects
      ensures State() == Step(old(State()), Op.Write(ino, data, off, now, InPlace, o))
      ensures ok <==> WriteAccepted(old(State()), ino, data, off, o)
      ensures cs.Valid() && (cs.store.up ==> o.Stored?)
    {
      var ext, out, _ := cs.Append(data, off);
      o := out;
      if ext.None? {
        return false, o;
      }
      ok := idx.WriteExtent(ino, ext.value, now);
    }

    /** The calls of a write, and when they all succeed. */
    method WriteThrough(ino: Ino, data: Bytes, off: nat, now: int) returns (e: Errno, ghost o: PutOutcome)
      requires cs.Valid()
      modifies idx, cs, cs.store`objects
      ensures State() == Step(old(State()), Op.Write(ino, data, off, now, InPlace, o))
      ensures e == OK <==> WriteAccepted(old(State()), ino, data, off, o)
      ensures e == ENOENT <==> ino !in old(State()).idx.inodes
      ensures e == ENOSPC <==> ino in old(State()).idx.inodes && !HasRoom(old(State()), ino, off + |data|)
      ensures cs.Valid() && (cs.store.up ==> o.Stored?)
    {
      o := Stored;
      e := Admit(ino, off + |data|);
      if e != OK {
        return;
      }
      var ok;
      ok, o := StoreAndRecord(ino, data, off, now);
      e := if ok then OK else EIO;
    }

    static lemma WriteOutcome(s: Fs, op: Op)
      requires Inv(s) && op.Write?
      ensures OpOk(s, op) ==>
                && Inv(Step(s, op))
                && (Accepted(s, op) ==> op.ino in Abs(s).files)
                && Abs(Step(s, op)).files ==
                   (if Accepted(s, op) then Abs(s).files[op.ino := Overlay(Abs(s).files[op.ino], op.off, op.data)]
                    else Abs(s).files)
    {
      if OpOk(s, op) {
        StepSimulates(s, op);
      }
    }

    /**
     Checks capacity, appends the data to the active chunk and records the
     extent.  The write is acknowledged exactly when it took effect, and then it
     has overlaid the data on the file, provided no extent before the last one
     contains it.
     */
    method Write(ino: Ino, data: Bytes, off: nat, now: int) returns (e: Errno, ghost o: PutOutcome)
      requires Valid()
      modifies idx, cs, cs.store`objects
      ensures State() == Step(old(State()), Op.Write(ino, data, off, now, InPlace, o))
      ensures cs.Valid() && (cs.store.up ==> o.Stored?)
      ensures e == OK <==> WriteAccepted(old(State()), ino, data, off, o)
      ensures e == ENOENT <==> ino !in old(State()).idx.inodes
      ensures e == ENOSPC <==> ino in old(State()).idx.inodes && !HasRoom(old(State()), ino, off + |data|)
      ensures OpOk(old(State()), Op.Write(ino, data, off, now, InPlace, o)) ==>
                && Inv(State())
                && (e == OK ==> ino in old(Abs(State())).files)
                && Abs(State()).files ==
                   (if e == OK then old(Abs(State())).files[ino := Overlay(old(Abs(State())).files[ino], off, data)]
                    else old(Abs(State())).files)
    {
      ghost var s := State();
      e, o := WriteThrough(ino, data, off, now);
      WriteOutcome(s, Op.Write(ino, data, off, now, InPlace, o));
    }

    /** The change that a request asks for. */
    static method Requested(a: SetAttrIn) returns (change: AttrChange)
      ensures change == ToChange(a)
    {
      var mode, atime, mtime := None, None, None;
      if a.mode.Some? {
        mode := Some(WithoutType(a.mode.value));
      }
      if a.atime.Some? {
        atime := Some(a.atime.value.0 * 1_000_000_000 + a.atime.value.1);
      }
      if a.mtime.Some? {
        mtime := Some(a.mtime.value.0 * 1_000_000_000 + a.mtime.value.1);
      }
      change := AttrChange(mode, a.uid, a.gid, a.size, atime, mtime);
    }

    /** Sets attributes; the type bits of a mode are ignored, and a size truncates up or down. */
    method Setattr(ino: Ino, a: SetAttrIn, now: int) returns (e: Errno)
      requires Inv(State())
      modifies idx
      ensures State() == Step(old(State()), ChangeAttr(ino, ToChange(a), now))
      ensures e == OK <==> ino in old(State()).idx.inodes
      ensures Inv(State())
      ensures Abs(State()).files ==
              if ino in old(Abs(State())).files && a.size.Some?
              then old(Abs(State())).files[ino := Resize(old(Abs(State())).files[ino], a.size.value)]
              else old(Abs(State())).files
      ensures var d, d' := old(State()).idx, State().idx;
              e == OK ==> && OthersKept(d.inodes, d'.inodes, ino, None, now)
                          && AttrsSet(d.inodes[ino], d'.inodes[ino], a, now)
    {
      var change := Requested(a);
      if ino in idx.inodes {
        SetsFields(idx.Data(), ino, a, now);
      }
      ChangeAttrSimulates(State(), ChangeAttr(ino, change, now));
      var ok := idx.SetAttr(ino, change, now);
      e := if ok then OK else EIO;
    }

    // ---- Names ----

    /** What the operations on names rely on, and keep. */
    ghost predicate Named()
      reads idx
    {
      LinkOk(idx.Data())
    }

    /** The parent is a directory without that name. */
    static predicate NameFree(d: IndexData, p: Ino, n: string) {
      IsDir(d, p) && n !in ChildrenOf(d, p)
    }

    /** The index calls behind Create and Mkdir, and whether the name could be added. */
    method MakeEntry(parent: Ino, name: string, fileType: FileType, perm: nat, uid: nat, gid: nat, now: int)
      returns (named: bool, ino: Ino)
      requires Named()
      modifies idx
      ensures State() == Step(old(State()), Meta(MetaOp.MakeNode(parent, name, fileType, perm, uid, gid, now)))
      ensures var d := old(idx.Data());
              && ino == d.nextIno
              && named == AddDirEntry(IndexModel.CreateInode(d, fileType, perm, uid, gid, 0, now, idx.blockSize),
                                      parent, name, ino, now).Some?
    {
      CreateInodeLinks(idx.Data(), fileType, perm, uid, gid, 0, now, idx.blockSize);
      ino := idx.CreateInode(fileType, perm, uid, gid, 0, now);
      named := idx.AddDirEntry(parent, name, ino, now);
    }

    /** Create and Mkdir: if the name is taken the new inode stays behind, unreachable. */
    method MakeNode(parent: Ino, name: string, fileType: FileType, mode: nat, uid: nat, gid: nat, now: int)
      returns (e: Errno, ino: Ino)
      requires Named()
      modifies idx
      ensures State() == Step(old(State()), Meta(MetaOp.MakeNode(parent, name, fileType, mode % 0x1000, uid, gid, now)))
      ensures ino == old(State()).idx.nextIno
      ensures parent != ino ==> (e == OK <==> NameFree(old(State()).idx, parent, name))
      ensures var d, d' := old(State()).idx, State().idx;
              && OthersKept(d.inodes, d'.inodes, ino, if e == OK then Some(parent) else None, now)
              && NewInode(d'.inodes[ino], ino, fileType, mode % 0x1000, uid, gid, now, idx.blockSize)
              && d'.inodes[ino].size == 0
              && (e == OK ==> name in ChildrenOf(d', parent) && ChildrenOf(d', parent)[name] == ino)
      ensures Named()
    {
      ghost var d := idx.Data();
      var perm := mode % 0x1000;
      MetaLinks(d, MetaOp.MakeNode(parent, name, fileType, perm, uid, gid, now), idx.blockSize);
      MakeFields(d, parent, name, fileType, perm, uid, gid, now, idx.blockSize);
      var named;
      named, ino := MakeEntry(parent, name, fileType, perm, uid, gid, now);
      e := if named then OK else EEXIST;
    }

    /** The index calls behind Symlink, and whether the name could be added. */
    method MakeLinkEntry(parent: Ino, target: string, name: string, uid: nat, gid: nat, now: int) returns (e: Errno)
      requires Named()
      modifies idx
      ensures State() == Step(old(State()), Meta(MakeSymlink(parent, name, target, uid, gid, now)))
      ensures var d := old(idx.Data());
              e == OK <==> AddDirEntry(IndexModel.CreateInode(d, SYMLINK, 0x1FF, uid, gid, 0, now, idx.blockSize),
                                       parent, name, d.nextIno, now).Some?
    {
      CreateInodeLinks(idx.Data(), SYMLINK, 0x1FF, uid, gid, 0, now, idx.blockSize);
      var ino := idx.CreateInode(SYMLINK, 0x1FF, uid, gid, 0, now);
      var ok := idx.AddDirEntry(parent, name, ino, now);
      if !ok {
        return EEXIST;
      }
      ok := idx.SetSymlink(ino, target, now);
      e := if ok then OK else EIO;
    }

    method Symlink(parent: Ino, target: string, name: string, uid: nat, gid: nat, now: int) returns (e: Errno)
      requires Named()
      modifies idx
      ensures State() == Step(old(State()), Meta(MakeSymlink(parent, name, target, uid, gid, now)))
      ensures parent != old(State()).idx.nextIno ==> (e == OK <==> NameFree(old(State()).idx, parent, name))
      ensures var d, d', i := old(State()).idx, State().idx, old(State()).idx.nextIno;
              && OthersKept(d.inodes, d'.inodes, i, if e == OK then Some(parent) else None, now)
              && NewInode(d'.inodes[i], i, SYMLINK, 0x1FF, uid, gid, now, idx.blockSize)
              && (e == OK ==> && name in ChildrenOf(d', parent) && ChildrenOf(d', parent)[name] == i
                              && i in d'.symlinks && d'.symlinks[i] == target && d'.inodes[i].size == |target|)
      ensures Named()
    {
      ghost var d := idx.Data();
      MetaLinks(d, MakeSymlink(parent, name, target, uid, gid, now), idx.blockSize);
      MakeLinkFields(d, parent, name, target, uid, gid, now, idx.blockSize);
      e := MakeLinkEntry(parent, target, name, uid, gid, now);
    }

    /** Another name for a file; the link count stays exact unless it wraps. */
    method Link(parent: Ino, target: Ino, name: string, now: int) returns (e: Errno)
      requires Named()
      modifies idx
      ensures State() == Step(old(State()), Meta(MetaOp.Link(parent, name, target, now)))
      ensures e == OK <==> target in old(State()).idx.inodes && !IsDir(old(State()).idx, target) &&
                           NameFree(old(State()).idx, parent, name)
      ensures Named() <==> (e == OK ==> old(State()).idx.inodes[target].nlink + 1 < NLINK_MODULUS)
    {
      if target !in idx.inodes {
        return ENOENT;
      }
      if idx.inodes[target].fileType == DIRECTORY {
        return EPERM;
      }
      ghost var d := idx.Data();
      if ApplyMeta(d, MetaOp.Link(parent, name, target, now), idx.blockSize).Some? {
        MetaLinks(d, MetaOp.Link(parent, name, target, now), idx.blockSize);
      }
      var ok := idx.AddDirEntry(parent, name, target, now);
      e := if ok then OK else EEXIST;
    }

    /** The entry names a live inode, and removing it keeps the links exact. */
    static lemma RemoveNamed(d: IndexData, p: Ino, n: string, now: int)
      requires LinkOk(d)
      ensures p in d.dirs && n in d.dirs[p] ==> d.dirs[p][n] in d.inodes
      ensures LinkOk(OrElse(RemoveDirEntry(d, p, n, now), d))
    {
      if p in d.dirs && n in d.dirs[p] {
        assert HasEntry(d.dirs, (p, n));
        assert Entries(d.dirs)[(p, n)] in d.inodes;
      }
      if RemoveDirEntry(d, p, n, now).Some? {
        RemoveDirEntryLinks(d, p, n, now);
      }
    }

    /** The index call behind both removals. */
    method RemoveEntry(parent: Ino, name: string, now: int) returns (ok: bool)
      requires Named()
      modifies idx
      ensures State() == Step(old(State()), Meta(Remove(parent, name, now)))
      ensures ok == RemoveDirEntry(old(State()).idx, parent, name, now).Some?
      ensures !ok ==> State() == old(State())
      ensures Named()
    {
      RemoveNamed(idx.Data(), parent, name, now);
      ok := idx.RemoveDirEntry(parent, name, now);
    }

    method Unlink(parent: Ino, name: string, now: int) returns (e: Errno)
      requires Named()
      modifies idx
      ensures State() == Step(old(State()), Meta(Remove(parent, name, now)))
      ensures e == OK <==> RemoveDirEntry(old(State()).idx, parent, name, now).Some?
      ensures Named()
    {
      var ok := RemoveEntry(parent, name, now);
      e := if ok then OK else ENOENT;
    }

    /** The entry exists and names an empty directory. */
    static predicate EmptyDirAt(d: IndexData, p: Ino, n: string) {
      && n in ChildrenOf(d, p)
      && IsDir(d, ChildrenOf(d, p)[n]) && !NonEmptyDir(d, ChildrenOf(d, p)[n])
    }

    static lemma RemovableIff(d: IndexData, p: Ino, n: string, now: int)
      requires LinkOk(d) && p in d.dirs && n in d.dirs[p]
      ensures d.dirs[p][n] in d.inodes
      ensures IsDir(d, d.dirs[p][n]) ==> (RemoveDirEntry(d, p, n, now).Some? <==> EmptyDirAt(d, p, n))
    {
      RemoveNamed(d, p, n, now);
      assert IsDir(d, p);
    }

    /** Removes an empty directory, and nothing else. */
    method Rmdir(parent: Ino, name: string, now: int) returns (e: Errno)
      requires Named()
      modifies idx
      ensures State() == if e == OK then Step(old(State()), Meta(Remove(parent, name, now))) else old(State())
      ensures e == OK <==> EmptyDirAt(old(State()).idx, parent, name)
      ensures Named()
    {
      if parent !in idx.dirs || name !in idx.dirs[parent] {
        return ENOENT;
      }
      RemovableIff(idx.Data(), parent, name, now);
      var child := idx.dirs[parent][name];
      if idx.inodes[child].fileType != DIRECTORY {
        return ENOTDIR;
      }
      var ok := RemoveEntry(parent, name, now);
      e := if ok then OK else ENOTEMPTY;
    }

    static lemma EntryLives(d: IndexData, p: Ino, n: string)
      requires LinkOk(d) && IsDir(d, p)
      ensures p in d.dirs && (n in d.dirs[p] ==> d.dirs[p][n] in d.inodes)
    {
      if n in d.dirs[p] {
        assert HasEntry(d.dirs, (p, n));
        assert Entries(d.dirs)[(p, n)] in d.inodes;
      }
    }

    /** The index call behind a rename. */
    method RenameEntry(parent: Ino, name: string, newParent: Ino, newName: string, now: int) returns (ok: bool)
      requires newParent in idx.dirs
      requires newName in idx.dirs[newParent] ==> idx.dirs[newParent][newName] in idx.inodes
      modifies idx
      ensures State() == Step(old(State()), Meta(Move(parent, name, newParent, newName, now)))
      ensures var r := IndexModel.Rename(old(idx.Data()), parent, name, newParent, newName, now);
              ok == r.Some? && idx.Data() == OrElse(r, old(idx.Data()))
    {
      ok := idx.Rename(parent, name, newParent, newName, now);
    }

    static lemma RenameNamed(d: IndexData, sp: Ino, sn: string, dp: Ino, dn: string, now: int)
      requires LinkOk(d) && IsDir(d, dp)
      ensures var r := IndexModel.Rename(d, sp, sn, dp, dn, now);
              LinkOk(OrElse(r, d)) <==> (r.Some? ==> (sp, sn) != (dp, dn))
    {
      if IndexModel.Rename(d, sp, sn, dp, dn, now).Some? {
        RenameLinksIff(d, sp, sn, dp, dn, now);
      }
    }

    /** Moves an entry, over whatever the new name was; link counts stay exact unless it is moved onto itself. */
    method Rename(parent: Ino, name: string, newParent: Ino, newName: string, now: int) returns (e: Errno)
      requires Named() && IsDir(idx.Data(), newParent)
      modifies idx
      ensures State() == Step(old(State()), Meta(Move(parent, name, newParent, newName, now)))
      ensures e == OK <==> IndexModel.Rename(old(State()).idx, parent, name, newParent, newName, now).Some?
      ensures Named() <==> (e == OK ==> (parent, name) != (newParent, newName))
    {
      EntryLives(idx.Data(), newParent, newName);
      RenameNamed(idx.Data(), parent, name, newParent, newName, now);
      var ok := RenameEntry(parent, name, newParent, newName, now);
      e := if ok then OK else EIO;
    }
  }
}
