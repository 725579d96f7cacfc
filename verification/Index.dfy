/**
 The in-memory index, updated in place.  Each method is proved against its
 function on values and states what becomes of the two dirty flags.
 */
module Indexes {
  import opened Base
  import opened Extents
  import opened InPlaceFilter
  import opened IndexModel
  import opened ObjectStores
  import opened Sums
  import opened Filesystem
  import M = IndexModel

  /** The extent lists of the given inodes, one after the other. */
  function Flatten(order: seq<Ino>, extents: map<Ino, seq<Extent>>): seq<Extent>
    requires forall k | 0 <= k < |order| :: order[k] in extents
  {
    if order == [] then [] else Flatten(order[..|order| - 1], extents) + extents[order[|order| - 1]]
  }

  lemma FlattenSnoc(order: seq<Ino>, i: Ino, extents: map<Ino, seq<Extent>>)
    requires i in extents && forall k | 0 <= k < |order| :: order[k] in extents
    ensures forall k | 0 <= k < |order + [i]| :: (order + [i])[k] in extents
    ensures Flatten(order + [i], extents) == Flatten(order, extents) + extents[i]
  {
    assert (order + [i])[..|order + [i]| - 1] == order;
  }

  /** Replaces, slot by slot, every extent whose key the table holds. */
  method RemapSlots(exts: seq<Extent>, remap: RemapTable) returns (r: seq<Extent>)
    ensures r == RemapList(exts, remap)
  {
    r := exts;
    for k := 0 to |r|
      invariant |r| == |exts|
      invariant forall j | 0 <= j < |r| :: r[j] == if j < k then RemapOne(exts[j], remap) else exts[j]
    {
      if r[k].Key() in remap {
        r := r[k := remap[r[k].Key()]];
      }
    }
  }

  /** Remaps the extent list of every file, taken in any order. */
  method RemapLists(extents: map<Ino, seq<Extent>>, remap: RemapTable) returns (r: map<Ino, seq<Extent>>)
    ensures r.Keys == extents.Keys
    ensures forall i | i in extents :: r[i] == RemapList(extents[i], remap)
  {
    r := extents;
    var rest := extents.Keys;
    while rest != {}
      invariant rest <= r.Keys == extents.Keys
      invariant forall i | i in r :: r[i] == if i in rest then extents[i] else RemapList(extents[i], remap)
      decreases |rest|
    {
      var i :| i in rest;
      var list := RemapSlots(r[i], remap);
      r, rest := r[i := list], rest - {i};
    }
  }

  class Index {
    var inodes: map<Ino, Inode>
    var dirs: map<Ino, Children>
    var extents: map<Ino, seq<Extent>>
    var symlinks: map<Ino, string>
    var xattrs: map<Ino, map<string, string>>
    var nextIno: Ino
    const blockSize: int
    var dirty: bool
    var remoteDirty: bool

    ghost function Data(): IndexData
      reads this
    {
      IndexData(inodes, dirs, extents, symlinks, xattrs, nextIno)
    }

    /** The new state after an operation that may fail: unchanged on failure, else changed and dirty. */
    twostate predicate Became(d: Option<IndexData>)
      reads this
    {
      if d.Some? then Data() == d.value && dirty && remoteDirty
      else Data() == old(Data()) && dirty == old(dirty) && remoteDirty == old(remoteDirty)
    }

    constructor (now: int, blockSize: int)
      ensures Data() == NewIndex(now, blockSize) && !dirty && !remoteDirty && this.blockSize == blockSize
    {
      this.blockSize := blockSize;
      inodes := map[ROOT_INO := Inode(ROOT_INO, DIRECTORY, 0x1ED, 1, 0, 0, 0, now, now, now, blockSize, 0, 0)];
      dirs := map[ROOT_INO := map[]];
      extents := map[];
      symlinks := map[];
      xattrs := map[];
      nextIno := ROOT_INO + 1;
      dirty := false;
      remoteDirty := false;
    }

    constructor FromData(d: IndexData, blockSize: int)
      ensures Data() == d && !dirty && !remoteDirty && this.blockSize == blockSize
    {
      this.blockSize := blockSize;
      inodes, dirs, extents, symlinks, xattrs, nextIno := d.inodes, d.dirs, d.extents, d.symlinks, d.xattrs, d.nextIno;
      dirty := false;
      remoteDirty := false;
    }

    method MarkDirty()
      modifies this`dirty, this`remoteDirty
      ensures dirty && remoteDirty
    {
      dirty := true;
      remoteDirty := true;
    }

    method CreateInode(fileType: FileType, mode: nat, uid: nat, gid: nat, rdev: nat, now: int) returns (ino: Ino)
      modifies this
      ensures ino == old(nextIno)
      ensures Became(Some(M.CreateInode(old(Data()), fileType, mode, uid, gid, rdev, now, blockSize)))
    {
      ino := nextIno;
      nextIno := nextIno + 1;
      var startNlink := 0;
      if fileType == DIRECTORY {
        startNlink := 1;
      }
      inodes := inodes[ino := Inode(ino, fileType, mode, startNlink, uid, gid, 0, now, now, now, blockSize, 0, rdev)];
      if fileType == REGULAR {
        extents := extents[ino := []];
      }
      if fileType == DIRECTORY {
        dirs := dirs[ino := map[]];
      }
      MarkDirty();
    }

    method AddDirEntry(parent: Ino, name: string, child: Ino, now: int) returns (ok: bool)
      requires parent in inodes && inodes[parent].fileType == DIRECTORY ==> parent in dirs
      modifies this
      ensures ok == M.AddDirEntry(old(Data()), parent, name, child, now).Some?
      ensures Became(M.AddDirEntry(old(Data()), parent, name, child, now))
    {
      if parent !in inodes || inodes[parent].fileType != DIRECTORY || child !in inodes || name in dirs[parent] {
        return false;
      }
      var children: Children := dirs[parent];
      dirs := dirs[parent := children[name := child]];
      inodes := inodes[child := inodes[child].(nlink := (inodes[child].nlink + 1) % NLINK_MODULUS, ctime := now)];
      inodes := inodes[parent := inodes[parent].(mtime := now, ctime := now)];
      MarkDirty();
      ok := true;
    }

    /** Decrements a link count and frees the inode at its threshold. */
    method Unlink(child: Ino)
      requires child in inodes
      modifies this
      ensures Data() == DropLink(old(Data()), child) && dirty == old(dirty) && remoteDirty == old(remoteDirty)
    {
      var c := inodes[child];
      c := c.(nlink := if c.nlink == 0 then NLINK_MODULUS - 1 else c.nlink - 1);
      inodes := inodes[child := c];
      var freeThreshold := 0;
      if c.fileType == DIRECTORY {
        freeThreshold := 1;
      }
      if c.nlink <= freeThreshold {
        inodes := inodes - {child};
        extents := extents - {child};
        symlinks := symlinks - {child};
        xattrs := xattrs - {child};
        dirs := dirs - {child};
        assert inodes == old(inodes) - {child};
      }
    }

    method RemoveDirEntry(parent: Ino, name: string, now: int) returns (ok: bool)
      requires parent in dirs && name in dirs[parent] ==> dirs[parent][name] in inodes
      modifies this
      ensures ok == M.RemoveDirEntry(old(Data()), parent, name, now).Some?
      ensures Became(M.RemoveDirEntry(old(Data()), parent, name, now))
    {
      if parent !in inodes || parent !in dirs || name !in dirs[parent] {
        return false;
      }
      var child := dirs[parent][name];
      if inodes[child].fileType == DIRECTORY {
        if child in dirs && dirs[child] != map[] {
          return false;
        }
      }
      dirs := dirs[parent := dirs[parent] - {name}];
      Unlink(child);
      if child in inodes {
        inodes := inodes[child := inodes[child].(ctime := now)];
      }
      if parent in inodes {
        inodes := inodes[parent := inodes[parent].(mtime := now, ctime := now)];
      }
      MarkDirty();
      ok := true;
    }

    method Rename(srcParent: Ino, srcName: string, dstParent: Ino, dstName: string, now: int) returns (ok: bool)
      requires dstParent in dirs
      requires dstName in dirs[dstParent] ==> dirs[dstParent][dstName] in inodes
      modifies this
      ensures ok == M.Rename(old(Data()), srcParent, srcName, dstParent, dstName, now).Some?
      ensures Became(M.Rename(old(Data()), srcParent, srcName, dstParent, dstName, now))
    {
      if srcParent !in dirs || srcName !in dirs[srcParent] {
        return false;
      }
      var srcChild := dirs[srcParent][srcName];
      if dstName in dirs[dstParent] {
        var dstChild := dirs[dstParent][dstName];
        if inodes[dstChild].fileType == DIRECTORY && dstChild in dirs && dirs[dstChild] != map[] {
          return false;
        }
        Unlink(dstChild);
      }
      MoveEntry(srcParent, srcName, dstParent, dstName, srcChild, now);
      MarkDirty();
      ok := true;
    }

    /** The second half of a rename. */
    method MoveEntry(srcParent: Ino, srcName: string, dstParent: Ino, dstName: string, child: Ino, now: int)
      modifies this
      ensures Data() == MoveName(old(Data()), srcParent, srcName, dstParent, dstName, child, now)
    {
      if srcParent in dirs {
        dirs := dirs[srcParent := dirs[srcParent] - {srcName}];
      }
      var dst: Children := if dstParent in dirs then dirs[dstParent] else map[];
      dirs := dirs[dstParent := dst[dstName := child]];
      if child in inodes {
        inodes := inodes[child := inodes[child].(ctime := now)];
      }
      if srcParent in inodes {
        inodes := inodes[srcParent := inodes[srcParent].(mtime := now, ctime := now)];
      }
      if dstParent != srcParent && dstParent in inodes {
        inodes := inodes[dstParent := inodes[dstParent].(mtime := now, ctime := now)];
      }
    }

    method SetAttr(ino: Ino, a: AttrChange, now: int) returns (ok: bool)
      modifies this
      ensures ok == M.SetAttr(old(Data()), ino, a, now).Some?
      ensures Became(M.SetAttr(old(Data()), ino, a, now))
    {
      if ino !in inodes {
        return false;
      }
      var inode := inodes[ino];
      inode := inode.(mode := OrElse(a.mode, inode.mode), uid := OrElse(a.uid, inode.uid),
                      gid := OrElse(a.gid, inode.gid), atime := OrElse(a.atime, inode.atime),
                      mtime := OrElse(a.mtime, inode.mtime));
      if a.size.Some? && a.size.value != inode.size {
        if inode.fileType == REGULAR {
          var kept := TrimExtents(if ino in extents then extents[ino] else [], a.size.value);
          extents := extents[ino := kept];
        }
        inode := inode.(size := a.size.value, blocks := Blocks512(a.size.value), mtime := now);
      }
      inodes := inodes[ino := inode.(ctime := now)];
      MarkDirty();
      ok := true;
    }

    /** Runs the in-place filter on the file's slice, whatever its capacity, and appends the extent. */
    method WriteExtent(ino: Ino, ext: Extent, now: int) returns (ok: bool)
      modifies this
      ensures ok == M.WriteExtent(old(Data()), ino, ext, now, InPlace).Some?
      ensures Became(M.WriteExtent(old(Data()), ino, ext, now, InPlace))
    {
      if ino !in inodes || inodes[ino].fileType != REGULAR {
        return false;
      }
      var exts := if ino in extents then extents[ino] else [];
      var spare: nat :| true;
      var slice := new Extent[|exts| + spare](i requires 0 <= i => if i < |exts| then exts[i] else ext);
      assert slice[..|exts|] == exts;
      var surviving, n := FilterInPlace(slice, |exts|, ext);
      extents := extents[ino := surviving[..n]];
      var inode := inodes[ino];
      if ext.End() > inode.size {
        inode := inode.(size := ext.End(), blocks := Blocks512(ext.End()));
      }
      inodes := inodes[ino := inode.(mtime := now, ctime := now)];
      MarkDirty();
      ok := true;
    }

    method SetSymlink(ino: Ino, target: string, now: int) returns (ok: bool)
      modifies this
      ensures ok == M.SetSymlink(old(Data()), ino, target, now).Some?
      ensures Became(M.SetSymlink(old(Data()), ino, target, now))
    {
      if ino !in inodes || inodes[ino].fileType != SYMLINK {
        return false;
      }
      symlinks := symlinks[ino := target];
      inodes := inodes[ino := inodes[ino].(size := |target|, ctime := now)];
      MarkDirty();
      ok := true;
    }

    method SetXattr(ino: Ino, name: string, value: string, now: int) returns (ok: bool)
      modifies this
      ensures ok == M.SetXattr(old(Data()), ino, name, value, now).Some?
      ensures Became(M.SetXattr(old(Data()), ino, name, value, now))
    {
      if ino !in inodes {
        return false;
      }
      var attrs := if ino in xattrs then xattrs[ino] else map[];
      xattrs := xattrs[ino := attrs[name := value]];
      inodes := inodes[ino := inodes[ino].(ctime := now)];
      MarkDirty();
      ok := true;
    }

    method RemoveXattr(ino: Ino, name: string, now: int) returns (ok: bool)
      modifies this
      ensures ok == M.RemoveXattr(old(Data()), ino, name, now).Some?
      ensures Became(M.RemoveXattr(old(Data()), ino, name, now))
    {
      if ino !in inodes || ino !in xattrs || name !in xattrs[ino] {
        return false;
      }
      xattrs := xattrs[ino := xattrs[ino] - {name}];
      inodes := inodes[ino := inodes[ino].(ctime := now)];
      MarkDirty();
      ok := true;
    }

    /** Updates the access time; this alone does not make the stored index out of date. */
    method TouchAtime(ino: Ino, now: int)
      modifies this
      ensures var r := M.TouchAtime(old(Data()), ino, now);
              && Data() == (if r.Some? then r.value else old(Data()))
              && dirty == (old(dirty) || r.Some?) && remoteDirty == old(remoteDirty)
    {
      if ino in inodes {
        inodes := inodes[ino := inodes[ino].(atime := now)];
        dirty := true;
      }
    }

    /** The sum over all regular files, taken in any order. */
    method UsedBytes() returns (total: nat)
      ensures total == Used(Data())
    {
      total := 0;
      var rest := inodes;
      while rest != map[]
        invariant total + Sum(SizesOf(rest)) == Sum(SizesOf(inodes))
        decreases |rest|
      {
        var i :| i in rest;
        var rest' := rest - {i};
        assert SizesOf(rest') == SizesOf(rest) - {i};
        assert |rest| == |rest'| + 1 by {
          assert rest.Keys == rest'.Keys + {i};
        }
        if rest[i].fileType == REGULAR {
          SumTakes(SizesOf(rest), i);
          total := total + rest[i].size;
        } else {
          assert SizesOf(rest) - {i} == SizesOf(rest);
        }
        rest := rest';
      }
      assert SizesOf(rest) == map[];
    }

    /** All live extents, file by file in any order. */
    method LiveExtents() returns (all: seq<Extent>, ghost order: seq<Ino>)
      ensures Enumerates(order, extents.Keys) && all == Flatten(order, extents)
    {
      all, order := [], [];
      var rest := extents.Keys;
      while rest != {}
        invariant rest <= extents.Keys
        invariant Enumerates(order, extents.Keys - rest)
        invariant all == Flatten(order, extents)
        decreases |rest|
      {
        var i :| i in rest;
        FlattenSnoc(order, i, extents);
        EnumeratesSnoc(order, extents.Keys - rest, i);
        assert extents.Keys - (rest - {i}) == (extents.Keys - rest) + {i};
        all, order, rest := all + extents[i], order + [i], rest - {i};
      }
      assert extents.Keys - rest == extents.Keys;
    }

    method RemapExtents(remap: RemapTable)
      modifies this
      ensures Became(Some(M.RemapExtents(old(Data()), remap)))
    {
      RemapExtentsLists(Data(), remap);
      extents := RemapLists(extents, remap);
      MarkDirty();
    }
  }
}
