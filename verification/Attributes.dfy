/**
 What a stat call shows of an inode beside its type and link count: permissions,
 owner, size and times.  Each index operation is described by the inodes it
 stamps, and the fields that no operation sets by hand are invariants.
 */
module Attributes {
  import opened Base
  import opened IndexModel
  import opened FileData
  import opened ChunkModel
  import opened Filesystem
  import opened Runs

  datatype Stat = Stat(mode: nat, uid: nat, gid: nat, size: nat, atime: int, mtime: int, ctime: int)

  type Stats = map<Ino, Stat>

  function StatOf(n: Inode): Stat {
    Stat(n.mode, n.uid, n.gid, n.size, n.atime, n.mtime, n.ctime)
  }

  function StatsOf(inodes: map<Ino, Inode>): Stats {
    map i | i in inodes :: StatOf(inodes[i])
  }

  /** The clock is written to the modification times of `m` and the change times of `c`. */
  function Stamped(st: Stats, m: set<Ino>, c: set<Ino>, now: int): Stats {
    map i | i in st ::
      st[i].(mtime := if i in m then now else st[i].mtime, ctime := if i in c then now else st[i].ctime)
  }

  function Living(st: Stats, live: set<Ino>): Stats {
    map i | i in st && i in live :: st[i]
  }

  /** A change as requested: what is not given stays, and a new size counts as a modification. */
  function Altered(t: Stat, a: AttrChange, now: int): Stat {
    Stat(OrElse(a.mode, t.mode), OrElse(a.uid, t.uid), OrElse(a.gid, t.gid), OrElse(a.size, t.size),
         OrElse(a.atime, t.atime),
         if OrElse(a.size, t.size) != t.size then now else OrElse(a.mtime, t.mtime), now)
  }

  // ---- What each operation does ----

  lemma StampedTwice(st: Stats, m: set<Ino>, c: set<Ino>, m': set<Ino>, c': set<Ino>, now: int)
    ensures Stamped(Stamped(st, m, c, now), m', c', now) == Stamped(st, m + m', c + c', now)
  {
  }

  /** A change of one inode, then of a directory. */
  lemma StampedThenDir(st: Stats, c: Ino, p: Ino, now: int)
    ensures Stamped(Stamped(st, {}, {c}, now), {p}, {p}, now) == Stamped(st, {p}, {p, c}, now)
  {
    StampedTwice(st, {}, {c}, {p}, {p}, now);
    assert {} + {p} == {p} && {c} + {p} == {p, c};
  }

  lemma StampStats(inodes: map<Ino, Inode>, i: Ino, now: int)
    ensures StatsOf(StampDir(inodes, i, now)) == Stamped(StatsOf(inodes), {i}, {i}, now)
    ensures StatsOf(StampCtime(inodes, i, now)) == Stamped(StatsOf(inodes), {}, {i}, now)
  {
  }

  lemma CreateStats(d: IndexData, t: FileType, mode: nat, uid: nat, gid: nat, now: int, blk: int)
    ensures StatsOf(CreateInode(d, t, mode, uid, gid, 0, now, blk).inodes) ==
            StatsOf(d.inodes)[d.nextIno := Stat(mode, uid, gid, 0, now, now, now)]
  {
  }

  lemma LinkedStats(inodes: map<Ino, Inode>, c: Ino, linked: Inode, now: int)
    requires c in inodes && linked == inodes[c].(nlink := linked.nlink, ctime := now)
    ensures StatsOf(inodes[c := linked]) == Stamped(StatsOf(inodes), {}, {c}, now)
  {
  }

  lemma LinkedInDirStats(inodes: map<Ino, Inode>, c: Ino, linked: Inode, p: Ino, now: int)
    requires c in inodes && linked == inodes[c].(nlink := linked.nlink, ctime := now)
    ensures StatsOf(StampDir(inodes[c := linked], p, now)) == Stamped(StatsOf(inodes), {p}, {p, c}, now)
  {
    LinkedStats(inodes, c, linked, now);
    StampStats(inodes[c := linked], p, now);
    StampedThenDir(StatsOf(inodes), c, p, now);
  }

  lemma AddDirEntryStats(d: IndexData, p: Ino, n: string, c: Ino, now: int)
    requires AddDirEntry(d, p, n, c, now).Some?
    ensures StatsOf(AddDirEntry(d, p, n, c, now).value.inodes) == Stamped(StatsOf(d.inodes), {p}, {p, c}, now)
  {
    LinkedInDirStats(d.inodes, c, d.inodes[c].(nlink := (d.inodes[c].nlink + 1) % NLINK_MODULUS, ctime := now), p, now);
  }

  lemma DropLinkStats(d: IndexData, c: Ino)
    requires c in d.inodes
    ensures StatsOf(DropLink(d, c).inodes) == Living(StatsOf(d.inodes), DropLink(d, c).inodes.Keys)
  {
  }

  lemma RemoveStats(d: IndexData, p: Ino, n: string, now: int)
    requires RemoveDirEntry(d, p, n, now).Some?
    ensures var d' := RemoveDirEntry(d, p, n, now).value;
            StatsOf(d'.inodes) ==
            Stamped(Living(StatsOf(d.inodes), d'.inodes.Keys), {p}, {p, ChildrenOf(d, p)[n]}, now)
  {
    var c := ChildrenOf(d, p)[n];
    var d1 := DropLink(DeleteName(d, p, n), c);
    DropLinkStats(DeleteName(d, p, n), c);
    StampStats(d1.inodes, c, now);
    StampStats(StampCtime(d1.inodes, c, now), p, now);
    StampedThenDir(StatsOf(d1.inodes), c, p, now);
  }

  lemma MoveStats(d: IndexData, sp: Ino, sn: string, dp: Ino, dn: string, c: Ino, now: int)
    ensures StatsOf(MoveName(d, sp, sn, dp, dn, c, now).inodes) ==
            Stamped(StatsOf(d.inodes), {sp, dp}, {sp, dp, c}, now)
  {
    var i1 := StampCtime(d.inodes, c, now);
    var i2 := StampDir(i1, sp, now);
    StampStats(d.inodes, c, now);
    StampStats(i1, sp, now);
    StampStats(i2, dp, now);
    StampedTwice(StatsOf(d.inodes), {}, {c}, {sp}, {sp}, now);
    StampedTwice(StatsOf(d.inodes), {} + {sp}, {c} + {sp}, {dp}, {dp}, now);
    assert {} + {sp} + {dp} == {sp, dp} && {c} + {sp} + {dp} == {sp, dp, c};
  }

  lemma RenameStats(d: IndexData, sp: Ino, sn: string, dp: Ino, dn: string, now: int)
    requires Rename(d, sp, sn, dp, dn, now).Some?
    ensures var d' := Rename(d, sp, sn, dp, dn, now).value;
            StatsOf(d'.inodes) ==
            Stamped(Living(StatsOf(d.inodes), d'.inodes.Keys), {sp, dp}, {sp, dp, ChildrenOf(d, sp)[sn]}, now)
  {
    var c, taken := ChildrenOf(d, sp)[sn], dn in ChildrenOf(d, dp);
    var d1 := if taken then DropLink(d, ChildrenOf(d, dp)[dn]) else d;
    if taken {
      DropLinkStats(d, ChildrenOf(d, dp)[dn]);
    } else {
      assert Living(StatsOf(d.inodes), d.inodes.Keys) == StatsOf(d.inodes);
    }
    MoveStats(d1, sp, sn, dp, dn, c, now);
    assert MoveName(d1, sp, sn, dp, dn, c, now).inodes.Keys == d1.inodes.Keys by {
      MoveNameSorts(d1, sp, sn, dp, dn, c, now);
    }
  }

  lemma SetAttrStats(d: IndexData, i: Ino, a: AttrChange, now: int)
    requires i in d.inodes
    ensures StatsOf(SetAttr(d, i, a, now).value.inodes) ==
            StatsOf(d.inodes)[i := Altered(StatOf(d.inodes[i]), a, now)]
  {
  }

  lemma WriteStats(d: IndexData, i: Ino, w: Extent, now: int, fm: FilterMode)
    requires IsRegular(d, i)
    ensures var t := StatOf(d.inodes[i]);
            StatsOf(WriteExtent(d, i, w, now, fm).value.inodes) ==
            StatsOf(d.inodes)[i := t.(size := Max(t.size, w.End()), mtime := now, ctime := now)]
  {
  }

  lemma TouchStats(d: IndexData, i: Ino, now: int)
    requires i in d.inodes
    ensures StatsOf(TouchAtime(d, i, now).value.inodes) == StatsOf(d.inodes)[i := StatOf(d.inodes[i]).(atime := now)]
  {
  }

  lemma SetSymlinkStats(d: IndexData, i: Ino, target: string, now: int)
    requires SetSymlink(d, i, target, now).Some?
    ensures StatsOf(SetSymlink(d, i, target, now).value.inodes) ==
            StatsOf(d.inodes)[i := StatOf(d.inodes[i]).(size := |target|, ctime := now)]
  {
  }

  // ---- Sizes and block counts ----

  /** The blocks of 512 bytes hold the file, and one less would not. */
  predicate BlocksHold(n: Inode) {
    n.size <= 512 * n.blocks < n.size + 512
  }

  predicate InodeOk(i: Ino, n: Inode) {
    n.ino == i && n.rdev == 0 && (n.fileType != SYMLINK ==> BlocksHold(n))
  }

  predicate LinkSized(n: Inode, target: string) {
    n.fileType == SYMLINK && n.size == |target|
  }

  /** What no operation sets by hand: number, no device, blocks that hold the size, a link as long as its target. */
  ghost predicate SizesOk(d: IndexData) {
    && (forall i | i in d.inodes :: InodeOk(i, d.inodes[i]))
    && (forall i | i in d.symlinks :: i in d.inodes && LinkSized(d.inodes[i], d.symlinks[i]))
  }

  ghost predicate SizesInv(s: Fs) {
    && SizesOk(s.idx)
    && (s.durable.Some? ==> SizesOk(s.durable.value))
    && (s.remote.InHand? ==> SizesOk(s.remote.data))
  }

  /** Nothing that these look at differs. */
  predicate SameFixed(n: Inode, n': Inode) {
    n'.ino == n.ino && n'.rdev == n.rdev && n'.fileType == n.fileType && n'.size == n.size && n'.blocks == n.blocks
  }

  predicate AllFixed(inodes: map<Ino, Inode>, inodes': map<Ino, Inode>) {
    inodes'.Keys == inodes.Keys && forall i | i in inodes :: SameFixed(inodes[i], inodes'[i])
  }

  lemma StampFixed(inodes: map<Ino, Inode>, i: Ino, now: int)
    ensures AllFixed(inodes, StampDir(inodes, i, now)) && AllFixed(inodes, StampCtime(inodes, i, now))
  {
  }

  lemma RemoveFixed(inodes: map<Ino, Inode>, c: Ino, p: Ino, now: int)
    ensures AllFixed(inodes, StampDir(StampCtime(inodes, c, now), p, now))
  {
    StampFixed(inodes, c, now);
    StampFixed(StampCtime(inodes, c, now), p, now);
  }

  lemma MoveFixed(inodes: map<Ino, Inode>, c: Ino, sp: Ino, dp: Ino, now: int)
    ensures AllFixed(inodes, StampDir(StampDir(StampCtime(inodes, c, now), sp, now), dp, now))
  {
    RemoveFixed(inodes, c, sp, now);
    StampFixed(StampDir(StampCtime(inodes, c, now), sp, now), dp, now);
  }

  /** Every inode is one of `d`, and so is every target. */
  predicate OnlyFewer(d: IndexData, d': IndexData) {
    && (forall i | i in d'.inodes :: i in d.inodes && SameFixed(d.inodes[i], d'.inodes[i]))
    && (forall i | i in d'.symlinks :: i in d'.inodes && i in d.symlinks && d'.symlinks[i] == d.symlinks[i])
  }

  lemma FewerOk(d: IndexData, d': IndexData)
    requires SizesOk(d) && OnlyFewer(d, d')
    ensures SizesOk(d')
  {
    forall i | i in d'.inodes ensures InodeOk(i, d'.inodes[i]) {
      assert InodeOk(i, d.inodes[i]);
    }
    forall i | i in d'.symlinks ensures LinkSized(d'.inodes[i], d'.symlinks[i]) {
      assert LinkSized(d.inodes[i], d.symlinks[i]);
    }
  }

  lemma FixedOk(d: IndexData, d': IndexData)
    requires SizesOk(d) && AllFixed(d.inodes, d'.inodes) && d'.symlinks == d.symlinks
    ensures SizesOk(d')
  {
    FewerOk(d, d');
  }

  lemma CreateSizes(d: IndexData, t: FileType, mode: nat, uid: nat, gid: nat, now: int, blk: int)
    requires SizesOk(d) && KeysOk(d)
    ensures SizesOk(CreateInode(d, t, mode, uid, gid, 0, now, blk))
  {
    var d' := CreateInode(d, t, mode, uid, gid, 0, now, blk);
    forall i | i in d'.inodes ensures InodeOk(i, d'.inodes[i]) {
      if i != d.nextIno {
        assert InodeOk(i, d.inodes[i]);
      }
    }
    forall i | i in d'.symlinks ensures i in d'.inodes && LinkSized(d'.inodes[i], d'.symlinks[i]) {
      assert LinkSized(d.inodes[i], d.symlinks[i]) && i in d.inodes;
    }
  }

  lemma AddDirEntrySizes(d: IndexData, p: Ino, n: string, c: Ino, now: int)
    requires SizesOk(d) && AddDirEntry(d, p, n, c, now).Some?
    ensures SizesOk(AddDirEntry(d, p, n, c, now).value)
  {
    FewerOk(d, AddDirEntry(d, p, n, c, now).value);
  }

  lemma MakeSizes(d: IndexData, p: Ino, n: string, t: FileType, mode: nat, uid: nat, gid: nat, now: int, blk: int)
    requires SizesOk(d) && KeysOk(d)
    ensures SizesOk(MakeNamed(d, p, n, t, mode, uid, gid, now, blk))
  {
    CreateSizes(d, t, mode, uid, gid, now, blk);
    var d1 := CreateInode(d, t, mode, uid, gid, 0, now, blk);
    if AddDirEntry(d1, p, n, d.nextIno, now).Some? {
      AddDirEntrySizes(d1, p, n, d.nextIno, now);
    }
  }

  lemma SetSymlinkSizes(d: IndexData, i: Ino, target: string, now: int)
    requires SizesOk(d) && SetSymlink(d, i, target, now).Some?
    ensures SizesOk(SetSymlink(d, i, target, now).value)
  {
    var d' := SetSymlink(d, i, target, now).value;
    forall j | j in d'.inodes ensures InodeOk(j, d'.inodes[j]) {
      assert InodeOk(j, d.inodes[j]);
    }
    forall j | j in d'.symlinks ensures j in d'.inodes && LinkSized(d'.inodes[j], d'.symlinks[j]) {
      if j != i {
        assert j in d.inodes && LinkSized(d.inodes[j], d.symlinks[j]);
      }
    }
  }

  lemma MakeLinkSizes(d: IndexData, p: Ino, n: string, target: string, uid: nat, gid: nat, now: int, blk: int)
    requires SizesOk(d) && KeysOk(d)
    ensures SizesOk(MakeNamedSymlink(d, p, n, target, uid, gid, now, blk))
  {
    MakeSizes(d, p, n, SYMLINK, 0x1FF, uid, gid, now, blk);
    var d1 := CreateInode(d, SYMLINK, 0x1FF, uid, gid, 0, now, blk);
    var d2 := MakeNamed(d, p, n, SYMLINK, 0x1FF, uid, gid, now, blk);
    if AddDirEntry(d1, p, n, d.nextIno, now).Some? && SetSymlink(d2, d.nextIno, target, now).Some? {
      SetSymlinkSizes(d2, d.nextIno, target, now);
    }
  }

  lemma DropLinkFewer(d: IndexData, c: Ino)
    requires SizesOk(d) && c in d.inodes
    ensures OnlyFewer(d, DropLink(d, c))
  {
  }

  lemma RemoveSizes(d: IndexData, p: Ino, n: string, now: int)
    requires SizesOk(d) && RemoveDirEntry(d, p, n, now).Some?
    ensures SizesOk(RemoveDirEntry(d, p, n, now).value)
  {
    var c, d0 := ChildrenOf(d, p)[n], DeleteName(d, p, n);
    var d1 := DropLink(d0, c);
    FixedOk(d, d0);
    DropLinkFewer(d0, c);
    FewerOk(d0, d1);
    RemoveFixed(d1.inodes, c, p, now);
    FixedOk(d1, RemoveDirEntry(d, p, n, now).value);
  }

  lemma RenameSizes(d: IndexData, sp: Ino, sn: string, dp: Ino, dn: string, now: int)
    requires SizesOk(d) && Rename(d, sp, sn, dp, dn, now).Some?
    ensures SizesOk(Rename(d, sp, sn, dp, dn, now).value)
  {
    var taken := dn in ChildrenOf(d, dp);
    var d1 := if taken then DropLink(d, ChildrenOf(d, dp)[dn]) else d;
    if taken {
      DropLinkFewer(d, ChildrenOf(d, dp)[dn]);
      FewerOk(d, d1);
    }
    MoveFixed(d1.inodes, ChildrenOf(d, sp)[sn], sp, dp, now);
    FixedOk(d1, Rename(d, sp, sn, dp, dn, now).value);
  }

  lemma MetaSizes(d: IndexData, m: MetaOp, blockSize: int)
    requires SizesOk(d) && KeysOk(d) && ApplyMeta(d, m, blockSize).Some?
    ensures SizesOk(ApplyMeta(d, m, blockSize).value)
  {
    match m
    case MakeNode(p, n, t, mode, uid, gid, now) => MakeSizes(d, p, n, t, mode, uid, gid, now, blockSize);
    case MakeSymlink(p, n, target, uid, gid, now) => MakeLinkSizes(d, p, n, target, uid, gid, now, blockSize);
    case Link(p, n, t, now) => AddDirEntrySizes(d, p, n, t, now);
    case Remove(p, n, now) => RemoveSizes(d, p, n, now);
    case Move(sp, sn, dp, dn, now) => RenameSizes(d, sp, sn, dp, dn, now);
    case PutXattr(_, _, _, _) => FewerOk(d, ApplyMeta(d, m, blockSize).value);
    case DropXattr(_, _, _) => FewerOk(d, ApplyMeta(d, m, blockSize).value);
  }

  /** A size is set that is not the length of the link's target. */
  predicate ResizesLink(d: IndexData, i: Ino, a: AttrChange) {
    i in d.symlinks && a.size.Some? && a.size.value != |d.symlinks[i]|
  }

  lemma Blocks512Hold(n: Inode)
    requires n.blocks == Blocks512(n.size)
    ensures BlocksHold(n)
  {
  }

  lemma SetAttrSizesIff(d: IndexData, i: Ino, a: AttrChange, now: int)
    requires SizesOk(d) && i in d.inodes
    ensures SizesOk(SetAttr(d, i, a, now).value) <==> !ResizesLink(d, i, a)
  {
    var d' := SetAttr(d, i, a, now).value;
    var n, n' := d.inodes[i], d'.inodes[i];
    assert InodeOk(i, n);
    if Resizes(n, a) {
      Blocks512Hold(n');
    }
    forall j | j in d'.inodes ensures InodeOk(j, d'.inodes[j]) {
      assert InodeOk(j, d.inodes[j]);
    }
    if ResizesLink(d, i, a) {
      assert !LinkSized(d'.inodes[i], d'.symlinks[i]);
    } else {
      forall j | j in d'.symlinks ensures j in d'.inodes && LinkSized(d'.inodes[j], d'.symlinks[j]) {
        assert j in d.inodes && LinkSized(d.inodes[j], d.symlinks[j]);
      }
    }
  }

  lemma WriteExtentSizes(d: IndexData, i: Ino, w: Extent, now: int, fm: FilterMode)
    requires SizesOk(d) && IsRegular(d, i)
    ensures SizesOk(WriteExtent(d, i, w, now, fm).value)
  {
    var d' := WriteExtent(d, i, w, now, fm).value;
    assert InodeOk(i, d.inodes[i]);
    if w.End() > d.inodes[i].size {
      Blocks512Hold(d'.inodes[i]);
    }
    forall j | j in d'.inodes ensures InodeOk(j, d'.inodes[j]) {
      assert InodeOk(j, d.inodes[j]);
    }
    forall j | j in d'.symlinks ensures j in d'.inodes && LinkSized(d'.inodes[j], d'.symlinks[j]) {
      assert j in d.inodes && LinkSized(d.inodes[j], d.symlinks[j]);
    }
  }

  lemma FreshSizes(now: int, blockSize: int)
    ensures SizesOk(NewIndex(now, blockSize))
  {
  }

  ghost predicate LinkKeepsSize(s: Fs, op: Op) {
    op.ChangeAttr? ==> !ResizesLink(s.idx, op.ino, op.change)
  }

  lemma IndexSizesIff(s: Fs, op: Op)
    requires KeysOk(s.idx) && SizesOk(s.idx) && (op.Meta? || DataOp(op))
    ensures SizesOk(Step(s, op).idx) <==> LinkKeepsSize(s, op)
    ensures SameCopies(s, Step(s, op))
  {
    if op.Meta? {
      if ApplyMeta(s.idx, op.meta, s.blockSize).Some? {
        MetaSizes(s.idx, op.meta, s.blockSize);
      }
    } else if op.ChangeAttr? {
      if op.ino in s.idx.inodes {
        SetAttrSizesIff(s.idx, op.ino, op.change, op.now);
      }
    } else if op.Write? {
      WriteStepIndex(s, op);
      if Accepted(s, op) {
        var w := Append(s.chunks, s.objects, op.data, op.off, op.put).result.value;
        WriteExtentSizes(s.idx, op.ino, w, op.now, op.fm);
      }
    } else {
      FewerOk(s.idx, Step(s, op).idx);
    }
  }

  /** A step keeps sizes and block counts right if and only if it sets no link's size to something else. */
  lemma SizesStepIff(s: Fs, op: Op)
    requires Inv(s) && SizesInv(s)
    ensures SizesInv(Step(s, op)) <==> LinkKeepsSize(s, op)
  {
    if op.Meta? || DataOp(op) {
      IndexSizesIff(s, op);
    } else if op.Restart? {
      FreshSizes(op.now, op.config.blockSize);
    } else {
      CopyStep(s, op);
    }
  }

  ghost predicate LinksKeepSizes(s: Fs, ops: seq<Op>)
    decreases |ops|
  {
    ops == [] || (LinkKeepsSize(s, ops[0]) && LinksKeepSizes(Step(s, ops[0]), ops[1..]))
  }

  lemma {:induction false} SizesRun(s: Fs, ops: seq<Op>)
    requires Inv(s) && SizesInv(s) && RunOk(s, ops) && LinksKeepSizes(s, ops)
    ensures SizesInv(Run(s, ops))
    decreases |ops|
  {
    if ops == [] {
    } else {
      SizesStepIff(s, ops[0]);
      StepKeeps(s, ops[0]);
      SizesRun(Step(s, ops[0]), ops[1..]);
    }
  }

  /** A new link's target is not counted in its blocks: they hold it if and only if it is empty. */
  lemma LinkBlocksIff(d: IndexData, p: Ino, n: string, target: string, uid: nat, gid: nat, now: int, blk: int)
    requires AddDirEntry(CreateInode(d, SYMLINK, 0x1FF, uid, gid, 0, now, blk), p, n, d.nextIno, now).Some?
    ensures var d' := MakeNamedSymlink(d, p, n, target, uid, gid, now, blk);
            && d.nextIno in d'.inodes && d'.inodes[d.nextIno].size == |target|
            && (BlocksHold(d'.inodes[d.nextIno]) <==> target == "")
  {
  }

  // ---- The fields of one inode ----

  /** A new inode as its maker asked for it, empty and with no blocks. */
  predicate NewInode(n: Inode, i: Ino, t: FileType, mode: nat, uid: nat, gid: nat, now: int, blk: int) {
    && n.ino == i && n.fileType == t && n.mode == mode && n.uid == uid && n.gid == gid && n.rdev == 0
    && n.blocks == 0 && n.blksize == blk && n.atime == now && n.mtime == now && n.ctime == now
  }

  /** Every other inode is as it was, but for the times of a directory that has a new name. */
  predicate OthersKept(inodes: map<Ino, Inode>, inodes': map<Ino, Inode>, i: Ino, named: Option<Ino>, now: int) {
    && inodes'.Keys == inodes.Keys + {i}
    && forall j | j in inodes && j != i ::
         inodes'[j] == if named == Some(j) then inodes[j].(mtime := now, ctime := now) else inodes[j]
  }

  lemma CreateFields(d: IndexData, t: FileType, mode: nat, uid: nat, gid: nat, now: int, blk: int)
    requires d.nextIno !in d.inodes
    ensures var d', i := CreateInode(d, t, mode, uid, gid, 0, now, blk), d.nextIno;
            && OthersKept(d.inodes, d'.inodes, i, None, now) && d'.inodes[i].size == 0
            && NewInode(d'.inodes[i], i, t, mode, uid, gid, now, blk)
            && d'.inodes[i].nlink == if t == DIRECTORY then 1 else 0
  {
  }

  lemma NamedFields(d: IndexData, p: Ino, n: string, i: Ino, now: int)
    requires AddDirEntry(d, p, n, i, now).Some?
    ensures var d' := AddDirEntry(d, p, n, i, now).value;
            && OthersKept(d.inodes, d'.inodes, i, Some(p), now)
            && d'.inodes[i] == d.inodes[i].(nlink := d'.inodes[i].nlink, ctime := now, mtime := d'.inodes[i].mtime)
            && (p == i || d'.inodes[i].mtime == d.inodes[i].mtime) && (p == i ==> d'.inodes[i].mtime == now)
            && d'.inodes[i].nlink == (d.inodes[i].nlink + 1) % NLINK_MODULUS
            && n in ChildrenOf(d', p) && ChildrenOf(d', p)[n] == i
  {
  }

  /** What making a node leaves: the inode asked for, and one more name if it was free. */
  lemma MakeFields(d: IndexData, p: Ino, n: string, t: FileType, mode: nat, uid: nat, gid: nat, now: int, blk: int)
    requires d.nextIno !in d.inodes
    ensures var d', i := MakeNamed(d, p, n, t, mode, uid, gid, now, blk), d.nextIno;
            var named := AddDirEntry(CreateInode(d, t, mode, uid, gid, 0, now, blk), p, n, i, now).Some?;
            && OthersKept(d.inodes, d'.inodes, i, if named then Some(p) else None, now)
            && NewInode(d'.inodes[i], i, t, mode, uid, gid, now, blk) && d'.inodes[i].size == 0
            && d'.inodes[i].nlink == (if t == DIRECTORY then 1 else 0) + (if named then 1 else 0)
            && (named ==> n in ChildrenOf(d', p) && ChildrenOf(d', p)[n] == i)
  {
    CreateFields(d, t, mode, uid, gid, now, blk);
    var d1 := CreateInode(d, t, mode, uid, gid, 0, now, blk);
    if AddDirEntry(d1, p, n, d.nextIno, now).Some? {
      NamedFields(d1, p, n, d.nextIno, now);
    }
  }

  lemma MakeLinkFields(d: IndexData, p: Ino, n: string, target: string, uid: nat, gid: nat, now: int, blk: int)
    requires d.nextIno !in d.inodes
    ensures var d', i := MakeNamedSymlink(d, p, n, target, uid, gid, now, blk), d.nextIno;
            var named := AddDirEntry(CreateInode(d, SYMLINK, 0x1FF, uid, gid, 0, now, blk), p, n, i, now).Some?;
            && OthersKept(d.inodes, d'.inodes, i, if named then Some(p) else None, now)
            && NewInode(d'.inodes[i], i, SYMLINK, 0x1FF, uid, gid, now, blk)
            && d'.inodes[i].nlink == (if named then 1 else 0) && d'.inodes[i].size == (if named then |target| else 0)
            && (named ==> && n in ChildrenOf(d', p) && ChildrenOf(d', p)[n] == i
                          && i in d'.symlinks && d'.symlinks[i] == target)
  {
    MakeFields(d, p, n, SYMLINK, 0x1FF, uid, gid, now, blk);
  }
}
