/**
 The files of an index, read through a view of the chunks, and what each index
 operation does to them.  The invariant is global: every live extent denotes
 bytes the view holds, inside its file, and no two live extents of any two
 files share a file position of one file or a byte of one chunk.
 */
module FileData {
  import opened Base
  import opened Extents
  import opened InPlaceFilter
  import opened IndexModel

  /** The contents of every regular file. */
  function Files(d: IndexData, v: View): map<Ino, Bytes> {
    map i | i in d.extents :: Content(d.extents[i], SizeOf(d, i), v)
  }

  ghost predicate KeysOk(d: IndexData) {
    && (forall i :: i in d.extents <==> IsRegular(d, i))
    && (forall i | i in d.inodes :: i < d.nextIno)
  }

  predicate ListOk(exts: seq<Extent>, size: nat, v: View) {
    ListIn(exts, size, v) && FileDisjoint(exts) && ChunkDisjoint(exts)
  }

  predicate ListsOk(d: IndexData, v: View) {
    forall i | i in d.extents :: ListOk(d.extents[i], SizeOf(d, i), v)
  }

  predicate CrossOk(d: IndexData) {
    forall i, j | i in d.extents && j in d.extents && i != j :: CrossSep(d.extents[i], d.extents[j])
  }

  ghost predicate DataOk(d: IndexData, v: View) {
    KeysOk(d) && ListsOk(d, v) && CrossOk(d)
  }

  // ---- The view changes under a fixed index ----

  /** Every chunk that the index uses is kept, and changes at most by growing at its end. */
  predicate Keeps(d: IndexData, v: View, v': View) {
    forall i | i in d.extents :: ListKept(d.extents[i], v, v')
  }

  predicate ListKept(exts: seq<Extent>, v: View, v': View) {
    forall k | 0 <= k < |exts| ::
      exts[k].chunkId in v && exts[k].chunkId in v' && v[exts[k].chunkId] <= v'[exts[k].chunkId]
  }

  lemma ListSurvivesView(exts: seq<Extent>, size: nat, v: View, v': View)
    requires ListOk(exts, size, v) && ListKept(exts, v, v')
    ensures ListOk(exts, size, v') && Content(exts, size, v') == Content(exts, size, v)
  {
    forall p: nat ensures ByteAt(exts, v, p) == ByteAt(exts, v', p) {
      ByteAtStable(exts, v, v', p);
    }
  }

  lemma FilesSurviveView(d: IndexData, v: View, v': View)
    requires DataOk(d, v) && Keeps(d, v, v')
    ensures DataOk(d, v') && Files(d, v') == Files(d, v)
  {
    forall i | i in d.extents
      ensures ListOk(d.extents[i], SizeOf(d, i), v')
      ensures Files(d, v')[i] == Files(d, v)[i]
    {
      ListSurvivesView(d.extents[i], SizeOf(d, i), v, v');
    }
  }

  /** A view that only gains chunks and bytes keeps every index. */
  lemma GrowsKeeps(d: IndexData, v: View, v': View)
    requires DataOk(d, v) && GrowsUnlessEmpty(v, v')
    ensures Keeps(d, v, v')
  {
    forall i | i in d.extents ensures ListKept(d.extents[i], v, v') {
      assert ListOk(d.extents[i], SizeOf(d, i), v);
    }
  }

  // ---- Overwriting ----

  /** The chunk range of `w` is used by no file yet. */
  predicate Unused(d: IndexData, w: Extent) {
    forall i | i in d.extents :: CrossSep(d.extents[i], [w])
  }

  lemma PartsCrossSep(qs: seq<Extent>, es: seq<Extent>, others: seq<Extent>)
    requires AllWithin(qs, es) && CrossSep(es, others)
    ensures CrossSep(qs, others)
  {
    forall i, j | 0 <= i < |qs| && 0 <= j < |others| ensures Sep(qs[i], others[j]) {
      var k :| 0 <= k < |es| && Within(qs[i], es[k]);
      assert Sep(es[k], others[j]);
    }
  }

  lemma PartsListIn(qs: seq<Extent>, es: seq<Extent>, size: nat, v: View)
    requires AllWithin(qs, es) && ListIn(es, size, v)
    ensures ListIn(qs, size, v)
  {
    forall i | 0 <= i < |qs| ensures InView(qs[i], v) && qs[i].End() <= size {
      var k :| 0 <= k < |es| && Within(qs[i], es[k]);
      assert InView(es[k], v);
    }
  }

  lemma WriteFreshListOk(exts: seq<Extent>, size: nat, w: Extent, v: View)
    requires ListOk(exts, size, v) && InView(w, v) && CrossSep(exts, [w])
    ensures ListOk(WriteFresh(exts, w), Max(size, w.End()), v)
  {
    var qs := Survivors(exts, w);
    SurvivorsAreParts(exts, w);
    PartsListIn(qs, exts, size, v);
    PartsCrossSep(qs, exts, [w]);
    var r := qs + [w];
    forall i, j | 0 <= i < j < |r| ensures Apart(r[i], r[j]) && Sep(r[i], r[j]) {
      if j < |qs| {
        assert r[i] == qs[i] && r[j] == qs[j];
      } else {
        SurvivorsAvoid(exts, w, i);
        assert Sep(qs[i], [w][0]);
      }
    }
  }

  lemma WriteFreshCross(exts: seq<Extent>, w: Extent, others: seq<Extent>)
    requires w.length > 0
    requires Positive(exts) && FileDisjoint(exts) && ChunkDisjoint(exts)
    requires CrossSep(exts, others) && CrossSep(others, [w])
    ensures CrossSep(WriteFresh(exts, w), others) && CrossSep(others, WriteFresh(exts, w))
  {
    var qs := Survivors(exts, w);
    SurvivorsAreParts(exts, w);
    PartsCrossSep(qs, exts, others);
    var r := WriteFresh(exts, w);
    forall i, j | 0 <= i < |r| && 0 <= j < |others| ensures Sep(r[i], others[j]) && Sep(others[j], r[i]) {
      if i < |qs| {
        assert Sep(qs[i], others[j]);
      } else {
        assert Sep(others[j], [w][0]);
      }
    }
  }

  /** `d'` differs from `d` in the extent list and the size of regular file `i` alone. */
  predicate ReplacesOne(d: IndexData, d': IndexData, i: Ino, exts: seq<Extent>, size: nat) {
    && IsRegular(d, i)
    && d'.extents == d.extents[i := exts]
    && d'.nextIno == d.nextIno && d'.inodes.Keys == d.inodes.Keys
    && (forall j | j in d.inodes :: d'.inodes[j].fileType == d.inodes[j].fileType)
    && (forall j | j in d.inodes && j != i :: d'.inodes[j].size == d.inodes[j].size)
    && SizeOf(d', i) == size
  }

  lemma ReplaceOne(d: IndexData, d': IndexData, i: Ino, exts: seq<Extent>, size: nat, v: View)
    requires DataOk(d, v) && ReplacesOne(d, d', i, exts, size)
    requires ListOk(exts, size, v)
    requires forall j | j in d.extents && j != i :: CrossSep(exts, d.extents[j]) && CrossSep(d.extents[j], exts)
    ensures DataOk(d', v) && Files(d', v) == Files(d, v)[i := Content(exts, size, v)]
  {
    ReplaceKeys(d, d', i, exts, size);
    ReplaceLists(d, d', i, exts, size, v);
    ReplaceCross(d, d', i, exts, size);
    ReplaceFiles(d, d', i, exts, size, v);
  }

  lemma ReplaceKeys(d: IndexData, d': IndexData, i: Ino, exts: seq<Extent>, size: nat)
    requires KeysOk(d) && ReplacesOne(d, d', i, exts, size)
    ensures KeysOk(d')
  {
  }

  lemma ReplaceLists(d: IndexData, d': IndexData, i: Ino, exts: seq<Extent>, size: nat, v: View)
    requires KeysOk(d) && ListsOk(d, v) && ReplacesOne(d, d', i, exts, size) && ListOk(exts, size, v)
    ensures ListsOk(d', v)
  {
  }

  lemma ReplaceCross(d: IndexData, d': IndexData, i: Ino, exts: seq<Extent>, size: nat)
    requires CrossOk(d) && ReplacesOne(d, d', i, exts, size)
    requires forall j | j in d.extents && j != i :: CrossSep(exts, d.extents[j]) && CrossSep(d.extents[j], exts)
    ensures CrossOk(d')
  {
  }

  lemma ReplaceFiles(d: IndexData, d': IndexData, i: Ino, exts: seq<Extent>, size: nat, v: View)
    requires KeysOk(d) && ReplacesOne(d, d', i, exts, size)
    ensures Files(d', v) == Files(d, v)[i := Content(exts, size, v)]
  {
  }

  /** The guard under which the running loop is the documented overwrite. */
  predicate WriteSafe(d: IndexData, i: Ino, w: Extent, fm: FilterMode) {
    fm.InPlace? ==> !SplitsBeforeLast(ExtentsOf(d, i), w)
  }

  /**
   Writing an extent overlays its bytes on the file, leaves every other file as
   it was, and keeps all live extents disjoint in their files and in the chunks.
   */
  lemma WriteExtentOverlays(d: IndexData, i: Ino, w: Extent, now: int, fm: FilterMode, v: View)
    requires DataOk(d, v) && IsRegular(d, i)
    requires InView(w, v) && Unused(d, w) && WriteSafe(d, i, w, fm)
    ensures WriteExtent(d, i, w, now, fm).Some?
    ensures var d' := WriteExtent(d, i, w, now, fm).value;
            && DataOk(d', v)
            && Files(d', v) ==
               Files(d, v)[i := Overlay(Files(d, v)[i], w.fileOffset, v[w.chunkId][w.chunkOffset..w.ChunkEnd()])]
  {
    var d' := WriteExtent(d, i, w, now, fm).value;
    var exts, size := d.extents[i], SizeOf(d, i);
    if fm.InPlace? {
      InPlaceAgrees(exts, w);
    }
    WriteFreshListOk(exts, size, w, v);
    WriteFreshIsOverlay(exts, size, w, v);
    forall j | j in d.extents && j != i
      ensures CrossSep(WriteFresh(exts, w), d.extents[j]) && CrossSep(d.extents[j], WriteFresh(exts, w))
    {
      WriteFreshCross(exts, w, d.extents[j]);
    }
    ReplaceOne(d, d', i, WriteFresh(exts, w), Max(size, w.End()), v);
  }

  // ---- Truncating ----

  lemma TrimListOk(exts: seq<Extent>, size: nat, n: nat, v: View)
    requires ListOk(exts, size, v)
    ensures ListOk(Trim(exts, n), n, v)
  {
    TrimAreParts(exts, n);
    PartsListIn(Trim(exts, n), exts, size, v);
    forall k | 0 <= k < |Trim(exts, n)| ensures Trim(exts, n)[k].End() <= n {
      TrimEndsBy(exts, n, k);
    }
  }

  lemma SepSymmetric(xs: seq<Extent>, ys: seq<Extent>)
    requires CrossSep(xs, ys)
    ensures CrossSep(ys, xs)
  {
    forall i, j | 0 <= i < |ys| && 0 <= j < |xs| ensures Sep(ys[i], xs[j]) {
      assert Sep(xs[j], ys[i]);
    }
  }

  lemma TrimFile(d: IndexData, d': IndexData, i: Ino, n: nat, v: View)
    requires DataOk(d, v) && i in d.extents
    requires ReplacesOne(d, d', i, Trim(d.extents[i], n), n)
    ensures DataOk(d', v) && Files(d', v) == Files(d, v)[i := Resize(Files(d, v)[i], n)]
  {
    var exts := d.extents[i];
    TrimListOk(exts, SizeOf(d, i), n, v);
    TrimIsResize(exts, SizeOf(d, i), n, v);
    TrimAreParts(exts, n);
    forall j | j in d.extents && j != i
      ensures CrossSep(Trim(exts, n), d.extents[j]) && CrossSep(d.extents[j], Trim(exts, n))
    {
      PartsCrossSep(Trim(exts, n), exts, d.extents[j]);
      SepSymmetric(Trim(exts, n), d.extents[j]);
    }
    ReplaceOne(d, d', i, Trim(exts, n), n, v);
  }

  predicate SameFileData(d: IndexData, d': IndexData) {
    && d'.extents == d.extents && d'.nextIno == d.nextIno && d'.inodes.Keys == d.inodes.Keys
    && (forall j | j in d.inodes :: d'.inodes[j].fileType == d.inodes[j].fileType)
    && (forall j | j in d.extents :: SizeOf(d', j) == SizeOf(d, j))
  }

  lemma SetAttrShape(d: IndexData, i: Ino, a: AttrChange, now: int)
    requires KeysOk(d) && i in d.inodes
    ensures SetAttr(d, i, a, now).Some?
    ensures var d' := SetAttr(d, i, a, now).value;
            if i in d.extents && a.size.Some? && a.size.value != SizeOf(d, i)
            then ReplacesOne(d, d', i, Trim(d.extents[i], a.size.value), a.size.value)
            else SameFileData(d, d')
  {
  }

  /** Setting a size cuts or zero-extends that file and touches no other. */
  lemma SetAttrResizes(d: IndexData, i: Ino, a: AttrChange, now: int, v: View)
    requires DataOk(d, v) && i in d.inodes
    ensures SetAttr(d, i, a, now).Some?
    ensures DataOk(SetAttr(d, i, a, now).value, v)
    ensures Files(SetAttr(d, i, a, now).value, v) ==
            if i in d.extents && a.size.Some?
            then Files(d, v)[i := Resize(Files(d, v)[i], a.size.value)] else Files(d, v)
  {
    SetAttrShape(d, i, a, now);
    var d' := SetAttr(d, i, a, now).value;
    if i in d.extents && a.size.Some? {
      if a.size.value != SizeOf(d, i) {
        TrimFile(d, d', i, a.size.value, v);
      } else {
        SameDataSameFiles(d, d', v);
        assert Resize(Files(d, v)[i], a.size.value) == Files(d, v)[i];
      }
    } else {
      SameDataSameFiles(d, d', v);
    }
  }

  /** Only the file types, the sizes of regular files and the extent lists matter. */
  lemma SameDataSameFiles(d: IndexData, d': IndexData, v: View)
    requires DataOk(d, v) && SameFileData(d, d')
    ensures DataOk(d', v) && Files(d', v) == Files(d, v)
  {
    assert KeysOk(d');
  }

  // ---- Everything else ----

  /** Files that live on keep their bytes; files that are new are empty. */
  function Retain(files: map<Ino, Bytes>, live: set<Ino>): map<Ino, Bytes> {
    map i | i in live :: if i in files then files[i] else []
  }

  /** `d'` has only extent lists and sizes of `d`, and empty new files under new numbers. */
  predicate OnlyDrops(d: IndexData, d': IndexData) {
    && d.nextIno <= d'.nextIno
    && forall i | i in d'.extents ::
         if i in d.extents then d'.extents[i] == d.extents[i] && SizeOf(d', i) == SizeOf(d, i)
         else d.nextIno <= i && d'.extents[i] == [] && SizeOf(d', i) == 0
  }

  lemma DropsRetain(d: IndexData, d': IndexData, v: View)
    requires DataOk(d, v) && OnlyDrops(d, d') && KeysOk(d')
    ensures DataOk(d', v) && Files(d', v) == Retain(Files(d, v), d'.extents.Keys)
  {
    DropsLists(d, d', v);
    DropsCross(d, d');
    DropsFiles(d, d', v);
  }

  lemma DropsLists(d: IndexData, d': IndexData, v: View)
    requires ListsOk(d, v) && OnlyDrops(d, d')
    ensures ListsOk(d', v)
  {
  }

  lemma DropsCross(d: IndexData, d': IndexData)
    requires CrossOk(d) && OnlyDrops(d, d')
    ensures CrossOk(d')
  {
    forall i, j | i in d'.extents && j in d'.extents && i != j ensures CrossSep(d'.extents[i], d'.extents[j]) {
    }
  }

  lemma DropsFiles(d: IndexData, d': IndexData, v: View)
    requires OnlyDrops(d, d')
    ensures Files(d', v) == Retain(Files(d, v), d'.extents.Keys)
  {
    assert Content([], 0, v) == [];
  }

  lemma AddDirEntryDrops(d: IndexData, p: Ino, name: string, c: Ino, now: int)
    requires KeysOk(d)
    requires AddDirEntry(d, p, name, c, now).Some?
    ensures var d' := AddDirEntry(d, p, name, c, now).value;
            KeysOk(d') && d'.extents == d.extents && forall i :: SizeOf(d', i) == SizeOf(d, i)
  {
  }

  lemma DropLinkDrops(d: IndexData, c: Ino)
    requires KeysOk(d) && c in d.inodes
    ensures KeysOk(DropLink(d, c)) && OnlyDrops(d, DropLink(d, c))
  {
  }

  lemma StampsDrop(d: IndexData, d1: IndexData, d': IndexData)
    requires KeysOk(d1) && OnlyDrops(d, d1)
    requires d'.extents == d1.extents && d'.nextIno == d1.nextIno && d'.inodes.Keys == d1.inodes.Keys
    requires forall i | i in d1.inodes ::
      d'.inodes[i].fileType == d1.inodes[i].fileType && d'.inodes[i].size == d1.inodes[i].size
    ensures KeysOk(d') && OnlyDrops(d, d')
  {
  }

  predicate SameSorts(inodes: map<Ino, Inode>, inodes': map<Ino, Inode>) {
    && inodes'.Keys == inodes.Keys
    && forall i | i in inodes :: inodes'[i].fileType == inodes[i].fileType && inodes'[i].size == inodes[i].size
  }

  lemma MoveNameSorts(d: IndexData, sp: Ino, sn: string, dp: Ino, dn: string, c: Ino, now: int)
    ensures var d' := MoveName(d, sp, sn, dp, dn, c, now);
            SameSorts(d.inodes, d'.inodes) && d'.extents == d.extents && d'.nextIno == d.nextIno
  {
    var i1 := StampCtime(d.inodes, c, now);
    var i2 := StampDir(i1, sp, now);
    assert SameSorts(d.inodes, i1);
    assert SameSorts(i1, i2);
  }

  lemma RenameDrops(d: IndexData, sp: Ino, sn: string, dp: Ino, dn: string, now: int)
    requires KeysOk(d)
    requires Rename(d, sp, sn, dp, dn, now).Some?
    ensures var d' := Rename(d, sp, sn, dp, dn, now).value;
            KeysOk(d') && OnlyDrops(d, d')
  {
    var taken := dn in ChildrenOf(d, dp);
    var d1 := if taken then DropLink(d, ChildrenOf(d, dp)[dn]) else d;
    if taken {
      DropLinkDrops(d, ChildrenOf(d, dp)[dn]);
    }
    MoveNameSorts(d1, sp, sn, dp, dn, ChildrenOf(d, sp)[sn], now);
    StampsDrop(d, d1, Rename(d, sp, sn, dp, dn, now).value);
  }

  lemma RemoveDrops(d: IndexData, p: Ino, name: string, now: int)
    requires KeysOk(d)
    requires RemoveDirEntry(d, p, name, now).Some?
    ensures var d' := RemoveDirEntry(d, p, name, now).value;
            KeysOk(d') && OnlyDrops(d, d')
  {
    var c := ChildrenOf(d, p)[name];
    var d0 := DeleteName(d, p, name);
    DropLinkDrops(d0, c);
    StampsDrop(d, DropLink(d0, c), RemoveDirEntry(d, p, name, now).value);
  }

  lemma CreateDrops(d: IndexData, t: FileType, mode: nat, uid: nat, gid: nat, now: int, blockSize: int)
    requires KeysOk(d)
    ensures var d1 := CreateInode(d, t, mode, uid, gid, 0, now, blockSize); KeysOk(d1) && OnlyDrops(d, d1)
  {
  }

  lemma MakeDrops(d: IndexData, op: MetaOp, blockSize: int)
    requires KeysOk(d)
    requires op.MakeNode? || op.MakeSymlink?
    ensures var d' := ApplyMeta(d, op, blockSize).value;
            KeysOk(d') && OnlyDrops(d, d')
  {
    var t := if op.MakeNode? then op.fileType else SYMLINK;
    var mode := if op.MakeNode? then op.mode else 0x1FF;
    var d1 := CreateInode(d, t, mode, op.uid, op.gid, 0, op.now, blockSize);
    CreateDrops(d, t, mode, op.uid, op.gid, op.now, blockSize);
    if AddDirEntry(d1, op.parent, op.name, d.nextIno, op.now).Some? {
      AddDirEntryDrops(d1, op.parent, op.name, d.nextIno, op.now);
    }
  }

  lemma MetaDrops(d: IndexData, op: MetaOp, blockSize: int)
    requires KeysOk(d) && ApplyMeta(d, op, blockSize).Some?
    ensures var d' := ApplyMeta(d, op, blockSize).value; KeysOk(d') && OnlyDrops(d, d')
  {
    match op {
      case MakeNode(_, _, _, _, _, _, _) => MakeDrops(d, op, blockSize);
      case MakeSymlink(_, _, _, _, _, _) => MakeDrops(d, op, blockSize);
      case Link(p, n, t, now) => AddDirEntryDrops(d, p, n, t, now);
      case Remove(p, n, now) => RemoveDrops(d, p, n, now);
      case Move(sp, sn, dp, dn, now) => RenameDrops(d, sp, sn, dp, dn, now);
      case PutXattr(_, _, _, _) =>
      case DropXattr(_, _, _) =>
    }
  }

  /** No operation on names or attributes changes a byte of a file that lives on. */
  lemma MetaRetains(d: IndexData, op: MetaOp, blockSize: int, v: View)
    requires DataOk(d, v)
    requires ApplyMeta(d, op, blockSize).Some?
    ensures var d' := ApplyMeta(d, op, blockSize).value;
            DataOk(d', v) && Files(d', v) == Retain(Files(d, v), d'.extents.Keys)
  {
    MetaDrops(d, op, blockSize);
    DropsRetain(d, ApplyMeta(d, op, blockSize).value, v);
  }

  // ---- Remapping ----

  /** Each remapped extent keeps its place in the file, its length and its bytes. */
  predicate SameBytes(e: Extent, r: Extent, v: View) {
    && r.length == e.length && r.fileOffset == e.fileOffset
    && InView(e, v) && InView(r, v)
    && v[r.chunkId][r.chunkOffset..r.ChunkEnd()] == v[e.chunkId][e.chunkOffset..e.ChunkEnd()]
  }

  predicate ListRemapOk(exts: seq<Extent>, m: RemapTable, v: View) {
    forall k | 0 <= k < |exts| :: SameBytes(exts[k], RemapOne(exts[k], m), v)
  }

  predicate RemapOk(d: IndexData, m: RemapTable, v: View) {
    && (forall i | i in d.extents :: ListRemapOk(d.extents[i], m, v))
    && (forall i | i in d.extents :: ChunkDisjoint(RemapList(d.extents[i], m)))
    && CrossOk(RemapExtents(d, m))
  }

  lemma RemapStep(front: seq<Extent>, front': seq<Extent>, e: Extent, r: Extent, v: View, p: nat)
    requires ByteAt(front', v, p) == ByteAt(front, v, p) && SameBytes(e, r, v)
    ensures ByteAt(front' + [r], v, p) == ByteAt(front + [e], v, p)
  {
    ByteAtSnoc(front, e, v, p);
    ByteAtSnoc(front', r, v, p);
    if Covers(e, p) {
      SameChunkByte(e, r, v, p - e.fileOffset);
    }
  }

  lemma {:induction false} RemapByteAt(exts: seq<Extent>, m: RemapTable, v: View, p: nat)
    requires ListRemapOk(exts, m, v)
    ensures ByteAt(RemapList(exts, m), v, p) == ByteAt(exts, v, p)
  {
    if exts == [] {
      assert RemapList(exts, m) == exts;
    } else {
      var k := |exts| - 1;
      var front, e := exts[..k], exts[k];
      RemapByteAt(front, m, v, p);
      RemapStep(front, RemapList(front, m), e, RemapOne(e, m), v, p);
      assert exts == front + [e];
      assert RemapList(exts, m) == RemapList(front, m) + [RemapOne(e, m)];
    }
  }

  lemma SameChunkByte(e: Extent, r: Extent, v: View, o: nat)
    requires SameBytes(e, r, v) && o < e.length
    ensures ChunkByte(v, r.chunkId, r.chunkOffset + o) == ChunkByte(v, e.chunkId, e.chunkOffset + o)
  {
    assert v[r.chunkId][r.chunkOffset..r.ChunkEnd()][o] == v[e.chunkId][e.chunkOffset..e.ChunkEnd()][o];
  }

  lemma RemapListOk(exts: seq<Extent>, size: nat, m: RemapTable, v: View)
    requires ListOk(exts, size, v) && ListRemapOk(exts, m, v) && ChunkDisjoint(RemapList(exts, m))
    ensures ListOk(RemapList(exts, m), size, v)
    ensures Content(RemapList(exts, m), size, v) == Content(exts, size, v)
  {
    var r := RemapList(exts, m);
    forall k | 0 <= k < |r| ensures InView(r[k], v) && r[k].End() <= size {
      assert SameBytes(exts[k], r[k], v);
    }
    forall i, j | 0 <= i < j < |r| ensures Apart(r[i], r[j]) {
      assert SameBytes(exts[i], r[i], v) && SameBytes(exts[j], r[j], v);
      assert Apart(exts[i], exts[j]);
    }
    forall p: nat ensures ByteAt(r, v, p) == ByteAt(exts, v, p) {
      RemapByteAt(exts, m, v, p);
    }
  }

  /** A remap that moves bytes without changing them changes no file. */
  lemma RemapKeepsFiles(d: IndexData, m: RemapTable, v: View)
    requires DataOk(d, v) && RemapOk(d, m, v)
    ensures DataOk(RemapExtents(d, m), v)
    ensures Files(RemapExtents(d, m), v) == Files(d, v)
  {
    var d' := RemapExtents(d, m);
    RemapExtentsLists(d, m);
    assert KeysOk(d');
    RemapLists(d, m, v);
  }

  lemma RemapLists(d: IndexData, m: RemapTable, v: View)
    requires ListsOk(d, v) && RemapOk(d, m, v)
    ensures ListsOk(RemapExtents(d, m), v) && Files(RemapExtents(d, m), v) == Files(d, v)
  {
    var d' := RemapExtents(d, m);
    RemapExtentsLists(d, m);
    forall i | i in d.extents
      ensures ListOk(d'.extents[i], SizeOf(d', i), v)
      ensures Files(d', v)[i] == Files(d, v)[i]
    {
      RemapListOk(d.extents[i], SizeOf(d, i), m, v);
    }
  }
}
