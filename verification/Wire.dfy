/**
 The persisted form of the index.  A snapshot lists the directory entries in
 whatever order the maps are walked; the wire form keeps a 32-bit sequence
 number in place of each chunk ID.  Restoring rebuilds the index.
 */
module Wire {
  import opened Base
  import opened ChunkIds
  import opened IndexModel
  import opened Names

  datatype DirEntry = DirEntry(parent: Ino, name: string, child: Ino)

  datatype Snapshot = Snapshot(
    inodes: map<Ino, Inode>, dirEntries: seq<DirEntry>, extentMap: map<Ino, seq<Extent>>,
    symlinks: map<Ino, string>, xattrs: map<Ino, map<string, string>>, nextIno: Ino)

  datatype WireInode = WireInode(
    ino: nat, fileType: nat, mode: nat, nlink: nat, uid: nat, gid: nat, size: nat,
    atime: int, mtime: int, ctime: int, blksize: int, blocks: nat, rdev: nat)

  datatype WireExtent = WireExtent(chunkSeq: nat, chunkOffset: nat, length: nat, fileOffset: nat)

  datatype WireSnapshot = WireSnapshot(
    inodes: map<Ino, WireInode>, dirEntries: seq<DirEntry>, extentMap: map<Ino, seq<WireExtent>>,
    symlinks: map<Ino, string>, xattrs: map<Ino, map<string, string>>, nextIno: Ino)

  // ---- Encoding ----

  function EncodeInode(n: Inode): WireInode {
    WireInode(n.ino, n.fileType, n.mode, n.nlink, n.uid, n.gid, n.size, n.atime, n.mtime, n.ctime, n.blksize,
              n.blocks, n.rdev)
  }

  function DecodeInode(w: WireInode): Inode {
    Inode(w.ino, w.fileType, w.mode, w.nlink, w.uid, w.gid, w.size, w.atime, w.mtime, w.ctime, w.blksize, w.blocks,
          w.rdev)
  }

  predicate Encodable(exts: seq<Extent>) {
    forall k | 0 <= k < |exts| :: ParseChunkSeq(exts[k].chunkId).Some?
  }

  function EncodeExtent(e: Extent): WireExtent
    requires ParseChunkSeq(e.chunkId).Some?
  {
    WireExtent(ParseChunkSeq(e.chunkId).value, e.chunkOffset, e.length, e.fileOffset)
  }

  function EncodeList(exts: seq<Extent>): seq<WireExtent>
    requires Encodable(exts)
  {
    seq(|exts|, k requires 0 <= k < |exts| => EncodeExtent(exts[k]))
  }

  predicate AllEncodable(extents: map<Ino, seq<Extent>>) {
    forall i | i in extents :: Encodable(extents[i])
  }

  function ToWire(s: Snapshot): Option<WireSnapshot> {
    if !AllEncodable(s.extentMap) then None
    else Some(WireSnapshot(
      map i | i in s.inodes :: EncodeInode(s.inodes[i]), s.dirEntries,
      map i | i in s.extentMap :: EncodeList(s.extentMap[i]), s.symlinks, s.xattrs, s.nextIno))
  }

  // ---- Decoding ----

  function DecodeExtent(w: WireExtent): Extent {
    Extent(ChunkId(w.chunkSeq), w.chunkOffset, w.length, w.fileOffset)
  }

  function DecodeList(ws: seq<WireExtent>): seq<Extent> {
    seq(|ws|, k requires 0 <= k < |ws| => DecodeExtent(ws[k]))
  }

  function FromWire(w: WireSnapshot): Snapshot {
    Snapshot(map i | i in w.inodes :: DecodeInode(w.inodes[i]), w.dirEntries,
             map i | i in w.extentMap :: DecodeList(w.extentMap[i]), w.symlinks, w.xattrs, w.nextIno)
  }

  /** The directories that a list of entries rebuilds. */
  function Rebuild(es: seq<DirEntry>): map<Ino, Children> {
    if es == [] then map[]
    else
      var m, e := Rebuild(es[..|es| - 1]), es[|es| - 1];
      var children: Children := if e.parent in m then m[e.parent] else map[];
      m[e.parent := children[e.name := e.child]]
  }

  /** An empty child map for every directory that has no entries. */
  function EmptyDirs(inodes: map<Ino, Inode>, dirs: map<Ino, Children>): map<Ino, Children> {
    map i | i in inodes && inodes[i].fileType == DIRECTORY && i !in dirs :: map[]
  }

  function FromSnapshot(s: Snapshot): IndexData {
    var dirs := Rebuild(s.dirEntries);
    IndexData(s.inodes, dirs + EmptyDirs(s.inodes, dirs), s.extentMap, s.symlinks, s.xattrs, s.nextIno)
  }

  // ---- Which snapshots an index has ----

  /** The entries of the index, every one listed, in any order. */
  predicate Lists(es: seq<DirEntry>, dirs: map<Ino, Children>) {
    && (forall k | 0 <= k < |es| :: HasEntry(dirs, (es[k].parent, es[k].name)) &&
                                    dirs[es[k].parent][es[k].name] == es[k].child)
    && (forall p, n | p in dirs && n in dirs[p] :: DirEntry(p, n, dirs[p][n]) in es)
  }

  predicate IsSnapshot(d: IndexData, s: Snapshot) {
    && s.inodes == d.inodes && s.extentMap == d.extents && s.symlinks == d.symlinks && s.xattrs == d.xattrs
    && s.nextIno == d.nextIno && Lists(s.dirEntries, d.dirs)
  }

  // ---- The round trip ----

  /** Rebuilding from entries that all come from `dirs` gives nothing that `dirs` does not have. */
  lemma {:induction false} RebuildSound(es: seq<DirEntry>, dirs: map<Ino, Children>, p: Ino)
    requires forall k | 0 <= k < |es| :: HasEntry(dirs, (es[k].parent, es[k].name)) &&
                                         dirs[es[k].parent][es[k].name] == es[k].child
    requires p in Rebuild(es)
    ensures p in dirs
    ensures forall n | n in Rebuild(es)[p] :: n in dirs[p] && Rebuild(es)[p][n] == dirs[p][n]
  {
    var front, e := es[..|es| - 1], es[|es| - 1];
    assert HasEntry(dirs, (e.parent, e.name));
    if p in Rebuild(front) {
      RebuildSound(front, dirs, p);
    }
  }

  lemma {:induction false} RebuildComplete(es: seq<DirEntry>, k: nat)
    requires k < |es|
    ensures es[k].parent in Rebuild(es) && es[k].name in Rebuild(es)[es[k].parent]
  {
    if k == |es| - 1 {
    } else {
      RebuildComplete(es[..|es| - 1], k);
    }
  }

  lemma {:induction false} RebuildNonEmpty(es: seq<DirEntry>, p: Ino)
    requires p in Rebuild(es)
    ensures Rebuild(es)[p] != map[]
  {
    var e := es[|es| - 1];
    if p == e.parent {
      assert e.name in Rebuild(es)[p];
    } else {
      RebuildNonEmpty(es[..|es| - 1], p);
    }
  }

  /** Any listing of the entries rebuilds exactly the directories that have entries. */
  lemma RebuildExact(es: seq<DirEntry>, dirs: map<Ino, Children>, p: Ino)
    requires Lists(es, dirs)
    ensures p in Rebuild(es) <==> p in dirs && dirs[p] != map[]
    ensures p in Rebuild(es) ==> Rebuild(es)[p] == dirs[p]
  {
    var m := Rebuild(es);
    if p in m {
      RebuildSound(es, dirs, p);
      RebuildNonEmpty(es, p);
    }
    if p in dirs {
      forall n | n in dirs[p] ensures p in m && n in m[p] {
        var k :| 0 <= k < |es| && es[k] == DirEntry(p, n, dirs[p][n]);
        RebuildComplete(es, k);
      }
      if dirs[p] != map[] {
        var n :| n in dirs[p];
      }
    }
  }

  lemma RestoreDirs(d: IndexData, es: seq<DirEntry>)
    requires DirsOk(d) && Lists(es, d.dirs)
    ensures Rebuild(es) + EmptyDirs(d.inodes, Rebuild(es)) == d.dirs
  {
    var m := Rebuild(es);
    var r := m + EmptyDirs(d.inodes, m);
    forall p: Ino ensures (p in r <==> p in d.dirs) && (p in r ==> r[p] == d.dirs[p]) {
      RebuildExact(es, d.dirs, p);
      assert p in d.dirs <==> IsDir(d, p);
    }
  }

  predicate CanonicalList(exts: seq<Extent>) {
    forall k | 0 <= k < |exts| :: Canonical(exts[k].chunkId)
  }

  predicate AllCanonical(extents: map<Ino, seq<Extent>>) {
    forall i | i in extents :: CanonicalList(extents[i])
  }

  lemma ListRoundTrip(exts: seq<Extent>)
    requires Encodable(exts)
    ensures DecodeList(EncodeList(exts)) == exts <==> CanonicalList(exts)
  {
    var r := DecodeList(EncodeList(exts));
    if r == exts {
      forall k | 0 <= k < |exts| ensures Canonical(exts[k].chunkId) {
        assert r[k] == exts[k];
      }
    }
  }

  /** Encoding fails exactly when some extent's chunk ID holds no 32-bit sequence number. */
  lemma EncodeFailsIff(s: Snapshot)
    ensures ToWire(s).None? <==>
            exists i, k ::
              i in s.extentMap && 0 <= k < |s.extentMap[i]| && ParseChunkSeq(s.extentMap[i][k].chunkId).None?
  {
  }

  /** What a cold start makes of a snapshot of `d`: the persisted index, if encoding succeeds. */
  function Persisted(s: Snapshot): Option<IndexData> {
    var w := ToWire(s);
    if w.None? then None else Some(FromSnapshot(FromWire(w.value)))
  }

  lemma DecodedMaps(s: Snapshot)
    requires ToWire(s).Some?
    ensures var r := FromWire(ToWire(s).value);
            && r.inodes == s.inodes && r.dirEntries == s.dirEntries && r.symlinks == s.symlinks && r.xattrs == s.xattrs
            && r.nextIno == s.nextIno && r.extentMap.Keys == s.extentMap.Keys
            && forall i | i in s.extentMap :: r.extentMap[i] == DecodeList(EncodeList(s.extentMap[i]))
  {
  }

  /**
   For every snapshot of an index, in whatever order it lists the entries,
   encoding, decoding and restoring give back the index if and only if all its
   extents use the chunk IDs that the chunk store prints, of 32-bit sequence numbers.
   */
  lemma RoundTripIff(d: IndexData, s: Snapshot)
    requires DirsOk(d) && IsSnapshot(d, s)
    ensures Persisted(s) == Some(d) <==> AllCanonical(d.extents)
  {
    if ToWire(s).Some? {
      var r := FromWire(ToWire(s).value);
      DecodedMaps(s);
      RestoreDirs(d, s.dirEntries);
      assert FromSnapshot(r) == d.(extents := r.extentMap);
      forall i | i in d.extents ensures r.extentMap[i] == d.extents[i] <==> CanonicalList(d.extents[i]) {
        assert Encodable(d.extents[i]);
        ListRoundTrip(d.extents[i]);
      }
      assert r.extentMap == d.extents <==> forall i | i in d.extents :: r.extentMap[i] == d.extents[i];
    } else {
      EncodeFailsIff(s);
      var i, k :| i in d.extents && 0 <= k < |d.extents[i]| && ParseChunkSeq(d.extents[i][k].chunkId).None?;
      assert !CanonicalList(d.extents[i]);
    }
  }

  /** An index that refers to any compacted chunk cannot be encoded. */
  lemma CompactedNotEncodable(d: IndexData, i: Ino, k: nat)
    requires i in d.extents && k < |d.extents[i]| && COMPACTED_PREFIX <= d.extents[i][k].chunkId
    ensures !AllEncodable(d.extents)
  {
    CompactedHasNoSeq(d.extents[i][k].chunkId);
    assert !Encodable(d.extents[i]);
  }

  // ---- The loops ----

  /** The entries of one directory, in any order. */
  method ListDirectory(p: Ino, children: Children) returns (es: seq<DirEntry>)
    ensures forall k | 0 <= k < |es| ::
              es[k].parent == p && es[k].name in children && children[es[k].name] == es[k].child
    ensures forall n | n in children :: DirEntry(p, n, children[n]) in es
  {
    es := [];
    var rest := children.Keys;
    while rest != {}
      invariant rest <= children.Keys
      invariant forall k | 0 <= k < |es| ::
                  es[k].parent == p && es[k].name in children && children[es[k].name] == es[k].child
      invariant forall n | n in children && n !in rest :: DirEntry(p, n, children[n]) in es
      decreases |rest|
    {
      var n :| n in rest;
      var longer := es + [DirEntry(p, n, children[n])];
      assert longer[|es|] in longer;
      es, rest := longer, rest - {n};
    }
  }

  method ListEntries(dirs: map<Ino, Children>) returns (es: seq<DirEntry>)
    ensures Lists(es, dirs)
  {
    es := [];
    var rest := dirs.Keys;
    while rest != {}
      invariant rest <= dirs.Keys
      invariant forall k | 0 <= k < |es| :: HasEntry(dirs, (es[k].parent, es[k].name)) &&
                                            dirs[es[k].parent][es[k].name] == es[k].child
      invariant forall p, n | p in dirs && p !in rest && n in dirs[p] :: DirEntry(p, n, dirs[p][n]) in es
      decreases |rest|
    {
      var p :| p in rest;
      var some := ListDirectory(p, dirs[p]);
      es, rest := es + some, rest - {p};
    }
  }

  /** `Snapshot`: a copy of the maps and a listing of the entries. */
  method TakeSnapshot(d: IndexData) returns (s: Snapshot)
    ensures IsSnapshot(d, s)
  {
    var es := ListEntries(d.dirs);
    s := Snapshot(d.inodes, es, d.extents, d.symlinks, d.xattrs, d.nextIno);
  }

  method EncodeExtents(exts: seq<Extent>) returns (ws: Option<seq<WireExtent>>)
    ensures ws == if Encodable(exts) then Some(EncodeList(exts)) else None
  {
    var out := [];
    for k := 0 to |exts|
      invariant |out| == k
      invariant forall j | 0 <= j < k :: ParseChunkSeq(exts[j].chunkId).Some? && out[j] == EncodeExtent(exts[j])
    {
      var n := ParseChunkSeq(exts[k].chunkId);
      if n.None? {
        return None;
      }
      out := out + [WireExtent(n.value, exts[k].chunkOffset, exts[k].length, exts[k].fileOffset)];
    }
    assert out == EncodeList(exts);
    ws := Some(out);
  }

  /** `toWireSnapshot`, walking the extent map in any order and giving up at the first bad ID. */
  method EncodeSnapshot(s: Snapshot) returns (w: Option<WireSnapshot>)
    ensures w == ToWire(s)
  {
    var em: map<Ino, seq<WireExtent>>, rest := map[], s.extentMap.Keys;
    while rest != {}
      invariant rest <= s.extentMap.Keys && em.Keys == s.extentMap.Keys - rest
      invariant forall i | i in em :: Encodable(s.extentMap[i]) && em[i] == EncodeList(s.extentMap[i])
      decreases |rest|
    {
      var i :| i in rest;
      var ws := EncodeExtents(s.extentMap[i]);
      if ws.None? {
        return None;
      }
      em, rest := em[i := ws.value], rest - {i};
    }
    ghost var spec := ToWire(s).value;
    assert em == spec.extentMap;
    var inodes := map i | i in s.inodes :: EncodeInode(s.inodes[i]);
    assert inodes == spec.inodes;
    w := Some(WireSnapshot(inodes, s.dirEntries, em, s.symlinks, s.xattrs, s.nextIno));
  }

  /** The loop of `FromSnapshot` over the flat entries. */
  method RebuildDirs(es: seq<DirEntry>) returns (m: map<Ino, Children>)
    ensures m == Rebuild(es)
  {
    m := map[];
    for k := 0 to |es|
      invariant m == Rebuild(es[..k])
    {
      assert es[..k + 1][..k] == es[..k];
      var e := es[k];
      if e.parent !in m {
        m := m[e.parent := map[]];
      }
      var children: Children := m[e.parent];
      m := m[e.parent := children[e.name := e.child]];
    }
    assert es[..|es|] == es;
  }

  /** An empty directory wherever none was rebuilt. */
  method AddEmptyDirs(inodes: map<Ino, Inode>, rebuilt: map<Ino, Children>) returns (dirs: map<Ino, Children>)
    ensures dirs == rebuilt + EmptyDirs(inodes, rebuilt)
  {
    dirs := rebuilt;
    var rest := inodes.Keys;
    while rest != {}
      invariant rest <= inodes.Keys
      invariant forall i | i in rebuilt :: i in dirs && dirs[i] == rebuilt[i]
      invariant forall i | i in dirs && i !in rebuilt :: i in EmptyDirs(inodes, rebuilt) && dirs[i] == map[]
      invariant forall i | i in inodes && i !in rest && inodes[i].fileType == DIRECTORY :: i in dirs
      decreases |rest|
    {
      var i :| i in rest;
      rest := rest - {i};
      if inodes[i].fileType == DIRECTORY && i !in dirs {
        dirs := dirs[i := map[]];
      }
    }
  }

  /** `FromSnapshot`: the entries one by one, then the directories without entries. */
  method RestoreSnapshot(s: Snapshot) returns (d: IndexData)
    ensures d == FromSnapshot(s)
  {
    var rebuilt := RebuildDirs(s.dirEntries);
    var dirs := AddEmptyDirs(s.inodes, rebuilt);
    d := IndexData(s.inodes, dirs, s.extentMap, s.symlinks, s.xattrs, s.nextIno);
  }
}
