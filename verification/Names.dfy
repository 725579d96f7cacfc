/**
 The namespace: the table of directory entries, link counts and freeing, and
 exactly which operations on names keep the counts exact.
 */
module Names {
  import opened Base
  import opened IndexModel

  // ---- Directory entries as one table ----

  type EntryName = (Ino, string)
  type EntryTable = map<EntryName, Ino>

  predicate HasEntry(dirs: map<Ino, Children>, x: EntryName) {
    x.0 in dirs && x.1 in dirs[x.0]
  }

  ghost predicate IsTable(dirs: map<Ino, Children>, t: EntryTable) {
    && (forall x: EntryName :: x in t <==> HasEntry(dirs, x))
    && (forall x: EntryName | x in t :: t[x] == dirs[x.0][x.1])
  }

  lemma TableExists(dirs: map<Ino, Children>)
    ensures exists t :: IsTable(dirs, t)
  {
    var t: EntryTable := map p, n | p in dirs && n in dirs[p] :: (p, n) := dirs[p][n];
    forall x: EntryName | HasEntry(dirs, x) ensures x in t {
      var (p, n) := x;
      assert p in dirs && n in dirs[p];
    }
    assert IsTable(dirs, t);
  }

  /** All directory entries, by parent and name. */
  ghost function Entries(dirs: map<Ino, Children>): (t: EntryTable)
    ensures IsTable(dirs, t)
  {
    TableExists(dirs);
    var t :| IsTable(dirs, t);
    t
  }

  lemma TableUnique(dirs: map<Ino, Children>, t: EntryTable)
    requires IsTable(dirs, t)
    ensures t == Entries(dirs)
  {
  }

  lemma DeleteNameEntries(d: IndexData, p: Ino, n: string)
    requires p in d.dirs
    ensures Entries(DeleteName(d, p, n).dirs) == Entries(d.dirs) - {(p, n)}
  {
    var dirs' := DeleteName(d, p, n).dirs;
    var t := Entries(d.dirs) - {(p, n)};
    assert IsTable(dirs', t);
    TableUnique(dirs', t);
  }

  lemma AddNameEntries(d: IndexData, p: Ino, n: string, c: Ino)
    requires p in d.dirs
    ensures Entries(AddName(d, p, n, c).dirs) == Entries(d.dirs)[(p, n) := c]
  {
    var dirs' := AddName(d, p, n, c).dirs;
    var t := Entries(d.dirs)[(p, n) := c];
    assert IsTable(dirs', t);
    TableUnique(dirs', t);
  }

  lemma DropEmptyEntries(dirs: map<Ino, Children>, c: Ino)
    requires c in dirs ==> dirs[c] == map[]
    ensures Entries(dirs - {c}) == Entries(dirs)
  {
    assert IsTable(dirs - {c}, Entries(dirs));
    TableUnique(dirs - {c}, Entries(dirs));
  }

  lemma NewDirEntries(dirs: map<Ino, Children>, c: Ino)
    requires c !in dirs
    ensures Entries(dirs[c := map[]]) == Entries(dirs)
  {
    assert IsTable(dirs[c := map[]], Entries(dirs));
    TableUnique(dirs[c := map[]], Entries(dirs));
  }

  // ---- Link counts ----

  /** The entries that refer to inode `i`. */
  function Refs(t: EntryTable, i: Ino): set<EntryName> {
    set x | x in t && t[x] == i
  }

  predicate NoDangling(inodes: map<Ino, Inode>, t: EntryTable) {
    forall x | x in t :: t[x] in inodes
  }

  /** The links an inode has beside its entries: a directory has its own dot entry. */
  function SelfLinks(inode: Inode): nat {
    if inode.fileType == DIRECTORY then 1 else 0
  }

  /** Link counts are exact, except that inode `over`, if given, counts one entry too many. */
  predicate NlinkOk(inodes: map<Ino, Inode>, t: EntryTable, over: Option<Ino>) {
    forall i | i in inodes ::
      inodes[i].nlink == |Refs(t, i)| + SelfLinks(inodes[i]) + if over == Some(i) then 1 else 0
  }

  ghost predicate DirsOk(d: IndexData) {
    forall p :: p in d.dirs <==> IsDir(d, p)
  }

  /** What hangs off inode numbers hangs off live inodes of the right type. */
  ghost predicate Owned(d: IndexData) {
    && DirsOk(d)
    && (forall i :: i in d.extents <==> IsRegular(d, i))
    && (forall i | i in d.symlinks :: i in d.inodes && d.inodes[i].fileType == SYMLINK)
    && (forall i | i in d.xattrs :: i in d.inodes)
    && (forall i | i in d.inodes :: i < d.nextIno)
  }

  ghost predicate LinkOkBut(d: IndexData, over: Option<Ino>) {
    && Owned(d)
    && NoDangling(d.inodes, Entries(d.dirs))
    && NlinkOk(d.inodes, Entries(d.dirs), over)
  }

  ghost predicate LinkOk(d: IndexData) {
    LinkOkBut(d, None)
  }

  predicate SameCounts(inodes: map<Ino, Inode>, inodes': map<Ino, Inode>) {
    && inodes'.Keys == inodes.Keys
    && forall i | i in inodes :: inodes'[i].fileType == inodes[i].fileType && inodes'[i].nlink == inodes[i].nlink
  }

  /** Nothing that link counting looks at differs. */
  predicate SameLinks(d: IndexData, d': IndexData) {
    && d'.dirs == d.dirs && d'.nextIno == d.nextIno && d'.extents.Keys == d.extents.Keys
    && d'.symlinks.Keys == d.symlinks.Keys && d'.xattrs.Keys == d.xattrs.Keys && SameCounts(d.inodes, d'.inodes)
  }

  lemma SameLinksKeeps(d: IndexData, d': IndexData, over: Option<Ino>)
    requires LinkOkBut(d, over) && SameLinks(d, d')
    ensures LinkOkBut(d', over)
  {
  }

  lemma RefsDelete(t: EntryTable, x: EntryName, i: Ino)
    requires x in t
    ensures |Refs(t, i)| == |Refs(t - {x}, i)| + if t[x] == i then 1 else 0
  {
    if t[x] == i {
      assert Refs(t, i) == Refs(t - {x}, i) + {x};
    } else {
      assert Refs(t, i) == Refs(t - {x}, i);
    }
  }

  lemma RefsAdd(t: EntryTable, x: EntryName, c: Ino, i: Ino)
    requires x !in t
    ensures |Refs(t[x := c], i)| == |Refs(t, i)| + if c == i then 1 else 0
  {
    RefsDelete(t[x := c], x, i);
    assert t[x := c] - {x} == t;
  }

  /** Taking a name away leaves its inode counting one entry too many. */
  lemma DeleteNameLinks(d: IndexData, p: Ino, n: string)
    requires LinkOk(d) && p in d.dirs && n in d.dirs[p]
    ensures LinkOkBut(DeleteName(d, p, n), Some(d.dirs[p][n]))
  {
    var t, c := Entries(d.dirs), d.dirs[p][n];
    DeleteNameEntries(d, p, n);
    assert HasEntry(d.dirs, (p, n)) && t[(p, n)] == c;
    forall i | i in d.inodes
      ensures d.inodes[i].nlink ==
              |Refs(t - {(p, n)}, i)| + SelfLinks(d.inodes[i]) + if Some(c) == Some(i) then 1 else 0
    {
      RefsDelete(t, (p, n), i);
    }
  }

  /** Giving a name to an inode that counts one entry too many evens the count. */
  lemma AddNameLinks(d: IndexData, p: Ino, n: string, c: Ino)
    requires LinkOkBut(d, Some(c)) && c in d.inodes
    requires p in d.dirs && n !in d.dirs[p]
    ensures LinkOk(AddName(d, p, n, c))
  {
    var t := Entries(d.dirs);
    AddNameEntries(d, p, n, c);
    assert !HasEntry(d.dirs, (p, n));
    forall i | i in d.inodes
      ensures d.inodes[i].nlink == |Refs(t[(p, n) := c], i)| + SelfLinks(d.inodes[i])
    {
      RefsAdd(t, (p, n), c, i);
    }
  }

  lemma FreedLinks(d: IndexData, c: Ino)
    requires LinkOkBut(d, Some(c)) && c in d.inodes && !NonEmptyDir(d, c)
    requires Refs(Entries(d.dirs), c) == {}
    ensures LinkOk(Freed(d, c)) && Entries(Freed(d, c).dirs) == Entries(d.dirs)
  {
    var t, d' := Entries(d.dirs), Freed(d, c);
    DropEmptyEntries(d.dirs, c);
    forall x | x in t ensures t[x] in d'.inodes {
      assert x !in Refs(t, c);
    }
    FreedOwned(d, c);
  }

  lemma FreedOwned(d: IndexData, c: Ino)
    requires Owned(d)
    ensures Owned(Freed(d, c))
  {
  }

  lemma OwnedKeeps(d: IndexData, c: Ino, inode: Inode)
    requires Owned(d) && c in d.inodes && inode.fileType == d.inodes[c].fileType
    ensures Owned(d.(inodes := d.inodes[c := inode]))
  {
  }

  lemma DecLinks(d: IndexData, c: Ino, inode: Inode)
    requires LinkOkBut(d, Some(c)) && c in d.inodes
    requires inode.fileType == d.inodes[c].fileType && inode.nlink == d.inodes[c].nlink - 1
    ensures LinkOk(d.(inodes := d.inodes[c := inode]))
  {
    OwnedKeeps(d, c, inode);
    DecCounts(d.inodes, Entries(d.dirs), c, inode);
  }

  lemma DecCounts(inodes: map<Ino, Inode>, t: EntryTable, c: Ino, inode: Inode)
    requires NlinkOk(inodes, t, Some(c)) && c in inodes
    requires inode.fileType == inodes[c].fileType && inode.nlink == inodes[c].nlink - 1
    ensures NlinkOk(inodes[c := inode], t, None)
  {
    var inodes' := inodes[c := inode];
    forall i | i in inodes' ensures inodes'[i].nlink == |Refs(t, i)| + SelfLinks(inodes'[i]) {
      assert i in inodes;
    }
  }

  lemma DropLinkForm(d: IndexData, c: Ino, refs: set<EntryName>)
    requires c in d.inodes && d.inodes[c].nlink == |refs| + SelfLinks(d.inodes[c]) + 1
    ensures DropLink(d, c) ==
            if refs == {} then Freed(d, c)
            else d.(inodes := d.inodes[c := d.inodes[c].(nlink := d.inodes[c].nlink - 1)])
  {
    assert refs != {} ==> |refs| > 0;
  }

  /** Dropping the link that is one too many evens the count; an inode goes when its last entry has gone. */
  lemma DropLinkLinks(d: IndexData, c: Ino)
    requires LinkOkBut(d, Some(c)) && c in d.inodes && !NonEmptyDir(d, c)
    ensures LinkOk(DropLink(d, c))
    ensures c in DropLink(d, c).inodes <==> Refs(Entries(d.dirs), c) != {}
    ensures Entries(DropLink(d, c).dirs) == Entries(d.dirs)
  {
    var t := Entries(d.dirs);
    assert d.inodes[c].nlink == |Refs(t, c)| + SelfLinks(d.inodes[c]) + 1;
    DropLinkForm(d, c, Refs(t, c));
    if Refs(t, c) == {} {
      FreedLinks(d, c);
    } else {
      DecLinks(d, c, d.inodes[c].(nlink := d.inodes[c].nlink - 1));
    }
  }

  lemma IncLinks(d: IndexData, c: Ino, inode: Inode)
    requires LinkOk(d) && c in d.inodes
    requires inode.fileType == d.inodes[c].fileType && inode.nlink == d.inodes[c].nlink + 1
    ensures LinkOkBut(d.(inodes := d.inodes[c := inode]), Some(c))
  {
    OwnedKeeps(d, c, inode);
  }

  // ---- Each operation ----

  lemma CreateInodeLinks(d: IndexData, t: FileType, mode: nat, uid: nat, gid: nat, rdev: nat, now: int, blk: int)
    requires LinkOk(d)
    ensures var d' := CreateInode(d, t, mode, uid, gid, rdev, now, blk);
            LinkOk(d') && Entries(d'.dirs) == Entries(d.dirs) && Refs(Entries(d.dirs), d.nextIno) == {}
  {
    var c, e := d.nextIno, Entries(d.dirs);
    assert c !in d.inodes && c !in d.dirs;
    NewDirEntries(d.dirs, c);
    assert Refs(e, c) == {};
  }

  lemma StampDirLinks(d: IndexData, p: Ino, now: int)
    ensures SameCounts(d.inodes, StampDir(d.inodes, p, now))
  {
  }

  lemma StampCtimeLinks(d: IndexData, p: Ino, now: int)
    ensures SameCounts(d.inodes, StampCtime(d.inodes, p, now))
  {
  }

  /** The inode counts one link more and has the new name. */
  lemma LinkedLinks(d: IndexData, p: Ino, n: string, c: Ino, inode: Inode)
    requires LinkOk(d) && c in d.inodes && p in d.dirs && n !in d.dirs[p]
    requires inode.fileType == d.inodes[c].fileType && inode.nlink == d.inodes[c].nlink + 1
    ensures LinkOk(AddName(d.(inodes := d.inodes[c := inode]), p, n, c))
  {
    IncLinks(d, c, inode);
    AddNameLinks(d.(inodes := d.inodes[c := inode]), p, n, c);
  }

  lemma AddDirEntryShape(d: IndexData, p: Ino, n: string, c: Ino, now: int)
    requires AddDirEntry(d, p, n, c, now).Some? && d.inodes[c].nlink + 1 < NLINK_MODULUS && p in d.dirs
    ensures c in d.inodes && n !in d.dirs[p]
    ensures var inode := d.inodes[c].(nlink := d.inodes[c].nlink + 1, ctime := now);
            SameLinks(AddName(d.(inodes := d.inodes[c := inode]), p, n, c), AddDirEntry(d, p, n, c, now).value)
  {
    var inode := d.inodes[c].(nlink := d.inodes[c].nlink + 1, ctime := now);
    StampDirLinks(d.(inodes := d.inodes[c := inode]), p, now);
  }

  lemma AddDirEntryEntries(d: IndexData, p: Ino, n: string, c: Ino, now: int)
    requires LinkOk(d) && AddDirEntry(d, p, n, c, now).Some?
    ensures (p, n) !in Entries(d.dirs)
    ensures Entries(AddDirEntry(d, p, n, c, now).value.dirs) == Entries(d.dirs)[(p, n) := c]
  {
    AddNameEntries(d, p, n, c);
    assert !HasEntry(d.dirs, (p, n));
  }

  /** One entry more keeps the count exact unless the 32-bit counter wraps. */
  lemma AddDirEntryLinks(d: IndexData, p: Ino, n: string, c: Ino, now: int)
    requires LinkOk(d) && AddDirEntry(d, p, n, c, now).Some?
    ensures LinkOk(AddDirEntry(d, p, n, c, now).value) <==> d.inodes[c].nlink + 1 < NLINK_MODULUS
    ensures Entries(AddDirEntry(d, p, n, c, now).value.dirs) == Entries(d.dirs)[(p, n) := c]
  {
    AddDirEntryEntries(d, p, n, c, now);
    if d.inodes[c].nlink + 1 < NLINK_MODULUS {
      AddDirEntryShape(d, p, n, c, now);
      var inode := d.inodes[c].(nlink := d.inodes[c].nlink + 1, ctime := now);
      LinkedLinks(d, p, n, c, inode);
      SameLinksKeeps(AddName(d.(inodes := d.inodes[c := inode]), p, n, c), AddDirEntry(d, p, n, c, now).value, None);
    } else {
      LinkWraps(d, p, n, c, now);
    }
  }

  /** A counter at its maximum does not count the next link. */
  lemma LinkWraps(d: IndexData, p: Ino, n: string, c: Ino, now: int)
    requires LinkOk(d) && AddDirEntry(d, p, n, c, now).Some? && d.inodes[c].nlink + 1 >= NLINK_MODULUS
    ensures !LinkOk(AddDirEntry(d, p, n, c, now).value)
  {
    var d', t := AddDirEntry(d, p, n, c, now).value, Entries(d.dirs);
    AddDirEntryEntries(d, p, n, c, now);
    RefsAdd(t, (p, n), c, c);
    assert d.inodes[c].nlink == |Refs(t, c)| + SelfLinks(d.inodes[c]);
    assert d'.inodes[c].nlink < NLINK_MODULUS && SelfLinks(d'.inodes[c]) == SelfLinks(d.inodes[c]);
  }

  lemma StampRemovedLinks(d: IndexData, c: Ino, p: Ino, now: int)
    ensures SameCounts(d.inodes, StampDir(StampCtime(d.inodes, c, now), p, now))
  {
    StampCtimeLinks(d, c, now);
    StampDirLinks(d.(inodes := StampCtime(d.inodes, c, now)), p, now);
  }

  /** The name goes, and with the last one the inode. */
  lemma UnlinkedLinks(d: IndexData, p: Ino, n: string)
    requires LinkOk(d) && p in d.dirs && n in d.dirs[p]
    requires d.dirs[p][n] in d.inodes && !NonEmptyDir(DeleteName(d, p, n), d.dirs[p][n])
    ensures var c, d1 := d.dirs[p][n], DropLink(DeleteName(d, p, n), d.dirs[p][n]);
            && LinkOk(d1) && Entries(d1.dirs) == Entries(d.dirs) - {(p, n)}
            && (c in d1.inodes <==> Refs(Entries(d1.dirs), c) != {})
  {
    DeleteNameLinks(d, p, n);
    DeleteNameEntries(d, p, n);
    DropLinkLinks(DeleteName(d, p, n), d.dirs[p][n]);
  }

  /** Removing an entry frees the inode if and only if it was the last entry that referred to it. */
  lemma RemoveDirEntryLinks(d: IndexData, p: Ino, n: string, now: int)
    requires LinkOk(d) && RemoveDirEntry(d, p, n, now).Some?
    ensures var d' := RemoveDirEntry(d, p, n, now).value;
            && LinkOk(d')
            && Entries(d'.dirs) == Entries(d.dirs) - {(p, n)}
            && (d.dirs[p][n] in d'.inodes <==> Refs(Entries(d'.dirs), d.dirs[p][n]) != {})
  {
    var c := d.dirs[p][n];
    UnlinkedLinks(d, p, n);
    var d1 := DropLink(DeleteName(d, p, n), c);
    StampRemovedLinks(d1, c, p, now);
    SameLinksKeeps(d1, RemoveDirEntry(d, p, n, now).value, None);
  }

  lemma StampMoveLinks(d: IndexData, c: Ino, sp: Ino, dp: Ino, now: int)
    ensures SameCounts(d.inodes, StampDir(StampDir(StampCtime(d.inodes, c, now), sp, now), dp, now))
  {
    StampCtimeLinks(d, c, now);
    var d1 := d.(inodes := StampCtime(d.inodes, c, now));
    StampDirLinks(d1, sp, now);
    var d2 := d1.(inodes := StampDir(d1.inodes, sp, now));
    StampDirLinks(d2, dp, now);
  }

  /** Moving a name to a free name of an existing directory. */
  lemma MoveToFreeLinks(d: IndexData, sp: Ino, sn: string, dp: Ino, dn: string, now: int)
    requires LinkOk(d) && sp in d.dirs && sn in d.dirs[sp]
    requires dp in d.dirs && dn !in d.dirs[dp]
    ensures LinkOk(MoveName(d, sp, sn, dp, dn, d.dirs[sp][sn], now))
  {
    var c := d.dirs[sp][sn];
    assert HasEntry(d.dirs, (sp, sn)) && Entries(d.dirs)[(sp, sn)] == c;
    DeleteNameLinks(d, sp, sn);
    var d1 := DeleteName(d, sp, sn);
    AddNameLinks(d1, dp, dn, c);
    MoveNameSame(d, sp, sn, dp, dn, c, now);
    SameLinksKeeps(AddName(d1, dp, dn, c), MoveName(d, sp, sn, dp, dn, c, now), None);
  }

  lemma MoveNameSame(d: IndexData, sp: Ino, sn: string, dp: Ino, dn: string, c: Ino, now: int)
    ensures SameLinks(AddName(DeleteName(d, sp, sn), dp, dn, c), MoveName(d, sp, sn, dp, dn, c, now))
  {
    StampMoveLinks(d, c, sp, dp, now);
  }

  lemma OverwriteForgets(d: IndexData, sp: Ino, sn: string, dp: Ino, dn: string, c: Ino)
    requires sp in d.dirs && dp in d.dirs
    ensures AddName(DeleteName(DeleteName(d, dp, dn), sp, sn), dp, dn, c).dirs ==
            AddName(DeleteName(d, sp, sn), dp, dn, c).dirs
  {
    var e1 := AddName(DeleteName(DeleteName(d, dp, dn), sp, sn), dp, dn, c).dirs;
    var e2 := AddName(DeleteName(d, sp, sn), dp, dn, c).dirs;
    assert e1[dp] == e2[dp];
    assert e1[sp] == e2[sp];
  }

  lemma DropCommutes(d: IndexData, dp: Ino, dn: string, dc: Ino)
    requires dp in d.dirs && dc != dp && dc in d.inodes
    ensures DropLink(DeleteName(d, dp, dn), dc) == DeleteName(DropLink(d, dc), dp, dn)
  {
    assert (d.dirs[dp := d.dirs[dp] - {dn}]) - {dc} == (d.dirs - {dc})[dp := d.dirs[dp] - {dn}];
  }

  /** What a rename finds at a taken destination: an inode that is neither of the two directories. */
  lemma TakenIsApart(d: IndexData, sp: Ino, sn: string, dp: Ino, dn: string, now: int)
    requires LinkOk(d) && Rename(d, sp, sn, dp, dn, now).Some?
    requires dp in d.dirs && dn in d.dirs[dp]
    ensures sp in d.dirs && sn in d.dirs[sp]
    ensures var dc := d.dirs[dp][dn];
            dc in d.inodes && dc != sp && dc != dp && !NonEmptyDir(d, dc)
  {
    assert NonEmptyDir(d, sp) && NonEmptyDir(d, dp);
  }

  /** Renaming over a taken name is removing that name first. */
  lemma MoveOverTaken(d: IndexData, sp: Ino, sn: string, dp: Ino, dn: string, now: int)
    requires Rename(d, sp, sn, dp, dn, now).Some?
    requires sp in d.dirs && sn in d.dirs[sp] && dp in d.dirs && dn in d.dirs[dp]
    requires d.dirs[dp][dn] in d.inodes && d.dirs[dp][dn] != sp && d.dirs[dp][dn] != dp
    ensures var d1 := DropLink(DeleteName(d, dp, dn), d.dirs[dp][dn]);
            Rename(d, sp, sn, dp, dn, now).value == MoveName(d1, sp, sn, dp, dn, d.dirs[sp][sn], now)
  {
    var c, dc := d.dirs[sp][sn], d.dirs[dp][dn];
    DropCommutes(d, dp, dn, dc);
    OverwriteForgets(DropLink(d, dc), sp, sn, dp, dn, c);
  }

  lemma MoveAfterRemoval(d: IndexData, d1: IndexData, sp: Ino, sn: string, dp: Ino, dn: string, now: int)
    requires LinkOk(d1) && Entries(d1.dirs) == Entries(d.dirs) - {(dp, dn)}
    requires HasEntry(d.dirs, (sp, sn)) && (sp, sn) != (dp, dn) && dp in d1.dirs
    ensures LinkOk(MoveName(d1, sp, sn, dp, dn, d.dirs[sp][sn], now))
  {
    assert (sp, sn) in Entries(d1.dirs);
    assert HasEntry(d1.dirs, (sp, sn)) && d1.dirs[sp][sn] == d.dirs[sp][sn];
    assert (dp, dn) !in Entries(d1.dirs);
    assert !HasEntry(d1.dirs, (dp, dn));
    MoveToFreeLinks(d1, sp, sn, dp, dn, now);
  }

  lemma RenameOverTakenLinks(d: IndexData, sp: Ino, sn: string, dp: Ino, dn: string, now: int)
    requires LinkOk(d) && Rename(d, sp, sn, dp, dn, now).Some?
    requires dp in d.dirs && dn in d.dirs[dp] && (sp, sn) != (dp, dn)
    ensures LinkOk(Rename(d, sp, sn, dp, dn, now).value)
  {
    TakenIsApart(d, sp, sn, dp, dn, now);
    MoveOverTaken(d, sp, sn, dp, dn, now);
    MoveOverLinks(d, sp, sn, dp, dn, now);
  }

  lemma MoveOverLinks(d: IndexData, sp: Ino, sn: string, dp: Ino, dn: string, now: int)
    requires LinkOk(d) && HasEntry(d.dirs, (sp, sn)) && HasEntry(d.dirs, (dp, dn)) && (sp, sn) != (dp, dn)
    requires d.dirs[dp][dn] in d.inodes && d.dirs[dp][dn] != dp && !NonEmptyDir(d, d.dirs[dp][dn])
    ensures LinkOk(MoveName(DropLink(DeleteName(d, dp, dn), d.dirs[dp][dn]), sp, sn, dp, dn, d.dirs[sp][sn], now))
  {
    RemovalReady(d, dp, dn);
    UnlinkedLinks(d, dp, dn);
    MoveAfterRemoval(d, DropLink(DeleteName(d, dp, dn), d.dirs[dp][dn]), sp, sn, dp, dn, now);
  }

  lemma RemovalReady(d: IndexData, p: Ino, n: string)
    requires HasEntry(d.dirs, (p, n)) && d.dirs[p][n] in d.inodes && d.dirs[p][n] != p && !NonEmptyDir(d, d.dirs[p][n])
    ensures !NonEmptyDir(DeleteName(d, p, n), d.dirs[p][n]) && p in DropLink(DeleteName(d, p, n), d.dirs[p][n]).dirs
  {
  }

  lemma RenameLinks(d: IndexData, sp: Ino, sn: string, dp: Ino, dn: string, now: int)
    requires LinkOk(d) && Rename(d, sp, sn, dp, dn, now).Some?
    requires IsDir(d, dp) && (sp, sn) != (dp, dn)
    ensures LinkOk(Rename(d, sp, sn, dp, dn, now).value)
  {
    if dn in d.dirs[dp] {
      RenameOverTakenLinks(d, sp, sn, dp, dn, now);
    } else {
      MoveToFreeLinks(d, sp, sn, dp, dn, now);
    }
  }

  lemma SelfMoveDirs(d: IndexData, p: Ino, n: string, now: int)
    requires p in d.dirs && n in d.dirs[p] && d.dirs[p][n] in d.inodes && d.dirs[p][n] != p
    ensures var c := d.dirs[p][n];
            var d' := MoveName(DropLink(d, c), p, n, p, n, c, now);
            && d'.dirs == DropLink(d, c).dirs
            && HasEntry(d'.dirs, (p, n)) && d'.dirs[p][n] == c
            && SameCounts(DropLink(d, c).inodes, d'.inodes)
  {
    var c := d.dirs[p][n];
    StampMoveLinks(DropLink(d, c), c, p, p, now);
    assert MoveName(DropLink(d, c), p, n, p, n, c, now).dirs[p] == d.dirs[p];
  }

  /** Renaming an entry onto itself leaves its inode short of a link, or freed under a dangling entry. */
  lemma RenameOntoSelf(d: IndexData, p: Ino, n: string, now: int)
    requires LinkOk(d) && Rename(d, p, n, p, n, now).Some?
    ensures !LinkOk(Rename(d, p, n, p, n, now).value)
  {
    var c, d' := d.dirs[p][n], Rename(d, p, n, p, n, now).value;
    assert NonEmptyDir(d, p) && p != c;
    var t := Entries(d.dirs);
    assert HasEntry(d.dirs, (p, n)) && t[(p, n)] == c;
    SelfMoveDirs(d, p, n, now);
    assert Entries(d'.dirs)[(p, n)] == c;
    if c in d'.inodes {
      SelfMoveShort(d, d', p, n);
    }
  }

  /** A link fewer on the count, with every entry still there. */
  lemma SelfMoveShort(d: IndexData, d': IndexData, p: Ino, n: string)
    requires LinkOk(d) && HasEntry(d.dirs, (p, n)) && d.dirs[p][n] in d.inodes
    requires var c := d.dirs[p][n];
             && c in DropLink(d, c).inodes && d'.dirs == DropLink(d, c).dirs
             && SameCounts(DropLink(d, c).inodes, d'.inodes)
    ensures !LinkOk(d')
  {
    var c, t := d.dirs[p][n], Entries(d.dirs);
    assert (p, n) in Refs(t, c);
    assert d.inodes[c].nlink == |Refs(t, c)| + SelfLinks(d.inodes[c]);
    assert d'.dirs == d.dirs && d'.inodes[c].nlink == d.inodes[c].nlink - 1;
  }

  /** A rename that succeeds keeps the link counts exact if and only if its two entries differ. */
  lemma RenameLinksIff(d: IndexData, sp: Ino, sn: string, dp: Ino, dn: string, now: int)
    requires LinkOk(d) && Rename(d, sp, sn, dp, dn, now).Some? && IsDir(d, dp)
    ensures LinkOk(Rename(d, sp, sn, dp, dn, now).value) <==> (sp, sn) != (dp, dn)
  {
    if (sp, sn) == (dp, dn) {
      RenameOntoSelf(d, sp, sn, now);
    } else {
      RenameLinks(d, sp, sn, dp, dn, now);
    }
  }

  // ---- Every operation on names ----

  /** A rename into something that is not a directory writes to a map that is not there: the code panics. */
  predicate Defined(d: IndexData, op: MetaOp) {
    op.Move? ==> IsDir(d, op.dstParent)
  }

  /**
   What the code does not check: that a rename goes to another entry than it
   comes from, and that a link count does not wrap.
   */
  predicate MetaOk(d: IndexData, op: MetaOp) {
    match op
    case Link(p, n, target, now) => target in d.inodes ==> d.inodes[target].nlink + 1 < NLINK_MODULUS
    case Move(sp, sn, dp, dn, now) => (sp, sn) != (dp, dn)
    case _ => true
  }

  lemma MakeLinks(d: IndexData, op: MetaOp, blockSize: int)
    requires LinkOk(d) && (op.MakeNode? || op.MakeSymlink?)
    ensures LinkOk(ApplyMeta(d, op, blockSize).value)
  {
    var t := if op.MakeNode? then op.fileType else SYMLINK;
    var mode := if op.MakeNode? then op.mode else 0x1FF;
    var c, d1 := d.nextIno, CreateInode(d, t, mode, op.uid, op.gid, 0, op.now, blockSize);
    CreateInodeLinks(d, t, mode, op.uid, op.gid, 0, op.now, blockSize);
    var r := AddDirEntry(d1, op.parent, op.name, c, op.now);
    if r.Some? {
      AddDirEntryLinks(d1, op.parent, op.name, c, op.now);
      if op.MakeSymlink? {
        SetSymlinkLinks(r.value, c, op.target, op.now);
      }
    }
  }

  lemma SetSymlinkLinks(d: IndexData, i: Ino, target: string, now: int)
    requires LinkOk(d) && SetSymlink(d, i, target, now).Some?
    ensures LinkOk(SetSymlink(d, i, target, now).value)
  {
    var d' := SetSymlink(d, i, target, now).value;
    assert Owned(d');
  }

  lemma XattrOwned(d: IndexData, i: Ino, attrs: map<string, string>, now: int)
    requires Owned(d) && i in d.inodes
    ensures Owned(d.(xattrs := d.xattrs[i := attrs], inodes := StampCtime(d.inodes, i, now)))
  {
  }

  lemma XattrLinks(d: IndexData, i: Ino, attrs: map<string, string>, now: int)
    requires LinkOk(d) && i in d.inodes
    ensures LinkOk(d.(xattrs := d.xattrs[i := attrs], inodes := StampCtime(d.inodes, i, now)))
  {
    XattrOwned(d, i, attrs, now);
    StampCtimeLinks(d, i, now);
  }

  /**
   An operation on names that succeeds keeps link counts exact, no entry
   dangling and nothing unowned, if and only if it passes `MetaOk`.
   */
  lemma MetaLinks(d: IndexData, op: MetaOp, blockSize: int)
    requires LinkOk(d) && ApplyMeta(d, op, blockSize).Some? && Defined(d, op)
    ensures LinkOk(ApplyMeta(d, op, blockSize).value) <==> MetaOk(d, op)
  {
    match op
    case MakeNode(_, _, _, _, _, _, _) => MakeLinks(d, op, blockSize);
    case MakeSymlink(_, _, _, _, _, _) => MakeLinks(d, op, blockSize);
    case Link(p, n, target, now) => AddDirEntryLinks(d, p, n, target, now);
    case Remove(p, n, now) => RemoveDirEntryLinks(d, p, n, now);
    case Move(sp, sn, dp, dn, now) => RenameLinksIff(d, sp, sn, dp, dn, now);
    case PutXattr(i, n, v, now) => XattrLinks(d, i, XattrsOf(d, i)[n := v], now);
    case DropXattr(i, n, now) => XattrLinks(d, i, XattrsOf(d, i) - {n}, now);
  }
}
