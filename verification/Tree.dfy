/**
 The shape of the directory graph: the root is nobody's child, every directory
 has at most one entry, and no directory lies below itself.
 */
module Tree {
  import opened Base
  import opened IndexModel
  import opened Names

  /** Directory `c` is a child of directory `p`. */
  ghost predicate Edge(d: IndexData, p: Ino, c: Ino) {
    IsDir(d, c) && exists n: string :: (p, n) in Entries(d.dirs) && Entries(d.dirs)[(p, n)] == c
  }

  ghost predicate IsPath(d: IndexData, path: seq<Ino>) {
    path != [] && forall k | 0 <= k < |path| - 1 :: Edge(d, path[k], path[k + 1])
  }

  /** `b` is `a` itself or lies below it. */
  ghost predicate Reaches(d: IndexData, a: Ino, b: Ino) {
    exists path: seq<Ino> :: IsPath(d, path) && path[0] == a && path[|path| - 1] == b
  }

  ghost predicate NoCycle(d: IndexData) {
    forall path: seq<Ino> :: IsPath(d, path) && |path| > 1 ==> path[0] != path[|path| - 1]
  }

  ghost predicate OneParent(d: IndexData) {
    var t := Entries(d.dirs);
    forall x, y | x in t && y in t && t[x] == t[y] && IsDir(d, t[x]) :: x == y
  }

  ghost predicate RootOk(d: IndexData) {
    IsDir(d, ROOT_INO) && ROOT_INO !in Entries(d.dirs).Values
  }

  /** A depth that grows along every edge; having one is what makes a finite graph acyclic. */
  function Depth(rank: map<Ino, nat>, i: Ino): nat {
    if i in rank then rank[i] else 0
  }

  ghost predicate RankOk(d: IndexData, rank: map<Ino, nat>) {
    forall p, c | Edge(d, p, c) :: Depth(rank, p) < Depth(rank, c)
  }

  ghost predicate TreeOk(d: IndexData) {
    RootOk(d) && OneParent(d) && exists rank :: RankOk(d, rank)
  }

  lemma {:induction false} DepthGrows(d: IndexData, rank: map<Ino, nat>, path: seq<Ino>)
    requires RankOk(d, rank) && IsPath(d, path)
    ensures Depth(rank, path[|path| - 1]) >= Depth(rank, path[0]) + |path| - 1
  {
    if |path| == 1 {
    } else {
      var front := path[..|path| - 1];
      assert forall k | 0 <= k < |front| - 1 :: Edge(d, path[k], path[k + 1]);
      DepthGrows(d, rank, front);
      assert Edge(d, path[|path| - 2], path[|path| - 1]);
    }
  }

  lemma TreeHasNoCycle(d: IndexData)
    requires TreeOk(d)
    ensures NoCycle(d)
  {
    var rank :| RankOk(d, rank);
    forall path: seq<Ino> | IsPath(d, path) && |path| > 1 ensures path[0] != path[|path| - 1] {
      DepthGrows(d, rank, path);
    }
  }

  lemma ReachesStep(d: IndexData, a: Ino, b: Ino, c: Ino)
    requires Reaches(d, a, b) && Edge(d, b, c)
    ensures Reaches(d, a, c)
  {
    var path :| IsPath(d, path) && path[0] == a && path[|path| - 1] == b;
    var longer := path + [c];
    forall k | 0 <= k < |longer| - 1 ensures Edge(d, longer[k], longer[k + 1]) {
      if k < |path| - 1 {
        assert Edge(d, path[k], path[k + 1]);
      }
    }
    assert IsPath(d, longer);
  }

  lemma ReachesSelf(d: IndexData, a: Ino)
    ensures Reaches(d, a, a)
  {
    assert IsPath(d, [a]);
  }

  // ---- What the operations do to the edges ----

  ghost predicate FewerEdges(d: IndexData, d': IndexData) {
    forall q, e | Edge(d', q, e) :: Edge(d, q, e)
  }

  lemma FewerEdgesRank(d: IndexData, d': IndexData, rank: map<Ino, nat>)
    requires RankOk(d, rank) && FewerEdges(d, d')
    ensures RankOk(d', rank)
  {
  }

  /** A table with fewer entries, over the same or fewer directories. */
  lemma SubTableTree(d: IndexData, d': IndexData)
    requires TreeOk(d)
    requires forall x | x in Entries(d'.dirs) :: x in Entries(d.dirs) && Entries(d'.dirs)[x] == Entries(d.dirs)[x]
    requires forall i :: IsDir(d', i) ==> IsDir(d, i)
    requires IsDir(d', ROOT_INO)
    ensures TreeOk(d')
  {
    var rank :| RankOk(d, rank);
    assert FewerEdges(d, d');
    FewerEdgesRank(d, d', rank);
  }

  /** A new entry for an inode that is not a directory leaves the directory graph alone. */
  lemma LeafEntryTree(d: IndexData, d': IndexData, x: EntryName, c: Ino)
    requires TreeOk(d)
    requires x !in Entries(d.dirs) && Entries(d'.dirs) == Entries(d.dirs)[x := c]
    requires !IsDir(d, c) && forall i :: IsDir(d', i) <==> IsDir(d, i)
    ensures TreeOk(d')
  {
    var rank :| RankOk(d, rank);
    assert FewerEdges(d, d');
    FewerEdgesRank(d, d', rank);
  }

  /** Entries name live inodes, in live directories. */
  lemma EntryEnds(d: IndexData, x: EntryName)
    requires LinkOk(d) && x in Entries(d.dirs)
    ensures x.0 in d.inodes && Entries(d.dirs)[x] in d.inodes
  {
    assert HasEntry(d.dirs, x);
  }

  lemma NewDirRank(d: IndexData, d': IndexData, x: EntryName, c: Ino, rank: map<Ino, nat>)
    requires RankOk(d, rank) && LinkOk(d) && c !in d.inodes && x.0 != c
    requires Entries(d'.dirs) == Entries(d.dirs)[x := c]
    requires forall i :: IsDir(d', i) <==> IsDir(d, i) || i == c
    ensures RankOk(d', rank[c := Depth(rank, x.0) + 1])
  {
    var rank' := rank[c := Depth(rank, x.0) + 1];
    forall p: Ino, e: Ino | Edge(d', p, e) ensures Depth(rank', p) < Depth(rank', e) {
      NewEdge(d, d', x, c, p, e);
    }
  }

  /** An edge of the new graph is the new one, or one of the old that does not touch the new directory. */
  lemma NewEdge(d: IndexData, d': IndexData, x: EntryName, c: Ino, p: Ino, e: Ino)
    requires LinkOk(d) && c !in d.inodes && Entries(d'.dirs) == Entries(d.dirs)[x := c] && Edge(d', p, e)
    requires forall i :: IsDir(d', i) <==> IsDir(d, i) || i == c
    ensures (p == x.0 && e == c) || (Edge(d, p, e) && p != c && e != c)
  {
    var n: string :| (p, n) in Entries(d'.dirs) && Entries(d'.dirs)[(p, n)] == e;
    if (p, n) != x {
      EntryEnds(d, (p, n));
      assert Edge(d, p, e);
    }
  }

  /** A new directory under an existing one. */
  lemma NewDirTree(d: IndexData, d': IndexData, x: EntryName, c: Ino)
    requires TreeOk(d) && LinkOk(d)
    requires c !in d.inodes && x.0 != c && c != ROOT_INO
    requires x !in Entries(d.dirs) && Entries(d'.dirs) == Entries(d.dirs)[x := c]
    requires forall i :: IsDir(d', i) <==> IsDir(d, i) || i == c
    ensures TreeOk(d')
  {
    var rank :| RankOk(d, rank);
    NewDirRank(d, d', x, c, rank);
    forall y | y in Entries(d.dirs) ensures Entries(d.dirs)[y] != c {
      EntryEnds(d, y);
    }
    assert OneParent(d');
  }

  // ---- Moving a directory ----

  /** The destination does not lie in the subtree that is moved. */
  ghost predicate MovesOutside(d: IndexData, c: Ino, dp: Ino) {
    IsDir(d, c) ==> !Reaches(d, c, dp)
  }

  /** How a successful rename changes the entries and the directories. */
  ghost predicate Moved(d: IndexData, d': IndexData, src: EntryName, dst: EntryName) {
    && src in Entries(d.dirs) && src != dst
    && Entries(d'.dirs) == (Entries(d.dirs) - {src})[dst := Entries(d.dirs)[src]]
    && (forall i :: IsDir(d', i) ==> IsDir(d, i))
    && (forall x | x in Entries(d'.dirs) :: IsDir(d', Entries(d'.dirs)[x]) <==> IsDir(d, Entries(d'.dirs)[x]))
    && IsDir(d', ROOT_INO)
  }

  ghost function Sunk(d: IndexData, rank: map<Ino, nat>, c: Ino, drop: nat): map<Ino, nat> {
    map i | i in d.inodes :: Depth(rank, i) + if Reaches(d, c, i) then drop else 0
  }

  lemma MovedEdge(d: IndexData, d': IndexData, src: EntryName, dst: EntryName, p: Ino, e: Ino)
    requires Moved(d, d', src, dst) && Edge(d', p, e)
    ensures Edge(d, p, e) || (p == dst.0 && e == Entries(d.dirs)[src])
    ensures IsDir(d, e)
  {
    var n: string :| (p, n) in Entries(d'.dirs) && Entries(d'.dirs)[(p, n)] == e;
    if (p, n) != dst {
      assert (p, n) in Entries(d.dirs) && Entries(d.dirs)[(p, n)] == e;
    }
  }

  lemma EdgeEnds(d: IndexData, p: Ino, c: Ino)
    requires LinkOk(d) && Edge(d, p, c)
    ensures p in d.inodes && c in d.inodes
  {
    var n: string :| (p, n) in Entries(d.dirs) && Entries(d.dirs)[(p, n)] == c;
    assert HasEntry(d.dirs, (p, n));
  }

  /** The moved subtree sinks below its new parent; everything else keeps its depth. */
  lemma MovedRank(d: IndexData, d': IndexData, src: EntryName, dst: EntryName, rank: map<Ino, nat>)
    requires LinkOk(d) && RankOk(d, rank) && Moved(d, d', src, dst) && IsDir(d, dst.0)
    requires MovesOutside(d, Entries(d.dirs)[src], dst.0)
    ensures RankOk(d', Sunk(d, rank, Entries(d.dirs)[src], Depth(rank, dst.0) + 1))
  {
    var c := Entries(d.dirs)[src];
    var rank' := Sunk(d, rank, c, Depth(rank, dst.0) + 1);
    forall p: Ino, e: Ino | Edge(d', p, e) ensures Depth(rank', p) < Depth(rank', e) {
      MovedEdge(d, d', src, dst, p, e);
      if Edge(d, p, e) {
        EdgeEnds(d, p, e);
        if Reaches(d, c, p) {
          ReachesStep(d, c, p, e);
        }
      } else {
        ReachesSelf(d, c);
      }
    }
  }

  lemma MovedTree(d: IndexData, d': IndexData, src: EntryName, dst: EntryName)
    requires LinkOk(d) && TreeOk(d) && Moved(d, d', src, dst) && IsDir(d, dst.0)
    requires MovesOutside(d, Entries(d.dirs)[src], dst.0)
    ensures TreeOk(d')
  {
    var rank :| RankOk(d, rank);
    MovedRank(d, d', src, dst, rank);
    var t, t' := Entries(d.dirs), Entries(d'.dirs);
    forall x, y | x in t' && y in t' && t'[x] == t'[y] && IsDir(d', t'[x]) ensures x == y {
      var x0, y0 := if x == dst then src else x, if y == dst then src else y;
      assert t[x0] == t[y0] && IsDir(d, t[x0]);
    }
    assert ROOT_INO !in t'.Values;
  }

  /** An edge of the old graph survives unless it was the moved entry or left the overwritten name. */
  lemma EdgeSurvives(d: IndexData, d': IndexData, src: EntryName, dst: EntryName, p: Ino, e: Ino)
    requires Moved(d, d', src, dst) && Edge(d, p, e)
    requires p != dst.0 && e != Entries(d.dirs)[src]
    ensures Edge(d', p, e)
  {
    var n: string :| (p, n) in Entries(d.dirs) && Entries(d.dirs)[(p, n)] == e;
    assert (p, n) in Entries(d'.dirs) && Entries(d'.dirs)[(p, n)] == e;
  }

  /** A path through a graph of growing depth comes back neither to its start nor early to its end. */
  lemma PathIsSimple(d: IndexData, rank: map<Ino, nat>, path: seq<Ino>, k: nat)
    requires RankOk(d, rank) && IsPath(d, path) && k < |path| - 1
    ensures Edge(d, path[k], path[k + 1]) && path[k] != path[|path| - 1] && path[k + 1] != path[0]
  {
    PathPart(d, path, k, |path| - 1);
    PathPart(d, path, 0, k + 1);
    DepthGrows(d, rank, path[k..|path|]);
    DepthGrows(d, rank, path[0..k + 2]);
  }

  /** Moving a directory below itself closes a cycle. */
  lemma MovedBelowSelf(d: IndexData, d': IndexData, src: EntryName, dst: EntryName)
    requires TreeOk(d) && Moved(d, d', src, dst)
    requires !MovesOutside(d, Entries(d.dirs)[src], dst.0)
    ensures !NoCycle(d')
  {
    var c, dp := Entries(d.dirs)[src], dst.0;
    var path :| IsPath(d, path) && path[0] == c && path[|path| - 1] == dp;
    var rank :| RankOk(d, rank);
    forall k | 0 <= k < |path| - 1 ensures Edge(d', path[k], path[k + 1]) {
      PathIsSimple(d, rank, path, k);
      EdgeSurvives(d, d', src, dst, path[k], path[k + 1]);
    }
    var cycle := path + [c];
    assert Edge(d', dp, c) by {
      assert Entries(d'.dirs)[(dp, dst.1)] == c;
    }
    assert IsPath(d', cycle);
  }

  lemma PathPart(d: IndexData, path: seq<Ino>, i: nat, j: nat)
    requires IsPath(d, path) && i <= j < |path|
    ensures IsPath(d, path[i..j + 1])
  {
    var part := path[i..j + 1];
    forall k | 0 <= k < |part| - 1 ensures Edge(d, part[k], part[k + 1]) {
      assert Edge(d, path[i + k], path[i + k + 1]);
    }
  }

  // ---- The operations ----

  /** File types never change; inodes go, and only a creation brings one. */
  predicate TypesKept(d: IndexData, d': IndexData) {
    forall i | i in d'.inodes :: i in d.inodes && d'.inodes[i].fileType == d.inodes[i].fileType
  }

  lemma MoveNameTypes(d: IndexData, sp: Ino, sn: string, dp: Ino, dn: string, c: Ino, now: int)
    ensures TypesKept(d, MoveName(d, sp, sn, dp, dn, c, now))
  {
    StampMoveLinks(d, c, sp, dp, now);
  }

  lemma RenameTypes(d: IndexData, sp: Ino, sn: string, dp: Ino, dn: string, now: int)
    requires Rename(d, sp, sn, dp, dn, now).Some?
    ensures TypesKept(d, Rename(d, sp, sn, dp, dn, now).value)
  {
    var taken := dn in ChildrenOf(d, dp);
    var d1 := if taken then DropLink(d, ChildrenOf(d, dp)[dn]) else d;
    assert TypesKept(d, d1);
    MoveNameTypes(d1, sp, sn, dp, dn, ChildrenOf(d, sp)[sn], now);
  }

  lemma MoveNameEntries(d: IndexData, sp: Ino, sn: string, dp: Ino, dn: string, c: Ino, now: int)
    requires sp in d.dirs && dp in d.dirs
    ensures Entries(MoveName(d, sp, sn, dp, dn, c, now).dirs) == (Entries(d.dirs) - {(sp, sn)})[(dp, dn) := c]
  {
    DeleteNameEntries(d, sp, sn);
    AddNameEntries(DeleteName(d, sp, sn), dp, dn, c);
  }

  lemma MoveAfterRemovalEntries(t: EntryTable, d1: IndexData, src: EntryName, dst: EntryName, c: Ino, now: int)
    requires Entries(d1.dirs) == t - {dst} && src.0 in d1.dirs && dst.0 in d1.dirs
    ensures Entries(MoveName(d1, src.0, src.1, dst.0, dst.1, c, now).dirs) == (t - {src})[dst := c]
  {
    MoveNameEntries(d1, src.0, src.1, dst.0, dst.1, c, now);
    assert (t - {dst} - {src})[dst := c] == (t - {src})[dst := c];
  }

  lemma RemovedKeepsDir(d: IndexData, p: Ino, n: string, q: Ino)
    requires p in d.dirs && n in d.dirs[p] && d.dirs[p][n] in d.inodes
    requires q in d.dirs && q != d.dirs[p][n]
    ensures q in DropLink(DeleteName(d, p, n), d.dirs[p][n]).dirs
  {
  }

  lemma RenameOverTakenEntries(d: IndexData, sp: Ino, sn: string, dp: Ino, dn: string, now: int)
    requires LinkOk(d) && Rename(d, sp, sn, dp, dn, now).Some?
    requires dp in d.dirs && dn in d.dirs[dp]
    ensures HasEntry(d.dirs, (sp, sn))
    ensures Entries(Rename(d, sp, sn, dp, dn, now).value.dirs) ==
            (Entries(d.dirs) - {(sp, sn)})[(dp, dn) := d.dirs[sp][sn]]
  {
    TakenIsApart(d, sp, sn, dp, dn, now);
    MoveOverTaken(d, sp, sn, dp, dn, now);
    UnlinkedLinks(d, dp, dn);
    RemovedKeepsDir(d, dp, dn, sp);
    RemovedKeepsDir(d, dp, dn, dp);
    var d1 := DropLink(DeleteName(d, dp, dn), d.dirs[dp][dn]);
    MoveAfterRemovalEntries(Entries(d.dirs), d1, (sp, sn), (dp, dn), d.dirs[sp][sn], now);
  }

  lemma RenameEntries(d: IndexData, sp: Ino, sn: string, dp: Ino, dn: string, now: int)
    requires LinkOk(d) && Rename(d, sp, sn, dp, dn, now).Some? && IsDir(d, dp)
    ensures HasEntry(d.dirs, (sp, sn))
    ensures Entries(Rename(d, sp, sn, dp, dn, now).value.dirs) ==
            (Entries(d.dirs) - {(sp, sn)})[(dp, dn) := d.dirs[sp][sn]]
  {
    if dn in d.dirs[dp] {
      RenameOverTakenEntries(d, sp, sn, dp, dn, now);
    } else {
      MoveNameEntries(d, sp, sn, dp, dn, d.dirs[sp][sn], now);
    }
  }

  lemma RenameMoved(d: IndexData, sp: Ino, sn: string, dp: Ino, dn: string, now: int)
    requires LinkOk(d) && TreeOk(d) && Rename(d, sp, sn, dp, dn, now).Some?
    requires IsDir(d, dp) && (sp, sn) != (dp, dn)
    ensures Moved(d, Rename(d, sp, sn, dp, dn, now).value, (sp, sn), (dp, dn))
  {
    var d' := Rename(d, sp, sn, dp, dn, now).value;
    RenameEntries(d, sp, sn, dp, dn, now);
    RenameTypes(d, sp, sn, dp, dn, now);
    RenameLinks(d, sp, sn, dp, dn, now);
    assert IsDir(d', ROOT_INO) by {
      RootSurvivesRename(d, sp, sn, dp, dn, now);
    }
  }

  lemma RootSurvivesRename(d: IndexData, sp: Ino, sn: string, dp: Ino, dn: string, now: int)
    requires LinkOk(d) && RootOk(d) && Rename(d, sp, sn, dp, dn, now).Some?
    ensures IsDir(Rename(d, sp, sn, dp, dn, now).value, ROOT_INO)
  {
    var taken := dn in ChildrenOf(d, dp);
    var d1 := if taken then DropLink(d, ChildrenOf(d, dp)[dn]) else d;
    if taken {
      assert HasEntry(d.dirs, (dp, dn));
      assert Entries(d.dirs)[(dp, dn)] in Entries(d.dirs).Values;
    }
    assert IsDir(d1, ROOT_INO);
    StampMoveLinks(d1, ChildrenOf(d, sp)[sn], sp, dp, now);
  }

  /**
   A rename between two different entries keeps the directory graph free of
   cycles if and only if it does not move a directory below itself.
   */
  lemma RenameTreeIff(d: IndexData, sp: Ino, sn: string, dp: Ino, dn: string, now: int)
    requires LinkOk(d) && TreeOk(d) && Rename(d, sp, sn, dp, dn, now).Some?
    requires IsDir(d, dp) && (sp, sn) != (dp, dn)
    ensures HasEntry(d.dirs, (sp, sn))
    ensures var d' := Rename(d, sp, sn, dp, dn, now).value;
            && (MovesOutside(d, d.dirs[sp][sn], dp) ==> TreeOk(d'))
            && (NoCycle(d') <==> MovesOutside(d, d.dirs[sp][sn], dp))
  {
    var d' := Rename(d, sp, sn, dp, dn, now).value;
    RenameEntries(d, sp, sn, dp, dn, now);
    RenameMoved(d, sp, sn, dp, dn, now);
    if MovesOutside(d, d.dirs[sp][sn], dp) {
      MovedTree(d, d', (sp, sn), (dp, dn));
      TreeHasNoCycle(d');
    } else {
      MovedBelowSelf(d, d', (sp, sn), (dp, dn));
    }
  }

  /** What keeps the graph a tree, beside what keeps the link counts. */
  ghost predicate TreeMetaOk(d: IndexData, op: MetaOp) {
    match op
    case MakeNode(p, n, t, mode, uid, gid, now) => !(p == d.nextIno && t == DIRECTORY)
    case Move(sp, sn, dp, dn, now) => sn in ChildrenOf(d, sp) ==> MovesOutside(d, ChildrenOf(d, sp)[sn], dp)
    case _ => true
  }

  lemma CreatedTypes(d: IndexData, t: FileType, mode: nat, uid: nat, gid: nat, now: int, blk: int)
    ensures var d1 := CreateInode(d, t, mode, uid, gid, 0, now, blk);
            forall i :: IsDir(d1, i) <==> if i == d.nextIno then t == DIRECTORY else IsDir(d, i)
  {
  }

  lemma CreatedTree(d: IndexData, t: FileType, mode: nat, uid: nat, gid: nat, now: int, blk: int)
    requires LinkOk(d) && TreeOk(d)
    ensures TreeOk(CreateInode(d, t, mode, uid, gid, 0, now, blk))
  {
    CreateInodeLinks(d, t, mode, uid, gid, 0, now, blk);
    CreatedTypes(d, t, mode, uid, gid, now, blk);
    NewOrphanTree(d, CreateInode(d, t, mode, uid, gid, 0, now, blk), d.nextIno);
  }

  /** How a creation that finds its parent changes the entries and the directories. */
  lemma MakeNamedShape(d: IndexData, p: Ino, n: string, t: FileType, mode: nat, uid: nat, gid: nat, now: int, blk: int)
    requires LinkOk(d) && AddDirEntry(CreateInode(d, t, mode, uid, gid, 0, now, blk), p, n, d.nextIno, now).Some?
    ensures var d' := MakeNamed(d, p, n, t, mode, uid, gid, now, blk);
            && (p, n) !in Entries(d.dirs) && Entries(d'.dirs) == Entries(d.dirs)[(p, n) := d.nextIno]
            && forall i :: IsDir(d', i) <==> if i == d.nextIno then t == DIRECTORY else IsDir(d, i)
  {
    var d1 := CreateInode(d, t, mode, uid, gid, 0, now, blk);
    CreateInodeLinks(d, t, mode, uid, gid, 0, now, blk);
    CreatedTypes(d, t, mode, uid, gid, now, blk);
    AddDirEntryEntries(d1, p, n, d.nextIno, now);
    AddedTypes(d1, p, n, d.nextIno, now);
  }

  /** The inode `c` is new and has the one new entry. */
  lemma NamedTree(d: IndexData, d': IndexData, x: EntryName, c: Ino)
    requires LinkOk(d) && TreeOk(d)
    requires c == d.nextIno && (x.0 != c || !IsDir(d', c))
    requires x !in Entries(d.dirs) && Entries(d'.dirs) == Entries(d.dirs)[x := c]
    requires forall i | i != c :: IsDir(d', i) <==> IsDir(d, i)
    ensures TreeOk(d')
  {
    assert c !in d.inodes && c != ROOT_INO;
    if IsDir(d', c) {
      NewDirTree(d, d', x, c);
    } else {
      LeafEntryTree(d, d', x, c);
    }
  }

  lemma MakeNodeTree(d: IndexData, p: Ino, n: string, t: FileType, mode: nat, uid: nat, gid: nat, now: int, blk: int)
    requires LinkOk(d) && TreeOk(d) && !(p == d.nextIno && t == DIRECTORY)
    ensures TreeOk(MakeNamed(d, p, n, t, mode, uid, gid, now, blk))
  {
    if AddDirEntry(CreateInode(d, t, mode, uid, gid, 0, now, blk), p, n, d.nextIno, now).None? {
      CreatedTree(d, t, mode, uid, gid, now, blk);
    } else {
      MakeNamedShape(d, p, n, t, mode, uid, gid, now, blk);
      NamedTree(d, MakeNamed(d, p, n, t, mode, uid, gid, now, blk), (p, n), d.nextIno);
    }
  }

  /** A directory created under the inode number it is about to get is its own child. */
  lemma MadeBelowSelf(d: IndexData, n: string, mode: nat, uid: nat, gid: nat, now: int, blk: int)
    requires LinkOk(d)
    ensures !NoCycle(MakeNamed(d, d.nextIno, n, DIRECTORY, mode, uid, gid, now, blk))
  {
    var c, d' := d.nextIno, MakeNamed(d, d.nextIno, n, DIRECTORY, mode, uid, gid, now, blk);
    MakeNamedShape(d, c, n, DIRECTORY, mode, uid, gid, now, blk);
    assert Edge(d', c, c) by {
      assert Entries(d'.dirs)[(c, n)] == c;
    }
    assert IsPath(d', [c, c]);
  }

  lemma MakeSymlinkTree(d: IndexData, op: MetaOp, blockSize: int)
    requires LinkOk(d) && TreeOk(d) && op.MakeSymlink?
    ensures TreeOk(ApplyMeta(d, op, blockSize).value)
  {
    MakeNodeTree(d, op.parent, op.name, SYMLINK, 0x1FF, op.uid, op.gid, op.now, blockSize);
    var d1 := MakeNamed(d, op.parent, op.name, SYMLINK, 0x1FF, op.uid, op.gid, op.now, blockSize);
    SymlinkSameShape(d, op, blockSize);
    SameShapeTree(d1, ApplyMeta(d, op, blockSize).value);
  }

  /** Setting the target changes neither the entries nor the types. */
  lemma SymlinkSameShape(d: IndexData, op: MetaOp, blockSize: int)
    requires op.MakeSymlink?
    ensures var d1 := MakeNamed(d, op.parent, op.name, SYMLINK, 0x1FF, op.uid, op.gid, op.now, blockSize);
            var d' := ApplyMeta(d, op, blockSize).value;
            d'.dirs == d1.dirs && forall i :: IsDir(d', i) <==> IsDir(d1, i)
  {
  }

  lemma LinkTree(d: IndexData, op: MetaOp, blockSize: int)
    requires LinkOk(d) && TreeOk(d) && op.Link? && ApplyMeta(d, op, blockSize).Some?
    ensures TreeOk(ApplyMeta(d, op, blockSize).value)
  {
    AddDirEntryEntries(d, op.parent, op.name, op.existing, op.now);
    AddedTypes(d, op.parent, op.name, op.existing, op.now);
    LeafEntryTree(d, ApplyMeta(d, op, blockSize).value, (op.parent, op.name), op.existing);
  }

  lemma AddedTypes(d: IndexData, p: Ino, n: string, c: Ino, now: int)
    requires AddDirEntry(d, p, n, c, now).Some?
    ensures var d' := AddDirEntry(d, p, n, c, now).value;
            forall i :: (i in d'.inodes <==> i in d.inodes) && (IsDir(d', i) <==> IsDir(d, i))
  {
  }

  /** A directory that could not be named: it has no entry and no child. */
  lemma NewOrphanTree(d: IndexData, d': IndexData, c: Ino)
    requires TreeOk(d) && LinkOk(d) && c !in d.inodes
    requires Entries(d'.dirs) == Entries(d.dirs)
    requires forall i :: IsDir(d, i) ==> IsDir(d', i)
    requires forall i :: IsDir(d', i) ==> IsDir(d, i) || i == c
    ensures TreeOk(d')
  {
    var rank :| RankOk(d, rank);
    forall x | x in Entries(d'.dirs) ensures Entries(d'.dirs)[x] != c {
      assert Entries(d.dirs)[x] in d.inodes;
    }
    assert FewerEdges(d, d');
    FewerEdgesRank(d, d', rank);
  }

  lemma RemoveTypes(d: IndexData, p: Ino, n: string, now: int)
    requires RemoveDirEntry(d, p, n, now).Some?
    ensures var d' := RemoveDirEntry(d, p, n, now).value;
            TypesKept(d, d') && forall i | i in d.inodes && i != ChildrenOf(d, p)[n] :: i in d'.inodes
  {
    var c := ChildrenOf(d, p)[n];
    var d1 := DropLink(DeleteName(d, p, n), c);
    StampCtimeLinks(d1, c, now);
    StampDirLinks(d1.(inodes := StampCtime(d1.inodes, c, now)), p, now);
  }

  lemma RemoveTree(d: IndexData, p: Ino, n: string, now: int)
    requires LinkOk(d) && TreeOk(d) && RemoveDirEntry(d, p, n, now).Some?
    ensures TreeOk(RemoveDirEntry(d, p, n, now).value)
  {
    RemoveDirEntryLinks(d, p, n, now);
    RemoveTypes(d, p, n, now);
    assert HasEntry(d.dirs, (p, n));
    assert Entries(d.dirs)[(p, n)] in Entries(d.dirs).Values;
    SubTableTree(d, RemoveDirEntry(d, p, n, now).value);
  }

  lemma SameShapeTree(d: IndexData, d': IndexData)
    requires TreeOk(d) && d'.dirs == d.dirs
    requires forall i :: IsDir(d', i) <==> IsDir(d, i)
    ensures TreeOk(d')
  {
    SubTableTree(d, d');
  }

  /** An operation on names that passes both conditions keeps the directory graph a tree. */
  lemma MetaKeepsTree(d: IndexData, op: MetaOp, blockSize: int)
    requires LinkOk(d) && TreeOk(d) && Defined(d, op) && MetaOk(d, op) && TreeMetaOk(d, op)
    requires ApplyMeta(d, op, blockSize).Some?
    ensures TreeOk(ApplyMeta(d, op, blockSize).value)
  {
    match op
    case MakeNode(p, n, t, mode, uid, gid, now) => MakeNodeTree(d, p, n, t, mode, uid, gid, now, blockSize);
    case MakeSymlink(_, _, _, _, _, _) => MakeSymlinkTree(d, op, blockSize);
    case Link(_, _, _, _) => LinkTree(d, op, blockSize);
    case Remove(p, n, now) => RemoveTree(d, p, n, now);
    case Move(sp, sn, dp, dn, now) => RenameTreeIff(d, sp, sn, dp, dn, now);
    case PutXattr(_, _, _, _) => SameShapeTree(d, ApplyMeta(d, op, blockSize).value);
    case DropXattr(_, _, _) => SameShapeTree(d, ApplyMeta(d, op, blockSize).value);
  }

  /** Of the operations that keep the link counts, exactly those that pass `TreeMetaOk` make no cycle. */
  lemma MetaTree(d: IndexData, op: MetaOp, blockSize: int)
    requires LinkOk(d) && TreeOk(d) && Defined(d, op) && MetaOk(d, op)
    requires ApplyMeta(d, op, blockSize).Some?
    ensures TreeMetaOk(d, op) ==> TreeOk(ApplyMeta(d, op, blockSize).value)
    ensures NoCycle(ApplyMeta(d, op, blockSize).value) <==> TreeMetaOk(d, op)
  {
    if TreeMetaOk(d, op) {
      MetaKeepsTree(d, op, blockSize);
      TreeHasNoCycle(ApplyMeta(d, op, blockSize).value);
    } else if op.MakeNode? {
      MadeBelowSelf(d, op.name, op.mode, op.uid, op.gid, op.now, blockSize);
    } else {
      RenameTreeIff(d, op.srcParent, op.srcName, op.dstParent, op.dstName, op.now);
    }
  }

  // ---- Finding the parent by scanning ----

  /** Directory `p` has an entry for `i`. */
  predicate HasChild(d: IndexData, p: Ino, i: Ino) {
    p in d.dirs && i in d.dirs[p].Values
  }

  /**
   `GetParentIno`, taking the directories in any order: in a tree the answer for
   a directory is the same for every order, because at most one holds it.
   */
  method GetParentIno(d: IndexData, i: Ino) returns (parent: Ino)
    ensures i == ROOT_INO ==> parent == ROOT_INO
    ensures i != ROOT_INO ==> HasChild(d, parent, i) || (parent == i && forall p :: !HasChild(d, p, i))
    ensures i != ROOT_INO && TreeOk(d) && IsDir(d, i) ==> forall p :: HasChild(d, p, i) ==> p == parent
  {
    if i == ROOT_INO {
      return ROOT_INO;
    }
    var rest := d.dirs.Keys;
    while rest != {}
      invariant rest <= d.dirs.Keys
      invariant forall p | p in d.dirs && p !in rest :: !HasChild(d, p, i)
      decreases |rest|
    {
      var p :| p in rest;
      if i in d.dirs[p].Values {
        if TreeOk(d) && IsDir(d, i) {
          forall q | HasChild(d, q, i) ensures q == p {
            SameParent(d, p, q, i);
          }
        }
        return p;
      }
      rest := rest - {p};
    }
    return i;
  }

  lemma SameParent(d: IndexData, p: Ino, q: Ino, i: Ino)
    requires OneParent(d) && IsDir(d, i) && HasChild(d, p, i) && HasChild(d, q, i)
    ensures p == q
  {
    var m :| m in d.dirs[p] && d.dirs[p][m] == i;
    var n :| n in d.dirs[q] && d.dirs[q][n] == i;
    var t := Entries(d.dirs);
    assert HasEntry(d.dirs, (p, m)) && t[(p, m)] == i;
    assert HasEntry(d.dirs, (q, n)) && t[(q, n)] == i;
  }
}
