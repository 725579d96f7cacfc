/**
 What holds in every state that the file system can reach: disjoint extents, what
 a put of the index needs and what a crash restores, the namespace, the capacity.
 */
module Runs {
  import opened Base
  import opened Extents
  import opened IndexModel
  import opened FileData
  import opened ChunkIds
  import opened ChunkModel
  import opened Names
  import opened Tree
  import opened Sums
  import opened Filesystem

  // ---- Runs, composed ----

  lemma {:induction false} RunConcat(s: Fs, a: seq<Op>, b: seq<Op>)
    ensures Run(s, a + b) == Run(Run(s, a), b)
    ensures RunOk(s, a + b) <==> RunOk(s, a) && RunOk(Run(s, a), b)
    decreases |a|
  {
    if a == [] {
      assert a + b == b;
    } else {
      assert (a + b)[1..] == a[1..] + b;
      RunConcat(Step(s, a[0]), a[1..], b);
    }
  }

  lemma RunSnoc(s: Fs, a: seq<Op>, op: Op)
    ensures Run(s, a + [op]) == Step(Run(s, a), op)
    ensures RunOk(s, a + [op]) <==> RunOk(s, a) && OpOk(Run(s, a), op)
  {
    RunConcat(s, a, [op]);
    var t := Run(s, a);
    assert Run(t, [op]) == Run(Step(t, op), []);
    assert RunOk(t, [op]) <==> OpOk(t, op) && RunOk(Step(t, op), []);
  }

  lemma RunOfOne(s: Fs, op: Op)
    ensures Run(s, [op]) == Step(s, op) && (RunOk(s, [op]) <==> OpOk(s, op))
  {
    RunSnoc(s, [], op);
    assert [] + [op] == [op];
    assert Run(s, []) == s;
  }

  lemma RunOfTwo(s: Fs, a: Op, b: Op)
    ensures Run(s, [a, b]) == Step(Step(s, a), b)
    ensures RunOk(s, [a, b]) <==> OpOk(s, a) && OpOk(Step(s, a), b)
  {
    RunOfOne(s, a);
    RunSnoc(s, [a], b);
    assert [a] + [b] == [a, b];
  }

  lemma RunOfThree(s: Fs, a: Op, b: Op, c: Op)
    ensures Run(s, [a, b, c]) == Step(Step(Step(s, a), b), c)
    ensures RunOk(s, [a, b, c]) <==> OpOk(s, a) && OpOk(Step(s, a), b) && OpOk(Step(Step(s, a), b), c)
  {
    RunOfTwo(s, a, b);
    RunSnoc(s, [a, b], c);
    assert [a, b] + [c] == [a, b, c];
  }

  // ---- Disjointness across all files ----

  /** Two different live extents, of one file or of two, share no chunk byte and no remap key. */
  lemma LiveDistinct(d: IndexData, v: View, i: Ino, k: nat, j: Ino, l: nat)
    requires DataOk(d, v)
    requires i in d.extents && k < |d.extents[i]| && j in d.extents && l < |d.extents[j]|
    requires (i, k) != (j, l)
    ensures Sep(d.extents[i][k], d.extents[j][l])
    ensures d.extents[i][k].Key() != d.extents[j][l].Key()
  {
    var a, b := d.extents[i][k], d.extents[j][l];
    assert ListOk(d.extents[i], SizeOf(d, i), v) && ListOk(d.extents[j], SizeOf(d, j), v);
    assert InView(a, v) && InView(b, v);
    assert Sep(a, b) by {
      if i != j {
        assert CrossSep(d.extents[i], d.extents[j]);
      } else if k < l {
        assert Sep(a, b);
      } else {
        assert Sep(b, a);
      }
    }
  }

  /**
   In every reachable state, no two extents of any files share a chunk byte,
   each denotes bytes its chunk holds, and its key identifies it.
   */
  lemma ReachableDisjoint(s: Fs, ops: seq<Op>, i: Ino, k: nat, j: Ino, l: nat)
    requires Inv(s) && RunOk(s, ops)
    requires var d := Run(s, ops).idx; i in d.extents && k < |d.extents[i]| && j in d.extents && l < |d.extents[j]|
    ensures var t := Run(s, ops);
            var a, b := t.idx.extents[i][k], t.idx.extents[j][l];
            && InView(a, FsView(t))
            && ((i, k) != (j, l) ==> Sep(a, b) && a.Key() != b.Key())
  {
    RunKeeps(s, ops);
    var t := Run(s, ops);
    assert ListOk(t.idx.extents[i], SizeOf(t.idx, i), FsView(t));
    if (i, k) != (j, l) {
      LiveDistinct(t.idx, FsView(t), i, k, j, l);
    }
  }

  // ---- Putting the index ----

  /** With an index in hand, a put that reaches the store is safe if and only if the active chunk covers that index. */
  lemma PutIndexSafeIff(s: Fs, o: PutOutcome)
    requires Inv(s) && s.remote.InHand? && !o.Lost?
    ensures Inv(Step(s, PutIndex(o))) <==> Flushed(s, s.remote.data)
  {
    FlushedIffStored(s, s.remote.data);
  }

  predicate TouchesHand(op: Op) {
    op.EncodeIndex? || op.PutIndex? || op.Restart?
  }

  predicate LeavesHand(ops: seq<Op>) {
    forall k | 0 <= k < |ops| :: !TouchesHand(ops[k])
  }

  lemma WriteIgnoresDurable(s: Fs, op: Op, d: Option<IndexData>)
    requires op.Write?
    ensures Step(s.(durable := d), op) == Step(s, op).(durable := d)
    ensures Step(s, op).remote == s.remote
  {
    var s' := s.(durable := d);
    assert HasRoom(s', op.ino, op.off + |op.data|) <==> HasRoom(s, op.ino, op.off + |op.data|);
  }

  lemma StepIgnoresDurable(s: Fs, op: Op, d: Option<IndexData>)
    requires !TouchesHand(op)
    ensures Step(s.(durable := d), op) == Step(s, op).(durable := d)
    ensures s.remote.InHand? ==> Step(s, op).remote == s.remote
  {
    match op
    case Write(_, _, _, _, _, _) => WriteIgnoresDurable(s, op, d);
    case _ =>
  }

  lemma StepKeeps(s: Fs, op: Op)
    requires Inv(s) && OpOk(s, op)
    ensures Inv(Step(s, op))
  {
    StepSimulates(s, op);
  }

  lemma StepKeepsCopies(s: Fs, op: Op)
    requires Inv(s) && OpOk(s, op) && !TouchesHand(op)
    ensures Abs(Step(s, op)).pending == Abs(s).pending && Abs(Step(s, op)).durable == Abs(s).durable
  {
    StepSimulates(s, op);
  }

  /** To every other operation, an index in hand that the store covers is as good as one that was put. */
  lemma AsIfPut(s: Fs, op: Op)
    requires Inv(s) && OpOk(s, op) && !TouchesHand(op)
    requires s.remote.InHand? && DataOk(s.remote.data, s.objects)
    ensures var put := s.(durable := Some(s.remote.data)); Inv(put) && OpOk(put, op)
  {
  }

  /** An index in hand that the store covers stays covered, whatever else runs. */
  lemma HandStays(s: Fs, op: Op)
    requires Inv(s) && OpOk(s, op) && !TouchesHand(op)
    requires s.remote.InHand? && DataOk(s.remote.data, s.objects)
    ensures var t := Step(s, op);
            && Inv(t) && t.remote == s.remote && DataOk(t.remote.data, t.objects)
            && Abs(t).pending == Abs(s).pending && Abs(t).durable == Abs(s).durable
  {
    AsIfPut(s, op);
    StepKeeps(s.(durable := Some(s.remote.data)), op);
    StepIgnoresDurable(s, op, Some(s.remote.data));
    StepKeeps(s, op);
    StepKeepsCopies(s, op);
  }

  lemma {:induction false} HandStaysRun(s: Fs, ops: seq<Op>)
    requires Inv(s) && RunOk(s, ops) && LeavesHand(ops)
    requires s.remote.InHand? && DataOk(s.remote.data, s.objects)
    ensures var t := Run(s, ops);
            && Inv(t) && t.remote == s.remote && DataOk(t.remote.data, t.objects)
            && Abs(t).pending == Abs(s).pending && Abs(t).durable == Abs(s).durable
    decreases |ops|
  {
    if ops == [] {
    } else {
      assert !TouchesHand(ops[0]);
      HandStays(s, ops[0]);
      HandStaysRun(Step(s, ops[0]), ops[1..]);
    }
  }

  /**
   What is needed is needed when the index is encoded: if the active chunk is
   flushed then, the put may come any time later, whatever was written meanwhile.
   */
  lemma EncodedFlushedIsSafe(s: Fs, ops: seq<Op>, o: PutOutcome)
    requires Inv(s) && Flushed(s, s.idx)
    requires RunOk(Step(s, EncodeIndex), ops) && LeavesHand(ops)
    ensures var t := Run(Step(s, EncodeIndex), ops);
            OpOk(t, PutIndex(o)) && Inv(Step(t, PutIndex(o)))
  {
    var t := Run(Step(s, EncodeIndex), ops);
    FlushedIffStored(s, s.idx);
    HandStaysRun(Step(s, EncodeIndex), ops);
    FlushedIffStored(t, t.remote.data);
    StepSimulates(t, PutIndex(o));
  }

  lemma FlushedSame(s: Fs, t: Fs, d: IndexData)
    requires t.chunks == s.chunks && t.objects == s.objects
    ensures Flushed(t, d) <==> Flushed(s, d)
  {
    assert forall exts :: ListFlushed(exts, t) <==> ListFlushed(exts, s);
  }

  lemma EncodedUnflushedBreaks(s: Fs, o: PutOutcome)
    requires Inv(s) && !Flushed(s, s.idx) && !o.Lost?
    ensures var t := Step(s, EncodeIndex);
            Inv(t) && !OpOk(t, PutIndex(o)) && !Inv(Step(t, PutIndex(o)))
  {
    var t := Step(s, EncodeIndex);
    FlushedSame(s, t, s.idx);
    PutIndexSafeIff(t, o);
  }

  /** A write acknowledged between the flush and the encoding makes the put unsafe. */
  lemma WriteInGapBreaks(s: Fs, op: Op, o: PutOutcome)
    requires Inv(s) && op.Write? && OpOk(s, op) && Accepted(s, op) && !o.Lost?
    ensures var t := Step(Step(s, op), EncodeIndex);
            Inv(t) && !OpOk(t, PutIndex(o)) && !Inv(Step(t, PutIndex(o)))
  {
    StepKeeps(s, op);
    WriteUnflushes(s, op);
    EncodedUnflushedBreaks(Step(s, op), o);
  }

  /**
   The local snapshot is saved before the active chunk is flushed.  What a start
   from it would find in the store alone is every file as it is now if the chunk is
   flushed as far as the index uses it, and otherwise it cannot be read.
   */
  lemma LocalStartIff(s: Fs)
    requires Inv(s) && s.saved == Some(s.idx)
    ensures DataOk(s.saved.value, s.objects) <==> Flushed(s, s.idx)
    ensures Flushed(s, s.idx) ==> Files(s.saved.value, s.objects) == Abs(s).files
  {
    FlushedIffStored(s, s.idx);
    if Flushed(s, s.idx) {
      StoredMatchesView(s.idx, s);
    }
  }

  /** Right after any acknowledged write, a snapshot that has been saved refers to bytes that only memory holds. */
  lemma SavedBeforeFlush(s: Fs, op: Op)
    requires Inv(s) && op.Write? && OpOk(s, op) && Accepted(s, op)
    ensures var t := Step(Step(Step(s, op), TakeLocal), WriteLocal(true));
            Inv(t) && t.saved == Some(t.idx) && !DataOk(t.saved.value, t.objects)
  {
    var u := Step(s, op);
    var t := Step(Step(u, TakeLocal), WriteLocal(true));
    StepKeeps(s, op);
    WriteUnflushes(s, op);
    SameState(u, t);
    FlushedSame(u, t, u.idx);
    LocalStartIff(t);
  }

  // ---- Crash and recovery ----

  /** The run puts no index, successfully or otherwise. */
  predicate PutsNoIndex(ops: seq<Op>) {
    forall k | 0 <= k < |ops| :: ops[k].PutIndex? ==> ops[k].put.Lost?
  }

  lemma {:induction false} DurableUnchanged(s: Fs, ops: seq<Op>)
    requires Inv(s) && RunOk(s, ops) && PutsNoIndex(ops)
    ensures Inv(Run(s, ops)) && Abs(Run(s, ops)).durable == Abs(s).durable
    decreases |ops|
  {
    if ops == [] {
    } else {
      StepSimulates(s, ops[0]);
      assert Abs(Step(s, ops[0])).durable == Abs(s).durable;
      DurableUnchanged(Step(s, ops[0]), ops[1..]);
    }
  }

  /**
   The index is encoded after a flush, other operations run, it is put and
   reaches the store, others run, and the system crashes before the next put:
   a cold start shows every file as it was when the index was encoded.
   */
  lemma CrashRecovers(s: Fs, a: seq<Op>, o: PutOutcome, b: seq<Op>, ids: seq<string>, now: int, c: Config)
    requires Inv(s) && Flushed(s, s.idx)
    requires RunOk(Step(s, EncodeIndex), a) && LeavesHand(a)
    requires !o.Lost?
    requires var u := Step(Run(Step(s, EncodeIndex), a), PutIndex(o));
             RunOk(u, b) && PutsNoIndex(b) && OpOk(Run(u, b), Restart(ids, now, c))
    ensures var u := Step(Run(Step(s, EncodeIndex), a), PutIndex(o));
            var t := Step(Run(u, b), Restart(ids, now, c));
            Inv(t) && Abs(t).files == Abs(s).files
  {
    var s1 := Step(s, EncodeIndex);
    EncodedFlushedIsSafe(s, a, o);
    FlushedIffStored(s, s.idx);
    HandStaysRun(s1, a);
    assert Abs(s1).pending == Some(Abs(s).files);
    StepSimulates(Run(s1, a), PutIndex(o));
    var u := Step(Run(s1, a), PutIndex(o));
    DurableUnchanged(u, b);
    StepSimulates(Run(u, b), Restart(ids, now, c));
  }

  // ---- The namespace ----

  /** An invariant of the index holds of it and of the copies that may yet be restored. */
  ghost predicate LinkInv(s: Fs) {
    && LinkOk(s.idx)
    && (s.durable.Some? ==> LinkOk(s.durable.value))
    && (s.remote.InHand? ==> LinkOk(s.remote.data))
  }

  ghost predicate TreeInv(s: Fs) {
    && TreeOk(s.idx)
    && (s.durable.Some? ==> TreeOk(s.durable.value))
    && (s.remote.InHand? ==> TreeOk(s.remote.data))
  }

  ghost predicate NameInv(s: Fs) {
    LinkInv(s) && TreeInv(s)
  }

  ghost predicate LinkOpOk(s: Fs, op: Op) {
    op.Meta? && ApplyMeta(s.idx, op.meta, s.blockSize).Some? ==> Defined(s.idx, op.meta) && MetaOk(s.idx, op.meta)
  }

  ghost predicate TreeOpOk(s: Fs, op: Op) {
    op.Meta? && ApplyMeta(s.idx, op.meta, s.blockSize).Some? ==> TreeMetaOk(s.idx, op.meta)
  }

  ghost predicate NameOpOk(s: Fs, op: Op) {
    LinkOpOk(s, op) && TreeOpOk(s, op)
  }

  lemma FreshLinks(now: int, blockSize: int)
    ensures LinkOk(NewIndex(now, blockSize)) && Entries(NewIndex(now, blockSize).dirs) == map[]
  {
    var d := NewIndex(now, blockSize);
    assert forall x: EntryName :: !HasEntry(d.dirs, x);
    assert Entries(d.dirs) == map[];
    assert Refs(Entries(d.dirs), ROOT_INO) == {};
  }

  lemma FreshTree(now: int, blockSize: int)
    ensures TreeOk(NewIndex(now, blockSize))
  {
    FreshLinks(now, blockSize);
    assert RankOk(NewIndex(now, blockSize), map[]);
  }

  lemma SetAttrNames(d: IndexData, i: Ino, a: AttrChange, now: int)
    requires Owned(d) && i in d.inodes
    ensures SameLinks(d, SetAttr(d, i, a, now).value)
  {
    assert d.inodes[i].fileType == REGULAR ==> i in d.extents;
  }

  lemma WriteNames(d: IndexData, i: Ino, w: Extent, now: int, fm: FilterMode)
    requires Owned(d) && IsRegular(d, i)
    ensures SameLinks(d, WriteExtent(d, i, w, now, fm).value)
  {
  }

  predicate SameCopies(s: Fs, t: Fs) {
    t.durable == s.durable && t.remote == s.remote
  }

  /** What a write does to the index. */
  lemma WriteStepIndex(s: Fs, op: Op)
    requires op.Write?
    ensures SameCopies(s, Step(s, op))
    ensures var r := Append(s.chunks, s.objects, op.data, op.off, op.put).result;
            if Accepted(s, op) then
              r.Some? && WriteExtent(s.idx, op.ino, r.value, op.now, op.fm) == Some(Step(s, op).idx)
            else Step(s, op).idx == s.idx
  {
  }

  lemma WriteStepLinks(s: Fs, op: Op)
    requires Owned(s.idx) && op.Write?
    ensures SameLinks(s.idx, Step(s, op).idx) && SameCopies(s, Step(s, op))
  {
    WriteStepIndex(s, op);
    if Accepted(s, op) {
      WriteNames(s.idx, op.ino, Append(s.chunks, s.objects, op.data, op.off, op.put).result.value, op.now, op.fm);
    }
  }

  /** The operations that change the index without touching names. */
  predicate DataOp(op: Op) {
    op.ChangeAttr? || op.Touch? || op.Write? || op.Remap?
  }

  lemma DataStepLinks(s: Fs, op: Op)
    requires Owned(s.idx) && DataOp(op)
    ensures SameLinks(s.idx, Step(s, op).idx) && SameCopies(s, Step(s, op))
  {
    if op.ChangeAttr? {
      if op.ino in s.idx.inodes {
        SetAttrNames(s.idx, op.ino, op.change, op.now);
      }
    } else if op.Write? {
      WriteStepLinks(s, op);
    } else if op.Remap? {
      RemapExtentsLists(s.idx, op.table);
    }
  }

  /** An operation on neither names nor data at most passes the index on, into the hand and from there to the store. */
  lemma CopyStep(s: Fs, op: Op)
    requires !op.Meta? && !DataOp(op) && !op.Restart?
    ensures var t := Step(s, op);
            && t.idx == s.idx
            && (t.durable == s.durable || (s.remote.InHand? && t.durable == Some(s.remote.data)))
            && (t.remote.InHand? ==> t.remote == InHand(s.idx) || t.remote == s.remote)
  {
  }

  lemma LinkStep(s: Fs, op: Op)
    requires LinkInv(s) && LinkOpOk(s, op)
    ensures LinkInv(Step(s, op))
  {
    if op.Meta? {
      if ApplyMeta(s.idx, op.meta, s.blockSize).Some? {
        MetaLinks(s.idx, op.meta, s.blockSize);
      }
    } else if op.Restart? {
      FreshLinks(op.now, op.config.blockSize);
    } else if DataOp(op) {
      DataStepLinks(s, op);
      SameLinksKeeps(s.idx, Step(s, op).idx, None);
    } else {
      CopyStep(s, op);
    }
  }

  lemma MetaStepTree(s: Fs, op: Op)
    requires NameInv(s) && NameOpOk(s, op) && op.Meta?
    ensures TreeInv(Step(s, op))
  {
    if ApplyMeta(s.idx, op.meta, s.blockSize).Some? {
      MetaTree(s.idx, op.meta, s.blockSize);
    }
  }

  lemma DataStepTree(s: Fs, op: Op)
    requires NameInv(s) && DataOp(op)
    ensures TreeInv(Step(s, op))
  {
    DataStepLinks(s, op);
    SameShapeTree(s.idx, Step(s, op).idx);
  }

  lemma TreeStep(s: Fs, op: Op)
    requires NameInv(s) && NameOpOk(s, op)
    ensures TreeInv(Step(s, op))
  {
    if op.Meta? {
      MetaStepTree(s, op);
    } else if op.Restart? {
      FreshTree(op.now, op.config.blockSize);
    } else if DataOp(op) {
      DataStepTree(s, op);
    } else {
      CopyStep(s, op);
    }
  }

  lemma NameStep(s: Fs, op: Op)
    requires NameInv(s) && NameOpOk(s, op)
    ensures NameInv(Step(s, op))
  {
    LinkStep(s, op);
    TreeStep(s, op);
  }

  ghost predicate NameRunOk(s: Fs, ops: seq<Op>)
    decreases |ops|
  {
    ops == [] || (NameOpOk(s, ops[0]) && NameRunOk(Step(s, ops[0]), ops[1..]))
  }

  /**
   Over every run, in memory and as a cold start would restore it: link counts
   are exact, no entry dangles, nothing is unowned, and the directories are a tree.
   */
  lemma {:induction false} NameRun(s: Fs, ops: seq<Op>)
    requires NameInv(s) && NameRunOk(s, ops)
    ensures NameInv(Run(s, ops)) && NoCycle(Run(s, ops).idx)
    decreases |ops|
  {
    if ops == [] {
      TreeHasNoCycle(s.idx);
    } else {
      NameStep(s, ops[0]);
      NameRun(Step(s, ops[0]), ops[1..]);
    }
  }

  // ---- Capacity ----

  ghost predicate CapInv(s: Fs) {
    && Used(s.idx) <= s.maxFsSize
    && (s.durable.Some? ==> Used(s.durable.value) <= s.maxFsSize)
    && (s.remote.InHand? ==> Used(s.remote.data) <= s.maxFsSize)
  }

  /** What the file system looks at when it adds up sizes: no regular file grew, and new ones are empty. */
  predicate NoFileGrows(inodes: map<Ino, Inode>, inodes': map<Ino, Inode>) {
    forall i | i in inodes' && inodes'[i].fileType == REGULAR && inodes'[i].size > 0 ::
      i in inodes && inodes[i].fileType == REGULAR && inodes'[i].size <= inodes[i].size
  }

  lemma {:induction false} SumBounded(m: map<Ino, nat>, m': map<Ino, nat>)
    requires forall i | i in m' && m'[i] > 0 :: i in m && m'[i] <= m[i]
    ensures Sum(m') <= Sum(m)
    decreases |m'|
  {
    if m' == map[] {
    } else {
      var i :| i in m';
      SumTakes(m', i);
      assert (m' - {i}).Keys == m'.Keys - {i};
      SumBounded(m - {i}, m' - {i});
      if i in m {
        SumTakes(m, i);
      } else {
        assert m - {i} == m;
      }
    }
  }

  lemma UsedBounded(d: IndexData, d': IndexData)
    requires NoFileGrows(d.inodes, d'.inodes)
    ensures Used(d') <= Used(d)
  {
    SumBounded(SizesOf(d.inodes), SizesOf(d'.inodes));
  }

  lemma MakeNamedNeverGrows(d: IndexData, p: Ino, n: string, t: FileType, mode: nat, uid: nat, gid: nat, now: int,
                            blk: int)
    ensures NoFileGrows(d.inodes, MakeNamed(d, p, n, t, mode, uid, gid, now, blk).inodes)
  {
    var d1 := CreateInode(d, t, mode, uid, gid, 0, now, blk);
    assert NoFileGrows(d.inodes, d1.inodes);
    var r := AddDirEntry(d1, p, n, d.nextIno, now);
    if r.Some? {
      assert NoFileGrows(d1.inodes, r.value.inodes);
    }
  }

  lemma MakeNeverGrows(d: IndexData, op: MetaOp, blockSize: int)
    requires op.MakeNode? || op.MakeSymlink?
    ensures NoFileGrows(d.inodes, ApplyMeta(d, op, blockSize).value.inodes)
  {
    if op.MakeNode? {
      MakeNamedNeverGrows(d, op.parent, op.name, op.fileType, op.mode, op.uid, op.gid, op.now, blockSize);
    } else {
      MakeNamedNeverGrows(d, op.parent, op.name, SYMLINK, 0x1FF, op.uid, op.gid, op.now, blockSize);
      var d1 := MakeNamed(d, op.parent, op.name, SYMLINK, 0x1FF, op.uid, op.gid, op.now, blockSize);
      assert NoFileGrows(d1.inodes, ApplyMeta(d, op, blockSize).value.inodes);
    }
  }

  lemma RenameNeverGrows(d: IndexData, op: MetaOp)
    requires op.Move? && Rename(d, op.srcParent, op.srcName, op.dstParent, op.dstName, op.now).Some?
    ensures NoFileGrows(d.inodes, Rename(d, op.srcParent, op.srcName, op.dstParent, op.dstName, op.now).value.inodes)
  {
    var taken := op.dstName in ChildrenOf(d, op.dstParent);
    var d1 := if taken then DropLink(d, ChildrenOf(d, op.dstParent)[op.dstName]) else d;
    assert NoFileGrows(d.inodes, d1.inodes);
    var c := ChildrenOf(d, op.srcParent)[op.srcName];
    MoveNameSorts(d1, op.srcParent, op.srcName, op.dstParent, op.dstName, c, op.now);
  }

  lemma DropNeverGrows(d: IndexData, c: Ino)
    requires c in d.inodes
    ensures NoFileGrows(d.inodes, DropLink(d, c).inodes)
  {
  }

  lemma StampsNeverGrow(inodes: map<Ino, Inode>, inodes1: map<Ino, Inode>, c: Ino, p: Ino, now: int)
    requires NoFileGrows(inodes, inodes1)
    ensures NoFileGrows(inodes, StampDir(StampCtime(inodes1, c, now), p, now))
  {
    var inodes2 := StampCtime(inodes1, c, now);
    assert forall i | i in inodes2 :: inodes2[i].size == inodes1[i].size && inodes2[i].fileType == inodes1[i].fileType;
  }

  lemma RemoveNeverGrows(d: IndexData, op: MetaOp)
    requires op.Remove? && RemoveDirEntry(d, op.parent, op.name, op.now).Some?
    ensures NoFileGrows(d.inodes, RemoveDirEntry(d, op.parent, op.name, op.now).value.inodes)
  {
    var c := ChildrenOf(d, op.parent)[op.name];
    var d1 := DropLink(DeleteName(d, op.parent, op.name), c);
    assert d1.inodes == DropLink(d, c).inodes;
    DropNeverGrows(d, c);
    StampsNeverGrow(d.inodes, d1.inodes, c, op.parent, op.now);
  }

  lemma MetaNeverGrows(d: IndexData, op: MetaOp, blockSize: int)
    requires ApplyMeta(d, op, blockSize).Some?
    ensures NoFileGrows(d.inodes, ApplyMeta(d, op, blockSize).value.inodes)
  {
    if op.MakeNode? || op.MakeSymlink? {
      MakeNeverGrows(d, op, blockSize);
    } else if op.Move? {
      RenameNeverGrows(d, op);
    } else if op.Remove? {
      RemoveNeverGrows(d, op);
    }
  }

  /** One regular file has come to size `n`. */
  lemma UsedReplace(d: IndexData, d': IndexData, i: Ino, n: nat)
    requires IsRegular(d, i)
    requires SizesOf(d'.inodes) == SizesOf(d.inodes)[i := n]
    ensures Used(d') == Used(d) - SizeOf(d, i) + n
  {
    SumReplace(SizesOf(d.inodes), i, n);
  }

  lemma WriteSizes(d: IndexData, i: Ino, w: Extent, now: int, fm: FilterMode)
    requires IsRegular(d, i)
    ensures var d' := WriteExtent(d, i, w, now, fm).value;
            SizesOf(d'.inodes) == SizesOf(d.inodes)[i := Max(SizeOf(d, i), w.End())]
  {
  }

  lemma WriteUses(s: Fs, op: Op)
    requires op.Write? && CapInv(s)
    ensures CapInv(Step(s, op))
  {
    WriteStepIndex(s, op);
    if Accepted(s, op) {
      var w := Append(s.chunks, s.objects, op.data, op.off, op.put).result.value;
      WriteSizes(s.idx, op.ino, w, op.now, op.fm);
      UsedReplace(s.idx, Step(s, op).idx, op.ino, Max(SizeOf(s.idx, op.ino), w.End()));
    }
  }

  lemma SetAttrSizes(d: IndexData, i: Ino, a: AttrChange, now: int)
    requires i in d.inodes
    ensures var d' := SetAttr(d, i, a, now).value;
            SizesOf(d'.inodes) == if IsRegular(d, i) && a.size.Some? then SizesOf(d.inodes)[i := a.size.value]
                                  else SizesOf(d.inodes)
  {
    var n, n' := d.inodes[i], SetAttr(d, i, a, now).value.inodes[i];
    assert n'.fileType == n.fileType && n'.size == OrElse(a.size, n.size);
  }

  /** What the files add up to after a change of attributes. */
  lemma ChangeAttrUses(s: Fs, op: Op)
    requires op.ChangeAttr?
    ensures Used(Step(s, op).idx) ==
            if IsRegular(s.idx, op.ino) && op.change.size.Some?
            then Used(s.idx) - SizeOf(s.idx, op.ino) + op.change.size.value else Used(s.idx)
  {
    if op.ino in s.idx.inodes {
      SetAttrSizes(s.idx, op.ino, op.change, op.now);
      if IsRegular(s.idx, op.ino) && op.change.size.Some? {
        UsedReplace(s.idx, Step(s, op).idx, op.ino, op.change.size.value);
      }
    }
  }

  /** The two cases that the code does not check: a truncation up, and a start over a store with a lower limit. */
  ghost predicate GrowthFits(s: Fs, op: Op) {
    match op
    case ChangeAttr(i, a, _) =>
      a.size.Some? && IsRegular(s.idx, i) ==> Used(s.idx) - SizeOf(s.idx, i) + a.size.value <= s.maxFsSize
    case Restart(_, _, c) => s.durable.Some? ==> Used(s.durable.value) <= c.maxFsSize
    case _ => true
  }

  lemma FreshUses(now: int, blockSize: int)
    ensures Used(NewIndex(now, blockSize)) == 0
  {
    assert SizesOf(NewIndex(now, blockSize).inodes) == map[];
  }

  /** A step keeps the files within capacity if and only if it is none of these that does not fit. */
  lemma CapStepIff(s: Fs, op: Op)
    requires CapInv(s)
    ensures CapInv(Step(s, op)) <==> GrowthFits(s, op)
  {
    var t := Step(s, op);
    match op
    case Meta(m) =>
      if ApplyMeta(s.idx, m, s.blockSize).Some? {
        MetaNeverGrows(s.idx, m, s.blockSize);
        UsedBounded(s.idx, t.idx);
      }
    case ChangeAttr(_, _, _) => ChangeAttrUses(s, op);
    case Write(_, _, _, _, _, _) => WriteUses(s, op);
    case Touch(_, _) => UsedBounded(s.idx, t.idx);
    case Restart(_, now, c) => FreshUses(now, c.blockSize);
    case _ =>
  }

  ghost predicate AllGrowthFits(s: Fs, ops: seq<Op>)
    decreases |ops|
  {
    ops == [] || (GrowthFits(s, ops[0]) && AllGrowthFits(Step(s, ops[0]), ops[1..]))
  }

  /** Over every run in which these fit, the files never add up to more than the capacity. */
  lemma {:induction false} CapRun(s: Fs, ops: seq<Op>)
    requires CapInv(s) && AllGrowthFits(s, ops)
    ensures CapInv(Run(s, ops))
    decreases |ops|
  {
    if ops == [] {
    } else {
      CapStepIff(s, ops[0]);
      CapRun(Step(s, ops[0]), ops[1..]);
    }
  }

  // ---- Chunk IDs in use are the ones that some component printed ----

  ghost predicate Printed(id: string) {
    (exists n: nat :: id == ChunkId(n)) || COMPACTED_PREFIX <= id
  }

  ghost predicate StorePrinted(s: Fs) {
    forall id | id in s.objects :: Printed(id)
  }

  /** The chunk store puts nothing but its active chunk. */
  lemma ChunkKeys(s: Fs, op: Op, id: string)
    requires op.Write? || op.SealActive? || op.FlushActive?
    ensures id in Step(s, op).objects ==> id in s.objects || id == s.chunks.activeId
  {
  }

  lemma PrintedStep(s: Fs, op: Op)
    requires ChunkOk(s.chunks, s.objects) && StorePrinted(s) && OpOk(s, op)
    ensures StorePrinted(Step(s, op))
  {
    assert Printed(s.chunks.activeId);
    if op.Write? || op.SealActive? || op.FlushActive? {
      forall id | id in Step(s, op).objects ensures Printed(id) {
        ChunkKeys(s, op, id);
      }
    } else if op.PutSealed? {
      assert Printed(op.id);
    }
  }

  lemma {:induction false} PrintedRun(s: Fs, ops: seq<Op>)
    requires Inv(s) && StorePrinted(s) && RunOk(s, ops)
    ensures StorePrinted(Run(s, ops))
    decreases |ops|
  {
    if ops == [] {
    } else {
      StepKeeps(s, ops[0]);
      PrintedStep(s, ops[0]);
      PrintedRun(Step(s, ops[0]), ops[1..]);
    }
  }
}
