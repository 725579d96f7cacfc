/**
 Persisting the index and starting cold: save locally, flush the active chunk,
 put the index last, and on the way back restore the index and move the active
 chunk past everything stored.
 */
module Persistence {
  import opened Base
  import opened Extents
  import opened IndexModel
  import opened FileData
  import opened ChunkIds
  import opened ChunkModel
  import opened CachedChunks
  import opened WarmStarts
  import opened ObjectStores
  import opened ChunkStores
  import opened Names
  import opened Filesystem
  import opened Indexes
  import opened FuseyLayer
  import opened Runs
  import opened Flags
  import opened Refinement
  import opened Wire

  // ---- What the codec makes of an index ----

  /** A printed ID that can be encoded is decoded to itself. */
  lemma PrintedCanonical(id: string)
    requires Printed(id) && ParseChunkSeq(id).Some?
    ensures Canonical(id)
  {
    if COMPACTED_PREFIX <= id {
      CompactedHasNoSeq(id);
    } else {
      var n: nat :| id == ChunkId(n);
      ParsePrinted(n);
    }
  }

  /** A snapshot of an index over printed chunk IDs either fails to encode or restores exactly the index. */
  lemma SnapshotExact(s: Fs, snap: Snapshot)
    requires Inv(s) && StorePrinted(s) && DirsOk(s.idx) && IsSnapshot(s.idx, snap)
    ensures Persisted(snap).Some? ==> Persisted(snap).value == s.idx
  {
    if Persisted(snap).Some? {
      forall i | i in s.idx.extents ensures CanonicalList(s.idx.extents[i]) {
        var exts := s.idx.extents[i];
        assert ListOk(exts, SizeOf(s.idx, i), FsView(s)) && Encodable(exts);
        forall k | 0 <= k < |exts| ensures Canonical(exts[k].chunkId) {
          assert InView(exts[k], FsView(s));
          assert Printed(exts[k].chunkId);
          PrintedCanonical(exts[k].chunkId);
        }
      }
      RoundTripIff(s.idx, snap);
    }
  }

  /**
   In every state that a run from a fresh mount reaches, persisting any snapshot
   of the index either fails to encode or stores exactly the index.
   */
  lemma PersistedExact(c: Config, now: int, ops: seq<Op>, snap: Snapshot)
    requires RunOk(Mount(c, now), ops) && LinkRunOk(Mount(c, now), ops)
    requires IsSnapshot(Run(Mount(c, now), ops).idx, snap)
    ensures Persisted(snap).Some? ==> Persisted(snap).value == Run(Mount(c, now), ops).idx
  {
    MountHolds(c, now);
    RunRefines(Mount(c, now), ops);
    PrintedRun(Mount(c, now), ops);
    SnapshotExact(Run(Mount(c, now), ops), snap);
  }

  /** Some file has bytes in a compacted chunk. */
  ghost predicate RefersCompacted(d: IndexData) {
    exists i, k :: i in d.extents && 0 <= k < |d.extents[i]| && COMPACTED_PREFIX <= d.extents[i][k].chunkId
  }

  // ---- Persisting ----

  predicate PersistStep(op: Op) {
    || op.TakeLocal? || op.WriteLocal? || op.MarkLocalClean?
    || op.FlushActive?
    || op.EncodeIndex? || op.PutIndex? || op.MarkRemoteClean?
  }

  predicate PersistSteps(ops: seq<Op>) {
    forall k | 0 <= k < |ops| :: PersistStep(ops[k])
  }

  /** The same files; a cold start would show what it would have, or these files; the same of the index in hand. */
  predicate Shows(r: Seen, t: Seen) {
    && t.files == r.files && (t.durable == r.durable || t.durable == r.files)
    && (t.pending.Some? ==> t.pending == Some(r.files))
  }

  ghost predicate Transparent(s: Fs, t: Fs) {
    Inv(t) && Shows(Abs(s), Abs(t))
  }

  lemma ShowsAfter(r: Seen, t: Seen, op: Op, accepted: bool, live: set<Ino>)
    requires Shows(r, t) && !(op.Meta? || op.ChangeAttr? || op.Write? || op.Restart?)
    ensures Shows(r, FileStep(t, op, accepted, live))
  {
  }

  lemma PersistStepKeeps(s: Fs, t: Fs, op: Op)
    requires Transparent(s, t) && OpOk(t, op) && PersistStep(op)
    ensures Transparent(s, Step(t, op))
  {
    StepSimulates(t, op);
    ShowsAfter(Abs(s), Abs(t), op, Accepted(t, op), LiveAfter(t, op));
  }

  /** Persisting shows no change to readers, and leaves a cold start with the old files or the current ones. */
  lemma {:induction false} PersistKeepsFiles(s: Fs, t: Fs, ops: seq<Op>)
    requires Transparent(s, t) && RunOk(t, ops) && PersistSteps(ops)
    ensures Transparent(s, Run(t, ops))
    decreases |ops|
  {
    if ops == [] {
    } else {
      PersistStepKeeps(s, t, ops[0]);
      PersistKeepsFiles(s, Step(t, ops[0]), ops[1..]);
    }
  }

  // ---- The steps of one save and of one put ----

  datatype SaveOutcome = NotEncoded | NotWritten | Replaced

  function SaveOps(o: SaveOutcome): seq<Op> {
    match o
    case NotEncoded => []
    case NotWritten => [TakeLocal, WriteLocal(false)]
    case Replaced => [TakeLocal, WriteLocal(true), MarkLocalClean]
  }

  function AfterSave(s: Fs, o: SaveOutcome): Fs {
    if o.Replaced? then s.(saved := Some(s.idx), dirty := false) else s
  }

  lemma SaveRuns(s: Fs, o: SaveOutcome)
    requires s.local.Idle?
    ensures RunOk(s, SaveOps(o)) && PersistSteps(SaveOps(o)) && Run(s, SaveOps(o)) == AfterSave(s, o)
  {
    RunOfTwo(s, TakeLocal, WriteLocal(false));
    RunOfThree(s, TakeLocal, WriteLocal(true), MarkLocalClean);
  }

  /** None: the index could not be encoded. */
  function PutOps(o: Option<PutOutcome>): seq<Op> {
    if o.None? then []
    else if o.value.Stored? then [EncodeIndex, PutIndex(Stored), MarkRemoteClean]
    else [EncodeIndex, PutIndex(o.value)]
  }

  function AfterPut(s: Fs, o: Option<PutOutcome>): Fs {
    if o.None? || o.value.Lost? then s
    else s.(durable := Some(s.idx), remoteDirty := s.remoteDirty && !o.value.Stored?)
  }

  lemma FlushedInHand(s: Fs, o: PutOutcome)
    requires Flushed(s, s.idx)
    ensures OpOk(Step(s, EncodeIndex), PutIndex(o))
  {
    var t := Step(s, EncodeIndex);
    forall i | i in s.idx.extents ensures ListFlushed(s.idx.extents[i], t) {
      assert ListFlushed(s.idx.extents[i], s);
    }
  }

  lemma PutRuns(s: Fs, o: Option<PutOutcome>)
    requires s.remote.Idle? && (o.Some? ==> Flushed(s, s.idx))
    ensures RunOk(s, PutOps(o)) && PersistSteps(PutOps(o)) && Run(s, PutOps(o)) == AfterPut(s, o)
  {
    if o.Some? {
      FlushedInHand(s, o.value);
      RunOfTwo(s, EncodeIndex, PutIndex(o.value));
      RunOfThree(s, EncodeIndex, PutIndex(Stored), MarkRemoteClean);
    }
  }

  // ---- What a persist that succeeds leaves ----

  /** An index that differs from the stored one in access times at most shows the same files. */
  lemma SameButAtimeFiles(a: IndexData, b: IndexData, v: View)
    requires SameButAtime(a, b)
    ensures Files(a, v) == Files(b, v)
  {
    forall i | i in a.extents ensures SizeOf(a, i) == SizeOf(b, i) {
      assert i in a.inodes <==> i in ForgetAtime(a.inodes);
      assert i in b.inodes <==> i in ForgetAtime(b.inodes);
      assert i in a.inodes ==> ForgetAtime(a.inodes)[i].size == ForgetAtime(b.inodes)[i].size;
    }
  }

  /** A clean flag that tells the truth, over a flushed chunk: the store has the present files. */
  lemma CleanIsDurable(s: Fs)
    requires Inv(s) && Flushed(s, s.idx) && MatchesStore(s)
    ensures Abs(s).durable == Abs(s).files
  {
    FlushedIffStored(s, s.idx);
    StoredMatchesView(s.idx, s);
    if s.durable.Some? {
      SameButAtimeFiles(s.durable.value, s.idx, s.objects);
    } else {
      var now :| SameButAtime(NewIndex(now, s.blockSize), s.idx);
    }
  }

  /** What persisting needs: the invariants, printed chunk IDs, and no persist under way. */
  ghost predicate Ready(fs: Fusey)
    reads fs, fs.idx, fs.cs, fs.cs.store, fs.cacheDir
  {
    && fs.Valid() && StorePrinted(fs.State()) && DirsOk(fs.State().idx)
    && fs.remote.Idle? && fs.local.Idle?
  }

  class Persister {
    const fs: Fusey

    constructor (fs: Fusey)
      ensures this.fs == fs
    {
      this.fs := fs;
    }

    /** Encodes a snapshot of the index as a cold start will decode it; fails exactly on a chunk ID without a number. */
    method Marshal() returns (d: Option<IndexData>)
      ensures Ready(fs) && d.Some? ==> d.value == fs.State().idx
      ensures d.Some? <==> AllEncodable(fs.State().idx.extents)
    {
      var idx := fs.idx;
      var snap := TakeSnapshot(IndexData(idx.inodes, idx.dirs, idx.extents, idx.symlinks, idx.xattrs, idx.nextIno));
      if Ready(fs) {
        SnapshotExact(fs.State(), snap);
      }
      var wire := EncodeSnapshot(snap);
      if wire.None? {
        return None;
      }
      var decoded := RestoreSnapshot(FromWire(wire.value));
      d := Some(decoded);
    }

    static lemma StateSaved(s: Fs)
      requires Inv(s) && s.local.Idle?
      ensures Inv(AfterSave(s, Replaced))
    {
      SaveRuns(s, Replaced);
      RunKeeps(s, SaveOps(Replaced));
    }

    /** Replaces the local snapshot atomically, or leaves the previous one. */
    method Save() returns (ok: bool, ghost o: SaveOutcome)
      modifies fs.idx`dirty, fs.cacheDir`snapshot
      ensures ok == o.Replaced?
      ensures o.NotEncoded? <==> !AllEncodable(old(fs.State()).idx.extents)
      ensures fs.cacheDir.up ==> !o.NotWritten?
      ensures old(Ready(fs)) ==> fs.State() == AfterSave(old(fs.State()), o) && Ready(fs)
    {
      o := NotEncoded;
      var d := Marshal();
      if d.None? {
        return false, o;
      }
      o := NotWritten;
      var written := fs.cacheDir.Replace(d.value);
      if !written {
        return false, o;
      }
      fs.idx.dirty := false;
      ok, o := true, Replaced;
      if old(Ready(fs)) {
        StateSaved(old(fs.State()));
      }
    }

    /** Puts the index object if it changed since the last successful put. */
    method PutRemote() returns (ok: bool, ghost o: Option<PutOutcome>)
      requires Ready(fs)
      modifies fs.idx, fs.cs.store`index
      ensures fs.State() == AfterPut(old(fs.State()), o)
      ensures fs.cs.store.up ==> (ok <==> (old(fs.idx.remoteDirty) ==> AllEncodable(old(fs.State()).idx.extents)))
      ensures ok <==> !old(fs.idx.remoteDirty) || o == Some(Stored)
      ensures !old(fs.idx.remoteDirty) ==> o.None?
    {
      o := None;
      if !fs.idx.remoteDirty {
        return true, o;
      }
      var d := Marshal();
      if d.None? {
        return false, o;
      }
      var out := fs.cs.store.PutRaw(d.value);
      o := Some(out);
      if !out.Stored? {
        return false, o;
      }
      fs.idx.remoteDirty := false;
      ok := true;
    }

    static lemma FlushReady(s: Fs, o: PutOutcome)
      requires Inv(s) && StorePrinted(s)
      ensures var t := Step(s, FlushActive(o));
              && Inv(t) && StorePrinted(t) && t.idx == s.idx
              && (Flush(s.chunks, s.objects, o).ok ==> Flushed(t, t.idx))
    {
      StepKeeps(s, FlushActive(o));
      PrintedStep(s, FlushActive(o));
      FlushKeeps(s.chunks, s.objects, o);
      if Flush(s.chunks, s.objects, o).ok {
        CleanIsFlushed(Step(s, FlushActive(o)));
      }
    }

    /** Flushes the active chunk. */
    method FlushChunk() returns (ok: bool, ghost o: PutOutcome)
      requires Ready(fs)
      modifies fs.cs, fs.cs.store`objects
      ensures fs.State() == Step(old(fs.State()), FlushActive(o)) && fs.cs.held == old(fs.cs.held)
      ensures fs.cs.store.up ==> ok
      ensures Ready(fs) && (ok ==> Flushed(fs.State(), fs.State().idx))
    {
      FlushReady(fs.State(), Stored);
      ok, o := fs.cs.FlushActive();
      FlushReady(old(fs.State()), o);
    }

    /** What the two remote steps do, one after the other. */
    static ghost function RemoteOps(flush: PutOutcome, flushed: bool, put: Option<PutOutcome>): seq<Op> {
      [FlushActive(flush)] + if flushed then PutOps(put) else []
    }

    static lemma RemoteRuns(s: Fs, flush: PutOutcome, put: Option<PutOutcome>)
      requires s.remote.Idle?
      requires var t := Step(s, FlushActive(flush)); t.remote.Idle? && (put.Some? ==> Flushed(t, t.idx))
      ensures var ops := RemoteOps(flush, true, put);
              RunOk(s, ops) && PersistSteps(ops) && Run(s, ops) == AfterPut(Step(s, FlushActive(flush)), put)
    {
      RunOfOne(s, FlushActive(flush));
      PutRuns(Step(s, FlushActive(flush)), put);
      RunConcat(s, [FlushActive(flush)], PutOps(put));
    }

    /** After both steps the store matches the index, whether or not there was something to put. */
    static lemma PutMatches(s: Fs, flush: PutOutcome, put: Option<PutOutcome>)
      requires var t := Step(s, FlushActive(flush)); Flushed(t, t.idx)
      requires FlagsTrue(s)
      ensures var u := AfterPut(Step(s, FlushActive(flush)), put);
              && Flushed(u, u.idx) && FlagsTrue(u)
              && (put == Some(Stored) || (!s.remoteDirty && put.None?) ==> MatchesStore(u) && !u.remoteDirty)
    {
      var t := Step(s, FlushActive(flush));
      var u := AfterPut(t, put);
      forall i | i in u.idx.extents ensures ListFlushed(u.idx.extents[i], u) {
        assert ListFlushed(t.idx.extents[i], t);
      }
    }

    /** The two remote steps, the chunk before the index that refers to it. */
    method FlushThenPut() returns (ok: bool, ghost ops: seq<Op>)
      requires Ready(fs) && FlagsTrue(fs.State())
      modifies fs.idx, fs.cs, fs.cs.store`objects, fs.cs.store`index
      ensures fs.cs.store.up ==> (ok <==> (old(fs.idx.remoteDirty) ==> AllEncodable(old(fs.State()).idx.extents)))
      ensures RunOk(old(fs.State()), ops) && PersistSteps(ops) && fs.State() == Run(old(fs.State()), ops)
      ensures fs.cs.Valid() && FlagsTrue(fs.State())
      ensures ok ==> Flushed(fs.State(), fs.State().idx) && MatchesStore(fs.State()) && !fs.idx.remoteDirty
      ensures ok && old(fs.idx.remoteDirty) ==> fs.State().durable == Some(fs.State().idx)
      ensures fs.State().idx == old(fs.State().idx) && fs.cs.held == old(fs.cs.held)
      ensures fs.State().saved == old(fs.State()).saved && fs.idx.dirty == old(fs.idx.dirty)
      ensures !old(fs.idx.remoteDirty) ==> fs.State().durable == old(fs.State()).durable
    {
      ghost var s, o, put := fs.State(), Stored, None;
      ok, o := FlushChunk();
      ghost var t := fs.State();
      RunOfOne(s, FlushActive(o));
      ops := [FlushActive(o)];
      if !ok {
        return;
      }
      ok, put := PutRemote();
      RemoteRuns(s, o, put);
      ops := RemoteOps(o, true, put);
      PutMatches(s, o, put);
    }

    static lemma PersistOutcome(s: Fs, ops: seq<Op>, ok: bool)
      requires Inv(s) && s.remote.Idle? && RunOk(s, ops) && PersistSteps(ops)
      requires var t := Run(s, ops); ok ==> Flushed(t, t.idx) && MatchesStore(t)
      ensures var t := Run(s, ops);
              && Inv(t) && Abs(t).files == Abs(s).files
              && (Abs(t).durable == Abs(s).durable || Abs(t).durable == Abs(t).files)
              && (ok ==> Abs(t).durable == Abs(t).files)
    {
      PersistKeepsFiles(s, s, ops);
      if ok {
        CleanIsDurable(Run(s, ops));
      }
    }

    /** The local part of the persist function. */
    method SaveIfDirty() returns (ok: bool, ghost ops: seq<Op>)
      requires Ready(fs) && FlagsTrue(fs.State())
      modifies fs.idx, fs.cacheDir`snapshot
      ensures fs.cacheDir.up ==> (ok <==> (old(fs.idx.dirty) ==> AllEncodable(old(fs.State()).idx.extents)))
      ensures RunOk(old(fs.State()), ops) && PersistSteps(ops) && fs.State() == Run(old(fs.State()), ops)
      ensures Ready(fs) && FlagsTrue(fs.State()) && fs.idx.remoteDirty == old(fs.idx.remoteDirty)
      ensures fs.State().idx == old(fs.State().idx)
      ensures old(fs.idx.dirty) && !AllEncodable(old(fs.State()).idx.extents) ==> !ok && ops == []
      ensures ok ==> !fs.idx.dirty && (old(fs.idx.dirty) ==> fs.State().saved == Some(fs.State().idx))
      ensures !ok || !old(fs.idx.dirty) ==> fs.State().saved == old(fs.State()).saved
    {
      ops, ok := [], true;
      if fs.idx.dirty {
        ghost var s, o := fs.State(), NotEncoded;
        ok, o := Save();
        SaveRuns(s, o);
        ops := SaveOps(o);
      }
    }

    /**
     The persist function: local snapshot, then the active chunk, then the index.
     Wherever it fails, readers see no change, and a cold start would show the
     files of the last index put or the present ones; after success, whether or
     not anything had changed, the present ones.  While store and disk are up it
     succeeds exactly if nothing changed or every chunk ID can be encoded.  A
     changed index that can be encoded reaches the local snapshot whatever the
     store does.
     */
    method Persist() returns (ok: bool, ghost ops: seq<Op>)
      requires Ready(fs) && FlagsTrue(fs.State())
      modifies fs.idx, fs.cs, fs.cs.store`objects, fs.cs.store`index, fs.cacheDir`snapshot
      ensures RunOk(old(fs.State()), ops) && PersistSteps(ops) && fs.State() == Run(old(fs.State()), ops)
      ensures Inv(fs.State()) && Abs(fs.State()).files == old(Abs(fs.State())).files
      ensures || Abs(fs.State()).durable == old(Abs(fs.State())).durable
              || Abs(fs.State()).durable == Abs(fs.State()).files
      ensures ok ==> Abs(fs.State()).durable == Abs(fs.State()).files && !fs.idx.remoteDirty
      ensures ok && old(fs.idx.remoteDirty) ==> fs.State().durable == Some(fs.State().idx)
      ensures fs.cs.store.up && fs.cacheDir.up ==>
                (ok <==> (old(fs.idx.dirty || fs.idx.remoteDirty) ==> AllEncodable(old(fs.State()).idx.extents)))
      ensures fs.cs.Valid() && FlagsTrue(fs.State())
      ensures old(fs.idx.dirty) && !AllEncodable(old(fs.State()).idx.extents) ==> !ok && ops == []
      ensures ok ==> !fs.idx.dirty && (old(fs.idx.dirty) ==> fs.State().saved == Some(fs.State().idx))
      ensures old(fs.idx.dirty) && fs.cacheDir.up && AllEncodable(old(fs.State()).idx.extents) ==>
                !fs.idx.dirty && fs.State().saved == Some(fs.State().idx)
      ensures !old(fs.idx.dirty) ==> fs.State().saved == old(fs.State()).saved
      ensures !old(fs.idx.remoteDirty) ==> fs.State().durable == old(fs.State()).durable
    {
      ghost var s := fs.State();
      ok, ops := SaveIfDirty();
      if ok {
        ghost var more;
        ok, more := FlushThenPut();
        RunConcat(s, ops, more);
        ops := ops + more;
      }
      PersistOutcome(s, ops, ok);
    }

    static lemma FsyncRuns(s: Fs, o: PutOutcome, saved: SaveOutcome)
      requires Inv(s) && StorePrinted(s) && s.remote.Idle? && s.local.Idle?
      ensures var ops := [FlushActive(o)] + SaveOps(saved);
              var t := AfterSave(Step(s, FlushActive(o)), saved);
              RunOk(s, ops) && PersistSteps(ops) && Run(s, ops) == t && Inv(t) && Abs(t).files == Abs(s).files
    {
      var s1 := Step(s, FlushActive(o));
      FlushReady(s, o);
      RunOfOne(s, FlushActive(o));
      SaveRuns(s1, saved);
      RunConcat(s, [FlushActive(o)], SaveOps(saved));
      PersistKeepsFiles(s, s, [FlushActive(o)] + SaveOps(saved));
    }

    /** A flushed index reads from the stored chunks alone as it reads in memory. */
    static lemma StoredWhole(s: Fs)
      requires Inv(s) && Flushed(s, s.idx)
      ensures Files(s.idx, s.objects) == Abs(s).files
    {
      FlushedIffStored(s, s.idx);
      StoredMatchesView(s.idx, s);
    }

    /**
     Fsync: after success the stored chunks hold every file as it is now, read
     through the index in memory, and where there is a cache directory, through
     the snapshot in it.
     */
    method Fsync(hasCacheDir: bool) returns (ok: bool, ghost ops: seq<Op>)
      requires Ready(fs)
      modifies fs.idx, fs.cs, fs.cs.store`objects, fs.cs.store`index, fs.cacheDir`snapshot
      ensures RunOk(old(fs.State()), ops) && PersistSteps(ops) && fs.State() == Run(old(fs.State()), ops)
      ensures Inv(fs.State()) && Abs(fs.State()).files == old(Abs(fs.State())).files && fs.cs.Valid()
      ensures ok ==> Files(fs.State().idx, fs.State().objects) == Abs(fs.State()).files
      ensures ok && hasCacheDir ==> fs.State().saved == Some(fs.State().idx)
      ensures fs.State().saved != old(fs.State()).saved ==>
                && fs.State().saved == Some(fs.State().idx) && hasCacheDir
                && Files(fs.State().idx, fs.State().objects) == Abs(fs.State()).files
      ensures fs.cs.store.up && fs.cacheDir.up ==>
                (ok <==> (hasCacheDir ==> AllEncodable(old(fs.State()).idx.extents)))
    {
      ghost var s, o, saved := fs.State(), Stored, NotEncoded;
      ok, o := FlushChunk();
      ghost var t := fs.State();
      if ok {
        StoredWhole(t);
        if hasCacheDir {
          ok, saved := Save();
        }
      }
      FsyncRuns(s, o, saved);
      ops := [FlushActive(o)] + SaveOps(saved);
    }
  }

  // ---- Starting cold ----

  /** The state of the chunk store after start-up over this listing. */
  ghost function OpenedChunks(maxChunk: nat, ids: seq<string>, objects: View): Chunks {
    Chunks(Recovered(NewChunks(maxChunk), ids), objects)
  }

  /**
   A chunk store over a store with objects, moved past everything in it, with its
   cache over a directory that an earlier session may have left.
   */
  method OpenChunks(store: ObjectStore, maxChunk: nat, dir: map<string, Bytes>, diskUp: bool)
    returns (ok: bool, cs: ChunkStore, ghost ids: seq<string>)
    ensures fresh(cs) && cs.store == store && cs.maxChunkSize == maxChunk && cs.diskUp == diskUp
    ensures store.up && diskUp ==> ok
    ensures ok ==> Enumerates(ids, store.objects.Keys) && cs.State() == Recovered(NewChunks(maxChunk), ids)
    ensures ok ==> cs.cacheOn && cs.files == dir
    ensures ok && !HasWideSeq(ids) ==>
              cs.activeId !in store.objects && (cs.Valid() <==> WarmOk(OpenedChunks(maxChunk, ids, store.objects), dir))
  {
    cs := new ChunkStore(store, maxChunk, diskUp);
    ok, ids := cs.RecoverNextSeq();
    if ok {
      ok := cs.SetCacheDir(dir);
    }
  }

  /** The index that the store holds, or a fresh one if it holds none. */
  method LoadIndex(store: ObjectStore, blockSize: int, now: int) returns (ok: bool, found: bool, idx: Index)
    ensures fresh(idx) && idx.blockSize == blockSize
    ensures store.up ==> ok
    ensures ok ==> !idx.dirty && !idx.remoteDirty && found == store.index.Some?
    ensures ok ==> idx.Data() == if store.index.Some? then store.index.value else NewIndex(now, blockSize)
  {
    var r := store.GetRaw();
    found := r.Found?;
    if found {
      idx := new Index.FromData(r.data, blockSize);
    } else {
      idx := new Index(now, blockSize);
    }
    ok := !r.Unavailable?;
  }

  lemma RestartReady(crashed: Fs, ids: seq<string>, now: int, c: Config)
    requires Inv(crashed) && StorePrinted(crashed)
    requires crashed.durable.Some? ==> DirsOk(crashed.durable.value)
    requires Enumerates(ids, crashed.objects.Keys) && !HasWideSeq(ids)
    ensures OpOk(crashed, Restart(ids, now, c))
    ensures var t := Step(crashed, Restart(ids, now, c));
            Inv(t) && StorePrinted(t) && DirsOk(t.idx) && Abs(t).files == Abs(crashed).durable
  {
    StepSimulates(crashed, Restart(ids, now, c));
  }

  /** A start followed by what came of caching the index. */
  lemma StartRuns(crashed: Fs, ids: seq<string>, now: int, c: Config, o: SaveOutcome)
    requires OpOk(crashed, Restart(ids, now, c)) && Inv(Step(crashed, Restart(ids, now, c)))
    ensures var ops := [Restart(ids, now, c)] + SaveOps(o);
            var t := AfterSave(Step(crashed, Restart(ids, now, c)), o);
            RunOk(crashed, ops) && Run(crashed, ops) == t && Inv(t)
  {
    var up := Step(crashed, Restart(ids, now, c));
    RunOfOne(crashed, Restart(ids, now, c));
    SaveRuns(up, o);
    RunConcat(crashed, [Restart(ids, now, c)], SaveOps(o));
    RunKeeps(up, SaveOps(o));
  }

  /** The conditions of a start: no stored number too wide for the scan, and nothing stale in the cache directory. */
  ghost predicate StartsRight(ids: seq<string>, c: Config, objects: View, dir: map<string, Bytes>) {
    !HasWideSeq(ids) && WarmOk(OpenedChunks(c.maxChunk, ids, objects), dir)
  }

  /** Opens the chunks and loads the index. */
  method BringUp(store: ObjectStore, c: Config, dir: map<string, Bytes>, diskUp: bool, now: int, ghost crashed: Fs)
    returns (ok: bool, found: bool, fs: Fusey, ghost ids: seq<string>)
    requires Inv(crashed) && StorePrinted(crashed) && crashed.objects == store.objects && crashed.durable == store.index
    requires crashed.durable.Some? ==> DirsOk(crashed.durable.value)
    ensures fresh(fs) && fresh(fs.idx) && fresh(fs.cs) && fresh(fs.cacheDir) && fs.cs.store == store
    ensures fs.cacheDir.up == diskUp && (store.up && diskUp ==> ok)
    ensures ok ==> fs.cs.cacheOn && fs.cs.files == dir && fs.cs.diskUp == diskUp
    ensures ok ==> Enumerates(ids, store.objects.Keys) && found == store.index.Some?
    ensures ok && StartsRight(ids, c, store.objects, dir) ==>
              && OpOk(crashed, Restart(ids, now, c)) && fs.State() == Step(crashed, Restart(ids, now, c))
              && Ready(fs) && Abs(fs.State()).files == Abs(crashed).durable && fs.cs.activeId !in store.objects
  {
    var cs, idx, loaded;
    ok, cs, ids := OpenChunks(store, c.maxChunk, dir, diskUp);
    loaded, found, idx := LoadIndex(store, c.blockSize, now);
    var cacheDir := new CacheDir(diskUp);
    fs := new Fusey(idx, cs, cacheDir, c.maxFsSize);
    ok := ok && loaded;
    if ok && StartsRight(ids, c, store.objects, dir) {
      RestartReady(crashed, ids, now, c);
    }
  }

  /**
   A cold start from the object store, with whatever limits the new session is
   configured.  Whatever state the crash left, the file system that comes up
   shows the files of the last index put, its active chunk aliases nothing
   stored, and a found index that can be encoded is cached locally while the disk
   is up: provided no stored chunk has a sequence number too wide for the scan,
   and the cache directory has nothing stale.
   */
  method ColdStart(store: ObjectStore, c: Config, dir: map<string, Bytes>, diskUp: bool, now: int, ghost crashed: Fs)
    returns (ok: bool, fs: Fusey, ghost ids: seq<string>, ghost ops: seq<Op>)
    requires Inv(crashed) && StorePrinted(crashed) && crashed.objects == store.objects && crashed.durable == store.index
    requires crashed.durable.Some? ==> DirsOk(crashed.durable.value)
    ensures fresh(fs) && fresh(fs.idx) && fresh(fs.cs) && fresh(fs.cacheDir) && fs.cs.store == store
    ensures store.up && diskUp ==> ok
    ensures ok ==> Enumerates(ids, store.objects.Keys) && fs.cs.cacheOn && fs.cs.files == dir && fs.cs.diskUp == diskUp
    ensures ok && StartsRight(ids, c, store.objects, dir) ==>
              && ops != [] && ops[0] == Restart(ids, now, c)
              && RunOk(crashed, ops) && fs.State() == Run(crashed, ops)
              && fs.Valid() && Abs(fs.State()).files == Abs(crashed).durable && fs.cs.activeId !in store.objects
              && (store.index.Some? && diskUp && AllEncodable(store.index.value.extents) ==>
                  fs.State().saved == store.index)
  {
    var found;
    ok, found, fs, ids := BringUp(store, c, dir, diskUp, now, crashed);
    ghost var o := NotEncoded;
    if ok && found {
      var p := new Persister(fs);
      var saved;
      saved, o := p.Save();
    }
    ops := [Restart(ids, now, c)] + SaveOps(o);
    if ok && StartsRight(ids, c, store.objects, dir) {
      StartRuns(crashed, ids, now, c, o);
    }
  }
}
