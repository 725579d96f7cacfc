/**
 The whole stack as one state machine: index, chunk store, object store, the
 index object last put to the store, the snapshot last saved locally, and the
 copies that a persist in progress has in hand.  Its steps are the file system
 operations, the separate steps of persisting and of compacting, with every way
 a store call can fail, and a crash followed by a cold start.
 */
module Filesystem {
  import opened Base
  import opened Extents
  import opened InPlaceFilter
  import opened IndexModel
  import opened FileData
  import opened ChunkIds
  import opened ChunkModel
  import opened Sums

  /** How far a persist has come: a copy of the index is in hand, or has been written out. */
  datatype Slot = Idle | InHand(data: IndexData) | Out(data: IndexData)

  datatype Config = Config(maxChunk: nat, maxFsSize: nat, blockSize: int)

  datatype Fs = Fs(
    idx: IndexData, dirty: bool, remoteDirty: bool,
    chunks: ChunkState, objects: View,
    durable: Option<IndexData>, saved: Option<IndexData>,
    remote: Slot, local: Slot,
    maxFsSize: nat, blockSize: int)

  function FsView(s: Fs): View {
    ViewOf(s.chunks, s.objects)
  }

  /** A fresh mount of an empty store. */
  function Mount(c: Config, now: int): Fs {
    Fs(NewIndex(now, c.blockSize), false, false, NewChunks(c.maxChunk), map[], None, None, Idle, Idle,
       c.maxFsSize, c.blockSize)
  }

  // ---- Operations ----

  datatype Op =
    | Meta(meta: MetaOp)
    | ChangeAttr(ino: Ino, change: AttrChange, now: int)
    | Touch(ino: Ino, now: int)
    | Write(ino: Ino, data: Bytes, off: nat, now: int, fm: FilterMode, put: PutOutcome)
    | SealActive(put: PutOutcome)
    | FlushActive(put: PutOutcome)
    | TakeLocal                    // snapshot the index for the local file
    | WriteLocal(ok: bool)         // replace the local file
    | MarkLocalClean               // clear the local dirty flag
    | EncodeIndex                  // snapshot and encode the index for the store
    | PutIndex(put: PutOutcome)    // put it
    | MarkRemoteClean              // clear the remote dirty flag
    | PutSealed(id: string, bytes: Bytes, put: PutOutcome)
    | Remap(table: RemapTable)
    | DeleteChunk(id: string, reached: bool)
    | Restart(ids: seq<string>, now: int, config: Config)

  /** A structural change of the index marks it dirty towards both copies. */
  function Changed(s: Fs, d: Option<IndexData>): Fs {
    if d.Some? then s.(idx := d.value, dirty := true, remoteDirty := true) else s
  }

  ghost function SizesOf(inodes: map<Ino, Inode>): map<Ino, nat> {
    map i | i in inodes && inodes[i].fileType == REGULAR :: inodes[i].size
  }

  /** `UsedBytes`: the sum of the sizes of the regular files. */
  ghost function Used(d: IndexData): nat {
    Sum(SizesOf(d.inodes))
  }

  /** Whether a write ending at `end` passes the capacity check. */
  ghost predicate HasRoom(s: Fs, i: Ino, end: nat) {
    end > SizeOf(s.idx, i) ==> Used(s.idx) + (end - SizeOf(s.idx, i)) <= s.maxFsSize
  }

  ghost function WriteStep(s: Fs, i: Ino, data: Bytes, off: nat, now: int, fm: FilterMode, o: PutOutcome): Fs {
    if i !in s.idx.inodes || !HasRoom(s, i, off + |data|) then s
    else
      var r := Append(s.chunks, s.objects, data, off, o);
      var s1 := s.(chunks := r.chunks, objects := r.objects);
      if r.result.None? then s1 else Changed(s1, WriteExtent(s.idx, i, r.result.value, now, fm))
  }

  /** Whether the write is acknowledged. */
  ghost predicate WriteAccepted(s: Fs, i: Ino, data: Bytes, off: nat, o: PutOutcome) {
    && IsRegular(s.idx, i) && HasRoom(s, i, off + |data|)
    && Append(s.chunks, s.objects, data, off, o).result.Some?
  }

  ghost function Step(s: Fs, op: Op): Fs {
    match op
    case Meta(m) => Changed(s, ApplyMeta(s.idx, m, s.blockSize))
    case ChangeAttr(i, a, now) => Changed(s, SetAttr(s.idx, i, a, now))
    case Touch(i, now) =>
      var r := TouchAtime(s.idx, i, now);
      if r.Some? then s.(idx := r.value, dirty := true) else s
    case Write(i, data, off, now, fm, o) => WriteStep(s, i, data, off, now, fm, o)
    case SealActive(o) => var r := Seal(s.chunks, s.objects, o); s.(chunks := r.chunks, objects := r.objects)
    case FlushActive(o) => var r := Flush(s.chunks, s.objects, o); s.(chunks := r.chunks, objects := r.objects)
    case TakeLocal => s.(local := InHand(s.idx))
    case WriteLocal(ok) =>
      if !s.local.InHand? then s
      else if ok then s.(saved := Some(s.local.data), local := Out(s.local.data))
      else s.(local := Idle)
    case MarkLocalClean => if s.local.Out? then s.(dirty := false, local := Idle) else s
    case EncodeIndex => s.(remote := InHand(s.idx))
    case PutIndex(o) =>
      if !s.remote.InHand? then s
      else s.(durable := if o.Lost? then s.durable else Some(s.remote.data),
              remote := if o.Stored? then Out(s.remote.data) else Idle)
    case MarkRemoteClean => if s.remote.Out? then s.(remoteDirty := false, remote := Idle) else s
    case PutSealed(id, bytes, o) => s.(objects := Landed(s.objects, id, bytes, o))
    case Remap(m) => s.(idx := RemapExtents(s.idx, m), dirty := true, remoteDirty := true)
    case DeleteChunk(id, reached) => if reached then s.(objects := s.objects - {id}) else s
    case Restart(ids, now, c) =>
      s.(idx := if s.durable.Some? then s.durable.value else NewIndex(now, c.blockSize),
         dirty := false, remoteDirty := false,
         chunks := Recovered(NewChunks(c.maxChunk), ids),
         saved := None, remote := Idle, local := Idle,
         maxFsSize := c.maxFsSize, blockSize := c.blockSize)
  }

  // ---- The invariant and the conditions on operations ----

  ghost predicate Inv(s: Fs) {
    && ChunkOk(s.chunks, s.objects)
    && DataOk(s.idx, FsView(s))
    && (s.durable.Some? ==> DataOk(s.durable.value, s.objects))
    && (s.remote.InHand? ==> DataOk(s.remote.data, FsView(s)))
  }

  predicate Refers(d: IndexData, id: string) {
    exists i, k :: i in d.extents && 0 <= k < |d.extents[i]| && d.extents[i][k].chunkId == id
  }

  /** What `d` uses of the active chunk has reached the store. */
  predicate Flushed(s: Fs, d: IndexData) {
    forall i | i in d.extents :: ListFlushed(d.extents[i], s)
  }

  predicate ListFlushed(exts: seq<Extent>, s: Fs) {
    forall k | 0 <= k < |exts| && exts[k].chunkId == s.chunks.activeId ::
      s.chunks.activeId in s.objects && exts[k].ChunkEnd() <= |s.objects[s.chunks.activeId]|
  }

  ghost predicate OpOk(s: Fs, op: Op) {
    match op
    case Write(i, data, off, now, fm, o) => data != [] && WriteSafe(s.idx, i, Extent("", 0, |data|, off), fm)
    case PutIndex(o) => s.remote.InHand? && !o.Lost? ==> Flushed(s, s.remote.data)
    case PutSealed(id, bytes, o) => COMPACTED_PREFIX <= id && id !in s.objects
    case Remap(m) => RemapOk(s.idx, m, FsView(s))
    case DeleteChunk(id, reached) =>
      && id != s.chunks.activeId && !Refers(s.idx, id)
      && (s.durable.Some? ==> !Refers(s.durable.value, id))
      && (s.remote.InHand? ==> !Refers(s.remote.data, id))
    case Restart(ids, now, c) => (forall id :: id in s.objects <==> id in ids) && !HasWideSeq(ids)
    case _ => true
  }

  // ---- The bytes ----

  /** The files as the running system shows them, as a cold start would, and as the index in hand has them. */
  datatype Seen = Seen(files: map<Ino, Bytes>, durable: map<Ino, Bytes>, pending: Option<map<Ino, Bytes>>)

  function DurableFiles(s: Fs): map<Ino, Bytes> {
    if s.durable.Some? then Files(s.durable.value, s.objects) else map[]
  }

  function Abs(s: Fs): Seen {
    Seen(Files(s.idx, FsView(s)), DurableFiles(s),
         if s.remote.InHand? then Some(Files(s.remote.data, FsView(s))) else None)
  }

  /** What a step does to the bytes, given which files it leaves and whether the data of a write was stored. */
  ghost function FileStep(r: Seen, op: Op, accepted: bool, live: set<Ino>): Seen {
    match op
    case Meta(_) => r.(files := Retain(r.files, live))
    case ChangeAttr(i, a, _) =>
      if i in r.files && a.size.Some? then r.(files := r.files[i := Resize(r.files[i], a.size.value)]) else r
    case Write(i, data, off, _, _, _) =>
      if accepted && i in r.files then r.(files := r.files[i := Overlay(r.files[i], off, data)]) else r
    case EncodeIndex => r.(pending := Some(r.files))
    case PutIndex(o) =>
      if r.pending.None? then r
      else r.(durable := if o.Lost? then r.durable else r.pending.value, pending := None)
    case Restart(_, _, _) => r.(files := r.durable, pending := None)
    case _ => r
  }

  ghost function LiveAfter(s: Fs, op: Op): set<Ino> {
    Step(s, op).idx.extents.Keys
  }

  ghost predicate Accepted(s: Fs, op: Op) {
    op.Write? ==> WriteAccepted(s, op.ino, op.data, op.off, op.put)
  }

  /** One step keeps the invariant and has its effect on the bytes. */
  ghost predicate Simulates(s: Fs, op: Op) {
    && Inv(Step(s, op))
    && Abs(Step(s, op)) == FileStep(Abs(s), op, Accepted(s, op), LiveAfter(s, op))
  }

  lemma MetaSimulates(s: Fs, op: Op)
    requires Inv(s) && op.Meta?
    ensures Simulates(s, op)
  {
    if ApplyMeta(s.idx, op.meta, s.blockSize).Some? {
      MetaRetains(s.idx, op.meta, s.blockSize, FsView(s));
    } else {
      assert Retain(Abs(s).files, s.idx.extents.Keys) == Abs(s).files;
    }
  }

  lemma ChangeAttrSimulates(s: Fs, op: Op)
    requires Inv(s) && op.ChangeAttr?
    ensures Simulates(s, op)
  {
    if op.ino in s.idx.inodes {
      SetAttrResizes(s.idx, op.ino, op.change, op.now, FsView(s));
    } else {
      assert op.ino !in s.idx.extents;
    }
  }

  lemma TouchSimulates(s: Fs, op: Op)
    requires Inv(s) && op.Touch?
    ensures Simulates(s, op)
  {
    if op.ino in s.idx.inodes {
      SameDataSameFiles(s.idx, Step(s, op).idx, FsView(s));
    }
  }

  /** Fresh chunk bytes are in use by no file. */
  lemma BeyondUnused(d: IndexData, v: View, w: Extent)
    requires DataOk(d, v) && Beyond(v, w)
    ensures Unused(d, w)
  {
    forall i | i in d.extents ensures CrossSep(d.extents[i], [w]) {
      assert ListOk(d.extents[i], SizeOf(d, i), v);
    }
  }

  lemma IndexMovesOn(d: IndexData, v: View, v': View)
    requires DataOk(d, v) && GrowsUnlessEmpty(v, v')
    ensures DataOk(d, v') && Files(d, v') == Files(d, v)
  {
    GrowsKeeps(d, v, v');
    FilesSurviveView(d, v, v');
  }

  /** The chunk store moved on: every index keeps its files. */
  lemma ChunksMoveOn(s: Fs, t: Fs)
    requires Inv(s)
    requires t == s.(chunks := t.chunks, objects := t.objects)
    requires ChunkOk(t.chunks, t.objects)
    requires GrowsUnlessEmpty(FsView(s), FsView(t)) && Grows(s.objects, t.objects)
    ensures Inv(t) && Abs(t) == Abs(s)
  {
    IndexMovesOn(s.idx, FsView(s), FsView(t));
    if s.durable.Some? {
      IndexMovesOn(s.durable.value, s.objects, t.objects);
    }
    if s.remote.InHand? {
      IndexMovesOn(s.remote.data, FsView(s), FsView(t));
    }
  }

  lemma WriteLandsInIndex(d: IndexData, v: View, i: Ino, w: Extent, data: Bytes, now: int, fm: FilterMode)
    requires DataOk(d, v) && IsRegular(d, i)
    requires w.length > 0 && ReadChunk(v, w.chunkId, w.chunkOffset, w.length) == Some(data)
    requires Unused(d, w) && WriteSafe(d, i, w, fm)
    ensures i in Files(d, v) && WriteExtent(d, i, w, now, fm).Some?
    ensures var d' := WriteExtent(d, i, w, now, fm).value;
            DataOk(d', v) && Files(d', v) == Files(d, v)[i := Overlay(Files(d, v)[i], w.fileOffset, data)]
  {
    WriteExtentOverlays(d, i, w, now, fm, v);
  }

  /** Recording an extent that holds `data` overlays the data on the file. */
  lemma WriteLands(s: Fs, i: Ino, w: Extent, data: Bytes, now: int, fm: FilterMode)
    requires Inv(s) && IsRegular(s.idx, i)
    requires w.length > 0 && ReadChunk(FsView(s), w.chunkId, w.chunkOffset, w.length) == Some(data)
    requires Unused(s.idx, w) && WriteSafe(s.idx, i, w, fm)
    ensures var t := Changed(s, WriteExtent(s.idx, i, w, now, fm));
            && i in Abs(s).files
            && Inv(t)
            && Abs(t) == Abs(s).(files := Abs(s).files[i := Overlay(Abs(s).files[i], w.fileOffset, data)])
  {
    WriteLandsInIndex(s.idx, FsView(s), i, w, data, now, fm);
  }

  lemma SafeForExtent(d: IndexData, i: Ino, w: Extent, fm: FilterMode)
    requires WriteSafe(d, i, Extent("", 0, w.length, w.fileOffset), fm)
    ensures WriteSafe(d, i, w, fm)
  {
    var exts, w0 := ExtentsOf(d, i), Extent("", 0, w.length, w.fileOffset);
    if SplitsBeforeLast(exts, w) {
      var k :| 0 <= k < |exts| - 1 && Contains(exts[k], w);
      assert Contains(exts[k], w0);
    }
  }

  /** The data has been appended to the chunk, and the extent is recorded. */
  lemma AppendedLands(s: Fs, s1: Fs, op: Op)
    requires Inv(s) && Inv(s1) && op.Write? && OpOk(s, op) && IsRegular(s.idx, op.ino) && s1.idx == s.idx
    requires var r := Append(s.chunks, s.objects, op.data, op.off, op.put);
             r.result.Some? && s1.chunks == r.chunks && s1.objects == r.objects
    ensures var w := Append(s.chunks, s.objects, op.data, op.off, op.put).result.value;
            var t := Changed(s1, WriteExtent(s.idx, op.ino, w, op.now, op.fm));
            && op.ino in Abs(s1).files && Inv(t)
            && Abs(t) == Abs(s1).(files := Abs(s1).files[op.ino := Overlay(Abs(s1).files[op.ino], op.off, op.data)])
  {
    AppendKeeps(s.chunks, s.objects, op.data, op.off, op.put);
    var w := Append(s.chunks, s.objects, op.data, op.off, op.put).result.value;
    BeyondUnused(s.idx, FsView(s), w);
    SafeForExtent(s.idx, op.ino, w, op.fm);
    WriteLands(s1, op.ino, w, op.data, op.now, op.fm);
  }

  lemma WriteSimulates(s: Fs, op: Op)
    requires Inv(s) && op.Write? && OpOk(s, op)
    ensures Simulates(s, op)
  {
    var i := op.ino;
    if i in s.idx.inodes && HasRoom(s, i, op.off + |op.data|) {
      var r := Append(s.chunks, s.objects, op.data, op.off, op.put);
      AppendKeeps(s.chunks, s.objects, op.data, op.off, op.put);
      var s1 := s.(chunks := r.chunks, objects := r.objects);
      ChunksMoveOn(s, s1);
      if r.result.Some? && IsRegular(s.idx, i) {
        AppendedLands(s, s1, op);
      }
    }
  }

  lemma ChunkStepSimulates(s: Fs, op: Op)
    requires Inv(s) && (op.SealActive? || op.FlushActive?)
    ensures Simulates(s, op)
  {
    if op.SealActive? {
      SealKeeps(s.chunks, s.objects, op.put);
      SealGrows(s.chunks, s.objects, op.put);
    } else {
      FlushKeeps(s.chunks, s.objects, op.put);
    }
    ChunksMoveOn(s, Step(s, op));
  }

  lemma PutSealedSimulates(s: Fs, op: Op)
    requires Inv(s) && op.PutSealed? && OpOk(s, op)
    ensures Simulates(s, op)
  {
    CompactedHasNoSeq(op.id);
    ChunksMoveOn(s, Step(s, op));
  }

  lemma UnreferredKeeps(d: IndexData, v: View, v': View, id: string)
    requires DataOk(d, v) && !Refers(d, id)
    requires forall j | j in v && j != id :: j in v' && v'[j] == v[j]
    ensures DataOk(d, v') && Files(d, v') == Files(d, v)
  {
    forall i | i in d.extents ensures ListKept(d.extents[i], v, v') {
      assert ListOk(d.extents[i], SizeOf(d, i), v);
    }
    FilesSurviveView(d, v, v');
  }

  lemma DeleteSimulates(s: Fs, op: Op)
    requires Inv(s) && op.DeleteChunk? && OpOk(s, op)
    ensures Simulates(s, op)
  {
    var t := Step(s, op);
    UnreferredKeeps(s.idx, FsView(s), FsView(t), op.id);
    if s.durable.Some? {
      UnreferredKeeps(s.durable.value, s.objects, t.objects, op.id);
    }
    if s.remote.InHand? {
      UnreferredKeeps(s.remote.data, FsView(s), FsView(t), op.id);
    }
  }

  lemma PutIndexSimulates(s: Fs, op: Op)
    requires Inv(s) && op.PutIndex? && OpOk(s, op)
    ensures Simulates(s, op)
  {
    if s.remote.InHand? && !op.put.Lost? {
      FlushedIffStored(s, s.remote.data);
      StoredMatchesView(s.remote.data, s);
    }
  }

  /** The local steps, and clearing a flag. */
  lemma SlotSimulates(s: Fs, op: Op)
    requires Inv(s)
    requires op.TakeLocal? || op.WriteLocal? || op.MarkLocalClean? || op.MarkRemoteClean?
    ensures Simulates(s, op)
  {
    SameState(s, Step(s, op));
  }

  lemma SameState(s: Fs, t: Fs)
    requires Inv(s) && t.idx == s.idx && t.chunks == s.chunks && t.objects == s.objects && t.durable == s.durable
    requires (t.remote.InHand? <==> s.remote.InHand?) && (s.remote.InHand? ==> t.remote == s.remote)
    ensures Inv(t) && Abs(t) == Abs(s)
  {
  }

  lemma EncodeSimulates(s: Fs, op: Op)
    requires Inv(s) && op.EncodeIndex?
    ensures Simulates(s, op)
  {
  }

  /** An index reads from the store alone exactly when the active chunk is flushed as far as it uses it. */
  lemma FlushedIffStored(s: Fs, d: IndexData)
    requires DataOk(d, FsView(s))
    ensures Flushed(s, d) <==> DataOk(d, s.objects)
  {
    if Flushed(s, d) {
      forall i | i in d.extents ensures ListOk(d.extents[i], SizeOf(d, i), s.objects) {
        var exts := d.extents[i];
        assert ListOk(exts, SizeOf(d, i), FsView(s)) && ListFlushed(exts, s);
        forall k | 0 <= k < |exts| ensures InView(exts[k], s.objects) {
          assert InView(exts[k], FsView(s));
        }
      }
    } else {
      var i :| i in d.extents && !ListFlushed(d.extents[i], s);
      assert !ListOk(d.extents[i], SizeOf(d, i), s.objects);
    }
  }

  /** A clean active chunk is flushed. */
  lemma CleanIsFlushed(s: Fs)
    requires Inv(s) && !s.chunks.dirty
    ensures Flushed(s, s.idx)
  {
    forall i | i in s.idx.extents ensures ListFlushed(s.idx.extents[i], s) {
      var exts := s.idx.extents[i];
      assert ListOk(exts, SizeOf(s.idx, i), FsView(s));
      forall k | 0 <= k < |exts| && exts[k].chunkId == s.chunks.activeId
        ensures s.chunks.activeId in s.objects && exts[k].ChunkEnd() <= |s.objects[s.chunks.activeId]|
      {
        assert InView(exts[k], FsView(s));
      }
    }
  }

  /** Every acknowledged write leaves the index unflushed. */
  lemma WriteUnflushes(s: Fs, op: Op)
    requires Inv(s) && op.Write? && OpOk(s, op) && Accepted(s, op)
    ensures !Flushed(Step(s, op), Step(s, op).idx)
  {
    var i := op.ino;
    var r := Append(s.chunks, s.objects, op.data, op.off, op.put);
    AppendKeeps(s.chunks, s.objects, op.data, op.off, op.put);
    AppendUnstored(s.chunks, s.objects, op.data, op.off, op.put);
    var t, w := Step(s, op), r.result.value;
    SafeForExtent(s.idx, i, w, op.fm);
    var exts := WriteList(ExtentsOf(s.idx, i), w, op.fm);
    assert t.idx.extents[i] == exts && exts[|exts| - 1] == w;
    assert !ListFlushed(exts, t);
  }

  lemma AppendUnstored(c: ChunkState, objs: View, data: Bytes, off: nat, o: PutOutcome)
    requires ChunkOk(c, objs) && data != []
    requires Append(c, objs, data, off, o).result.Some?
    ensures var r := Append(c, objs, data, off, o);
            var w := r.result.value;
            w.chunkId == r.chunks.activeId && (w.chunkId in r.objects ==> |r.objects[w.chunkId]| < w.ChunkEnd())
  {
    SealKeeps(c, objs, o);
  }

  /** An index readable from the store alone reads there as it does through the active buffer. */
  lemma StoredMatchesView(d: IndexData, s: Fs)
    requires ChunkOk(s.chunks, s.objects) && DataOk(d, s.objects)
    ensures DataOk(d, FsView(s)) && Files(d, FsView(s)) == Files(d, s.objects)
  {
    assert Grows(s.objects, FsView(s));
    GrowsKeeps(d, s.objects, FsView(s));
    FilesSurviveView(d, s.objects, FsView(s));
  }

  lemma RestartSimulates(s: Fs, op: Op)
    requires Inv(s) && op.Restart? && OpOk(s, op)
    ensures Simulates(s, op)
  {
    RecoverKeeps(op.config.maxChunk, s.objects, op.ids);
    var t := Step(s, op);
    if s.durable.Some? {
      StoredMatchesView(s.durable.value, t);
    } else {
      assert t.idx.extents == map[];
    }
  }

  lemma RemapSimulates(s: Fs, op: Op)
    requires Inv(s) && op.Remap? && OpOk(s, op)
    ensures Simulates(s, op)
  {
    RemapKeepsFiles(s.idx, op.table, FsView(s));
  }

  /** Every operation, with every outcome of the store, keeps the invariant and has its effect on the bytes. */
  lemma StepSimulates(s: Fs, op: Op)
    requires Inv(s) && OpOk(s, op)
    ensures Simulates(s, op)
  {
    match op
    case Meta(_) => MetaSimulates(s, op);
    case ChangeAttr(_, _, _) => ChangeAttrSimulates(s, op);
    case Touch(_, _) => TouchSimulates(s, op);
    case Write(_, _, _, _, _, _) => WriteSimulates(s, op);
    case SealActive(_) => ChunkStepSimulates(s, op);
    case FlushActive(_) => ChunkStepSimulates(s, op);
    case TakeLocal => SlotSimulates(s, op);
    case WriteLocal(_) => SlotSimulates(s, op);
    case MarkLocalClean => SlotSimulates(s, op);
    case EncodeIndex => EncodeSimulates(s, op);
    case PutIndex(_) => PutIndexSimulates(s, op);
    case MarkRemoteClean => SlotSimulates(s, op);
    case PutSealed(_, _, _) => PutSealedSimulates(s, op);
    case Remap(_) => RemapSimulates(s, op);
    case DeleteChunk(_, _) => DeleteSimulates(s, op);
    case Restart(_, _, _) => RestartSimulates(s, op);
  }

  // ---- Whole runs ----

  ghost function Run(s: Fs, ops: seq<Op>): Fs
    decreases |ops|
  {
    if ops == [] then s else Run(Step(s, ops[0]), ops[1..])
  }

  ghost predicate RunOk(s: Fs, ops: seq<Op>)
    decreases |ops|
  {
    ops == [] || (OpOk(s, ops[0]) && RunOk(Step(s, ops[0]), ops[1..]))
  }

  lemma {:induction false} RunKeeps(s: Fs, ops: seq<Op>)
    requires Inv(s) && RunOk(s, ops)
    ensures Inv(Run(s, ops))
    decreases |ops|
  {
    if ops == [] {
    } else {
      StepSimulates(s, ops[0]);
      RunKeeps(Step(s, ops[0]), ops[1..]);
    }
  }

  lemma MountInv(c: Config, now: int)
    ensures var s := Mount(c, now);
            Inv(s) && Abs(s) == Seen(map[], map[], None)
  {
  }
}
