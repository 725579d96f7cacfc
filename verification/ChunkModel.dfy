/**
 The chunk store as a value: one active chunk buffered in memory and a map of
 stored objects.  A put may fail, and a put that reports failure may still have
 reached the store.
 */
module ChunkModel {
  import opened Base
  import opened Extents
  import opened ChunkIds

  /** What came of one put: done, failed without effect, or failed after taking effect. */
  datatype PutOutcome = Stored | Lost | StoredButFailed

  function Landed(objs: View, id: string, data: Bytes, o: PutOutcome): View {
    if o.Lost? then objs else objs[id := data]
  }

  datatype ChunkState = ChunkState(activeId: string, buf: Bytes, dirty: bool, nextSeq: nat, maxSize: nat)

  /** What reads see: the stored objects, with the active chunk served from its buffer. */
  function ViewOf(c: ChunkState, objs: View): View {
    objs[c.activeId := c.buf]
  }

  function NewChunks(maxSize: nat): ChunkState {
    ChunkState(ChunkId(0), [], false, 1, maxSize)
  }

  /** `RecoverNextSeq` over a listing of the store. */
  function Recovered(c: ChunkState, ids: seq<string>): ChunkState {
    if MaxSeq(ids) < 0 then c
    else c.(activeId := ChunkId(MaxSeq(ids) + 1), nextSeq := MaxSeq(ids) + 2)
  }

  datatype ChunkStep = ChunkStep(chunks: ChunkState, objects: View, ok: bool)

  function Seal(c: ChunkState, objs: View, o: PutOutcome): ChunkStep {
    var rotated := c.(activeId := ChunkId(c.nextSeq), nextSeq := c.nextSeq + 1);
    if c.buf == [] then ChunkStep(rotated, objs, true)
    else
      var objs' := Landed(objs, c.activeId, c.buf, o);
      if o.Stored? then ChunkStep(rotated.(buf := [], dirty := false), objs', true)
      else ChunkStep(c, objs', false)
  }

  function Flush(c: ChunkState, objs: View, o: PutOutcome): ChunkStep {
    if !c.dirty then ChunkStep(c, objs, true)
    else
      var objs' := Landed(objs, c.activeId, c.buf, o);
      if o.Stored? then ChunkStep(c.(dirty := false), objs', true) else ChunkStep(c, objs', false)
  }

  datatype AppendStep = AppendStep(chunks: ChunkState, objects: View, result: Option<Extent>)

  function Append(c: ChunkState, objs: View, data: Bytes, fileOffset: nat, o: PutOutcome): AppendStep {
    if |data| > c.maxSize then AppendStep(c, objs, None)
    else
      var r := if |c.buf| + |data| > c.maxSize then Seal(c, objs, o) else ChunkStep(c, objs, true);
      if !r.ok then AppendStep(r.chunks, r.objects, None)
      else
        var c1 := r.chunks;
        AppendStep(c1.(buf := c1.buf + data, dirty := true), r.objects,
                   Some(Extent(c1.activeId, |c1.buf|, |data|, fileOffset)))
  }

  /** A read of `len` bytes at `off` of one chunk; out of bounds is an error. */
  function ReadChunk(v: View, id: string, off: nat, len: nat): Option<Bytes> {
    if id in v && off + len <= |v[id]| then Some(v[id][off..off + len]) else None
  }

  // ---- The invariant of the store ----

  ghost predicate FutureFresh(c: ChunkState, objs: View) {
    forall n: nat | n >= c.nextSeq :: ChunkId(n) !in objs
  }

  /**
   The active chunk is the latest issued, fits its limit, and its stored copy, if
   any, is a prefix of the buffer, equal to it when the buffer is clean.
   */
  ghost predicate ChunkOk(c: ChunkState, objs: View) {
    && c.nextSeq > 0 && c.activeId == ChunkId(c.nextSeq - 1)
    && |c.buf| <= c.maxSize
    && FutureFresh(c, objs)
    && (c.activeId in objs ==> objs[c.activeId] <= c.buf)
    && (!c.dirty && c.buf != [] ==> c.activeId in objs && objs[c.activeId] == c.buf)
  }

  /** Every object other than the active one is as it was. */
  predicate SealedKept(c: ChunkState, objs: View, objs': View) {
    forall id | id in objs && id != c.activeId :: id in objs' && objs'[id] == objs[id]
  }

  lemma FreshActive(c: ChunkState, n: nat)
    requires c.nextSeq > 0 && c.activeId == ChunkId(c.nextSeq - 1) && n >= c.nextSeq
    ensures ChunkId(n) != c.activeId
  {
    if ChunkId(n) == c.activeId {
      ChunkIdInjective(n, c.nextSeq - 1);
    }
  }

  lemma LandedKeeps(c: ChunkState, objs: View, o: PutOutcome)
    requires ChunkOk(c, objs)
    ensures var objs' := Landed(objs, c.activeId, c.buf, o);
            && FutureFresh(c, objs')
            && Grows(objs, objs') && SealedKept(c, objs, objs')
            && Grows(ViewOf(c, objs), ViewOf(c, objs'))
            && (c.activeId in objs' ==> objs'[c.activeId] <= c.buf)
  {
    forall n: nat | n >= c.nextSeq ensures ChunkId(n) !in Landed(objs, c.activeId, c.buf, o) {
      FreshActive(c, n);
    }
  }

  /** Sealing loses no byte and changes no sealed object, whatever the store does. */
  lemma SealKeeps(c: ChunkState, objs: View, o: PutOutcome)
    requires ChunkOk(c, objs)
    ensures var r := Seal(c, objs, o);
            && ChunkOk(r.chunks, r.objects)
            && Grows(objs, r.objects) && SealedKept(c, objs, r.objects)
            && (c.buf != [] ==> Grows(ViewOf(c, objs), ViewOf(r.chunks, r.objects)))
            && (r.ok ==> r.chunks.buf == [] && r.chunks.activeId != c.activeId)
            && (r.ok && c.buf != [] ==> c.activeId in r.objects && r.objects[c.activeId] == c.buf)
            && r.chunks.maxSize == c.maxSize
  {
    LandedKeeps(c, objs, o);
    FreshActive(c, c.nextSeq);
    var r := Seal(c, objs, o);
    if r.ok {
      forall n: nat | n >= r.chunks.nextSeq ensures ChunkId(n) !in r.objects {
      }
    }
  }

  /** Flushing makes the stored copy of the active chunk complete, or leaves it a prefix. */
  lemma FlushKeeps(c: ChunkState, objs: View, o: PutOutcome)
    requires ChunkOk(c, objs)
    ensures var r := Flush(c, objs, o);
            && ChunkOk(r.chunks, r.objects)
            && Grows(objs, r.objects) && SealedKept(c, objs, r.objects)
            && ViewOf(r.chunks, r.objects) == ViewOf(c, objs)
            && (r.ok ==> !r.chunks.dirty)
  {
    LandedKeeps(c, objs, o);
  }

  /** Every extent in use in the view avoids `w`: its chunk was no longer than where `w` starts. */
  predicate Beyond(v: View, w: Extent) {
    w.chunkId in v ==> |v[w.chunkId]| <= w.chunkOffset
  }

  lemma SealGrows(c: ChunkState, objs: View, o: PutOutcome)
    requires ChunkOk(c, objs)
    ensures var r := Seal(c, objs, o);
            GrowsUnlessEmpty(ViewOf(c, objs), ViewOf(r.chunks, r.objects))
  {
    SealKeeps(c, objs, o);
    var r := Seal(c, objs, o);
    if c.buf == [] {
      forall id | id in ViewOf(c, objs) && ViewOf(c, objs)[id] != []
        ensures id in ViewOf(r.chunks, r.objects) && ViewOf(c, objs)[id] <= ViewOf(r.chunks, r.objects)[id]
      {
        assert id != c.activeId && id in objs;
        assert id != r.chunks.activeId;
      }
    }
  }

  lemma AppendAfterRotate(c: ChunkState, objs: View, data: Bytes)
    requires ChunkOk(c, objs)
    requires |c.buf| + |data| <= c.maxSize
    ensures var c' := c.(buf := c.buf + data, dirty := true);
            && ChunkOk(c', objs)
            && Grows(ViewOf(c, objs), ViewOf(c', objs))
            && ReadChunk(ViewOf(c', objs), c.activeId, |c.buf|, |data|) == Some(data)
  {
    assert (c.buf + data)[|c.buf|..|c.buf| + |data|] == data;
  }

  /**
   A successful append stores exactly its data in bytes no extent can be using,
   and no append, failed or not, changes a byte that was readable.
   */
  lemma AppendKeeps(c: ChunkState, objs: View, data: Bytes, fileOffset: nat, o: PutOutcome)
    requires ChunkOk(c, objs)
    ensures var r := Append(c, objs, data, fileOffset, o);
            var v, v' := ViewOf(c, objs), ViewOf(r.chunks, r.objects);
            && ChunkOk(r.chunks, r.objects)
            && Grows(objs, r.objects) && SealedKept(c, objs, r.objects)
            && GrowsUnlessEmpty(v, v')
            && r.chunks.maxSize == c.maxSize
            && (r.result.Some? ==>
                var w := r.result.value;
                && w.fileOffset == fileOffset && w.length == |data|
                && ReadChunk(v', w.chunkId, w.chunkOffset, w.length) == Some(data)
                && Beyond(v, w))
  {
    SealKeeps(c, objs, o);
    SealGrows(c, objs, o);
    var r := Append(c, objs, data, fileOffset, o);
    if |data| <= c.maxSize {
      var r0 := if |c.buf| + |data| > c.maxSize then Seal(c, objs, o) else ChunkStep(c, objs, true);
      if r0.ok {
        AppendAfterRotate(r0.chunks, r0.objects, data);
        if |c.buf| + |data| > c.maxSize {
          assert r0.chunks.activeId !in ViewOf(c, objs) by {
            FreshActive(c, c.nextSeq);
          }
        }
      }
    }
  }

  /**
   An append fails exactly if its data is larger than a chunk, or a rotation it
   needs cannot store the buffer; and it rotates exactly if the data does not fit.
   */
  lemma AppendPlaces(c: ChunkState, objs: View, data: Bytes, fileOffset: nat, o: PutOutcome)
    requires ChunkOk(c, objs)
    ensures var r := Append(c, objs, data, fileOffset, o);
            var fits := |c.buf| + |data| <= c.maxSize;
            && (r.result.None? <==> |data| > c.maxSize || (!fits && c.buf != [] && !o.Stored?))
            && (r.result.Some? ==>
                && (r.result.value.chunkId == c.activeId <==> fits)
                && r.result.value.chunkOffset == (if fits then |c.buf| else 0)
                && r.chunks.buf == (if fits then c.buf else []) + data)
  {
    SealKeeps(c, objs, o);
    FreshActive(c, c.nextSeq);
  }

  /**
   Two appends in a row get the same remap key if and only if the first one was
   empty and the second needed no rotation.
   */
  lemma ConsecutiveKeysIff(c: ChunkState, objs: View, d1: Bytes, d2: Bytes, off1: nat, off2: nat, o1: PutOutcome,
                           o2: PutOutcome)
    requires ChunkOk(c, objs) && Append(c, objs, d1, off1, o1).result.Some?
    requires var r1 := Append(c, objs, d1, off1, o1); Append(r1.chunks, r1.objects, d2, off2, o2).result.Some?
    ensures var r1 := Append(c, objs, d1, off1, o1);
            var r2 := Append(r1.chunks, r1.objects, d2, off2, o2);
            r1.result.value.Key() == r2.result.value.Key() <==> d1 == [] && |r1.chunks.buf| + |d2| <= c.maxSize
  {
    AppendKeeps(c, objs, d1, off1, o1);
    var r1 := Append(c, objs, d1, off1, o1);
    SealKeeps(r1.chunks, r1.objects, o2);
  }

  /** After start-up over the whole listing, nothing stored is aliased by the active chunk. */
  lemma RecoverKeeps(maxSize: nat, objs: View, ids: seq<string>)
    requires forall id :: id in objs <==> id in ids
    requires !HasWideSeq(ids)
    ensures var c := Recovered(NewChunks(maxSize), ids);
            ChunkOk(c, objs) && c.activeId !in objs && c.buf == []
  {
    RecoveredIdsFreshIff(ids);
    var c := Recovered(NewChunks(maxSize), ids);
    assert c.activeId == ChunkId(RecoveredSeq(ids));
  }

  /** Start-up goes past every number it scanned, and past no more: the one before the active chunk's was listed. */
  lemma RecoveredTight(maxSize: nat, ids: seq<string>)
    ensures var c := Recovered(NewChunks(maxSize), ids);
            && c.nextSeq > 0 && c.activeId == ChunkId(c.nextSeq - 1)
            && (forall i | 0 <= i < |ids| && ScanSeq(ids[i]).Some? :: ScanSeq(ids[i]).value < c.nextSeq - 1)
            && (c.nextSeq > 1 ==> exists i :: 0 <= i < |ids| && ScanSeq(ids[i]) == Some(c.nextSeq - 2))
  {
    MaxSeqListed(ids);
    forall i | 0 <= i < |ids| && ScanSeq(ids[i]).Some? ensures ScanSeq(ids[i]).value <= MaxSeq(ids) {
      MaxSeqBounds(ids, i);
    }
  }

  // ---- Whole runs of the store ----

  datatype ChunkOp =
    | DoAppend(data: Bytes, fileOffset: nat, put: PutOutcome)
    | DoSeal(put: PutOutcome)
    | DoFlush(put: PutOutcome)
    | DoPutSealed(id: string, bytes: Bytes, put: PutOutcome)
    | DoDelete(id: string)

  datatype Chunks = Chunks(state: ChunkState, objects: View)

  function StepChunks(s: Chunks, op: ChunkOp): Chunks {
    match op
    case DoAppend(data, off, o) => var r := Append(s.state, s.objects, data, off, o); Chunks(r.chunks, r.objects)
    case DoSeal(o) => var r := Seal(s.state, s.objects, o); Chunks(r.chunks, r.objects)
    case DoFlush(o) => var r := Flush(s.state, s.objects, o); Chunks(r.chunks, r.objects)
    case DoPutSealed(id, bytes, o) => s.(objects := Landed(s.objects, id, bytes, o))
    case DoDelete(id) => s.(objects := s.objects - {id})
  }

  /** The compactor writes only under names nobody has used, and deletes only sealed chunks. */
  ghost predicate ChunkOpOk(s: Chunks, op: ChunkOp) {
    && (op.DoPutSealed? ==> COMPACTED_PREFIX <= op.id && op.id !in s.objects)
    && (op.DoDelete? ==> op.id != s.state.activeId)
  }

  function RunChunks(s: Chunks, ops: seq<ChunkOp>): Chunks
    decreases |ops|
  {
    if ops == [] then s else RunChunks(StepChunks(s, ops[0]), ops[1..])
  }

  ghost predicate RunChunksOk(s: Chunks, ops: seq<ChunkOp>)
    decreases |ops|
  {
    ops == [] || (ChunkOpOk(s, ops[0]) && RunChunksOk(StepChunks(s, ops[0]), ops[1..]))
  }

  predicate NeverDeletes(ops: seq<ChunkOp>, id: string) {
    forall i | 0 <= i < |ops| :: ops[i] != DoDelete(id)
  }

  lemma StepChunksKeeps(s: Chunks, op: ChunkOp)
    requires ChunkOk(s.state, s.objects) && ChunkOpOk(s, op)
    ensures var t := StepChunks(s, op);
            var v, v' := ViewOf(s.state, s.objects), ViewOf(t.state, t.objects);
            && ChunkOk(t.state, t.objects)
            && (forall id | id in v && v[id] != [] && op != DoDelete(id) :: id in v' && v[id] <= v'[id])
            && (forall id | id in s.objects && id != s.state.activeId && op != DoDelete(id) ::
                  id in t.objects && t.objects[id] == s.objects[id])
  {
    var c, objs := s.state, s.objects;
    match op {
      case DoAppend(data, off, o) => AppendKeeps(c, objs, data, off, o);
      case DoSeal(o) => SealKeeps(c, objs, o); SealGrows(c, objs, o);
      case DoFlush(o) => FlushKeeps(c, objs, o);
      case DoPutSealed(id, bytes, o) => CompactedHasNoSeq(id);
      case DoDelete(id) =>
    }
  }

  lemma PrefixReads(v: View, v': View, id: string, off: nat, len: nat)
    requires ReadChunk(v, id, off, len).Some?
    requires id in v' && v[id] <= v'[id]
    ensures ReadChunk(v', id, off, len) == ReadChunk(v, id, off, len)
  {
    assert v'[id][off..off + len] == v[id][off..off + len];
  }

  /** Over any run, bytes once readable stay readable and unchanged until their chunk is deleted. */
  lemma {:induction false} RunChunksKeeps(s: Chunks, ops: seq<ChunkOp>, id: string, off: nat, len: nat)
    requires ChunkOk(s.state, s.objects) && RunChunksOk(s, ops)
    requires len > 0 && ReadChunk(ViewOf(s.state, s.objects), id, off, len).Some?
    requires NeverDeletes(ops, id)
    ensures var t := RunChunks(s, ops);
            && ChunkOk(t.state, t.objects)
            && ReadChunk(ViewOf(t.state, t.objects), id, off, len) ==
               ReadChunk(ViewOf(s.state, s.objects), id, off, len)
    decreases |ops|
  {
    if ops == [] {
    } else {
      StepChunksKeeps(s, ops[0]);
      assert ops[0] != DoDelete(id);
      var t := StepChunks(s, ops[0]);
      PrefixReads(ViewOf(s.state, s.objects), ViewOf(t.state, t.objects), id, off, len);
      RunChunksKeeps(StepChunks(s, ops[0]), ops[1..], id, off, len);
    }
  }

  /** What an append returned reads back as its data after any later run that does not delete its chunk. */
  lemma AppendReadsBack(s: Chunks, data: Bytes, fileOffset: nat, o: PutOutcome, ops: seq<ChunkOp>)
    requires ChunkOk(s.state, s.objects) && data != []
    requires Append(s.state, s.objects, data, fileOffset, o).result.Some?
    requires RunChunksOk(StepChunks(s, DoAppend(data, fileOffset, o)), ops)
    requires NeverDeletes(ops, Append(s.state, s.objects, data, fileOffset, o).result.value.chunkId)
    ensures var w := Append(s.state, s.objects, data, fileOffset, o).result.value;
            var t := RunChunks(StepChunks(s, DoAppend(data, fileOffset, o)), ops);
            ReadChunk(ViewOf(t.state, t.objects), w.chunkId, w.chunkOffset, w.length) == Some(data)
  {
    AppendKeeps(s.state, s.objects, data, fileOffset, o);
    var w := Append(s.state, s.objects, data, fileOffset, o).result.value;
    RunChunksKeeps(StepChunks(s, DoAppend(data, fileOffset, o)), ops, w.chunkId, w.chunkOffset, w.length);
  }

  /** The active chunk changes only to an ID that nothing stored had. */
  lemma ActiveStaysFresh(s: Chunks, op: ChunkOp)
    requires ChunkOk(s.state, s.objects) && ChunkOpOk(s, op)
    ensures var t := StepChunks(s, op);
            t.state.activeId == s.state.activeId || t.state.activeId !in s.objects
  {
    assert ChunkId(s.state.nextSeq) !in s.objects;
  }

  /** Over any run, an object that is sealed, that is stored and not active, never changes until deleted. */
  lemma {:induction false} SealedNeverChanges(s: Chunks, ops: seq<ChunkOp>, id: string)
    requires ChunkOk(s.state, s.objects) && RunChunksOk(s, ops)
    requires id in s.objects && id != s.state.activeId
    requires NeverDeletes(ops, id)
    ensures var t := RunChunks(s, ops);
            id in t.objects && t.objects[id] == s.objects[id] && id != t.state.activeId
    decreases |ops|
  {
    if ops == [] {
    } else {
      StepChunksKeeps(s, ops[0]);
      var t := StepChunks(s, ops[0]);
      assert ops[0] != DoDelete(id);
      assert id != t.state.activeId by {
        ActiveStaysFresh(s, ops[0]);
      }
      SealedNeverChanges(t, ops[1..], id);
    }
  }
}
