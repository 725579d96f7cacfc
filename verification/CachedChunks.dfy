/**
 The chunk store with its cache: every run of the store drives the cache through
 seals and deletions, interleaved in every way with any number of readers.  What
 a cached read answers is what the store's view held when the read began.
 */
module CachedChunks {
  import opened Base
  import opened Extents
  import opened ChunkIds
  import opened ChunkModel
  import opened InPlaceFilter
  import opened IndexModel
  import opened FileData
  import Cache

  datatype Joint = Joint(chunks: Chunks, cache: Cache.State)

  /** What is stored and not active: what the cache may be asked for. */
  function SealedOf(c: Chunks): View {
    c.objects - {c.state.activeId}
  }

  /** No ID that is active or yet to be issued was ever sealed. */
  ghost predicate HeldOk(c: ChunkState, held: map<string, Bytes>) {
    c.activeId !in held && forall n: nat | n >= c.nextSeq :: ChunkId(n) !in held
  }

  ghost predicate JointInv(j: Joint) {
    && ChunkOk(j.chunks.state, j.chunks.objects)
    && Cache.Inv(j.cache)
    && j.cache.store == SealedOf(j.chunks)
    && HeldOk(j.chunks.state, j.cache.held)
  }

  // ---- Between reads ----

  /** The cache while nobody reads. */
  function AtRest(c: Chunks, held: map<string, Bytes>, files: map<string, Bytes>): Joint {
    Joint(c, Cache.State(held, SealedOf(c), files, map[], [], map[]))
  }

  /** What was sealed under an ID is what is stored under it, and what is cached under it has no other byte. */
  ghost predicate CacheOk(c: Chunks, held: map<string, Bytes>, files: map<string, Bytes>) {
    && HeldOk(c.state, held)
    && (forall id | id in c.objects && id != c.state.activeId :: id in held && c.objects[id] == held[id])
    && (forall id | id in files :: if id in held then Cache.Agree(files[id], held[id]) else files[id] == [])
  }

  lemma AtRestInv(c: Chunks, held: map<string, Bytes>, files: map<string, Bytes>)
    ensures JointInv(AtRest(c, held, files)) <==> ChunkOk(c.state, c.objects) && CacheOk(c, held, files)
  {
  }

  // ---- What the store does to the cache ----

  /** A rotation seals the active chunk if it is stored. */
  function Rotation(c: ChunkState, objs: View, o: PutOutcome, cached: bool): Option<Cache.Action> {
    if c.buf != [] then if o.Stored? then Some(Cache.Seal(c.activeId, c.buf, cached)) else None
    else if c.activeId in objs then Some(Cache.Seal(c.activeId, objs[c.activeId], false)) else None
  }

  /** `cached` says whether the best-effort put to the cache directory works. */
  function Induced(s: Chunks, op: ChunkOp, cached: bool): Option<Cache.Action> {
    match op
    case DoAppend(data, _, o) =>
      if |data| <= s.state.maxSize < |s.state.buf| + |data| then Rotation(s.state, s.objects, o, cached) else None
    case DoSeal(o) => Rotation(s.state, s.objects, o, cached)
    case DoFlush(_) => None
    case DoPutSealed(id, bytes, o) => if o.Lost? then None else Some(Cache.Seal(id, bytes, false))
    case DoDelete(id) => Some(Cache.Drop(id))
  }

  datatype JointOp = Chunk(op: ChunkOp, cached: bool) | Reader(act: Cache.Action)

  /** The compactor's names were never used before; a reader does what a reader may. */
  ghost predicate JointOpOk(j: Joint, op: JointOp) {
    match op
    case Chunk(c, _) => ChunkOpOk(j.chunks, c) && (c.DoPutSealed? ==> c.id !in j.cache.held)
    case Reader(a) => (a.Spawn? || a.Act? || a.Cancel?) && Cache.Enabled(j.cache, a)
  }

  function Applied(c: Cache.State, a: Option<Cache.Action>): Cache.State {
    if a.Some? && Cache.Enabled(c, a.value) then Cache.Step(c, a.value) else c
  }

  function StepJoint(j: Joint, op: JointOp): Joint {
    match op
    case Chunk(c, cached) => Joint(StepChunks(j.chunks, c), Applied(j.cache, Induced(j.chunks, c, cached)))
    case Reader(a) => j.(cache := Applied(j.cache, Some(a)))
  }

  /** Every seal and every deletion that the store performs is one that the cache allows for. */
  lemma InducedEnabled(j: Joint, op: ChunkOp, cached: bool)
    requires JointInv(j) && JointOpOk(j, Chunk(op, cached))
    ensures var a := Induced(j.chunks, op, cached); a.Some? ==> Cache.Enabled(j.cache, a.value)
  {
  }

  /** The rotation leaves stored and sealed exactly what it sealed, beside what was. */
  lemma RotationSeals(c: ChunkState, objs: View, o: PutOutcome, cached: bool)
    requires ChunkOk(c, objs)
    ensures var r := Seal(c, objs, o);
            var a := Rotation(c, objs, o, cached);
            SealedOf(Chunks(r.chunks, r.objects)) ==
            if a.Some? then SealedOf(Chunks(c, objs))[a.value.id := a.value.data] else SealedOf(Chunks(c, objs))
  {
    SealKeeps(c, objs, o);
    var r := Seal(c, objs, o);
    if r.ok {
      assert r.chunks.activeId !in objs;
    }
  }

  lemma AppendSeals(s: Chunks, data: Bytes, off: nat, o: PutOutcome, cached: bool)
    requires ChunkOk(s.state, s.objects)
    ensures var t := StepChunks(s, DoAppend(data, off, o));
            var a := Induced(s, DoAppend(data, off, o), cached);
            SealedOf(t) == if a.Some? then SealedOf(s)[a.value.id := a.value.data] else SealedOf(s)
  {
    RotationSeals(s.state, s.objects, o, cached);
  }

  /** What each operation does to the sealed objects is what the action it induces does to the cache's store. */
  lemma InducedStore(j: Joint, op: ChunkOp, cached: bool)
    requires JointInv(j) && JointOpOk(j, Chunk(op, cached))
    ensures StepJoint(j, Chunk(op, cached)).cache.store == SealedOf(StepChunks(j.chunks, op))
  {
    InducedEnabled(j, op, cached);
    match op
    case DoAppend(data, off, o) => AppendSeals(j.chunks, data, off, o, cached);
    case DoSeal(o) => RotationSeals(j.chunks.state, j.chunks.objects, o, cached);
    case DoFlush(_) =>
    case DoPutSealed(id, bytes, o) => PutSealedStore(j.chunks, id, bytes, o);
    case DoDelete(_) =>
  }

  lemma PutSealedStore(s: Chunks, id: string, bytes: Bytes, o: PutOutcome)
    requires ChunkOk(s.state, s.objects) && COMPACTED_PREFIX <= id
    ensures SealedOf(StepChunks(s, DoPutSealed(id, bytes, o))) ==
            if o.Lost? then SealedOf(s) else SealedOf(s)[id := bytes]
  {
    CompactedHasNoSeq(id);
  }

  /** What a rotation leaves held, and what in the cache directory. */
  function HeldAfter(c: Chunks, held: map<string, Bytes>, o: PutOutcome): map<string, Bytes> {
    var a := Rotation(c.state, c.objects, o, false);
    if a.Some? then held[a.value.id := a.value.data] else held
  }

  function FilesAfter(c: Chunks, files: map<string, Bytes>, o: PutOutcome, cached: bool): map<string, Bytes> {
    if c.state.buf != [] && o.Stored? && cached then files[c.state.activeId := c.state.buf] else files
  }

  /** Sealing with nobody reading. */
  lemma SealedAtRest(c: Chunks, held: map<string, Bytes>, files: map<string, Bytes>, o: PutOutcome, cached: bool)
    requires ChunkOk(c.state, c.objects) && CacheOk(c, held, files)
    ensures var t := StepChunks(c, DoSeal(o));
            var held', files' := HeldAfter(c, held, o), FilesAfter(c, files, o, cached);
            && ChunkOk(t.state, t.objects) && CacheOk(t, held', files')
            && StepJoint(AtRest(c, held, files), Chunk(DoSeal(o), cached)) == AtRest(t, held', files')
  {
    var j := AtRest(c, held, files);
    AtRestInv(c, held, files);
    InducedEnabled(j, DoSeal(o), cached);
    ChunkStepKeeps(j, DoSeal(o), cached);
    var u := StepJoint(j, Chunk(DoSeal(o), cached));
    AtRestInv(u.chunks, u.cache.held, u.cache.files);
  }

  /** An append is the rotation that it needs, and then more bytes in the buffer. */
  lemma AppendIsSeal(j: Joint, data: Bytes, off: nat, o: PutOutcome, cached: bool)
    requires |data| <= j.chunks.state.maxSize
    ensures var rotates := |j.chunks.state.buf| + |data| > j.chunks.state.maxSize;
            var j1 := if rotates then StepJoint(j, Chunk(DoSeal(o), cached)) else j;
            var c := j1.chunks.state;
            StepJoint(j, Chunk(DoAppend(data, off, o), cached)) ==
            if Append(j.chunks.state, j.chunks.objects, data, off, o).result.None? then j1
            else j1.(chunks := j1.chunks.(state := c.(buf := c.buf + data, dirty := true)))
  {
  }

  /** More bytes in the buffer concern the cache in nothing. */
  lemma BufferAtRest(c: Chunks, held: map<string, Bytes>, files: map<string, Bytes>, buf: Bytes)
    ensures var c' := c.(state := c.state.(buf := buf, dirty := true));
            && AtRest(c', held, files) == AtRest(c, held, files).(chunks := c')
            && (CacheOk(c, held, files) ==> CacheOk(c', held, files))
  {
  }

  /** A chunk put under a name never used before. */
  lemma PutAtRest(c: Chunks, held: map<string, Bytes>, files: map<string, Bytes>, id: string, data: Bytes,
                  o: PutOutcome)
    requires ChunkOk(c.state, c.objects) && CacheOk(c, held, files)
    requires COMPACTED_PREFIX <= id && id !in c.objects && id !in held
    ensures var t := c.(objects := Landed(c.objects, id, data, o));
            var held' := if o.Lost? then held else held[id := data];
            && ChunkOk(t.state, t.objects) && CacheOk(t, held', files)
            && StepJoint(AtRest(c, held, files), Chunk(DoPutSealed(id, data, o), false)) == AtRest(t, held', files)
  {
    var j := AtRest(c, held, files);
    AtRestInv(c, held, files);
    ChunkStepKeeps(j, DoPutSealed(id, data, o), false);
    var u := StepJoint(j, Chunk(DoPutSealed(id, data, o), false));
    AtRestInv(u.chunks, u.cache.held, u.cache.files);
  }

  /** An operation seals only under the active ID or a compactor's name, and then the active ID moves on. */
  lemma InducedHeld(j: Joint, op: ChunkOp, cached: bool)
    requires JointInv(j) && JointOpOk(j, Chunk(op, cached))
    ensures HeldOk(StepChunks(j.chunks, op).state, StepJoint(j, Chunk(op, cached)).cache.held)
  {
    var c := j.chunks.state;
    InducedEnabled(j, op, cached);
    if op.DoPutSealed? {
      CompactedHasNoSeq(op.id);
    } else if op.DoAppend? || op.DoSeal? {
      HeldMovesOn(c, j.cache.held, StepJoint(j, Chunk(op, cached)).cache.held);
    }
  }

  /** The active ID may be sealed once the active chunk has moved on. */
  lemma HeldMovesOn(c: ChunkState, held: map<string, Bytes>, held': map<string, Bytes>)
    requires c.nextSeq > 0 && c.activeId == ChunkId(c.nextSeq - 1) && HeldOk(c, held)
    requires forall id | id in held' :: id in held || id == c.activeId
    ensures ChunkId(c.nextSeq) !in held' && forall n: nat | n >= c.nextSeq + 1 :: ChunkId(n) !in held'
  {
    forall n: nat | n >= c.nextSeq ensures ChunkId(n) !in held' {
      FreshActive(c, n);
    }
  }

  lemma ChunkStepKeeps(j: Joint, op: ChunkOp, cached: bool)
    requires JointInv(j) && JointOpOk(j, Chunk(op, cached))
    ensures JointInv(StepJoint(j, Chunk(op, cached)))
  {
    StepChunksKeeps(j.chunks, op);
    InducedEnabled(j, op, cached);
    InducedStore(j, op, cached);
    InducedHeld(j, op, cached);
    var a := Induced(j.chunks, op, cached);
    if a.Some? {
      Cache.StepKeeps(j.cache, a.value);
    }
  }

  lemma ReaderKeepsStore(c: Cache.State, a: Cache.Action)
    requires Cache.Enabled(c, a) && (a.Spawn? || a.Act? || a.Cancel?)
    ensures Cache.Step(c, a).store == c.store && Cache.Step(c, a).held == c.held
  {
    if a.Act? {
      Cache.ReaderLeavesStore(c, a.t, a.ok);
    }
  }

  lemma JointStepKeeps(j: Joint, op: JointOp)
    requires JointInv(j) && JointOpOk(j, op)
    ensures JointInv(StepJoint(j, op))
  {
    if op.Chunk? {
      ChunkStepKeeps(j, op.op, op.cached);
    } else {
      Cache.StepKeeps(j.cache, op.act);
      ReaderKeepsStore(j.cache, op.act);
    }
  }

  // ---- Every interleaving ----

  function RunJoint(j: Joint, ops: seq<JointOp>): Joint
    decreases |ops|
  {
    if ops == [] then j else RunJoint(StepJoint(j, ops[0]), ops[1..])
  }

  ghost predicate RunJointOk(j: Joint, ops: seq<JointOp>)
    decreases |ops|
  {
    ops == [] || (JointOpOk(j, ops[0]) && RunJointOk(StepJoint(j, ops[0]), ops[1..]))
  }

  /** Once sealed under an ID, always sealed under it: nothing else is ever sealed there. */
  predicate HeldKept(held: map<string, Bytes>, held': map<string, Bytes>) {
    forall id | id in held :: id in held' && held'[id] == held[id]
  }

  lemma ActionHeldKept(c: Cache.State, a: Cache.Action)
    requires Cache.Enabled(c, a)
    ensures HeldKept(c.held, Cache.Step(c, a).held)
  {
    if a.Spawn? || a.Act? || a.Cancel? {
      ReaderKeepsStore(c, a);
    }
  }

  lemma StepHeldKept(j: Joint, op: JointOp)
    ensures HeldKept(j.cache.held, StepJoint(j, op).cache.held)
  {
    var a := if op.Chunk? then Induced(j.chunks, op.op, op.cached) else Some(op.act);
    if a.Some? && Cache.Enabled(j.cache, a.value) {
      ActionHeldKept(j.cache, a.value);
    }
  }

  lemma {:induction false} RunJointKeeps(j: Joint, ops: seq<JointOp>)
    requires JointInv(j) && RunJointOk(j, ops)
    ensures JointInv(RunJoint(j, ops))
    ensures HeldKept(j.cache.held, RunJoint(j, ops).cache.held)
    decreases |ops|
  {
    if ops == [] {
    } else {
      JointStepKeeps(j, ops[0]);
      StepHeldKept(j, ops[0]);
      RunJointKeeps(StepJoint(j, ops[0]), ops[1..]);
    }
  }

  // ---- Reads ----

  function JointView(j: Joint): View {
    ViewOf(j.chunks.state, j.chunks.objects)
  }

  /** A range that the view can serve, of a chunk that is not active, may be asked of the cache. */
  lemma ReadableSpawns(j: Joint, t: Cache.Tid, r: Cache.Request)
    requires JointInv(j) && r.id != j.chunks.state.activeId && t !in j.cache.readers
    requires ReadChunk(JointView(j), r.id, r.off, r.len).Some?
    ensures JointOpOk(j, Reader(Cache.Spawn(t, r)))
    ensures Cache.Slice(r, j.cache.held[r.id]) == ReadChunk(JointView(j), r.id, r.off, r.len)
  {
    assert r.id in j.cache.store;
  }

  /** Every part of every live extent: the active buffer has it, or the cache may be asked for it. */
  lemma LiveExtentSpawns(j: Joint, d: IndexData, i: Ino, k: nat, from: nat, len: nat, t: Cache.Tid)
    requires JointInv(j) && DataOk(d, JointView(j)) && t !in j.cache.readers
    requires i in d.extents && k < |d.extents[i]| && from + len <= d.extents[i][k].length
    ensures var e := d.extents[i][k];
            var r := Cache.Request(e.chunkId, e.chunkOffset + from, len);
            && ReadChunk(JointView(j), r.id, r.off, r.len).Some?
            && (r.id != j.chunks.state.activeId ==> JointOpOk(j, Reader(Cache.Spawn(t, r))))
  {
    var e := d.extents[i][k];
    assert ListOk(d.extents[i], SizeOf(d, i), JointView(j));
    assert InView(e, JointView(j));
    var r := Cache.Request(e.chunkId, e.chunkOffset + from, len);
    if r.id != j.chunks.state.activeId {
      ReadableSpawns(j, t, r);
    }
  }

  lemma StepKeepsReader(c: Cache.State, a: Cache.Action, t: Cache.Tid)
    requires Cache.Inv(c) && Cache.Enabled(c, a) && t in c.readers
    ensures t in Cache.Step(c, a).readers && Cache.Step(c, a).readers[t].req == c.readers[t].req
  {
    if a.Act? {
      Cache.OwnKeepsReaders(c, a.t, a.ok);
    }
  }

  lemma {:induction false} RunKeepsReader(j: Joint, ops: seq<JointOp>, t: Cache.Tid)
    requires JointInv(j) && RunJointOk(j, ops) && t in j.cache.readers
    ensures t in RunJoint(j, ops).cache.readers
    ensures RunJoint(j, ops).cache.readers[t].req == j.cache.readers[t].req
    decreases |ops|
  {
    if ops == [] {
    } else {
      var op := ops[0];
      var a := if op.Chunk? then Induced(j.chunks, op.op, op.cached) else Some(op.act);
      if a.Some? && Cache.Enabled(j.cache, a.value) {
        StepKeepsReader(j.cache, a.value, t);
      }
      JointStepKeeps(j, op);
      RunKeepsReader(StepJoint(j, op), ops[1..], t);
    }
  }

  /** No operation of the run deletes the chunk. */
  predicate NoneDeletes(ops: seq<JointOp>, id: string) {
    forall k | 0 <= k < |ops| :: ops[k].Chunk? ==> ops[k].op != DoDelete(id)
  }

  /** A sealed chunk stays as it is until it is deleted. */
  lemma {:induction false} SealedUntilDeleted(j: Joint, ops: seq<JointOp>, id: string)
    requires JointInv(j) && RunJointOk(j, ops) && NoneDeletes(ops, id)
    requires id in SealedOf(j.chunks)
    ensures id in SealedOf(RunJoint(j, ops).chunks) && SealedOf(RunJoint(j, ops).chunks)[id] == SealedOf(j.chunks)[id]
    decreases |ops|
  {
    if ops == [] {
    } else {
      var op := ops[0];
      if op.Chunk? {
        assert op.op != DoDelete(id);
        StepChunksKeeps(j.chunks, op.op);
        ActiveStaysFresh(j.chunks, op.op);
      }
      JointStepKeeps(j, op);
      SealedUntilDeleted(StepJoint(j, op), ops[1..], id);
    }
  }

  /**
   A read that goes to the cache, through every interleaving: if it answers with
   bytes, they are the bytes that the view held when the read began, and as long
   as the chunk is not deleted, the bytes that the view holds when it answers.
   */
  lemma CachedReadExact(j: Joint, t: Cache.Tid, r: Cache.Request, ops: seq<JointOp>)
    requires JointInv(j) && r.id != j.chunks.state.activeId && t !in j.cache.readers
    requires ReadChunk(JointView(j), r.id, r.off, r.len).Some?
    requires RunJointOk(StepJoint(j, Reader(Cache.Spawn(t, r))), ops)
    ensures var u := RunJoint(StepJoint(j, Reader(Cache.Spawn(t, r))), ops);
            && t in u.cache.readers
            && (u.cache.readers[t].pc.Done? && u.cache.readers[t].pc.answer.Some? ==>
                  && u.cache.readers[t].pc.answer == ReadChunk(JointView(j), r.id, r.off, r.len)
                  && (NoneDeletes(ops, r.id) ==>
                        u.cache.readers[t].pc.answer == ReadChunk(JointView(u), r.id, r.off, r.len)))
  {
    var j1 := StepJoint(j, Reader(Cache.Spawn(t, r)));
    ReadableSpawns(j, t, r);
    JointStepKeeps(j, Reader(Cache.Spawn(t, r)));
    StepHeldKept(j, Reader(Cache.Spawn(t, r)));
    RunJointKeeps(j1, ops);
    RunKeepsReader(j1, ops, t);
    var u := RunJoint(j1, ops);
    assert Cache.ReaderOk(u.cache, t);
    assert u.cache.held[r.id] == j.cache.held[r.id];
    if NoneDeletes(ops, r.id) {
      SealedUntilDeleted(j1, ops, r.id);
    }
  }

  /** What the view holds of an extent is what the file shows there. */
  lemma ExtentShowsFile(d: IndexData, v: View, i: Ino, k: nat, from: nat, len: nat)
    requires DataOk(d, v) && i in d.extents && k < |d.extents[i]| && from + len <= d.extents[i][k].length
    ensures var e := d.extents[i][k];
            var b := ReadChunk(v, e.chunkId, e.chunkOffset + from, len);
            b.Some? && |b.value| == len && ShowsFile(b.value, d.extents[i], v, e.fileOffset + from)
  {
    var exts, e := d.extents[i], d.extents[i][k];
    assert ListOk(exts, SizeOf(d, i), v);
    assert InView(e, v);
    var b := v[e.chunkId][e.chunkOffset + from..e.chunkOffset + from + len];
    forall p | 0 <= p < len ensures b[p] == ByteAt(exts, v, e.fileOffset + from + p) {
      CoveredReadsChunk(exts, v, e.fileOffset + from + p, k);
    }
  }

  function PartOf(e: Extent, from: nat, len: nat): Cache.Request {
    Cache.Request(e.chunkId, e.chunkOffset + from, len)
  }

  /**
   A read of any part of any live extent of a chunk that is not active: the cache
   may be asked for it, and in every interleaving an answer with bytes is that
   part of the file, as it was when the read began.
   */
  lemma LiveExtentReadsExact(j: Joint, d: IndexData, i: Ino, k: nat, from: nat, len: nat, t: Cache.Tid,
                             ops: seq<JointOp>)
    requires JointInv(j) && DataOk(d, JointView(j)) && t !in j.cache.readers
    requires i in d.extents && k < |d.extents[i]| && from + len <= d.extents[i][k].length
    requires d.extents[i][k].chunkId != j.chunks.state.activeId
    requires RunJointOk(StepJoint(j, Reader(Cache.Spawn(t, PartOf(d.extents[i][k], from, len)))), ops)
    ensures var e := d.extents[i][k];
            var spawn := Reader(Cache.Spawn(t, PartOf(e, from, len)));
            var u := RunJoint(StepJoint(j, spawn), ops).cache;
            && JointOpOk(j, spawn) && t in u.readers
            && (u.readers[t].pc.Done? && u.readers[t].pc.answer.Some? ==>
                  && |u.readers[t].pc.answer.value| == len
                  && ShowsFile(u.readers[t].pc.answer.value, d.extents[i], JointView(j), e.fileOffset + from))
  {
    ExtentShowsFile(d, JointView(j), i, k, from, len);
    LiveExtentSpawns(j, d, i, k, from, len, t);
    CachedReadExact(j, t, PartOf(d.extents[i][k], from, len), ops);
  }

  // ---- Reads that nothing disturbs ----

  /** Nothing fails, the chunk is not deleted, and nobody gives up on reader `t`. */
  predicate Undisturbed(ops: seq<JointOp>, id: string, t: Cache.Tid) {
    && NoneDeletes(ops, id)
    && forall k | 0 <= k < |ops| && ops[k].Reader? ::
         (ops[k].act.Act? ==> ops[k].act.ok) && ops[k].act != Cache.Cancel(t)
  }

  /** If the reader has answered, it has answered with bytes. */
  predicate Fine(c: Cache.State, t: Cache.Tid, id: string) {
    t in c.readers && c.readers[t].req.id == id && (c.readers[t].pc.Done? ==> c.readers[t].pc.answer.Some?)
  }

  lemma FineAction(c: Cache.State, a: Cache.Action, t: Cache.Tid, id: string)
    requires Cache.Inv(c) && Cache.Enabled(c, a) && Cache.Healthy(c, id) && Fine(c, t, id)
    requires Cache.Harmless(a, id) && a != Cache.Cancel(t)
    ensures Cache.Healthy(Cache.Step(c, a), id) && Fine(Cache.Step(c, a), t, id)
  {
    Cache.HealthyStep(c, a, id);
    if a.Act? {
      Cache.OwnKeepsReaders(c, a.t, a.ok);
      if a.t == t {
        Cache.HealthyAnswers(c, t);
      }
    }
  }

  lemma {:induction false} FineRun(j: Joint, ops: seq<JointOp>, t: Cache.Tid, id: string)
    requires JointInv(j) && RunJointOk(j, ops) && Undisturbed(ops, id, t)
    requires Cache.Healthy(j.cache, id) && Fine(j.cache, t, id)
    ensures Fine(RunJoint(j, ops).cache, t, id)
    decreases |ops|
  {
    if ops == [] {
    } else {
      var op := ops[0];
      var a := if op.Chunk? then Induced(j.chunks, op.op, op.cached) else Some(op.act);
      if a.Some? && Cache.Enabled(j.cache, a.value) {
        assert op.Chunk? ==> op.op != DoDelete(id);
        FineAction(j.cache, a.value, t, id);
      }
      JointStepKeeps(j, op);
      FineRun(StepJoint(j, op), ops[1..], t, id);
    }
  }

  lemma SpawnFine(c: Cache.State, t: Cache.Tid, r: Cache.Request)
    requires Cache.Inv(c) && Cache.Enabled(c, Cache.Spawn(t, r)) && Cache.Healthy(c, r.id)
    ensures Cache.Healthy(Cache.Step(c, Cache.Spawn(t, r)), r.id) && Fine(Cache.Step(c, Cache.Spawn(t, r)), t, r.id)
  {
    Cache.HealthyStep(c, Cache.Spawn(t, r), r.id);
  }

  /**
   A read of a chunk that no fetch has failed on, through every interleaving in
   which nothing fails: when it answers, it answers with the bytes of the view.
   */
  lemma UndisturbedReadSucceeds(j: Joint, t: Cache.Tid, r: Cache.Request, ops: seq<JointOp>)
    requires JointInv(j) && r.id != j.chunks.state.activeId && t !in j.cache.readers
    requires ReadChunk(JointView(j), r.id, r.off, r.len).Some? && Cache.Healthy(j.cache, r.id)
    requires RunJointOk(StepJoint(j, Reader(Cache.Spawn(t, r))), ops) && Undisturbed(ops, r.id, t)
    ensures var u := RunJoint(StepJoint(j, Reader(Cache.Spawn(t, r))), ops);
            && t in u.cache.readers
            && (u.cache.readers[t].pc.Done? ==>
                  u.cache.readers[t].pc.answer == ReadChunk(JointView(u), r.id, r.off, r.len))
  {
    ReadableSpawns(j, t, r);
    SpawnFine(j.cache, t, r);
    JointStepKeeps(j, Reader(Cache.Spawn(t, r)));
    FineRun(StepJoint(j, Reader(Cache.Spawn(t, r))), ops, t, r.id);
    CachedReadExact(j, t, r, ops);
  }

  // ---- One reader alone ----

  /** The actions of a single read by reader 0, from rest to its answer. */
  predicate LoneRead(c: Cache.State, r: Cache.Request, acts: seq<Cache.Action>, u: Cache.State) {
    && acts != [] && acts[0] == Cache.Spawn(0, r)
    && (forall k | 1 <= k < |acts| :: acts[k].Act? && acts[k].t == 0)
    && Cache.AllEnabled(c, acts) && Cache.Run(c, acts) == u
  }

  /** Where a lone reader stands after it registered its fetch. */
  function Alone(c: Cache.State, r: Cache.Request, pc: Cache.Pc): Cache.State {
    c.(readers := map[0 := Cache.Reader(r, pc)], inflight := map[r.id := 0],
       fetches := [Cache.Fetch(r.id, 0, Cache.Open)])
  }

  predicate Resting(c: Cache.State) {
    c.inflight == map[] && c.fetches == [] && c.readers == map[]
  }

  lemma LoneStep(c: Cache.State, r: Cache.Request, acts: seq<Cache.Action>, u: Cache.State, ok: bool)
    requires LoneRead(c, r, acts, u) && Cache.Enabled(u, Cache.Act(0, ok))
    ensures LoneRead(c, r, acts + [Cache.Act(0, ok)], Cache.Step(u, Cache.Act(0, ok)))
  {
    Cache.RunSnoc(c, acts, Cache.Act(0, ok));
  }

  /** The first three steps: spawn, look at the file, and answer from it. */
  lemma LoneHit(c: Cache.State, r: Cache.Request) returns (acts: seq<Cache.Action>)
    requires Resting(c) && Cache.Enabled(c, Cache.Spawn(0, r)) && Cache.FileSlice(c.files, r).Some?
    ensures LoneRead(c, r, acts, c.(readers := map[0 := Cache.Reader(r, Cache.Done(Cache.FileSlice(c.files, r)))]))
  {
    LoneSpawn(c, r);
    acts := [Cache.Spawn(0, r)];
    LoneStep(c, r, acts, Spawned(c, r, Cache.Start), true);
    acts := acts + [Cache.Act(0, true)];
  }

  function Spawned(c: Cache.State, r: Cache.Request, pc: Cache.Pc): Cache.State {
    c.(readers := map[0 := Cache.Reader(r, pc)])
  }

  lemma LoneSpawn(c: Cache.State, r: Cache.Request)
    requires Resting(c) && Cache.Enabled(c, Cache.Spawn(0, r))
    ensures LoneRead(c, r, [Cache.Spawn(0, r)], Spawned(c, r, Cache.Start))
  {
    assert [Cache.Spawn(0, r)][1..] == [];
    assert Cache.Step(c, Cache.Spawn(0, r)) == Spawned(c, r, Cache.Start);
  }

  /** Spawn, miss, and register the fetch. */
  lemma LoneMiss(c: Cache.State, r: Cache.Request) returns (acts: seq<Cache.Action>)
    requires Resting(c) && Cache.Enabled(c, Cache.Spawn(0, r)) && Cache.FileSlice(c.files, r).None?
    ensures LoneRead(c, r, acts, Alone(c, r, Cache.Sizing(0)))
  {
    LoneSpawn(c, r);
    acts := [Cache.Spawn(0, r)];
    LoneStep(c, r, acts, Spawned(c, r, Cache.Start), true);
    acts := acts + [Cache.Act(0, true)];
    LoneStep(c, r, acts, Spawned(c, r, Cache.Missed), true);
    acts := acts + [Cache.Act(0, true)];
    assert Cache.Step(Spawned(c, r, Cache.Missed), Cache.Act(0, true)) == Alone(c, r, Cache.Sizing(0));
  }

  /** A step of the fetch. */
  lemma LoneFetch(c: Cache.State, r: Cache.Request, acts: seq<Cache.Action>, u: Cache.State, pc: Cache.Pc, ok: bool,
                  pc': Cache.Pc) returns (acts': seq<Cache.Action>)
    requires LoneRead(c, r, acts, Alone(u, r, pc)) && (pc.Sizing? || pc.Ranging?)
    requires Cache.Step(Alone(u, r, pc), Cache.Act(0, ok)) == Alone(u, r, pc')
    ensures LoneRead(c, r, acts', Alone(u, r, pc'))
  {
    LoneStep(c, r, acts, Alone(u, r, pc), ok);
    acts' := acts + [Cache.Act(0, ok)];
  }

  /** How a lone read leaves the cache: nobody waits, and the answer is given. */
  predicate LoneEnd(u: Cache.State, answer: Option<Bytes>, files: map<string, Bytes>) {
    u.inflight == map[] && 0 in u.readers && u.readers[0].pc == Cache.Done(answer) && u.files == files
  }

  /** The last two steps: close the channel and leave. */
  lemma LoneLeave(c: Cache.State, r: Cache.Request, acts: seq<Cache.Action>, u: Cache.State, result: Option<Bytes>)
    returns (acts': seq<Cache.Action>, v: Cache.State)
    requires LoneRead(c, r, acts, Alone(u, r, Cache.Closing(0, result)))
    ensures LoneRead(c, r, acts', v)
    ensures LoneEnd(v, if result.Some? then Cache.Slice(r, result.value) else None, u.files)
  {
    var u1 := Alone(u, r, Cache.Closing(0, result));
    LoneStep(c, r, acts, u1, true);
    var u2 := Cache.Step(u1, Cache.Act(0, true));
    LoneStep(c, r, acts + [Cache.Act(0, true)], u2, true);
    v := Cache.Step(u2, Cache.Act(0, true));
    acts' := acts + [Cache.Act(0, true)] + [Cache.Act(0, true)];
  }

  /** How far a lone fetch of a stored chunk gets. */
  datatype FetchOutcome = NoSize | NoBytes | NoFile | Complete

  /** From the registered fetch to the end of the read. */
  lemma LoneFetchEnds(c: Cache.State, r: Cache.Request, acts: seq<Cache.Action>, o: FetchOutcome)
    returns (acts': seq<Cache.Action>, u: Cache.State)
    requires LoneRead(c, r, acts, Alone(c, r, Cache.Sizing(0))) && r.id in c.store
    ensures LoneRead(c, r, acts', u)
    ensures LoneEnd(u, if o.Complete? then Cache.Slice(r, c.store[r.id]) else None,
                    if o.Complete? then c.files[r.id := c.store[r.id]] else c.files)
  {
    if o.NoSize? {
      acts' := LoneFetch(c, r, acts, c, Cache.Sizing(0), false, Cache.Closing(0, None));
      acts', u := LoneLeave(c, r, acts', c, None);
    } else {
      acts' := LoneFetch(c, r, acts, c, Cache.Sizing(0), true, Cache.Ranging(0, |c.store[r.id]|));
      acts', u := LoneRangeEnds(c, r, acts', o);
    }
  }

  lemma LoneRangeEnds(c: Cache.State, r: Cache.Request, acts: seq<Cache.Action>, o: FetchOutcome)
    returns (acts': seq<Cache.Action>, u: Cache.State)
    requires r.id in c.store && LoneRead(c, r, acts, Alone(c, r, Cache.Ranging(0, |c.store[r.id]|)))
    ensures LoneRead(c, r, acts', u)
    ensures LoneEnd(u, if o.Complete? then Cache.Slice(r, c.store[r.id]) else None,
                    if o.Complete? then c.files[r.id := c.store[r.id]] else c.files)
  {
    var data := c.store[r.id];
    if o.NoBytes? || o.NoSize? {
      acts' := LoneFetch(c, r, acts, c, Cache.Ranging(0, |data|), false, Cache.Closing(0, None));
      acts', u := LoneLeave(c, r, acts', c, None);
    } else {
      assert data[..|data|] == data;
      acts' := LoneFetch(c, r, acts, c, Cache.Ranging(0, |data|), true, Cache.Fetched(0, data));
      acts', u := LoneWriteEnds(c, r, acts', data, o.Complete?);
    }
  }

  /** The file is written, or not, and the read ends. */
  lemma LoneWriteEnds(c: Cache.State, r: Cache.Request, acts: seq<Cache.Action>, data: Bytes, written: bool)
    returns (acts': seq<Cache.Action>, u: Cache.State)
    requires LoneRead(c, r, acts, Alone(c, r, Cache.Fetched(0, data)))
    ensures LoneRead(c, r, acts', u)
    ensures LoneEnd(u, if written then Cache.Slice(r, data) else None,
                    if written then c.files[r.id := data] else c.files)
  {
    var u1 := LoneWrite(c, r, acts, data, written);
    acts', u := LoneLeave(c, r, acts + [Cache.Act(0, written)], u1, if written then Some(data) else None);
  }

  lemma LoneWrite(c: Cache.State, r: Cache.Request, acts: seq<Cache.Action>, data: Bytes, written: bool)
    returns (u: Cache.State)
    requires LoneRead(c, r, acts, Alone(c, r, Cache.Fetched(0, data)))
    ensures u.files == if written then c.files[r.id := data] else c.files
    ensures LoneRead(c, r, acts + [Cache.Act(0, written)],
                     Alone(u, r, Cache.Closing(0, if written then Some(data) else None)))
  {
    u := FileWritten(c, r, data, written);
    LoneStep(c, r, acts, Alone(c, r, Cache.Fetched(0, data)), written);
  }

  lemma FileWritten(c: Cache.State, r: Cache.Request, data: Bytes, written: bool) returns (u: Cache.State)
    ensures u.files == if written then c.files[r.id := data] else c.files
    ensures Cache.Enabled(Alone(c, r, Cache.Fetched(0, data)), Cache.Act(0, written))
    ensures Cache.Step(Alone(c, r, Cache.Fetched(0, data)), Cache.Act(0, written)) ==
            Alone(u, r, Cache.Closing(0, if written then Some(data) else None))
  {
    u := if written then c.(files := c.files[r.id := data]) else c;
  }
}
