/**
 Starting over a cache directory that an earlier session left.  Nothing checks its
 files: what they may hold so that every read is still right, and what happens
 when a chunk ID is issued again.
 */
module WarmStarts {
  import opened Base
  import opened ChunkIds
  import opened ChunkModel
  import opened CachedChunks
  import Cache

  /** The ID is active or yet to be issued. */
  ghost predicate Upcoming(c: ChunkState, id: string) {
    id == c.activeId || exists n: nat :: n >= c.nextSeq && id == ChunkId(n)
  }

  /** What counts as sealed at the start: what is stored, and what is in the directory under IDs of the past. */
  ghost function HeldAtStart(c: Chunks, dir: map<string, Bytes>): map<string, Bytes> {
    (map id | id in dir && !Upcoming(c.state, id) :: dir[id]) + c.objects
  }

  ghost function Started(c: Chunks, dir: map<string, Bytes>): Joint {
    AtRest(c, HeldAtStart(c, dir), dir)
  }

  /** A session that has just started: nothing is buffered, and the active chunk is new. */
  ghost predicate JustStarted(c: Chunks) {
    ChunkOk(c.state, c.objects) && c.state.buf == [] && c.state.activeId !in c.objects
  }

  /** No file has a byte that its stored chunk does not have, and none has a byte under an ID that is to come. */
  ghost predicate WarmOk(c: Chunks, dir: map<string, Bytes>) {
    && (forall id | id in dir && id in c.objects :: Cache.Agree(dir[id], c.objects[id]))
    && (forall id | id in dir && Upcoming(c.state, id) :: dir[id] == [])
  }

  lemma WarmInvIff(c: Chunks, dir: map<string, Bytes>)
    requires ChunkOk(c.state, c.objects) && c.state.activeId !in c.objects
    ensures CacheOk(c, HeldAtStart(c, dir), dir) <==> WarmOk(c, dir)
  {
    var held := HeldAtStart(c, dir);
    assert HeldOk(c.state, held);
    forall id | id in dir && Upcoming(c.state, id) ensures id !in held {
    }
    forall id | id in dir && !Upcoming(c.state, id) ensures id in held {
    }
    if CacheOk(c, held, dir) {
      forall id | id in dir && id in c.objects ensures Cache.Agree(dir[id], c.objects[id]) {
        assert held[id] == c.objects[id];
      }
    }
  }

  // ---- Every answer of the session ----

  /** Within a run of the session, reader `t` asks for a range that the view serves, and the run goes on. */
  ghost predicate ReadsWithin(c: Chunks, dir: map<string, Bytes>, before: seq<JointOp>, t: Cache.Tid, r: Cache.Request,
                              after: seq<JointOp>)
  {
    var j := RunJoint(Started(c, dir), before);
    && RunJointOk(Started(c, dir), before)
    && t !in j.cache.readers && r.id != j.chunks.state.activeId
    && ReadChunk(JointView(j), r.id, r.off, r.len).Some?
    && JointOpOk(j, Reader(Cache.Spawn(t, r)))
    && RunJointOk(StepJoint(j, Reader(Cache.Spawn(t, r))), after)
  }

  /** If the reader has answered with bytes, they are those that the view held when it asked. */
  ghost predicate AnswersRight(c: Chunks, dir: map<string, Bytes>, before: seq<JointOp>, t: Cache.Tid,
                               r: Cache.Request, after: seq<JointOp>)
  {
    var j := RunJoint(Started(c, dir), before);
    var u := RunJoint(StepJoint(j, Reader(Cache.Spawn(t, r))), after).cache;
    t in u.readers && u.readers[t].pc.Done? && u.readers[t].pc.answer.Some? ==>
      u.readers[t].pc.answer == ReadChunk(JointView(j), r.id, r.off, r.len)
  }

  ghost predicate EveryAnswerRight(c: Chunks, dir: map<string, Bytes>) {
    forall before, t, r, after | ReadsWithin(c, dir, before, t, r, after) :: AnswersRight(c, dir, before, t, r, after)
  }

  lemma WarmIsRight(c: Chunks, dir: map<string, Bytes>)
    requires ChunkOk(c.state, c.objects) && c.state.activeId !in c.objects && WarmOk(c, dir)
    ensures EveryAnswerRight(c, dir)
  {
    WarmInvIff(c, dir);
    AtRestInv(c, HeldAtStart(c, dir), dir);
    forall before, t, r, after | ReadsWithin(c, dir, before, t, r, after)
      ensures AnswersRight(c, dir, before, t, r, after)
    {
      RunJointKeeps(Started(c, dir), before);
      CachedReadExact(RunJoint(Started(c, dir), before), t, r, after);
    }
  }

  // ---- A file with a wrong byte ----

  /** Two byte strings that disagree do so at some place in both. */
  lemma {:induction false} DisagreeAt(a: Bytes, b: Bytes) returns (p: nat)
    requires !Cache.Agree(a, b)
    ensures p < |a| && p < |b| && a[p] != b[p]
    decreases |a|
  {
    assert a != [] && b != [];
    if a[0] != b[0] {
      p := 0;
    } else {
      assert a == [a[0]] + a[1..] && b == [b[0]] + b[1..];
      p := DisagreeAt(a[1..], b[1..]);
      p := p + 1;
    }
  }

  /** One reader, alone, that finds a file long enough answers from it. */
  lemma HitAnswers(j: Joint, t: Cache.Tid, r: Cache.Request)
    requires t !in j.cache.readers && Cache.Enabled(j.cache, Cache.Spawn(t, r))
    requires Cache.FileSlice(j.cache.files, r).Some?
    ensures var j1 := StepJoint(j, Reader(Cache.Spawn(t, r)));
            && RunJointOk(j1, [Reader(Cache.Act(t, true))])
            && var u := RunJoint(j1, [Reader(Cache.Act(t, true))]).cache;
               t in u.readers && u.readers[t].pc == Cache.Done(Cache.FileSlice(j.cache.files, r))
  {
    var j1, act := StepJoint(j, Reader(Cache.Spawn(t, r))), Reader(Cache.Act(t, true));
    assert [act][1..] == [];
    assert RunJoint(j1, [act]) == RunJoint(StepJoint(j1, act), []);
  }

  /** If after some run a file shows something else than the view, some answer is wrong. */
  lemma WrongHit(c: Chunks, dir: map<string, Bytes>, before: seq<JointOp>, r: Cache.Request)
    requires RunJointOk(Started(c, dir), before)
    requires var j := RunJoint(Started(c, dir), before);
             && j.cache.readers == map[] && r.id != j.chunks.state.activeId
             && Cache.Enabled(j.cache, Cache.Spawn(0, r))
             && ReadChunk(JointView(j), r.id, r.off, r.len).Some? && Cache.FileSlice(j.cache.files, r).Some?
             && Cache.FileSlice(j.cache.files, r) != ReadChunk(JointView(j), r.id, r.off, r.len)
    ensures var after := [Reader(Cache.Act(0, true))];
            ReadsWithin(c, dir, before, 0, r, after) && !AnswersRight(c, dir, before, 0, r, after)
  {
    HitAnswers(RunJoint(Started(c, dir), before), 0, r);
  }

  /** A file that disagrees with its stored chunk. */
  lemma WrongFile(c: Chunks, dir: map<string, Bytes>, id: string)
    requires JustStarted(c) && id in dir && id in c.objects && !Cache.Agree(dir[id], c.objects[id])
    ensures !EveryAnswerRight(c, dir)
  {
    var p := DisagreeAt(dir[id], c.objects[id]);
    WrongHit(c, dir, [], Cache.Request(id, p, 1));
  }

  // ---- A file under an ID that is issued again ----

  lemma {:induction false} RunJointConcat(j: Joint, a: seq<JointOp>, b: seq<JointOp>)
    ensures RunJoint(j, a + b) == RunJoint(RunJoint(j, a), b)
    ensures RunJointOk(j, a + b) <==> RunJointOk(j, a) && RunJointOk(RunJoint(j, a), b)
    decreases |a|
  {
    if a == [] {
      assert a + b == b;
    } else {
      assert (a + b)[1..] == a[1..] + b;
      RunJointConcat(StepJoint(j, a[0]), a[1..], b);
    }
  }

  /** Sealing an empty chunk: the ID moves on and nothing else changes. */
  const ROTATE := Chunk(DoSeal(Stored), false)

  function Rotations(k: nat): seq<JointOp> {
    seq(k, _ => ROTATE)
  }

  ghost predicate TakesStep(js: seq<Joint>, ops: seq<JointOp>, i: nat) {
    i < |ops| && i + 1 < |js| && JointOpOk(js[i], ops[i]) && StepJoint(js[i], ops[i]) == js[i + 1]
  }

  /** The states that a run goes through. */
  ghost predicate Trace(js: seq<Joint>, ops: seq<JointOp>) {
    |js| == |ops| + 1 && forall i | 0 <= i < |ops| :: TakesStep(js, ops, i)
  }

  lemma {:induction false} TraceRuns(js: seq<Joint>, ops: seq<JointOp>)
    requires Trace(js, ops)
    ensures RunJointOk(js[0], ops) && RunJoint(js[0], ops) == js[|ops|]
    decreases |ops|
  {
    if ops == [] {
    } else {
      assert TakesStep(js, ops, 0);
      forall i | 0 <= i < |ops[1..]| ensures TakesStep(js[1..], ops[1..], i) {
        assert TakesStep(js, ops, i + 1);
      }
      TraceRuns(js[1..], ops[1..]);
    }
  }

  /** Nothing is buffered, and no ID that is active or to come is stored or was ever sealed. */
  ghost predicate Idle(j: Joint) {
    && JustStarted(j.chunks) && j.cache.readers == map[]
    && HeldOk(j.chunks.state, j.cache.held)
  }

  lemma RunJointOne(j: Joint, op: JointOp)
    ensures RunJoint(j, [op]) == StepJoint(j, op) && (RunJointOk(j, [op]) <==> JointOpOk(j, op))
  {
    assert [op][1..] == [];
  }

  /** The same session with another sequence number active. */
  function AtSeq(j: Joint, n: nat): Joint {
    j.(chunks := j.chunks.(state := j.chunks.state.(activeId := ChunkId(n), nextSeq := n + 1)))
  }

  lemma AtSeqIdle(j: Joint, n: nat)
    requires Idle(j) && n >= j.chunks.state.nextSeq - 1
    ensures Idle(AtSeq(j, n))
    ensures AtSeq(j, j.chunks.state.nextSeq - 1) == j
  {
  }

  lemma RotateOnce(j: Joint, n: nat)
    requires Idle(j) && n >= j.chunks.state.nextSeq - 1
    ensures JointOpOk(AtSeq(j, n), ROTATE) && StepJoint(AtSeq(j, n), ROTATE) == AtSeq(j, n + 1)
  {
    AtSeqIdle(j, n);
  }

  lemma StepTaken(js: seq<Joint>, k: nat, i: nat, u: Joint, u': Joint)
    requires i < k && |js| == k + 1 && js[i] == u && js[i + 1] == u'
    requires JointOpOk(u, ROTATE) && StepJoint(u, ROTATE) == u'
    ensures TakesStep(js, Rotations(k), i)
  {
  }

  /** The session at each of the sequence numbers from `n` on. */
  function Numbered(j: Joint, n: nat, k: nat): seq<Joint> {
    seq(k + 1, i requires 0 <= i => AtSeq(j, n + i))
  }

  lemma NumberedAt(j: Joint, n: nat, k: nat, i: nat)
    requires i <= k
    ensures |Numbered(j, n, k)| == k + 1 && Numbered(j, n, k)[i] == AtSeq(j, n + i)
  {
  }

  lemma RotateAt(j: Joint, n: nat, k: nat, i: nat)
    requires Idle(j) && n >= j.chunks.state.nextSeq - 1 && i < k
    ensures TakesStep(Numbered(j, n, k), Rotations(k), i)
  {
    NumberedAt(j, n, k, i);
    NumberedAt(j, n, k, i + 1);
    RotateOnce(j, n + i);
    StepTaken(Numbered(j, n, k), k, i, AtSeq(j, n + i), AtSeq(j, n + i + 1));
  }

  lemma TraceOf(js: seq<Joint>, ops: seq<JointOp>)
    requires |js| == |ops| + 1 && forall i: nat | i < |ops| :: TakesStep(js, ops, i)
    ensures Trace(js, ops)
  {
  }

  /** By sealing empty chunks, every ID that is to come becomes the active one. */
  lemma RotateTo(j: Joint, n: nat, k: nat)
    requires Idle(j) && n >= j.chunks.state.nextSeq - 1
    ensures Trace(Numbered(j, n, k), Rotations(k))
  {
    forall i: nat | i < k ensures TakesStep(Numbered(j, n, k), Rotations(k), i) {
      RotateAt(j, n, k, i);
    }
    TraceOf(Numbered(j, n, k), Rotations(k));
  }

  function Reissue(b: Byte): seq<JointOp> {
    [Chunk(DoAppend([b], 0, Stored), false), Chunk(DoSeal(Stored), false)]
  }

  /** One byte is written and its chunk sealed, without its cached copy. */
  lemma ReissueRuns(j: Joint, b: Byte)
    requires Idle(j) && j.chunks.state.maxSize > 0
    ensures var id := j.chunks.state.activeId;
            var u := RunJoint(j, Reissue(b));
            && RunJointOk(j, Reissue(b)) && u.chunks.state.activeId != id
            && u.chunks.objects == j.chunks.objects[id := [b]]
            && u.cache.held == j.cache.held[id := [b]]
            && u.cache.files == j.cache.files && u.cache.readers == map[]
  {
    var c, objs := j.chunks.state, j.chunks.objects;
    var append, seal := Chunk(DoAppend([b], 0, Stored), false), Chunk(DoSeal(Stored), false);
    var j1 := StepJoint(j, append);
    assert j1 == j.(chunks := Chunks(c.(buf := [b], dirty := true), objs));
    FreshActive(c, c.nextSeq);
    RunJointOne(j, append);
    RunJointOne(j1, seal);
    assert Reissue(b) == [append] + [seal];
    RunJointConcat(j, [append], [seal]);
  }

  function OtherByte(b: Byte): (r: Byte)
    ensures r != b
  {
    if b == 0 then 1 else 0
  }

  lemma StartIsIdle(c: Chunks, dir: map<string, Bytes>)
    requires JustStarted(c)
    ensures Idle(Started(c, dir))
  {
  }

  /** The view holds one byte of the chunk, and the file begins with another. */
  lemma FileShowsOther(u: Joint, id: string, b: Byte)
    requires u.chunks.state.activeId != id && id in u.chunks.objects && u.chunks.objects[id] == [b]
    requires id in u.cache.held && u.cache.held[id] == [b] && u.cache.readers == map[]
    requires id in u.cache.files && u.cache.files[id] != [] && u.cache.files[id][0] != b
    ensures var r := Cache.Request(id, 0, 1);
            && Cache.Enabled(u.cache, Cache.Spawn(0, r))
            && ReadChunk(JointView(u), id, 0, 1).Some? && Cache.FileSlice(u.cache.files, r).Some?
            && Cache.FileSlice(u.cache.files, r) != ReadChunk(JointView(u), id, 0, 1)
  {
    assert Cache.FileSlice(u.cache.files, Cache.Request(id, 0, 1)).value[0] != b;
    assert ReadChunk(JointView(u), id, 0, 1).value[0] == b;
  }

  /** When the ID of an old file has become active and a byte is sealed under it, the view and the file differ. */
  lemma StaleFrom(c: Chunks, dir: map<string, Bytes>, ops: seq<JointOp>, u: Joint, b: Byte)
    requires RunJointOk(Started(c, dir), ops) && RunJoint(Started(c, dir), ops) == u
    requires Idle(u) && u.chunks.state.maxSize > 0 && u.cache.files == dir
    requires var id := u.chunks.state.activeId; id in dir && dir[id] != [] && dir[id][0] != b
    ensures var r := Cache.Request(u.chunks.state.activeId, 0, 1);
            var before, after := ops + Reissue(b), [Reader(Cache.Act(0, true))];
            ReadsWithin(c, dir, before, 0, r, after) && !AnswersRight(c, dir, before, 0, r, after)
  {
    var id := u.chunks.state.activeId;
    ReissueRuns(u, b);
    RunJointConcat(Started(c, dir), ops, Reissue(b));
    FileShowsOther(RunJoint(u, Reissue(b)), id, b);
    WrongHit(c, dir, ops + Reissue(b), Cache.Request(id, 0, 1));
  }

  /** The run in which a chunk is written under the ID of an old file. */
  lemma StaleFile(c: Chunks, dir: map<string, Bytes>, k: nat, b: Byte)
    requires JustStarted(c) && c.state.maxSize > 0
    requires var id := ChunkId(c.state.nextSeq - 1 + k); id in dir && dir[id] != [] && dir[id][0] != b
    ensures var r := Cache.Request(ChunkId(c.state.nextSeq - 1 + k), 0, 1);
            var before, after := Rotations(k) + Reissue(b), [Reader(Cache.Act(0, true))];
            ReadsWithin(c, dir, before, 0, r, after) && !AnswersRight(c, dir, before, 0, r, after)
  {
    var j, n := Started(c, dir), c.state.nextSeq - 1;
    StartIsIdle(c, dir);
    AtSeqIdle(j, n + k);
    RotateTo(j, n, k);
    NumberedAt(j, n, k, 0);
    NumberedAt(j, n, k, k);
    TraceRuns(Numbered(j, n, k), Rotations(k));
    StaleFrom(c, dir, Rotations(k), AtSeq(j, n + k), b);
  }

  lemma StaleIsWrong(c: Chunks, dir: map<string, Bytes>, id: string)
    requires JustStarted(c) && c.state.maxSize > 0
    requires id in dir && Upcoming(c.state, id) && dir[id] != []
    ensures !EveryAnswerRight(c, dir)
  {
    var k := 0;
    if id != c.state.activeId {
      var n: nat :| n >= c.state.nextSeq && id == ChunkId(n);
      k := n - (c.state.nextSeq - 1);
    }
    StaleFile(c, dir, k, OtherByte(dir[id][0]));
  }

  /**
   Over all interleavings of a session that starts over an old directory, every
   answer with bytes is what the view held, if and only if no file disagrees with
   its stored chunk and no file with a byte bears an ID that is to come.
   */
  lemma WarmAnswersIff(c: Chunks, dir: map<string, Bytes>)
    requires JustStarted(c) && c.state.maxSize > 0
    ensures EveryAnswerRight(c, dir) <==> WarmOk(c, dir)
  {
    if WarmOk(c, dir) {
      WarmIsRight(c, dir);
    } else if id :| id in dir && id in c.objects && !Cache.Agree(dir[id], c.objects[id]) {
      WrongFile(c, dir, id);
    } else {
      var id :| id in dir && Upcoming(c.state, id) && dir[id] != [];
      StaleIsWrong(c, dir, id);
    }
  }

  // ---- Two sessions ----

  /** The first session: a byte is written, its chunk sealed and cached, and the chunk deleted. */
  function FirstSession(id: string, a: Byte): seq<JointOp> {
    [Chunk(DoAppend([a], 0, Stored), true), Chunk(DoSeal(Stored), true), Chunk(DoDelete(id), false)]
  }

  /** A store without objects, as it is at first and after everything was deleted. */
  function EmptyStore(maxSize: nat): Chunks {
    Chunks(Recovered(NewChunks(maxSize), []), map[])
  }

  lemma EmptyStoreStarts(maxSize: nat)
    ensures JustStarted(EmptyStore(maxSize)) && EmptyStore(maxSize).state == NewChunks(maxSize)
  {
  }

  lemma FirstSessionRuns(c: Chunks, a: Byte)
    requires JustStarted(c) && c.state.maxSize > 0 && c.objects == map[]
    ensures var id := c.state.activeId;
            var j, ops := Started(c, map[]), FirstSession(c.state.activeId, a);
            && RunJointOk(j, ops)
            && RunJoint(j, ops).chunks.objects == map[] && RunJoint(j, ops).cache.files == map[id := [a]]
  {
    var id, j := c.state.activeId, Started(c, map[]);
    var append, seal := Chunk(DoAppend([a], 0, Stored), true), Chunk(DoSeal(Stored), true);
    var drop := Chunk(DoDelete(id), false);
    var j1 := StepJoint(j, append);
    assert j1 == j.(chunks := Chunks(c.state.(buf := [a], dirty := true), c.objects));
    FreshActive(c.state, c.state.nextSeq);
    var j2 := StepJoint(j1, seal);
    var j3 := StepJoint(j2, drop);
    assert FirstSession(id, a)[1..] == [seal, drop] && [seal, drop][1..] == [drop] && [drop][1..] == [];
    assert RunJoint(j2, [drop]) == RunJoint(j3, []) && RunJointOk(j3, []);
    assert RunJoint(j1, [seal, drop]) == RunJoint(j2, [drop]) && RunJointOk(j2, [drop]);
    assert j3.chunks.objects == map[];
  }

  /**
   The failing input: a chunk is sealed and cached, deleted, and the session
   restarts over the same directory.  Its ID is issued again for another byte and
   sealed with the cache put failing.  The next read answers with the old byte.
   */
  lemma StaleAfterRestart(maxSize: nat, a: Byte, b: Byte)
    requires maxSize > 0 && a != b
    ensures var c := EmptyStore(maxSize);
            var first := RunJoint(Started(c, map[]), FirstSession(c.state.activeId, a));
            var before, after := Rotations(0) + Reissue(b), [Reader(Cache.Act(0, true))];
            var r := Cache.Request(c.state.activeId, 0, 1);
            && RunJointOk(Started(c, map[]), FirstSession(c.state.activeId, a))
            && first.chunks.objects == c.objects
            && ReadsWithin(c, first.cache.files, before, 0, r, after)
            && !AnswersRight(c, first.cache.files, before, 0, r, after)
  {
    var c := EmptyStore(maxSize);
    EmptyStoreStarts(maxSize);
    FirstSessionRuns(c, a);
    StaleFile(c, map[c.state.activeId := [a]], 0, b);
  }
}
