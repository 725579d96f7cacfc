/**
 One compaction cycle: snapshot the live extents, select chunks, pack, put the
 outputs, remap the index, persist it, and only then delete.  Every effect is a
 step of the whole machine whose condition is proved to hold, so a crash at any
 boundary, after any failure, finds every file unchanged.
 */
module Compaction {
  import opened Base
  import opened Extents
  import opened ChunkIds
  import opened IndexModel
  import opened FileData
  import opened ChunkModel
  import opened CachedChunks
  import opened ObjectStores
  import opened Names
  import opened Filesystem
  import opened Indexes
  import opened FuseyLayer
  import opened Runs
  import opened Wire
  import opened Persistence
  import opened Packing
  import opened CompactionModel

  // ---- Crash points ----

  predicate CompactStep(op: Op) {
    op.PutSealed? || op.Remap? || op.DeleteChunk? || PersistStep(op)
  }

  predicate CompactSteps(ops: seq<Op>) {
    forall k | 0 <= k < |ops| :: CompactStep(ops[k])
  }

  lemma CompactStepKeeps(s: Fs, t: Fs, op: Op)
    requires Transparent(s, t) && OpOk(t, op) && CompactStep(op)
    ensures Transparent(s, Step(t, op))
  {
    StepSimulates(t, op);
    ShowsAfter(Abs(s), Abs(t), op, Accepted(t, op), LiveAfter(t, op));
  }

  /** Readers see no change; a cold start would show the files of the last put or the present ones. */
  lemma {:induction false} CompactKeepsFiles(s: Fs, t: Fs, ops: seq<Op>)
    requires Transparent(s, t) && RunOk(t, ops) && CompactSteps(ops)
    ensures Transparent(s, Run(t, ops))
    decreases |ops|
  {
    if ops == [] {
    } else {
      CompactStepKeeps(s, t, ops[0]);
      CompactKeepsFiles(s, Step(t, ops[0]), ops[1..]);
    }
  }

  /**
   Crash safety of a compaction that starts from a persisted index: at every
   boundary between two of its steps, every file reads back its bytes through
   the index in memory, through the stored index, and after a cold start.
   */
  lemma CrashSafeAtEveryStep(s: Fs, ops: seq<Op>, k: nat, ids: seq<string>, now: int, c: Config)
    requires Inv(s) && s.remote.Idle? && RunOk(s, ops) && CompactSteps(ops) && k <= |ops|
    requires Abs(s).durable == Abs(s).files
    ensures var t := Run(s, ops[..k]);
            && Inv(t) && Abs(t).files == Abs(s).files && Abs(t).durable == Abs(s).files
            && (OpOk(t, Restart(ids, now, c)) ==> Abs(Step(t, Restart(ids, now, c))).files == Abs(s).files)
  {
    assert ops == ops[..k] + ops[k..];
    RunConcat(s, ops[..k], ops[k..]);
    CompactKeepsFiles(s, s, ops[..k]);
    var t := Run(s, ops[..k]);
    if OpOk(t, Restart(ids, now, c)) {
      StepSimulates(t, Restart(ids, now, c));
    }
  }

  // ---- The loops that change nothing ----

  function Group(m: map<string, seq<Extent>>, id: string): seq<Extent> {
    if id in m then m[id] else []
  }

  /** `m` holds the live extents by chunk. */
  ghost predicate Groups(m: map<string, seq<Extent>>, live: seq<Extent>) {
    forall id :: Group(m, id) == LiveIn(live, id)
  }

  lemma GroupsSnoc(m: map<string, seq<Extent>>, live: seq<Extent>, e: Extent)
    requires Groups(m, live)
    ensures Groups(m[e.chunkId := Group(m, e.chunkId) + [e]], live + [e])
  {
    assert (live + [e])[..|live + [e]| - 1] == live;
    forall id ensures Group(m[e.chunkId := Group(m, e.chunkId) + [e]], id) == LiveIn(live + [e], id) {
      assert Group(m, id) == LiveIn(live, id);
      assert LiveIn(live, id) + [] == LiveIn(live, id);
    }
  }

  method GroupByChunk(live: seq<Extent>) returns (m: map<string, seq<Extent>>)
    ensures Groups(m, live)
  {
    m := map[];
    for k := 0 to |live|
      invariant Groups(m, live[..k])
    {
      GroupsSnoc(m, live[..k], live[k]);
      assert live[..k + 1] == live[..k] + [live[k]];
      m := m[live[k].chunkId := Group(m, live[k].chunkId) + [live[k]]];
    }
    assert live[..|live|] == live;
  }

  method SumLengths(exts: seq<Extent>) returns (n: nat)
    ensures n == TotalLength(exts)
  {
    n := 0;
    for k := 0 to |exts|
      invariant n == TotalLength(exts[..k])
    {
      assert exts[..k + 1][..k] == exts[..k];
      n := n + exts[k].length;
    }
    assert exts[..|exts|] == exts;
  }

  /** A chunk worth compacting: empty, or with an orphaned fraction at or above the threshold. */
  predicate Worthwhile(total: nat, live: nat, threshold: real) {
    total == 0 || (total - live) as real / total as real >= threshold
  }

  /** The bytes that a chunk of `n` bytes must free at the threshold: so much for each byte. */
  function Share(threshold: real, n: nat): real {
    if n == 0 then 0.0 else threshold + Share(threshold, n - 1)
  }

  lemma {:induction false} ShareIs(threshold: real, n: nat)
    ensures Share(threshold, n) == threshold * n as real
  {
    if n == 0 {
    } else {
      ShareIs(threshold, n - 1);
      assert threshold * n as real == threshold + threshold * (n - 1) as real;
    }
  }

  lemma {:induction false} ShareAdds(threshold: real, m: nat, n: nat)
    ensures Share(threshold, m + n) == Share(threshold, m) + Share(threshold, n)
    decreases n
  {
    if n == 0 {
    } else {
      ShareAdds(threshold, m, n - 1);
    }
  }

  /** The bytes of the chunk that no live extent uses reach its share. */
  predicate WorthCompacting(s: Fs, id: string, live: seq<Extent>, threshold: real) {
    && id in FsView(s)
    && var size := |FsView(s)[id]|;
       size == 0 || (size - TotalLength(LiveIn(live, id))) as real >= Share(threshold, size)
  }

  lemma ScaleOrder(x: real, y: real, b: real)
    requires b > 0.0
    ensures x >= y <==> x * b >= y * b
  {
    if x > y {
      assert (x - y) * b > 0.0;
    } else if x < y {
      assert (y - x) * b > 0.0;
    }
  }

  lemma FractionIff(a: real, b: real, t: real)
    requires b > 0.0
    ensures a / b >= t <==> a >= t * b
  {
    var q := a / b;
    assert q * b == a;
    ScaleOrder(q, t, b);
  }

  /** The fraction that the loop compares reaches the threshold exactly when the orphaned bytes reach their share. */
  lemma WorthwhileIff(total: nat, live: nat, threshold: real)
    ensures Worthwhile(total, live, threshold) <==>
            total == 0 || (total - live) as real >= Share(threshold, total)
  {
    ShareIs(threshold, total);
    if total > 0 {
      FractionIff((total - live) as real, total as real, threshold);
    }
  }

  lemma FractionBounds(live: nat, total: nat)
    requires live <= total && total > 0
    ensures 0.0 <= (total - live) as real / total as real <= 1.0
  {
  }

  /** The orphaned fraction of a stored chunk lies between zero and one. */
  lemma OrphanFraction(d: IndexData, v: View, order: seq<Ino>, id: string)
    requires DataOk(d, v) && Enumerates(order, d.extents.Keys) && id in v && v[id] != []
    ensures Walk(order, d)
    ensures var live := TotalLength(LiveIn(Flatten(order, d.extents), id));
            0.0 <= (|v[id]| - live) as real / |v[id]| as real <= 1.0
  {
    LiveInBounded(d, v, order, id);
    FractionBounds(TotalLength(LiveIn(Flatten(order, d.extents), id)), |v[id]|);
  }

  // ---- What holds between the steps ----

  /** A choice of targets: stored, sealed, each once. */
  predicate Chosen(s: Fs, order: seq<Ino>, targets: seq<string>) {
    && Enumerates(order, s.idx.extents.Keys) && Walk(order, s.idx) && DistinctIds(targets)
    && forall k | 0 <= k < |targets| :: targets[k] in s.objects && targets[k] != s.chunks.activeId
  }

  /** The targets are exactly the stored sealed chunks worth compacting, less those the store was silent about. */
  ghost predicate Selected(s: Fs, order: seq<Ino>, targets: seq<string>, silent: set<string>, threshold: real)
    requires Walk(order, s.idx)
  {
    forall id :: id in targets <==>
      && id in s.objects && id != s.chunks.activeId && id !in silent
      && WorthCompacting(s, id, Flatten(order, s.idx.extents), threshold)
  }

  /** The bytes of a stored chunk that no file uses. */
  function Orphaned(s: Fs, order: seq<Ino>, id: string): int
    requires Walk(order, s.idx) && id in s.objects
  {
    |s.objects[id]| - TotalLength(LiveIn(Flatten(order, s.idx.extents), id))
  }

  /**
   What the choice means for each sealed chunk whose size is known: taken, it
   frees at least its share of bytes; left, it is not empty and would free less.
   One that no file uses is taken and one that files use up is left, at any
   threshold where that makes a difference.
   */
  ghost predicate WellChosen(s: Fs, order: seq<Ino>, targets: seq<string>, silent: set<string>, threshold: real)
    requires Walk(order, s.idx)
  {
    && (forall id | id in targets :: id in s.objects && id != s.chunks.activeId && id !in silent)
    && forall id | id in s.objects && id != s.chunks.activeId && id !in silent ::
         var size, orphaned := |s.objects[id]|, Orphaned(s, order, id);
         && (id in targets ==> orphaned as real >= Share(threshold, size))
         && (id !in targets ==> size > 0 && (orphaned as real) < Share(threshold, size))
         && (threshold <= 1.0 && !Refers(s.idx, id) ==> id in targets)
         && (threshold > 0.0 && size > 0 && orphaned == 0 ==> id !in targets)
  }

  lemma {:induction false} UnreferredIsOrphaned(live: seq<Extent>, id: string)
    requires forall k | 0 <= k < |live| :: live[k].chunkId != id
    ensures LiveIn(live, id) == []
  {
    if live == [] {
    } else {
      UnreferredIsOrphaned(live[..|live| - 1], id);
    }
  }

  lemma LiveIsReferred(d: IndexData, order: seq<Ino>, k: nat)
    requires Walk(order, d) && k < |Flatten(order, d.extents)|
    ensures Refers(d, Flatten(order, d.extents)[k].chunkId)
  {
    var e := Flatten(order, d.extents)[k];
    FlattenMembers(order, d, e);
    var n :| 0 <= n < |order| && e in d.extents[order[n]];
    var l :| 0 <= l < |d.extents[order[n]]| && d.extents[order[n]][l] == e;
  }

  lemma ChoiceOf(s: Fs, order: seq<Ino>, id: string, threshold: real)
    requires Inv(s) && Enumerates(order, s.idx.extents.Keys) && Walk(order, s.idx)
    requires id in s.objects && id != s.chunks.activeId
    ensures var size, orphaned := |s.objects[id]|, Orphaned(s, order, id);
            var worth := WorthCompacting(s, id, Flatten(order, s.idx.extents), threshold);
            && 0 <= orphaned <= size && (size == 0 ==> worth) && (!Refers(s.idx, id) ==> orphaned == size)
            && (worth <==> size == 0 || orphaned as real >= Share(threshold, size))
  {
    LiveInBounded(s.idx, FsView(s), order, id);
    var live := Flatten(order, s.idx.extents);
    if !Refers(s.idx, id) {
      forall k | 0 <= k < |live| ensures live[k].chunkId != id {
        LiveIsReferred(s.idx, order, k);
      }
      UnreferredIsOrphaned(live, id);
    }
  }

  lemma {:induction false} ShareBounds(size: nat, threshold: real)
    ensures threshold <= 1.0 ==> size as real >= Share(threshold, size)
    ensures threshold > 0.0 && size > 0 ==> Share(threshold, size) > 0.0
    decreases size
  {
    if size == 0 {
    } else {
      ShareBounds(size - 1, threshold);
    }
  }

  lemma SelectedWell(s: Fs, order: seq<Ino>, targets: seq<string>, silent: set<string>, threshold: real)
    requires Inv(s) && Chosen(s, order, targets) && Selected(s, order, targets, silent, threshold)
    ensures WellChosen(s, order, targets, silent, threshold)
  {
    forall id | id in s.objects && id != s.chunks.activeId && id !in silent
      ensures var size, orphaned := |s.objects[id]|, Orphaned(s, order, id);
              && (id in targets ==> orphaned as real >= Share(threshold, size))
              && (id !in targets ==> size > 0 && (orphaned as real) < Share(threshold, size))
              && (threshold <= 1.0 && !Refers(s.idx, id) ==> id in targets)
              && (threshold > 0.0 && size > 0 && orphaned == 0 ==> id !in targets)
    {
      ChoiceOf(s, order, id, threshold);
      ShareBounds(|s.objects[id]|, threshold);
    }
  }

  lemma {:induction false} SharesAddUp(s: Fs, order: seq<Ino>, targets: seq<string>, threshold: real)
    requires Walk(order, s.idx) && forall k | 0 <= k < |targets| :: targets[k] in s.objects
    requires forall k | 0 <= k < |targets| ::
               Orphaned(s, order, targets[k]) as real >= Share(threshold, |s.objects[targets[k]]|)
    ensures OrphanBytes(targets, Flatten(order, s.idx.extents), s.objects) as real >=
            Share(threshold, SizeOfAll(targets, s.objects))
    decreases |targets|
  {
    if targets == [] {
    } else {
      var n := |targets| - 1;
      SharesAddUp(s, order, targets[..n], threshold);
      ShareAdds(threshold, SizeOfAll(targets[..n], s.objects), |s.objects[targets[n]]|);
    }
  }

  function JobsFor(s: Fs, order: seq<Ino>, targets: seq<string>): seq<Extent>
    requires Walk(order, s.idx)
  {
    Jobs(targets, Flatten(order, s.idx.extents))
  }

  /** Names that the clock gives to outputs are new. */
  ghost predicate FreshNames(objs: View, clock: nat -> nat) {
    forall k: nat :: CompactedId(clock(k), k) !in objs
  }

  ghost predicate PlanOk(s: Fs, p: Pack, jobs: seq<Extent>, targets: seq<string>, clock: nat -> nat) {
    && Inv(s) && DistinctKeys(jobs) && JobsIn(jobs, FsView(s))
    && (forall e :: e in jobs <==> IsLive(s.idx, e) && e.chunkId in targets)
    && PackOk(p, jobs, FsView(s), clock)
    && DistinctOuts(p.outs) && NewTo(p.outs, s.objects)
    && (forall k | 0 <= k < |p.outs| :: COMPACTED_PREFIX <= p.outs[k].id)
  }

  lemma NamedNew(outs: seq<Output>, clock: nat -> nat, objs: View)
    requires NamedByClock(outs, clock) && FreshNames(objs, clock)
    ensures NewTo(outs, objs)
  {
  }

  lemma JobsInView(s: Fs, order: seq<Ino>, targets: seq<string>)
    requires Inv(s) && Chosen(s, order, targets)
    ensures JobsIn(JobsFor(s, order, targets), FsView(s))
  {
    JobsAreLive(s.idx, FsView(s), order, targets);
  }

  /** Packing distinct jobs places them all, under distinct new names. */
  lemma PackedNames(objs: View, jobs: seq<Extent>, v: View, limit: nat, clock: nat -> nat)
    requires DistinctKeys(jobs) && JobsIn(jobs, v) && FreshNames(objs, clock)
    ensures var p := PackAll(jobs, v, limit, clock);
            && PackOk(p, jobs, v, clock) && DistinctOuts(p.outs) && NewTo(p.outs, objs)
            && forall k | 0 <= k < |p.outs| :: COMPACTED_PREFIX <= p.outs[k].id
  {
    PackAllOk(jobs, v, limit, clock);
    ClockDistinct(PackAll(jobs, v, limit, clock).outs, clock);
    NamedNew(PackAll(jobs, v, limit, clock).outs, clock, objs);
  }

  lemma PlanHolds(s: Fs, order: seq<Ino>, targets: seq<string>, limit: nat, clock: nat -> nat)
    requires Inv(s) && Chosen(s, order, targets) && FreshNames(s.objects, clock)
    ensures JobsIn(JobsFor(s, order, targets), FsView(s))
    ensures var jobs := JobsFor(s, order, targets);
            PlanOk(s, PackAll(jobs, FsView(s), limit, clock), jobs, targets, clock)
  {
    JobsAreLive(s.idx, FsView(s), order, targets);
    PackedNames(s.objects, JobsFor(s, order, targets), FsView(s), limit, clock);
  }

  function AfterPuts(s: Fs, outs: seq<Output>): Fs {
    s.(objects := PutAll(s.objects, outs))
  }

  lemma OutputsWritten(s: Fs, outs: seq<Output>)
    requires ChunkOk(s.chunks, s.objects) && DistinctOuts(outs) && NewTo(outs, s.objects)
    requires forall k | 0 <= k < |outs| :: COMPACTED_PREFIX <= outs[k].id
    ensures Written(outs, FsView(s), FsView(AfterPuts(s, outs)))
  {
    PutAllGrows(s.objects, outs);
    forall k | 0 <= k < |outs| ensures outs[k].id !in FsView(s) {
      CompactedHasNoSeq(outs[k].id);
    }
    forall k | 0 <= k < |outs| && outs[k].buf != []
      ensures outs[k].id in FsView(AfterPuts(s, outs)) && FsView(AfterPuts(s, outs))[outs[k].id] == outs[k].buf
    {
      PutAllHolds(s.objects, outs, k);
    }
  }

  lemma PlanPacked(s: Fs, p: Pack, jobs: seq<Extent>, targets: seq<string>, clock: nat -> nat)
    requires PlanOk(s, p, jobs, targets, clock)
    ensures PackedFor(p, jobs, s.idx, FsView(s), FsView(AfterPuts(s, p.outs)), clock)
  {
    OutputsWritten(s, p.outs);
    forall k | 0 <= k < |jobs| ensures IsLive(s.idx, jobs[k]) {
      assert jobs[k] in jobs;
    }
  }

  /** The remap is safe, and after it no file refers to a target. */
  lemma RemapSafe(s: Fs, p: Pack, jobs: seq<Extent>, targets: seq<string>, clock: nat -> nat)
    requires PlanOk(s, p, jobs, targets, clock)
    requires forall t | 0 <= t < |targets| :: targets[t] in s.objects
    ensures OpOk(AfterPuts(s, p.outs), Remap(p.remap))
    ensures forall t | 0 <= t < |targets| :: !Refers(RemapExtents(s.idx, p.remap), targets[t])
  {
    PlanPacked(s, p, jobs, targets, clock);
    var v, v' := FsView(s), FsView(AfterPuts(s, p.outs));
    PackedRemapOk(p, jobs, s.idx, v, v', clock);
    RemapExtentsLists(s.idx, p.remap);
    forall i, k | i in s.idx.extents && 0 <= k < |s.idx.extents[i]|
      ensures RemapOne(s.idx.extents[i][k], p.remap).chunkId !in targets
    {
      TargetsUnreferred(p, jobs, s.idx, v, v', clock, targets, i, k);
    }
  }

  /** Packing anything makes the remapped index refer to a compacted chunk. */
  lemma RemapRefersCompacted(s: Fs, p: Pack, jobs: seq<Extent>, targets: seq<string>, clock: nat -> nat)
    requires PlanOk(s, p, jobs, targets, clock) && jobs != []
    ensures RefersCompacted(RemapExtents(s.idx, p.remap))
  {
    var e := jobs[0];
    assert e in jobs && IsLive(s.idx, e);
    var i, k :| i in s.idx.extents && 0 <= k < |s.idx.extents[i]| && s.idx.extents[i][k] == e;
    assert Placed(p, FsView(s), e);
    RemapExtentsLists(s.idx, p.remap);
    var d := RemapExtents(s.idx, p.remap);
    assert d.extents[i][k] == p.remap[e.Key()];
    assert COMPACTED_PREFIX <= d.extents[i][k].chunkId;
  }

  lemma RemapNothing(d: IndexData)
    ensures RemapExtents(d, map[]) == d
  {
    RemapExtentsLists(d, map[]);
    forall i | i in d.extents ensures RemapList(d.extents[i], map[]) == d.extents[i] {
    }
  }

  /** The remapped index can be encoded exactly if nothing was packed and it could be before. */
  lemma RemapEncodableIff(s: Fs, p: Pack, jobs: seq<Extent>, targets: seq<string>, clock: nat -> nat)
    requires PlanOk(s, p, jobs, targets, clock)
    ensures AllEncodable(RemapExtents(s.idx, p.remap).extents) <==> jobs == [] && AllEncodable(s.idx.extents)
  {
    var d := RemapExtents(s.idx, p.remap);
    if jobs == [] {
      assert p.remap == map[];
      RemapNothing(s.idx);
    } else {
      RemapRefersCompacted(s, p, jobs, targets, clock);
      var i, k :| i in d.extents && 0 <= k < |d.extents[i]| && COMPACTED_PREFIX <= d.extents[i][k].chunkId;
      CompactedNotEncodable(d, i, k);
    }
  }

  /** Persisting changes no index, and no chunk but the active one. */
  lemma {:induction false} PersistFrame(s: Fs, ops: seq<Op>)
    requires PersistSteps(ops)
    ensures var t := Run(s, ops);
            && t.idx == s.idx && t.chunks.activeId == s.chunks.activeId
            && (!s.chunks.dirty ==> t.objects == s.objects)
    decreases |ops|
  {
    if ops == [] {
    } else {
      PersistFrame(Step(s, ops[0]), ops[1..]);
    }
  }

  predicate NoDeletes(ops: seq<Op>) {
    forall k | 0 <= k < |ops| :: !ops[k].DeleteChunk?
  }

  /** The chunk is not active and no index refers to it. */
  ghost predicate Deletable(s: Fs, id: string) {
    && id != s.chunks.activeId && !Refers(s.idx, id)
    && (s.durable.Some? ==> !Refers(s.durable.value, id))
    && (s.remote.InHand? ==> !Refers(s.remote.data, id))
  }

  /** A name that was never used is not in the store. */
  lemma HeldNames(c: Chunks, held: map<string, Bytes>, files: map<string, Bytes>, clock: nat -> nat)
    requires ChunkOk(c.state, c.objects) && CacheOk(c, held, files) && FreshNames(held, clock)
    ensures FreshNames(c.objects, clock)
  {
    forall k: nat ensures CompactedId(clock(k), k) !in c.objects {
      CompactedHasNoSeq(CompactedId(clock(k), k));
    }
  }

  function Without(objs: View, ids: seq<string>): View {
    objs - (set k | 0 <= k < |ids| :: ids[k])
  }

  predicate Gone(ids: seq<string>, objs: View) {
    forall k | 0 <= k < |ids| :: ids[k] !in objs
  }

  lemma WithoutSnoc(objs: View, ids: seq<string>, id: string)
    ensures Without(objs, ids + [id]) == Without(objs, ids) - {id}
  {
    var all := ids + [id];
    assert (set k | 0 <= k < |all| :: all[k]) == (set k | 0 <= k < |ids| :: ids[k]) + {id} by {
      assert all[|ids|] == id;
      assert forall k | 0 <= k < |ids| :: all[k] == ids[k];
    }
  }

  // ---- The runs that the two loops are ----

  lemma ExtendRun(s: Fs, ops: seq<Op>, op: Op)
    requires RunOk(s, ops) && CompactSteps(ops) && OpOk(Run(s, ops), op) && CompactStep(op)
    ensures RunOk(s, ops + [op]) && CompactSteps(ops + [op]) && Run(s, ops + [op]) == Step(Run(s, ops), op)
    ensures NoDeletes(ops) && !op.DeleteChunk? ==> NoDeletes(ops + [op])
  {
    RunSnoc(s, ops, op);
  }

  ghost function PutOpsOf(outs: seq<Output>): seq<Op> {
    if outs == [] then []
    else
      var n := |outs| - 1;
      PutOpsOf(outs[..n]) + if outs[n].buf == [] then [] else [PutSealed(outs[n].id, outs[n].buf, Stored)]
  }

  /** Puts of the first `k` outputs, and one of the next that did not succeed, if there is one. */
  ghost function PutsUpTo(outs: seq<Output>, k: nat, o: PutOutcome): seq<Op>
    requires k <= |outs|
  {
    PutOpsOf(outs[..k]) + if k == |outs| then [] else [PutSealed(outs[k].id, outs[k].buf, o)]
  }

  ghost function ObjectsAfter(objs: View, outs: seq<Output>, k: nat, o: PutOutcome): View
    requires k <= |outs|
  {
    if k == |outs| then PutAll(objs, outs) else Landed(PutAll(objs, outs[..k]), outs[k].id, outs[k].buf, o)
  }

  ghost predicate NewOutputs(outs: seq<Output>, objs: View) {
    DistinctOuts(outs) && NewTo(outs, objs) && forall k | 0 <= k < |outs| :: COMPACTED_PREFIX <= outs[k].id
  }

  lemma {:induction false} PutOpsRun(s: Fs, outs: seq<Output>)
    requires NewOutputs(outs, s.objects)
    ensures var ops := PutOpsOf(outs);
            RunOk(s, ops) && CompactSteps(ops) && NoDeletes(ops) && Run(s, ops) == AfterPuts(s, outs)
  {
    if outs == [] {
    } else {
      var n := |outs| - 1;
      PutOpsRun(s, outs[..n]);
      EachIsNew(s.objects, outs, n);
      assert outs[..n + 1] == outs;
      if outs[n].buf == [] {
        assert PutOpsOf(outs) == PutOpsOf(outs[..n]);
      } else {
        ExtendRun(s, PutOpsOf(outs[..n]), PutSealed(outs[n].id, outs[n].buf, Stored));
      }
    }
  }

  lemma PutsRun(s: Fs, outs: seq<Output>, k: nat, o: PutOutcome)
    requires NewOutputs(outs, s.objects) && k <= |outs|
    ensures var ops := PutsUpTo(outs, k, o);
            && RunOk(s, ops) && CompactSteps(ops) && NoDeletes(ops)
            && Run(s, ops) == s.(objects := ObjectsAfter(s.objects, outs, k, o))
  {
    PutOpsRun(s, outs[..k]);
    if k == |outs| {
      assert outs[..k] == outs && PutsUpTo(outs, k, o) == PutOpsOf(outs);
    } else {
      EachIsNew(s.objects, outs, k);
      ExtendRun(s, PutOpsOf(outs[..k]), PutSealed(outs[k].id, outs[k].buf, o));
    }
  }

  ghost function DeleteOpsOf(ids: seq<string>): seq<Op> {
    seq(|ids|, k requires 0 <= k < |ids| => DeleteChunk(ids[k], true))
  }

  /** Deletions of the first `k` chunks, and one of the next that reported failure, if there is one. */
  ghost function DeletesUpTo(ids: seq<string>, k: nat, reached: bool): seq<Op>
    requires k <= |ids|
  {
    DeleteOpsOf(ids[..k]) + if k == |ids| then [] else [DeleteChunk(ids[k], reached)]
  }

  ghost function ObjectsLeft(objs: View, ids: seq<string>, k: nat, reached: bool): View
    requires k <= |ids|
  {
    Without(objs, ids[..k]) - if k < |ids| && reached then {ids[k]} else {}
  }

  lemma {:induction false} DeleteOpsRun(s: Fs, ids: seq<string>)
    requires forall k | 0 <= k < |ids| :: Deletable(s, ids[k])
    ensures var ops := DeleteOpsOf(ids);
            RunOk(s, ops) && CompactSteps(ops) && Run(s, ops) == s.(objects := Without(s.objects, ids))
  {
    if ids == [] {
      assert Without(s.objects, ids) == s.objects;
    } else {
      var n := |ids| - 1;
      DeleteOpsRun(s, ids[..n]);
      assert Deletable(s, ids[n]);
      ExtendRun(s, DeleteOpsOf(ids[..n]), DeleteChunk(ids[n], true));
      assert DeleteOpsOf(ids) == DeleteOpsOf(ids[..n]) + [DeleteChunk(ids[n], true)];
      WithoutSnoc(s.objects, ids[..n], ids[n]);
      assert ids == ids[..n] + [ids[n]];
    }
  }

  lemma DeletesRun(s: Fs, ids: seq<string>, k: nat, reached: bool)
    requires k <= |ids| && forall k | 0 <= k < |ids| :: Deletable(s, ids[k])
    ensures var ops := DeletesUpTo(ids, k, reached);
            && RunOk(s, ops) && CompactSteps(ops)
            && Run(s, ops) == s.(objects := ObjectsLeft(s.objects, ids, k, reached))
    ensures k == |ids| ==> ObjectsLeft(s.objects, ids, k, reached) == Without(s.objects, ids)
  {
    DeleteOpsRun(s, ids[..k]);
    if k == |ids| {
      assert ids[..k] == ids && DeletesUpTo(ids, k, reached) == DeleteOpsOf(ids);
      assert Without(s.objects, ids) - {} == Without(s.objects, ids);
    } else {
      assert Deletable(s, ids[k]);
      ExtendRun(s, DeleteOpsOf(ids[..k]), DeleteChunk(ids[k], reached));
    }
  }

  class Compactor {
    const fs: Fusey
    const threshold: real
    const chunkSize: nat

    constructor (fs: Fusey, threshold: real, chunkSize: nat)
      ensures this.fs == fs && this.threshold == threshold && this.chunkSize == chunkSize
    {
      this.fs, this.threshold, this.chunkSize := fs, threshold, chunkSize;
    }

    ghost function State(): Fs
      reads fs, fs.idx, fs.cs, fs.cs.store, fs.cacheDir
    {
      fs.State()
    }

    /** Exactly the sealed chunks worth compacting, less those whose size the store would not tell. */
    method SelectTargets(sealed: seq<string>, ghost live: seq<Extent>, byChunk: map<string, seq<Extent>>)
      returns (targets: seq<string>, ghost silent: set<string>)
      requires Groups(byChunk, live)
      requires DistinctIds(sealed) && forall k | 0 <= k < |sealed| :: sealed[k] in FsView(State())
      ensures DistinctIds(targets)
      ensures forall id :: id in targets <==>
                id in sealed && id !in silent && WorthCompacting(State(), id, live, threshold)
      ensures fs.cs.store.up ==> silent == {}
    {
      targets, silent := [], {};
      for k := 0 to |sealed|
        invariant DistinctIds(targets) && forall id | id in silent :: id in sealed[..k]
        invariant fs.cs.store.up ==> silent == {}
        invariant forall id :: id in targets <==>
          id in sealed[..k] && id !in silent && WorthCompacting(State(), id, live, threshold)
      {
        var id := sealed[k];
        assert id !in sealed[..k];
        assert sealed[..k + 1] == sealed[..k] + [id];
        var total := fs.cs.SealedSize(id);
        if total.None? {
          silent := silent + {id};
          continue;
        }
        var n := SumLengths(Group(byChunk, id));
        WorthwhileIff(total.value, n, threshold);
        if Worthwhile(total.value, n, threshold) {
          targets := targets + [id];
        }
      }
      assert sealed[..|sealed|] == sealed;
    }

    /** The bytes of one live extent. */
    method ReadExtent(e: Extent, ghost v: View) returns (data: Option<Bytes>)
      requires fs.cs.Valid() && v == fs.cs.View() && InView(e, v)
      modifies fs.cs`files
      ensures fs.cs.Valid()
      ensures data.Some? ==> data.value == ChunkSlice(v, e)
      ensures fs.cs.Reachable() ==> data.Some?
    {
      data := fs.cs.Read(e.chunkId, e.chunkOffset, e.length);
    }

    static lemma PackSnoc(done: seq<Extent>, e: Extent, v: View, limit: nat, clock: nat -> nat)
      requires JobsIn(done, v) && InView(e, v)
      ensures JobsIn(done + [e], v)
      ensures PackAll(done + [e], v, limit, clock) ==
              PackOne(PackAll(done, v, limit, clock), e, ChunkSlice(v, e), limit, clock)
    {
      assert (done + [e])[..|done + [e]| - 1] == done;
    }

    /** Reads and packs one live extent, after those already packed. */
    method PackExtent(p: Pack, e: Extent, clock: nat -> nat, ghost done: seq<Extent>, ghost v: View)
      returns (ok: bool, p': Pack, ghost done': seq<Extent>)
      requires fs.cs.Valid() && v == fs.cs.View() && JobsIn(done, v) && InView(e, v)
      requires p == PackAll(done, v, chunkSize, clock)
      modifies fs.cs`files
      ensures fs.cs.Valid()
      ensures JobsIn(done', v) && p' == PackAll(done', v, chunkSize, clock)
      ensures done' == (if ok then done + [e] else done) && (fs.cs.Reachable() ==> ok)
    {
      PackSnoc(done, e, v, chunkSize, clock);
      var data := ReadExtent(e, v);
      if data.None? {
        return false, p, done;
      }
      p' := PackOne(p, e, data.value, chunkSize, clock);
      ok, done' := true, done + [e];
    }

    static lemma PartSnoc(before: seq<Extent>, list: seq<Extent>, k: nat)
      requires k < |list|
      ensures (before + list[..k]) + [list[k]] == before + list[..k + 1]
    {
    }

    method PackNext(p: Pack, list: seq<Extent>, k: nat, clock: nat -> nat, ghost before: seq<Extent>,
                    ghost done: seq<Extent>, ghost v: View)
      returns (ok: bool, p': Pack, ghost done': seq<Extent>)
      requires k < |list| && done == before + list[..k]
      requires fs.cs.Valid() && v == fs.cs.View() && JobsIn(done, v) && InView(list[k], v)
      requires p == PackAll(done, v, chunkSize, clock)
      modifies fs.cs`files
      ensures fs.cs.Valid() && v == fs.cs.View()
      ensures JobsIn(done', v) && p' == PackAll(done', v, chunkSize, clock)
      ensures (ok ==> done' == before + list[..k + 1]) && (fs.cs.Reachable() ==> ok)
    {
      PartSnoc(before, list, k);
      ok, p', done' := PackExtent(p, list[k], clock, done, v);
    }

    static lemma PartWhole(before: seq<Extent>, list: seq<Extent>)
      ensures before + list[..|list|] == before + list
      ensures before + list[..0] == before
    {
    }

    /** Reads and packs the live extents of one target. */
    method PackList(p: Pack, list: seq<Extent>, clock: nat -> nat, ghost before: seq<Extent>, ghost v: View)
      returns (ok: bool, p': Pack, ghost done: seq<Extent>)
      requires fs.cs.Valid() && v == fs.cs.View() && JobsIn(before, v) && JobsIn(list, v)
      requires p == PackAll(before, v, chunkSize, clock)
      modifies fs.cs`files
      ensures fs.cs.Valid()
      ensures JobsIn(done, v) && p' == PackAll(done, v, chunkSize, clock)
      ensures (ok ==> done == before + list) && (fs.cs.Reachable() ==> ok)
    {
      p', ok, done := p, true, before;
      PartWhole(before, list);
      for k := 0 to |list|
        invariant fs.cs.Valid() && v == fs.cs.View() && done == before + list[..k]
        invariant JobsIn(done, v) && p' == PackAll(done, v, chunkSize, clock)
      {
        ok, p', done := PackNext(p', list, k, clock, before, done, v);
        if !ok {
          return;
        }
      }
      PartWhole(before, list);
    }

    static lemma JobsUnfold(targets: seq<string>, live: seq<Extent>, t: nat)
      requires t < |targets|
      ensures Jobs(targets[..t + 1], live) == Jobs(targets[..t], live) + LiveIn(live, targets[t])
    {
      assert targets[..t + 1][..t] == targets[..t];
    }

    static lemma JobsInParts(xs: seq<Extent>, ys: seq<Extent>, v: View)
      requires JobsIn(xs + ys, v)
      ensures JobsIn(ys, v)
    {
      forall k | 0 <= k < |ys| ensures InView(ys[k], v) {
        assert (xs + ys)[|xs| + k] == ys[k];
      }
    }

    static lemma {:induction false} JobsPrefix(targets: seq<string>, live: seq<Extent>, t: nat, v: View)
      requires t <= |targets| && JobsIn(Jobs(targets, live), v)
      ensures JobsIn(Jobs(targets[..t], live), v)
      decreases |targets|
    {
      if t < |targets| {
        var front := targets[..|targets| - 1];
        assert Jobs(front, live) == Jobs(targets, live)[..|Jobs(front, live)|];
        JobsPrefix(front, live, t, v);
        assert front[..t] == targets[..t];
      } else {
        assert targets[..t] == targets;
      }
    }

    static lemma JobsStep(targets: seq<string>, live: seq<Extent>, t: nat, v: View)
      requires t < |targets| && JobsIn(Jobs(targets, live), v)
      ensures JobsIn(Jobs(targets[..t], live), v) && JobsIn(LiveIn(live, targets[t]), v)
      ensures Jobs(targets[..t + 1], live) == Jobs(targets[..t], live) + LiveIn(live, targets[t])
    {
      JobsUnfold(targets, live, t);
      JobsPrefix(targets, live, t, v);
      JobsPrefix(targets, live, t + 1, v);
      JobsInParts(Jobs(targets[..t], live), LiveIn(live, targets[t]), v);
    }

    /** Reads every live extent of the targets and packs it; gives up at the first failed read. */
    method PackTargets(targets: seq<string>, ghost live: seq<Extent>, byChunk: map<string, seq<Extent>>,
                       clock: nat -> nat) returns (ok: bool, p: Pack)
      requires Groups(byChunk, live)
      requires fs.cs.Valid() && JobsIn(Jobs(targets, live), fs.cs.View())
      modifies fs.cs`files
      ensures fs.cs.Valid()
      ensures ok ==> p == PackAll(Jobs(targets, live), fs.cs.View(), chunkSize, clock)
      ensures fs.cs.Reachable() ==> ok
    {
      ghost var v, done: seq<Extent> := fs.cs.View(), [];
      p, ok := Pack(Opened([], clock), map[]), true;
      for t := 0 to |targets|
        invariant fs.cs.Valid() && v == fs.cs.View()
        invariant JobsIn(done, v) && p == PackAll(done, v, chunkSize, clock)
        invariant done == Jobs(targets[..t], live)
      {
        JobsStep(targets, live, t, v);
        ok, p, done := PackList(p, Group(byChunk, targets[t]), clock, done, v);
        if !ok {
          return;
        }
      }
      assert targets[..|targets|] == targets;
    }

    /** The loop over the outputs: all are put, or the first `k` and what came of the next. */
    method PutEach(outs: seq<Output>) returns (ok: bool, ghost k: nat, ghost o: PutOutcome)
      requires DistinctOuts(outs) && NewTo(outs, fs.cs.store.objects) && NewTo(outs, fs.cs.held) && fs.cs.Valid()
      requires forall k | 0 <= k < |outs| :: COMPACTED_PREFIX <= outs[k].id
      modifies fs.cs`held, fs.cs.store`objects
      ensures k <= |outs| && (ok <==> k == |outs|) && (!ok ==> outs[k].buf != [])
      ensures fs.cs.store.objects == ObjectsAfter(old(fs.cs.store.objects), outs, k, o)
      ensures fs.cs.Valid() && (fs.cs.store.up ==> ok)
    {
      ghost var objs, held := fs.cs.store.objects, fs.cs.held;
      ok, o := true, Stored;
      for n := 0 to |outs|
        invariant fs.cs.Valid()
        invariant fs.cs.store.objects == PutAll(objs, outs[..n]) && fs.cs.held == PutAll(held, outs[..n])
      {
        EachIsNew(objs, outs, n);
        EachIsNew(held, outs, n);
        if outs[n].buf == [] {
          continue;
        }
        var out := fs.cs.PutSealed(outs[n].id, outs[n].buf);
        if !out.Stored? {
          return false, n, out;
        }
      }
      k := |outs|;
      assert outs[..|outs|] == outs;
    }

    /** Puts every non-empty output; stops at the first put that fails. */
    method PutOutputs(outs: seq<Output>) returns (ok: bool, ghost ops: seq<Op>)
      requires DistinctOuts(outs) && NewTo(outs, State().objects) && NewTo(outs, fs.cs.held) && fs.cs.Valid()
      requires forall k | 0 <= k < |outs| :: COMPACTED_PREFIX <= outs[k].id
      modifies fs.cs`held, fs.cs.store`objects
      ensures RunOk(old(State()), ops) && CompactSteps(ops) && NoDeletes(ops) && State() == Run(old(State()), ops)
      ensures State() == old(State()).(objects := State().objects) && fs.cs.Valid()
      ensures ok ==> State().objects == PutAll(old(State()).objects, outs)
      ensures fs.cs.store.up ==> ok
    {
      ghost var k, o := 0, Stored;
      ok, k, o := PutEach(outs);
      PutsRun(old(State()), outs, k, o);
      ops := PutsUpTo(outs, k, o);
    }

    method DeleteOne(id: string) returns (ok: bool, ghost reached: bool)
      requires fs.cs.Valid() && id != fs.cs.activeId
      modifies fs.cs.store`objects
      ensures fs.cs.store.objects == old(fs.cs.store.objects) - if reached then {id} else {}
      ensures fs.cs.Valid() && (ok ==> reached) && (fs.cs.store.up ==> ok)
    {
      ok, reached := fs.cs.DeleteChunk(id);
    }

    /** Deletes the next target. */
    method DeleteNext(targets: seq<string>, n: nat, ghost objs: View) returns (ok: bool, ghost reached: bool)
      requires n < |targets| && fs.cs.Valid() && targets[n] != fs.cs.activeId
      requires fs.cs.store.objects == ObjectsLeft(objs, targets, n, false)
      modifies fs.cs.store`objects
      ensures fs.cs.store.objects ==
              if ok then ObjectsLeft(objs, targets, n + 1, false) else ObjectsLeft(objs, targets, n, reached)
      ensures fs.cs.Valid() && (fs.cs.store.up ==> ok)
    {
      WithoutSnoc(objs, targets[..n], targets[n]);
      assert targets[..n + 1] == targets[..n] + [targets[n]];
      ok, reached := DeleteOne(targets[n]);
    }

    /** The loop over the targets; a deletion that reports failure may have been carried out. */
    method DeleteEach(targets: seq<string>) returns (ok: bool, ghost k: nat, ghost reached: bool)
      requires fs.cs.Valid() && fs.cs.activeId !in targets
      modifies fs.cs.store`objects
      ensures k <= |targets| && (ok <==> k == |targets|)
      ensures fs.cs.store.objects == ObjectsLeft(old(fs.cs.store.objects), targets, k, reached)
      ensures fs.cs.Valid() && (fs.cs.store.up ==> ok)
    {
      ghost var objs := fs.cs.store.objects;
      ok, reached := true, false;
      for n := 0 to |targets|
        invariant fs.cs.Valid() && fs.cs.store.objects == ObjectsLeft(objs, targets, n, false)
      {
        ghost var gone;
        ok, gone := DeleteNext(targets, n, objs);
        if !ok {
          return false, n, gone;
        }
      }
      k, ok := |targets|, true;
    }

    /** Deletes the targets one by one; stops at the first deletion that fails. */
    method DeleteTargets(targets: seq<string>) returns (ok: bool, ghost ops: seq<Op>)
      requires fs.cs.Valid() && forall k | 0 <= k < |targets| :: Deletable(State(), targets[k])
      modifies fs.cs.store`objects
      ensures RunOk(old(State()), ops) && CompactSteps(ops) && State() == Run(old(State()), ops) && fs.cs.Valid()
      ensures ok ==> State() == old(State()).(objects := Without(old(State()).objects, targets))
      ensures fs.cs.store.up ==> ok
    {
      ghost var s, k, reached := State(), 0, false;
      ok, k, reached := DeleteEach(targets);
      assert State() == s.(objects := fs.cs.store.objects);
      DeletesRun(s, targets, k, reached);
      ops := DeletesUpTo(targets, k, reached);
    }

    method PutAny() returns (ok: bool, ghost put: PutOutcome)
      modifies fs.idx, fs.cs.store`index
      ensures State() == AfterPut(old(State()), Some(put))
      ensures ok == put.Stored? && (fs.cs.store.up ==> ok)
    {
      var idx := fs.idx;
      var o := fs.cs.store.PutRaw(IndexData(idx.inodes, idx.dirs, idx.extents, idx.symlinks, idx.xattrs, idx.nextIno));
      put, ok := o, o.Stored?;
      if ok {
        fs.idx.remoteDirty := false;
      }
    }

    method FlushThenPutAny() returns (ok: bool, ghost ops: seq<Op>)
      requires Ready(fs)
      modifies fs.idx, fs.cs, fs.cs.store`objects, fs.cs.store`index
      ensures RunOk(old(State()), ops) && PersistSteps(ops) && State() == Run(old(State()), ops) && fs.cs.Valid()
      ensures ok ==> State().durable == Some(State().idx)
      ensures fs.cs.store.up ==> ok
    {
      ghost var s, o := State(), Stored;
      var p := new Persister(fs);
      ok, o := p.FlushChunk();
      RunOfOne(s, FlushActive(o));
      ops := [FlushActive(o)];
      if !ok {
        return;
      }
      ghost var put;
      ok, put := PutAny();
      Persister.RemoteRuns(s, o, Some(put));
      ops := Persister.RemoteOps(o, true, Some(put));
    }

    /**
     Makes the index durable.  `production` is the persist function of the
     daemon; otherwise it is one that can store any index, after the active chunk.
     */
    method PersistIndex(production: bool) returns (ok: bool, ghost ops: seq<Op>)
      requires Ready(fs) && State().dirty && State().remoteDirty
      modifies fs.idx, fs.cs, fs.cs.store`objects, fs.cs.store`index, fs.cacheDir`snapshot
      ensures RunOk(old(State()), ops) && PersistSteps(ops) && State() == Run(old(State()), ops) && fs.cs.Valid()
      ensures ok ==> State().durable == Some(State().idx)
      ensures production && !AllEncodable(old(State()).idx.extents) ==> !ok
      ensures fs.cs.store.up && fs.cacheDir.up ==> (ok <==> production ==> AllEncodable(old(State()).idx.extents))
    {
      if production {
        var p := new Persister(fs);
        ok, ops := p.Persist();
      } else {
        ok, ops := FlushThenPutAny();
      }
    }

    /** Puts the outputs and remaps the index to them. */
    method PutAndRemap(p: Pack, clock: nat -> nat, ghost jobs: seq<Extent>, ghost targets: seq<string>)
      returns (ok: bool, ghost ops: seq<Op>)
      requires PlanOk(State(), p, jobs, targets, clock) && NewTo(p.outs, fs.cs.held) && fs.cs.Valid()
      requires forall t | 0 <= t < |targets| :: targets[t] in State().objects
      modifies fs.idx, fs.cs`held, fs.cs.store`objects
      ensures RunOk(old(State()), ops) && CompactSteps(ops) && NoDeletes(ops) && State() == Run(old(State()), ops)
      ensures fs.cs.Valid()
      ensures ok ==> State() == Step(AfterPuts(old(State()), p.outs), Remap(p.remap))
      ensures State().chunks == old(State()).chunks
      ensures ok ==> State().objects == PutAll(old(State()).objects, p.outs)
      ensures fs.cs.store.up ==> ok
    {
      ghost var s := State();
      ok, ops := PutOutputs(p.outs);
      if !ok {
        return;
      }
      RemapSafe(s, p, jobs, targets, clock);
      fs.idx.RemapExtents(p.remap);
      ExtendRun(s, ops, Remap(p.remap));
      ops := ops + [Remap(p.remap)];
    }

    /** Snapshots the live extents, lists the sealed chunks and selects the targets. */
    method Choose()
      returns (ok: bool, targets: seq<string>, live: seq<Extent>, byChunk: map<string, seq<Extent>>,
               ghost order: seq<Ino>, ghost silent: set<string>)
      ensures Chosen(State(), order, targets) && live == Flatten(order, State().idx.extents) && Groups(byChunk, live)
      ensures ok ==> Selected(State(), order, targets, silent, threshold)
      ensures !ok ==> targets == []
      ensures fs.cs.store.up ==> ok && silent == {}
    {
      live, order := fs.idx.LiveExtents();
      byChunk := GroupByChunk(live);
      targets, ok, silent := [], true, {};
      var sealed := fs.cs.ListSealed();
      if sealed.None? {
        ok := false;
        return;
      }
      targets, silent := SelectTargets(sealed.value, live, byChunk);
      forall k | 0 <= k < |targets| ensures targets[k] in State().objects && targets[k] != State().chunks.activeId {
        assert targets[k] in targets;
      }
    }

    /** Selects the targets and packs them; fills the cache and changes nothing else. */
    method Plan(clock: nat -> nat, ghost s: Fs)
      returns (ok: bool, targets: seq<string>, p: Pack, ghost order: seq<Ino>, ghost silent: set<string>)
      requires s == State() && Ready(fs) && FreshNames(s.objects, clock)
      modifies fs.cs`files
      ensures State() == s && Ready(fs)
      ensures Chosen(s, order, targets)
      ensures ok ==> Selected(s, order, targets, silent, threshold)
      ensures !ok ==> targets == []
      ensures fs.cs.Reachable() ==> ok && silent == {}
      ensures targets != [] ==>
                && JobsIn(JobsFor(s, order, targets), FsView(s))
                && p == PackAll(JobsFor(s, order, targets), FsView(s), chunkSize, clock)
    {
      var live, byChunk;
      p := Pack([], map[]);
      ok, targets, live, byChunk, order, silent := Choose();
      if targets == [] {
        return;
      }
      JobsInView(s, order, targets);
      ok, p := PackTargets(targets, live, byChunk, clock);
      if !ok {
        targets := [];
      }
    }

    /** Persists the remapped index and, only if that succeeded, deletes the targets. */
    method PersistAndDelete(targets: seq<string>, production: bool) returns (ok: bool, ghost ops: seq<Op>)
      requires Ready(fs) && State().dirty && State().remoteDirty
      requires forall k | 0 <= k < |targets| ::
                 targets[k] != State().chunks.activeId && !Refers(State().idx, targets[k])
      modifies fs.idx, fs.cs, fs.cs.store`objects, fs.cs.store`index, fs.cacheDir`snapshot
      ensures RunOk(old(State()), ops) && CompactSteps(ops) && State() == Run(old(State()), ops) && fs.cs.Valid()
      ensures production && !AllEncodable(old(State()).idx.extents) ==> !ok && NoDeletes(ops)
      ensures fs.cs.store.up && fs.cacheDir.up ==> (ok <==> production ==> AllEncodable(old(State()).idx.extents))
      ensures ok && !old(State()).chunks.dirty ==> State().objects == Without(old(State()).objects, targets)
      ensures ok ==> State().durable == Some(old(State()).idx) && Gone(targets, State().objects)
    {
      ghost var s := State();
      ok, ops := PersistIndex(production);
      if !ok {
        return;
      }
      PersistFrame(s, ops);
      ghost var more;
      ok, more := DeleteTargets(targets);
      RunConcat(s, ops, more);
      ops := ops + more;
    }

    static lemma CompactTransparent(s: Fs, ops: seq<Op>)
      requires Inv(s) && s.remote.Idle? && RunOk(s, ops) && CompactSteps(ops)
      ensures var t := Run(s, ops);
              && Inv(t) && Abs(t).files == Abs(s).files
              && (Abs(t).durable == Abs(s).durable || Abs(t).durable == Abs(t).files)
    {
      CompactKeepsFiles(s, s, ops);
    }

    /** The store shrank by exactly the bytes of the targets that no file used, and its new objects fit the limit. */
    static ghost predicate Repacked(s: Fs, order: seq<Ino>, targets: seq<string>, objs': View, limit: nat)
      requires Chosen(s, order, targets)
    {
      && StoreSize(s.objects) == StoreSize(objs') + OrphanBytes(targets, Flatten(order, s.idx.extents), s.objects)
      && OutputsFit(s.objects, objs', targets, JobsFor(s, order, targets), limit)
    }

    /** There is nothing to compact, or the index can be stored after the targets are packed. */
    static ghost predicate Completes(s: Fs, order: seq<Ino>, targets: seq<string>, production: bool)
      requires Walk(order, s.idx)
    {
      targets != [] && production ==> JobsFor(s, order, targets) == [] && AllEncodable(s.idx.extents)
    }

    static lemma NothingChosen(s: Fs, order: seq<Ino>, production: bool, limit: nat)
      requires Chosen(s, order, [])
      ensures JobsFor(s, order, []) == [] && Repacked(s, order, [], s.objects, limit)
      ensures Completes(s, order, [], production)
      ensures RunOk(s, []) && Run(s, []) == s
    {
      assert s.objects.Keys - s.objects.Keys == {};
    }

    static lemma Join(s: Fs, first: seq<Op>, more: seq<Op>)
      requires RunOk(s, first) && CompactSteps(first) && RunOk(Run(s, first), more) && CompactSteps(more)
      ensures RunOk(s, first + more) && CompactSteps(first + more) && Run(s, first + more) == Run(Run(s, first), more)
      ensures NoDeletes(first) && NoDeletes(more) ==> NoDeletes(first + more)
    {
      RunConcat(s, first, more);
    }

    static lemma ReadyToPersist(s: Fs, p: Pack, jobs: seq<Extent>, targets: seq<string>, clock: nat -> nat,
                                ops: seq<Op>)
      requires PlanOk(s, p, jobs, targets, clock) && StorePrinted(s) && DirsOk(s.idx) && s.remote.Idle?
      requires forall t | 0 <= t < |targets| :: targets[t] in s.objects && targets[t] != s.chunks.activeId
      requires RunOk(s, ops) && CompactSteps(ops) && Run(s, ops) == Step(AfterPuts(s, p.outs), Remap(p.remap))
      ensures var t := Run(s, ops);
              && Inv(t) && StorePrinted(t) && DirsOk(t.idx) && t.dirty && t.remoteDirty
              && (forall k | 0 <= k < |targets| :: targets[k] != t.chunks.activeId && !Refers(t.idx, targets[k]))
              && (AllEncodable(t.idx.extents) <==> jobs == [] && AllEncodable(s.idx.extents))
    {
      CompactKeepsFiles(s, s, ops);
      PrintedRun(s, ops);
      RemapSafe(s, p, jobs, targets, clock);
      RemapEncodableIff(s, p, jobs, targets, clock);
    }

    /** Carries out a plan: puts, remap, persist, deletions. */
    method Execute(ids: seq<string>, p: Pack, clock: nat -> nat, production: bool, ghost jobs: seq<Extent>)
      returns (ok: bool, ghost ops: seq<Op>)
      requires Ready(fs) && PlanOk(State(), p, jobs, ids, clock) && NewTo(p.outs, fs.cs.held)
      requires forall t | 0 <= t < |ids| :: ids[t] in State().objects && ids[t] != State().chunks.activeId
      modifies fs.idx, fs.cs, fs.cs.store`objects, fs.cs.store`index, fs.cacheDir`snapshot
      ensures RunOk(old(State()), ops) && CompactSteps(ops) && State() == Run(old(State()), ops) && fs.cs.Valid()
      ensures production && jobs != [] ==> !ok && NoDeletes(ops)
      ensures fs.cs.store.up && fs.cacheDir.up ==>
                (ok <==> production ==> jobs == [] && AllEncodable(old(State()).idx.extents))
      ensures ok ==> Gone(ids, State().objects)
      ensures ok && !old(State()).chunks.dirty ==> State().objects == Without(PutAll(old(State()).objects, p.outs), ids)
    {
      ghost var s := State();
      ok, ops := PutAndRemap(p, clock, jobs, ids);
      if !ok {
        return;
      }
      ReadyToPersist(s, p, jobs, ids, clock, ops);
      ghost var first, more := ops, [];
      ok, more := PersistAndDelete(ids, production);
      Join(s, first, more);
      ops := first + more;
    }

    /** Carries out a plan whose names were never used. */
    method CarryOut(ids: seq<string>, p: Pack, clock: nat -> nat, production: bool, ghost jobs: seq<Extent>)
      returns (ok: bool, ghost ops: seq<Op>)
      requires Ready(fs) && PlanOk(State(), p, jobs, ids, clock) && FreshNames(fs.cs.held, clock)
      requires forall t | 0 <= t < |ids| :: ids[t] in State().objects && ids[t] != State().chunks.activeId
      modifies fs.idx, fs.cs, fs.cs.store`objects, fs.cs.store`index, fs.cacheDir`snapshot
      ensures RunOk(old(State()), ops) && CompactSteps(ops) && State() == Run(old(State()), ops) && fs.cs.Valid()
      ensures production && jobs != [] ==> !ok && NoDeletes(ops)
      ensures fs.cs.store.up && fs.cacheDir.up ==>
                (ok <==> production ==> jobs == [] && AllEncodable(old(State()).idx.extents))
      ensures ok ==> Gone(ids, State().objects)
      ensures ok && !old(State()).chunks.dirty ==> State().objects == Without(PutAll(old(State()).objects, p.outs), ids)
    {
      NamedNew(p.outs, clock, fs.cs.held);
      ok, ops := Execute(ids, p, clock, production, jobs);
    }

    static lemma Savings(s: Fs, order: seq<Ino>, targets: seq<string>, limit: nat, clock: nat -> nat, objs': View)
      requires Inv(s) && Chosen(s, order, targets) && FreshNames(s.objects, clock)
      requires JobsIn(JobsFor(s, order, targets), FsView(s))
      requires var p := PackAll(JobsFor(s, order, targets), FsView(s), limit, clock);
               objs' == Without(PutAll(s.objects, p.outs), targets)
      ensures Repacked(s, order, targets, objs', limit)
    {
      PlanHolds(s, order, targets, limit, clock);
      var jobs := JobsFor(s, order, targets);
      PackAllTotal(jobs, FsView(s), limit, clock);
      var outs := PackAll(jobs, FsView(s), limit, clock).outs;
      CompactionSaves(s.objects, outs, targets, Flatten(order, s.idx.extents), objs');
      PackedFit(s.objects, objs', targets, jobs, FsView(s), limit, clock);
    }

    /** Carries out a plan that found something to compact. */
    method CompactTargets(ids: seq<string>, p: Pack, clock: nat -> nat, production: bool, ghost order: seq<Ino>,
                          ghost s: Fs)
      returns (ok: bool, ghost ops: seq<Op>)
      requires ids != [] && s == State() && Ready(fs) && FreshNames(fs.cs.held, clock) && FreshNames(s.objects, clock)
      requires Chosen(s, order, ids) && JobsIn(JobsFor(s, order, ids), FsView(s))
      requires p == PackAll(JobsFor(s, order, ids), FsView(s), chunkSize, clock)
      modifies fs.idx, fs.cs, fs.cs.store`objects, fs.cs.store`index, fs.cacheDir`snapshot
      ensures RunOk(s, ops) && CompactSteps(ops) && State() == Run(s, ops) && fs.cs.Valid()
      ensures production && JobsFor(s, order, ids) != [] ==> !ok && NoDeletes(ops)
      ensures fs.cs.store.up && fs.cacheDir.up ==> (ok <==> Completes(s, order, ids, production))
      ensures ok ==> Gone(ids, State().objects)
      ensures ok && !s.chunks.dirty ==> Repacked(s, order, ids, State().objects, chunkSize)
    {
      PlanHolds(s, order, ids, chunkSize, clock);
      ok, ops := CarryOut(ids, p, clock, production, JobsFor(s, order, ids));
      if ok && !s.chunks.dirty {
        Savings(s, order, ids, chunkSize, clock, State().objects);
      }
    }

    static lemma ChoicePays(s: Fs, order: seq<Ino>, targets: seq<string>, silent: set<string>, threshold: real)
      requires Inv(s) && Chosen(s, order, targets)
      ensures Selected(s, order, targets, silent, threshold) ==>
                && WellChosen(s, order, targets, silent, threshold)
                && OrphanBytes(targets, Flatten(order, s.idx.extents), s.objects) as real >=
                   Share(threshold, SizeOfAll(targets, s.objects))
    {
      if Selected(s, order, targets, silent, threshold) {
        SelectedWell(s, order, targets, silent, threshold);
        forall k | 0 <= k < |targets|
          ensures Orphaned(s, order, targets[k]) as real >= Share(threshold, |s.objects[targets[k]]|)
        {
          assert targets[k] in targets;
        }
        SharesAddUp(s, order, targets, threshold);
      }
    }

    /** Carries out a plan, if it has anything to compact. */
    method Follow(planned: bool, ids: seq<string>, p: Pack, clock: nat -> nat, production: bool,
                  ghost order: seq<Ino>, ghost s: Fs)
      returns (ok: bool, ghost ops: seq<Op>)
      requires s == State() && Ready(fs) && FreshNames(fs.cs.held, clock) && FreshNames(s.objects, clock)
      requires Chosen(s, order, ids) && (!planned ==> ids == [])
      requires ids != [] ==>
                 && JobsIn(JobsFor(s, order, ids), FsView(s))
                 && p == PackAll(JobsFor(s, order, ids), FsView(s), chunkSize, clock)
      modifies fs.idx, fs.cs, fs.cs.store`objects, fs.cs.store`index, fs.cacheDir`snapshot
      ensures RunOk(s, ops) && CompactSteps(ops) && State() == Run(s, ops) && fs.cs.Valid()
      ensures production && JobsFor(s, order, ids) != [] ==> !ok && NoDeletes(ops)
      ensures planned && fs.cs.store.up && fs.cacheDir.up ==> (ok <==> Completes(s, order, ids, production))
      ensures ok ==> planned && Gone(ids, State().objects)
      ensures ok && !s.chunks.dirty ==> Repacked(s, order, ids, State().objects, chunkSize)
    {
      ok, ops := planned, [];
      if ids != [] {
        ok, ops := CompactTargets(ids, p, clock, production, order, s);
      } else {
        NothingChosen(s, order, production, chunkSize);
      }
    }

    /** Plans a cycle and, if there is anything to compact, carries it out. */
    method PlanAndExecute(clock: nat -> nat, production: bool, ghost s: Fs)
      returns (ok: bool, ghost ops: seq<Op>, ghost targets: seq<string>, ghost order: seq<Ino>,
               ghost silent: set<string>)
      requires s == State() && Ready(fs) && FreshNames(fs.cs.held, clock) && FreshNames(s.objects, clock)
      modifies fs.idx, fs.cs, fs.cs.store`objects, fs.cs.store`index, fs.cacheDir`snapshot
      ensures RunOk(s, ops) && CompactSteps(ops) && State() == Run(s, ops) && fs.cs.Valid()
      ensures Chosen(s, order, targets)
      ensures ok ==> Selected(s, order, targets, silent, threshold) && Gone(targets, State().objects)
      ensures old(fs.cs.Reachable()) && fs.cacheDir.up ==>
                && Selected(s, order, targets, silent, threshold) && silent == {}
                && (ok <==> Completes(s, order, targets, production))
      ensures production && JobsFor(s, order, targets) != [] ==> !ok && NoDeletes(ops)
      ensures ok && !s.chunks.dirty ==> Repacked(s, order, targets, State().objects, chunkSize)
    {
      var planned, ids, p;
      planned, ids, p, order, silent := Plan(clock, s);
      targets := ids;
      ok, ops := Follow(planned, ids, p, clock, production, order, s);
    }

    /**
     One compaction cycle.  Wherever it stops, readers see no change, and a cold
     start would show the files of the last index put or the present ones.  With
     the daemon's own persist function a cycle that packs anything stops there
     and deletes nothing, because its codec has no form for compacted chunk IDs.
     A cycle that completes has deleted its targets and shrunk the store by exactly
     the bytes of them that no file used, which is at least their share at the
     threshold; its outputs keep to the chunk size if the extents do, and are few.
     Each chunk it left would have freed less than its share.  While
     store and disks are up this is so of all sealed chunks, and the cycle completes
     if it finds none to take, or with a persist that can store the index.
     */
    method Compact(clock: nat -> nat, production: bool)
      returns (ok: bool, ghost ops: seq<Op>, ghost targets: seq<string>, ghost order: seq<Ino>,
               ghost silent: set<string>)
      requires Ready(fs) && FreshNames(fs.cs.held, clock)
      modifies fs.idx, fs.cs, fs.cs.store`objects, fs.cs.store`index, fs.cacheDir`snapshot
      ensures RunOk(old(State()), ops) && CompactSteps(ops) && State() == Run(old(State()), ops) && fs.cs.Valid()
      ensures Inv(State()) && Abs(State()).files == old(Abs(State())).files
      ensures Abs(State()).durable == old(Abs(State())).durable || Abs(State()).durable == Abs(State()).files
      ensures Chosen(old(State()), order, targets)
      ensures ok ==> Selected(old(State()), order, targets, silent, threshold) && Gone(targets, State().objects)
      ensures old(fs.cs.Reachable() && fs.cacheDir.up) ==>
                && Selected(old(State()), order, targets, silent, threshold) && silent == {}
                && (ok <==> Completes(old(State()), order, targets, production))
      ensures production && JobsFor(old(State()), order, targets) != [] ==> !ok && NoDeletes(ops)
      ensures ok && !old(State()).chunks.dirty ==> Repacked(old(State()), order, targets, State().objects, chunkSize)
      ensures ok || old(fs.cs.Reachable() && fs.cacheDir.up) ==>
                WellChosen(old(State()), order, targets, silent, threshold)
      ensures ok && !old(State()).chunks.dirty ==>
                (StoreSize(old(State()).objects) - StoreSize(State().objects)) as real >=
                Share(threshold, SizeOfAll(targets, old(State()).objects))
    {
      HeldNames(Chunks(State().chunks, State().objects), fs.cs.held, fs.cs.files, clock);
      ok, ops, targets, order, silent := PlanAndExecute(clock, production, State());
      CompactTransparent(old(State()), ops);
      ChoicePays(old(State()), order, targets, silent, threshold);
    }
  }
}
