/**
 Compaction as a transformation that preserves meaning: the live extents of the
 target chunks are packed into outputs, the index is remapped by chunk ID and
 offset alone, and every file reads as before.
 */
module CompactionModel {
  import opened Base
  import opened Extents
  import opened ChunkIds
  import opened IndexModel
  import opened FileData
  import opened ObjectStores
  import opened Indexes
  import opened Packing
  import opened Runs
  import opened Sums

  // ---- The live extents of the targets ----

  /** `e` is an extent of some file. */
  ghost predicate IsLive(d: IndexData, e: Extent) {
    exists i, k :: i in d.extents && 0 <= k < |d.extents[i]| && d.extents[i][k] == e
  }

  function LiveIn(live: seq<Extent>, id: string): seq<Extent> {
    if live == [] then []
    else LiveIn(live[..|live| - 1], id) + if live[|live| - 1].chunkId == id then [live[|live| - 1]] else []
  }

  /** Everything to be packed, in the order of the targets. */
  function Jobs(targets: seq<string>, live: seq<Extent>): seq<Extent> {
    if targets == [] then [] else Jobs(targets[..|targets| - 1], live) + LiveIn(live, targets[|targets| - 1])
  }

  lemma {:induction false} LiveInMembers(live: seq<Extent>, id: string, e: Extent)
    ensures e in LiveIn(live, id) <==> e in live && e.chunkId == id
  {
    if live == [] {
    } else {
      LiveInMembers(live[..|live| - 1], id, e);
      assert live == live[..|live| - 1] + [live[|live| - 1]];
    }
  }

  lemma {:induction false} JobsMembers(targets: seq<string>, live: seq<Extent>, e: Extent)
    ensures e in Jobs(targets, live) <==> e in live && e.chunkId in targets
  {
    if targets == [] {
    } else {
      JobsMembers(targets[..|targets| - 1], live, e);
      LiveInMembers(live, targets[|targets| - 1], e);
      assert targets == targets[..|targets| - 1] + [targets[|targets| - 1]];
    }
  }

  lemma ConcatDisjoint(xs: seq<Extent>, ys: seq<Extent>)
    requires ChunkDisjoint(xs) && ChunkDisjoint(ys) && CrossSep(xs, ys)
    ensures ChunkDisjoint(xs + ys)
  {
    var all := xs + ys;
    forall i, j | 0 <= i < j < |all| ensures Sep(all[i], all[j]) {
      if j < |xs| {
        assert Sep(xs[i], xs[j]);
      } else if i < |xs| {
        assert Sep(xs[i], ys[j - |xs|]);
      } else {
        assert Sep(ys[i - |xs|], ys[j - |xs|]);
      }
    }
  }

  lemma {:induction false} LiveInDisjoint(live: seq<Extent>, id: string)
    requires ChunkDisjoint(live)
    ensures ChunkDisjoint(LiveIn(live, id))
  {
    if live == [] {
    } else {
      var n := |live| - 1;
      var front, e := live[..n], live[n];
      LiveInDisjoint(front, id);
      if e.chunkId == id {
        var xs := LiveIn(front, id);
        forall i | 0 <= i < |xs| ensures Sep(xs[i], e) {
          assert xs[i] in xs;
          LiveInMembers(front, id, xs[i]);
          var k :| 0 <= k < |front| && front[k] == xs[i];
          assert Sep(live[k], live[n]);
        }
        ConcatDisjoint(xs, [e]);
      } else {
        assert LiveIn(live, id) == LiveIn(front, id);
      }
    }
  }

  predicate DistinctIds(ids: seq<string>) {
    forall i, j | 0 <= i < j < |ids| :: ids[i] != ids[j]
  }

  lemma {:induction false} JobsDisjoint(targets: seq<string>, live: seq<Extent>)
    requires ChunkDisjoint(live) && DistinctIds(targets)
    ensures ChunkDisjoint(Jobs(targets, live))
  {
    if targets == [] {
    } else {
      var n := |targets| - 1;
      var front, id := targets[..n], targets[n];
      JobsDisjoint(front, live);
      LiveInDisjoint(live, id);
      var xs, ys := Jobs(front, live), LiveIn(live, id);
      forall i, j | 0 <= i < |xs| && 0 <= j < |ys| ensures Sep(xs[i], ys[j]) {
        assert xs[i] in xs && ys[j] in ys;
        JobsMembers(front, live, xs[i]);
        LiveInMembers(live, id, ys[j]);
      }
      ConcatDisjoint(xs, ys);
    }
  }

  // ---- All live extents, from whatever order the index is walked in ----

  predicate Walk(order: seq<Ino>, d: IndexData) {
    && (forall k | 0 <= k < |order| :: order[k] in d.extents)
    && (forall i, j | 0 <= i < j < |order| :: order[i] != order[j])
  }

  lemma {:induction false} FlattenMembers(order: seq<Ino>, d: IndexData, e: Extent)
    requires Walk(order, d)
    ensures e in Flatten(order, d.extents) <==> exists k :: 0 <= k < |order| && e in d.extents[order[k]]
  {
    if order == [] {
    } else {
      var n := |order| - 1;
      FlattenMembers(order[..n], d, e);
      if k :| 0 <= k < n && e in d.extents[order[..n][k]] {
        assert e in d.extents[order[k]];
      }
    }
  }

  lemma {:induction false} FlattenDisjoint(order: seq<Ino>, d: IndexData, v: View)
    requires DataOk(d, v) && Walk(order, d)
    ensures ChunkDisjoint(Flatten(order, d.extents))
  {
    if order == [] {
    } else {
      var n := |order| - 1;
      FlattenDisjoint(order[..n], d, v);
      var xs, ys := Flatten(order[..n], d.extents), d.extents[order[n]];
      assert ListOk(ys, SizeOf(d, order[n]), v);
      forall i, j | 0 <= i < |xs| && 0 <= j < |ys| ensures Sep(xs[i], ys[j]) {
        assert xs[i] in xs;
        FlattenMembers(order[..n], d, xs[i]);
        var k :| 0 <= k < n && xs[i] in d.extents[order[..n][k]];
        var l :| 0 <= l < |d.extents[order[k]]| && d.extents[order[k]][l] == xs[i];
        assert CrossSep(d.extents[order[k]], d.extents[order[n]]);
      }
      ConcatDisjoint(xs, ys);
    }
  }

  lemma LiveReadable(d: IndexData, v: View, e: Extent)
    requires DataOk(d, v) && IsLive(d, e)
    ensures InView(e, v)
  {
    var i, k :| i in d.extents && 0 <= k < |d.extents[i]| && d.extents[i][k] == e;
    assert ListOk(d.extents[i], SizeOf(d, i), v);
  }

  /** The jobs are the live extents of the targets: each once, all readable, no two alike. */
  lemma JobsAreLive(d: IndexData, v: View, order: seq<Ino>, targets: seq<string>)
    requires DataOk(d, v) && Enumerates(order, d.extents.Keys) && DistinctIds(targets)
    ensures Walk(order, d)
    ensures var jobs := Jobs(targets, Flatten(order, d.extents));
            && ChunkDisjoint(jobs) && JobsIn(jobs, v) && DistinctKeys(jobs)
            && (forall e :: e in jobs <==> IsLive(d, e) && e.chunkId in targets)
  {
    var live := Flatten(order, d.extents);
    var jobs := Jobs(targets, live);
    FlattenDisjoint(order, d, v);
    JobsDisjoint(targets, live);
    forall e ensures e in jobs <==> IsLive(d, e) && e.chunkId in targets {
      JobsMembers(targets, live, e);
      FlattenMembers(order, d, e);
      if IsLive(d, e) {
        var i, k :| i in d.extents && 0 <= k < |d.extents[i]| && d.extents[i][k] == e;
        var n :| 0 <= n < |order| && order[n] == i;
        assert e in d.extents[order[n]];
      }
    }
    forall k | 0 <= k < |jobs| ensures InView(jobs[k], v) {
      assert jobs[k] in jobs;
      LiveReadable(d, v, jobs[k]);
    }
    forall i, j | 0 <= i < j < |jobs| ensures jobs[i].Key() != jobs[j].Key() {
      assert Sep(jobs[i], jobs[j]) && InView(jobs[i], v) && InView(jobs[j], v);
    }
  }

  /** The key of a live extent identifies it among all live extents. */
  lemma KeyIdentifies(d: IndexData, v: View, a: Extent, b: Extent)
    requires DataOk(d, v) && IsLive(d, a) && IsLive(d, b) && a.Key() == b.Key()
    ensures a == b
  {
    var i, k :| i in d.extents && 0 <= k < |d.extents[i]| && d.extents[i][k] == a;
    var j, l :| j in d.extents && 0 <= l < |d.extents[j]| && d.extents[j][l] == b;
    if (i, k) != (j, l) {
      LiveDistinct(d, v, i, k, j, l);
    }
  }

  // ---- The remap table that packing builds ----

  /** Where the outputs are once written: names new to `v`, non-empty buffers readable in `v'`. */
  predicate Written(outs: seq<Output>, v: View, v': View) {
    && Grows(v, v')
    && (forall k | 0 <= k < |outs| :: outs[k].id !in v)
    && (forall k | 0 <= k < |outs| && outs[k].buf != [] :: outs[k].id in v' && v'[outs[k].id] == outs[k].buf)
  }

  ghost predicate PackedFor(p: Pack, jobs: seq<Extent>, d: IndexData, v: View, v': View, clock: nat -> nat) {
    && DataOk(d, v) && PackOk(p, jobs, v, clock) && Written(p.outs, v, v')
    && (forall k | 0 <= k < |jobs| :: IsLive(d, jobs[k]))
  }

  lemma KeptBytes(v: View, v': View, e: Extent)
    requires InView(e, v) && Grows(v, v')
    ensures InView(e, v') && v'[e.chunkId][e.chunkOffset..e.ChunkEnd()] == ChunkSlice(v, e)
  {
    assert v[e.chunkId] <= v'[e.chunkId];
  }

  /** What packing holds for a job is readable where the outputs are written. */
  lemma PlacedBytes(p: Pack, v: View, v': View, e: Extent)
    requires Placed(p, v, e) && Written(p.outs, v, v')
    ensures SameBytes(e, p.remap[e.Key()], v') && p.remap[e.Key()].chunkId !in v
  {
    var r := p.remap[e.Key()];
    var n: nat :| HeldAt(p.outs, n, r, ChunkSlice(v, e));
    assert p.outs[n].buf != [];
    KeptBytes(v, v', e);
  }

  lemma RemappedIsJob(p: Pack, jobs: seq<Extent>, d: IndexData, v: View, v': View, clock: nat -> nat, e: Extent)
    requires PackedFor(p, jobs, d, v, v', clock) && IsLive(d, e) && e.Key() in p.remap
    ensures e in jobs && Placed(p, v, e)
  {
    var k :| 0 <= k < |jobs| && jobs[k].Key() == e.Key();
    KeyIdentifies(d, v, e, jobs[k]);
  }

  /** A remapped live extent is a job, and keeps its place, length and bytes. */
  lemma RemappedOne(p: Pack, jobs: seq<Extent>, d: IndexData, v: View, v': View, clock: nat -> nat, e: Extent)
    requires PackedFor(p, jobs, d, v, v', clock) && IsLive(d, e)
    ensures SameBytes(e, RemapOne(e, p.remap), v')
    ensures e.Key() in p.remap ==> e in jobs && RemapOne(e, p.remap).chunkId !in v
    ensures e.Key() !in p.remap ==> RemapOne(e, p.remap).chunkId in v
  {
    LiveReadable(d, v, e);
    if e.Key() in p.remap {
      RemappedIsJob(p, jobs, d, v, v', clock, e);
      PlacedBytes(p, v, v', e);
    } else {
      KeptBytes(v, v', e);
    }
  }

  lemma JobsApart(p: Pack, jobs: seq<Extent>, a: Extent, b: Extent)
    requires PlacedApart(p, jobs) && a in jobs && b in jobs && a.Key() != b.Key()
    requires a.Key() in p.remap && b.Key() in p.remap
    ensures Sep(p.remap[a.Key()], p.remap[b.Key()])
  {
    var x :| 0 <= x < |jobs| && jobs[x] == a;
    var y :| 0 <= y < |jobs| && jobs[y] == b;
    if x < y {
      assert Sep(p.remap[jobs[x].Key()], p.remap[jobs[y].Key()]);
    } else {
      assert Sep(p.remap[jobs[y].Key()], p.remap[jobs[x].Key()]);
    }
  }

  /** Two different live extents stay apart under the remap. */
  lemma RemappedPair(p: Pack, jobs: seq<Extent>, d: IndexData, v: View, v': View, clock: nat -> nat,
                     i: Ino, k: nat, j: Ino, l: nat)
    requires PackedFor(p, jobs, d, v, v', clock)
    requires i in d.extents && k < |d.extents[i]| && j in d.extents && l < |d.extents[j]| && (i, k) != (j, l)
    ensures Sep(RemapOne(d.extents[i][k], p.remap), RemapOne(d.extents[j][l], p.remap))
  {
    var a, b := d.extents[i][k], d.extents[j][l];
    LiveDistinct(d, v, i, k, j, l);
    RemappedOne(p, jobs, d, v, v', clock, a);
    RemappedOne(p, jobs, d, v, v', clock, b);
    if a.Key() in p.remap && b.Key() in p.remap {
      JobsApart(p, jobs, a, b);
    }
  }

  /** The table is fit to remap the index: no extent gets another's length, place or bytes. */
  lemma PackedRemapOk(p: Pack, jobs: seq<Extent>, d: IndexData, v: View, v': View, clock: nat -> nat)
    requires PackedFor(p, jobs, d, v, v', clock)
    ensures RemapOk(d, p.remap, v')
  {
    var m := p.remap;
    forall i, k | i in d.extents && 0 <= k < |d.extents[i]|
      ensures SameBytes(d.extents[i][k], RemapOne(d.extents[i][k], m), v')
    {
      RemappedOne(p, jobs, d, v, v', clock, d.extents[i][k]);
    }
    forall i | i in d.extents ensures ListRemapOk(d.extents[i], m, v') {
    }
    forall i | i in d.extents ensures ChunkDisjoint(RemapList(d.extents[i], m)) {
      forall k, l | 0 <= k < l < |d.extents[i]|
        ensures Sep(RemapList(d.extents[i], m)[k], RemapList(d.extents[i], m)[l])
      {
        RemappedPair(p, jobs, d, v, v', clock, i, k, i, l);
      }
    }
    RemapExtentsLists(d, m);
    forall i, j | i in d.extents && j in d.extents && i != j
      ensures CrossSep(RemapList(d.extents[i], m), RemapList(d.extents[j], m))
    {
      forall k, l | 0 <= k < |d.extents[i]| && 0 <= l < |d.extents[j]|
        ensures Sep(RemapList(d.extents[i], m)[k], RemapList(d.extents[j], m)[l])
      {
        RemappedPair(p, jobs, d, v, v', clock, i, k, j, l);
      }
    }
  }

  /** After the remap no file refers to a target. */
  lemma TargetsUnreferred(p: Pack, jobs: seq<Extent>, d: IndexData, v: View, v': View, clock: nat -> nat,
                          targets: seq<string>, i: Ino, k: nat)
    requires PackedFor(p, jobs, d, v, v', clock)
    requires forall e :: e in jobs <==> IsLive(d, e) && e.chunkId in targets
    requires forall t | 0 <= t < |targets| :: targets[t] in v
    requires i in d.extents && k < |d.extents[i]|
    ensures RemapOne(d.extents[i][k], p.remap).chunkId !in targets
  {
    var e := d.extents[i][k];
    assert IsLive(d, e);
    RemappedOne(p, jobs, d, v, v', clock, e);
    if e.Key() !in p.remap {
      assert e !in jobs;
    }
  }

  // ---- Writing the outputs ----

  /** The stored objects after every non-empty output has been put. */
  function PutAll(objs: View, outs: seq<Output>): View {
    if outs == [] then objs
    else
      var rest, out := PutAll(objs, outs[..|outs| - 1]), outs[|outs| - 1];
      if out.buf == [] then rest else rest[out.id := out.buf]
  }

  predicate DistinctOuts(outs: seq<Output>) {
    forall i, j | 0 <= i < j < |outs| :: outs[i].id != outs[j].id
  }

  lemma ClockDistinct(outs: seq<Output>, clock: nat -> nat)
    requires NamedByClock(outs, clock)
    ensures DistinctOuts(outs)
    ensures forall k | 0 <= k < |outs| :: COMPACTED_PREFIX <= outs[k].id
  {
    forall i, j | 0 <= i < j < |outs| ensures outs[i].id != outs[j].id {
      if outs[i].id == outs[j].id {
        CompactedIdInjective(clock(i), i, clock(j), j);
      }
    }
  }

  predicate NewTo(outs: seq<Output>, objs: View) {
    forall k | 0 <= k < |outs| :: outs[k].id !in objs
  }

  lemma {:induction false} PutAllKeys(objs: View, outs: seq<Output>, id: string)
    ensures id in PutAll(objs, outs) <==>
            id in objs || exists k :: 0 <= k < |outs| && outs[k].buf != [] && outs[k].id == id
    ensures (forall k | 0 <= k < |outs| :: outs[k].id != id) && id in objs ==> PutAll(objs, outs)[id] == objs[id]
  {
    if outs == [] {
    } else {
      var front := outs[..|outs| - 1];
      PutAllKeys(objs, front, id);
      if k :| 0 <= k < |front| && front[k].buf != [] && front[k].id == id {
        assert outs[k].buf != [] && outs[k].id == id;
      }
    }
  }

  lemma {:induction false} PutAllHolds(objs: View, outs: seq<Output>, k: nat)
    requires DistinctOuts(outs) && k < |outs| && outs[k].buf != []
    ensures outs[k].id in PutAll(objs, outs) && PutAll(objs, outs)[outs[k].id] == outs[k].buf
  {
    var n := |outs| - 1;
    if k == n {
    } else {
      PutAllHolds(objs, outs[..n], k);
      assert outs[k].id != outs[n].id;
    }
  }

  lemma PutAllGrows(objs: View, outs: seq<Output>)
    requires NewTo(outs, objs)
    ensures forall id | id in objs :: id in PutAll(objs, outs) && PutAll(objs, outs)[id] == objs[id]
  {
    forall id | id in objs ensures id in PutAll(objs, outs) && PutAll(objs, outs)[id] == objs[id] {
      PutAllKeys(objs, outs, id);
    }
  }

  // ---- What compaction saves ----

  function TotalBytes(v: View): map<string, nat> {
    map id | id in v :: |v[id]|
  }

  /** The bytes of all stored objects. */
  ghost function StoreSize(v: View): nat {
    Sum(TotalBytes(v))
  }

  lemma LastIsNew(objs: View, outs: seq<Output>)
    requires outs != [] && NewTo(outs, objs) && DistinctOuts(outs)
    ensures outs[|outs| - 1].id !in PutAll(objs, outs[..|outs| - 1])
  {
    var n := |outs| - 1;
    PutAllKeys(objs, outs[..n], outs[n].id);
  }

  /** Each output is new to what is stored when its turn comes. */
  lemma EachIsNew(objs: View, outs: seq<Output>, k: nat)
    requires k < |outs| && NewTo(outs, objs) && DistinctOuts(outs)
    ensures outs[k].id !in PutAll(objs, outs[..k])
    ensures PutAll(objs, outs[..k + 1]) ==
            if outs[k].buf == [] then PutAll(objs, outs[..k]) else PutAll(objs, outs[..k])[outs[k].id := outs[k].buf]
  {
    assert outs[..k + 1][..k] == outs[..k];
    LastIsNew(objs, outs[..k + 1]);
  }

  lemma OnePutSize(v: View, id: string, data: Bytes)
    requires id !in v
    ensures StoreSize(v[id := data]) == StoreSize(v) + |data|
  {
    SumPut(TotalBytes(v), id, |data|);
    assert TotalBytes(v[id := data]) == TotalBytes(v)[id := |data|];
  }

  lemma {:induction false} PutAllSize(objs: View, outs: seq<Output>)
    requires NewTo(outs, objs) && DistinctOuts(outs)
    ensures StoreSize(PutAll(objs, outs)) == StoreSize(objs) + TotalOutput(outs)
  {
    if outs == [] {
    } else {
      var n := |outs| - 1;
      PutAllSize(objs, outs[..n]);
      LastIsNew(objs, outs);
      OnePutSize(PutAll(objs, outs[..n]), outs[n].id, outs[n].buf);
    }
  }

  /** The stored bytes of the given chunks. */
  function SizeOfAll(ids: seq<string>, v: View): nat
    requires forall k | 0 <= k < |ids| :: ids[k] in v
  {
    if ids == [] then 0 else SizeOfAll(ids[..|ids| - 1], v) + |v[ids[|ids| - 1]]|
  }

  lemma {:induction false} RemoveAllSize(ids: seq<string>, v: View, v': View)
    requires DistinctIds(ids) && forall k | 0 <= k < |ids| :: ids[k] in v
    requires v' == v - (set k | 0 <= k < |ids| :: ids[k])
    ensures StoreSize(v) == StoreSize(v') + SizeOfAll(ids, v)
  {
    if ids == [] {
      assert v' == v;
    } else {
      var n := |ids| - 1;
      var front := ids[..n];
      var w := v - (set k | 0 <= k < |front| :: front[k]);
      RemoveAllSize(front, v, w);
      assert ids[n] in w;
      assert v' == w - {ids[n]};
      SumTakes(TotalBytes(w), ids[n]);
      assert TotalBytes(v') == TotalBytes(w) - {ids[n]};
    }
  }

  /** The live bytes found in one chunk never exceed it. */
  lemma LiveInBounded(d: IndexData, v: View, order: seq<Ino>, id: string)
    requires DataOk(d, v) && Enumerates(order, d.extents.Keys) && id in v
    ensures Walk(order, d)
    ensures TotalLength(LiveIn(Flatten(order, d.extents), id)) <= |v[id]|
  {
    JobsAreLive(d, v, order, [id]);
    var live := Flatten(order, d.extents);
    var jobs := Jobs([id], live);
    assert jobs == [] + LiveIn(live, id) == LiveIn(live, id);
    forall k | 0 <= k < |jobs| ensures jobs[k].chunkId == id && jobs[k].ChunkEnd() <= |v[id]| {
      assert jobs[k] in jobs;
      JobsMembers([id], live, jobs[k]);
      assert InView(jobs[k], v);
    }
    LiveAtMostSize(jobs, |v[id]|);
  }

  /** The bytes of the targets that no file uses. */
  function OrphanBytes(targets: seq<string>, live: seq<Extent>, v: View): int
    requires forall k | 0 <= k < |targets| :: targets[k] in v
  {
    if targets == [] then 0
    else
      var id := targets[|targets| - 1];
      OrphanBytes(targets[..|targets| - 1], live, v) + (|v[id]| - TotalLength(LiveIn(live, id)))
  }

  lemma {:induction false} TotalLengthConcat(xs: seq<Extent>, ys: seq<Extent>)
    ensures TotalLength(xs + ys) == TotalLength(xs) + TotalLength(ys)
  {
    if ys == [] {
      assert xs + ys == xs;
    } else {
      assert (xs + ys)[..|xs + ys| - 1] == xs + ys[..|ys| - 1];
      TotalLengthConcat(xs, ys[..|ys| - 1]);
    }
  }

  lemma {:induction false} OrphansAreTheRest(targets: seq<string>, live: seq<Extent>, v: View)
    requires forall k | 0 <= k < |targets| :: targets[k] in v
    ensures SizeOfAll(targets, v) == OrphanBytes(targets, live, v) + TotalLength(Jobs(targets, live))
  {
    if targets == [] {
    } else {
      var n := |targets| - 1;
      OrphansAreTheRest(targets[..n], live, v);
      TotalLengthConcat(Jobs(targets[..n], live), LiveIn(live, targets[n]));
    }
  }

  lemma {:induction false} SameSizes(ids: seq<string>, v: View, v': View)
    requires forall k | 0 <= k < |ids| :: ids[k] in v && ids[k] in v' && v[ids[k]] == v'[ids[k]]
    ensures SizeOfAll(ids, v) == SizeOfAll(ids, v')
  {
    if ids == [] {
    } else {
      SameSizes(ids[..|ids| - 1], v, v');
    }
  }

  /**
   A compaction that ran to completion shrinks the store by exactly the bytes
   of its targets that no file used.
   */
  lemma CompactionSaves(objs: View, outs: seq<Output>, targets: seq<string>, live: seq<Extent>, objs': View)
    requires NewTo(outs, objs) && DistinctOuts(outs) && DistinctIds(targets)
    requires forall k | 0 <= k < |targets| :: targets[k] in objs
    requires TotalOutput(outs) == TotalLength(Jobs(targets, live))
    requires objs' == PutAll(objs, outs) - (set k | 0 <= k < |targets| :: targets[k])
    ensures StoreSize(objs) == StoreSize(objs') + OrphanBytes(targets, live, objs)
  {
    PutAllSize(objs, outs);
    PutAllGrows(objs, outs);
    RemoveAllSize(targets, PutAll(objs, outs), objs');
    SameSizes(targets, objs, PutAll(objs, outs));
    OrphansAreTheRest(targets, live, objs);
  }

  // ---- What the outputs add to the store ----

  /** A new object is the buffer of an output. */
  lemma {:induction false} NewObject(objs: View, outs: seq<Output>, id: string)
    requires id in PutAll(objs, outs) && id !in objs
    ensures exists k ::
              0 <= k < |outs| && outs[k].id == id && outs[k].buf != [] && PutAll(objs, outs)[id] == outs[k].buf
  {
    var n := |outs| - 1;
    if outs[n].buf != [] && outs[n].id == id {
    } else {
      NewObject(objs, outs[..n], id);
      var k :| 0 <= k < n && outs[..n][k].id == id && outs[..n][k].buf != [] &&
               PutAll(objs, outs[..n])[id] == outs[..n][k].buf;
      assert outs[k] == outs[..n][k];
    }
  }

  lemma {:induction false} SubsetSize(a: set<string>, b: set<string>)
    requires a <= b
    ensures |a| <= |b|
    decreases |b|
  {
    if a == {} {
    } else {
      var x :| x in a;
      SubsetSize(a - {x}, b - {x});
    }
  }

  lemma {:induction false} NewCount(objs: View, outs: seq<Output>)
    ensures |PutAll(objs, outs).Keys - objs.Keys| <= |outs|
  {
    if outs == [] {
      assert objs.Keys - objs.Keys == {};
    } else {
      var n := |outs| - 1;
      var rest := PutAll(objs, outs[..n]);
      NewCount(objs, outs[..n]);
      SubsetSize(PutAll(objs, outs).Keys - objs.Keys, (rest.Keys - objs.Keys) + {outs[n].id});
    }
  }

  /**
   What a cycle with these outputs leaves beside its targets: every other object
   as it was, and new ones that are not empty, fit the limit if the extents do, and
   are no more than twice the number that the bytes would fill, plus one.
   */
  ghost predicate OutputsFit(objs: View, objs': View, targets: seq<string>, jobs: seq<Extent>, limit: nat) {
    && (forall id | id in objs && id !in targets :: id in objs' && objs'[id] == objs[id])
    && (forall id | id in objs' && id !in objs ::
          objs'[id] != [] && ((forall k | 0 <= k < |jobs| :: jobs[k].length <= limit) ==> |objs'[id]| <= limit))
    && (limit > 0 ==> |objs'.Keys - objs.Keys| <= 2 * (TotalLength(jobs) / limit) + 1)
  }

  lemma PackedFit(objs: View, objs': View, targets: seq<string>, jobs: seq<Extent>, v: View, limit: nat,
                  clock: nat -> nat)
    requires JobsIn(jobs, v)
    requires var outs := PackAll(jobs, v, limit, clock).outs;
             NewTo(outs, objs) && objs' == PutAll(objs, outs) - (set k | 0 <= k < |targets| :: targets[k])
    ensures OutputsFit(objs, objs', targets, jobs, limit)
  {
    var outs := PackAll(jobs, v, limit, clock).outs;
    PackAllFilled(jobs, v, limit, clock);
    forall id | id in objs && id !in targets ensures id in objs' && objs'[id] == objs[id] {
      PutAllKeys(objs, outs, id);
    }
    forall id | id in objs' && id !in objs
      ensures objs'[id] != [] && ((forall k | 0 <= k < |jobs| :: jobs[k].length <= limit) ==> |objs'[id]| <= limit)
    {
      NewObject(objs, outs, id);
    }
    if limit > 0 {
      PackCount(jobs, v, limit, clock);
      NewCount(objs, outs);
      SubsetSize(objs'.Keys - objs.Keys, PutAll(objs, outs).Keys - objs.Keys);
    }
  }
}
