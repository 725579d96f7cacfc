/**
 Greedy packing: live extents are copied one after the other into output
 chunks, opening a new output whenever the current one would exceed the limit.
 */
module Packing {
  import opened Base
  import opened Extents
  import opened ChunkIds
  import opened IndexModel

  datatype Output = Output(id: string, buf: Bytes)

  datatype Pack = Pack(outs: seq<Output>, remap: RemapTable)

  /** A new output named after the clock and the number of outputs so far. */
  function Opened(outs: seq<Output>, clock: nat -> nat): seq<Output> {
    outs + [Output(CompactedId(clock(|outs|), |outs|), [])]
  }

  function ChunkSlice(v: View, e: Extent): Bytes
    requires InView(e, v)
  {
    v[e.chunkId][e.chunkOffset..e.ChunkEnd()]
  }

  /** Whether the extent goes to a new output; an empty output takes an extent of any length. */
  predicate Rotates(outs: seq<Output>, e: Extent, limit: nat)
    requires outs != []
  {
    |outs[|outs| - 1].buf| > 0 && |outs[|outs| - 1].buf| + e.length > limit
  }

  /** The extent's data goes to the end of the last output. */
  function Place(outs: seq<Output>, remap: RemapTable, e: Extent, data: Bytes): Pack
    requires outs != []
  {
    var n := |outs| - 1;
    var cur := outs[n];
    Pack(outs[n := Output(cur.id, cur.buf + data)],
         remap[e.Key() := Extent(cur.id, |cur.buf|, e.length, e.fileOffset)])
  }

  function PackOne(p: Pack, e: Extent, data: Bytes, limit: nat, clock: nat -> nat): (r: Pack)
    requires p.outs != []
    ensures r.outs != []
  {
    Place(if Rotates(p.outs, e, limit) then Opened(p.outs, clock) else p.outs, p.remap, e, data)
  }

  predicate JobsIn(jobs: seq<Extent>, v: View) {
    forall k | 0 <= k < |jobs| :: InView(jobs[k], v)
  }

  function PackAll(jobs: seq<Extent>, v: View, limit: nat, clock: nat -> nat): (r: Pack)
    requires JobsIn(jobs, v)
    ensures r.outs != []
  {
    if jobs == [] then Pack(Opened([], clock), map[])
    else
      var k := |jobs| - 1;
      PackOne(PackAll(jobs[..k], v, limit, clock), jobs[k], ChunkSlice(v, jobs[k]), limit, clock)
  }

  // ---- Where every extent ends up ----

  predicate NamedByClock(outs: seq<Output>, clock: nat -> nat) {
    forall k | 0 <= k < |outs| :: outs[k].id == CompactedId(clock(k), k)
  }

  /** `r` lies in output `k` and holds there the bytes of `e`. */
  predicate HeldAt(outs: seq<Output>, k: nat, r: Extent, bytes: Bytes) {
    && k < |outs| && r.chunkId == outs[k].id
    && r.ChunkEnd() <= |outs[k].buf| && outs[k].buf[r.chunkOffset..r.ChunkEnd()] == bytes
  }

  ghost predicate Placed(p: Pack, v: View, e: Extent) {
    && InView(e, v) && e.Key() in p.remap
    && var r := p.remap[e.Key()];
       && r.length == e.length && r.fileOffset == e.fileOffset
       && exists k: nat :: HeldAt(p.outs, k, r, ChunkSlice(v, e))
  }

  predicate DistinctKeys(jobs: seq<Extent>) {
    forall i, j | 0 <= i < j < |jobs| :: jobs[i].Key() != jobs[j].Key()
  }

  predicate PlacedApart(p: Pack, jobs: seq<Extent>) {
    forall i, j | 0 <= i < j < |jobs| && jobs[i].Key() in p.remap && jobs[j].Key() in p.remap ::
      Sep(p.remap[jobs[i].Key()], p.remap[jobs[j].Key()])
  }

  predicate KeysOf(p: Pack, jobs: seq<Extent>) {
    && (forall k | 0 <= k < |jobs| :: jobs[k].Key() in p.remap)
    && (forall x | x in p.remap :: exists k :: 0 <= k < |jobs| && jobs[k].Key() == x)
  }

  ghost predicate PackOk(p: Pack, jobs: seq<Extent>, v: View, clock: nat -> nat) {
    && NamedByClock(p.outs, clock)
    && KeysOf(p, jobs)
    && (forall k | 0 <= k < |jobs| :: Placed(p, v, jobs[k]))
    && PlacedApart(p, jobs)
  }

  /** Outputs only grow: what was held is still held. */
  predicate OutsGrow(outs: seq<Output>, outs': seq<Output>) {
    |outs| <= |outs'| && forall k | 0 <= k < |outs| :: outs'[k].id == outs[k].id && outs[k].buf <= outs'[k].buf
  }

  lemma HeldStays(outs: seq<Output>, outs': seq<Output>, k: nat, r: Extent, bytes: Bytes)
    requires OutsGrow(outs, outs') && HeldAt(outs, k, r, bytes)
    ensures HeldAt(outs', k, r, bytes)
  {
    assert outs'[k].buf[r.chunkOffset..r.ChunkEnd()] == outs[k].buf[r.chunkOffset..r.ChunkEnd()];
  }

  lemma PackOneGrows(p: Pack, e: Extent, data: Bytes, limit: nat, clock: nat -> nat)
    requires p.outs != [] && NamedByClock(p.outs, clock) && |data| == e.length
    ensures var r := PackOne(p, e, data, limit, clock);
            && OutsGrow(p.outs, r.outs) && NamedByClock(r.outs, clock)
            && HeldAt(r.outs, |r.outs| - 1, r.remap[e.Key()], data)
            && (|r.outs| == |p.outs| ==> r.remap[e.Key()].chunkOffset == |p.outs[|p.outs| - 1].buf|)
  {
    var outs := if Rotates(p.outs, e, limit) then Opened(p.outs, clock) else p.outs;
    var cur := outs[|outs| - 1];
    assert (cur.buf + data)[|cur.buf|..|cur.buf| + |data|] == data;
  }

  /** What is placed now shares no byte with what was held before. */
  lemma NewPlaceApart(p: Pack, e: Extent, data: Bytes, limit: nat, clock: nat -> nat, r: Extent, k: nat, bytes: Bytes)
    requires p.outs != [] && NamedByClock(p.outs, clock) && |data| == e.length
    requires HeldAt(p.outs, k, r, bytes)
    ensures Sep(r, PackOne(p, e, data, limit, clock).remap[e.Key()])
  {
    PackOneGrows(p, e, data, limit, clock);
    var p' := PackOne(p, e, data, limit, clock);
    var n, w := |p'.outs| - 1, p'.remap[e.Key()];
    if r.chunkId == w.chunkId {
      CompactedIdInjective(clock(k), k, clock(n), n);
    }
  }

  lemma PackOneRemap(p: Pack, jobs: seq<Extent>, e: Extent, data: Bytes, limit: nat, clock: nat -> nat)
    requires p.outs != [] && KeysOf(p, jobs) && DistinctKeys(jobs + [e])
    ensures var p' := PackOne(p, e, data, limit, clock);
            && KeysOf(p', jobs + [e])
            && forall i | 0 <= i < |jobs| ::
                 jobs[i].Key() in p'.remap && p'.remap[jobs[i].Key()] == p.remap[jobs[i].Key()]
  {
    var all := jobs + [e];
    forall i | 0 <= i < |jobs| ensures jobs[i].Key() != e.Key() {
      assert all[i].Key() != all[|jobs|].Key();
    }
    KeysGrow(p, jobs, e, PackOne(p, e, data, limit, clock));
  }

  /** What was placed stays placed, apart from what is placed now. */
  lemma OldPlaceStays(p: Pack, p': Pack, x: Extent, e: Extent, v: View, limit: nat, clock: nat -> nat)
    requires p.outs != [] && NamedByClock(p.outs, clock) && InView(e, v)
    requires p' == PackOne(p, e, ChunkSlice(v, e), limit, clock)
    requires Placed(p, v, x) && x.Key() in p'.remap && p'.remap[x.Key()] == p.remap[x.Key()]
    ensures Placed(p', v, x) && Sep(p'.remap[x.Key()], p'.remap[e.Key()])
  {
    var r := p.remap[x.Key()];
    var k: nat :| HeldAt(p.outs, k, r, ChunkSlice(v, x));
    PackOneGrows(p, e, ChunkSlice(v, e), limit, clock);
    HeldStays(p.outs, p'.outs, k, r, ChunkSlice(v, x));
    NewPlaceApart(p, e, ChunkSlice(v, e), limit, clock, r, k, ChunkSlice(v, x));
  }

  lemma PackOneOk(p: Pack, jobs: seq<Extent>, e: Extent, v: View, limit: nat, clock: nat -> nat)
    requires p.outs != [] && PackOk(p, jobs, v, clock)
    requires InView(e, v) && DistinctKeys(jobs + [e])
    ensures PackOk(PackOne(p, e, ChunkSlice(v, e), limit, clock), jobs + [e], v, clock)
  {
    var all, p' := jobs + [e], PackOne(p, e, ChunkSlice(v, e), limit, clock);
    PackOneGrows(p, e, ChunkSlice(v, e), limit, clock);
    PackOneRemap(p, jobs, e, ChunkSlice(v, e), limit, clock);
    forall i | 0 <= i < |jobs| ensures Placed(p', v, jobs[i]) && Sep(p'.remap[jobs[i].Key()], p'.remap[e.Key()]) {
      OldPlaceStays(p, p', jobs[i], e, v, limit, clock);
    }
    forall i | 0 <= i < |all| ensures Placed(p', v, all[i]) {
      if i < |jobs| {
        assert Placed(p', v, jobs[i]);
      }
    }
    ApartSnoc(p, p', jobs, e);
  }

  lemma ApartSnoc(p: Pack, p': Pack, jobs: seq<Extent>, e: Extent)
    requires PlacedApart(p, jobs)
    requires forall i | 0 <= i < |jobs| :: jobs[i].Key() in p.remap && jobs[i].Key() in p'.remap
    requires forall i | 0 <= i < |jobs| :: p'.remap[jobs[i].Key()] == p.remap[jobs[i].Key()]
    requires e.Key() in p'.remap && forall i | 0 <= i < |jobs| :: Sep(p'.remap[jobs[i].Key()], p'.remap[e.Key()])
    ensures PlacedApart(p', jobs + [e])
  {
    var all := jobs + [e];
    forall i, j | 0 <= i < j < |all| ensures Sep(p'.remap[all[i].Key()], p'.remap[all[j].Key()]) {
      if j < |jobs| {
        assert Sep(p.remap[jobs[i].Key()], p.remap[jobs[j].Key()]);
      }
    }
  }

  lemma KeysGrow(p: Pack, jobs: seq<Extent>, e: Extent, p': Pack)
    requires KeysOf(p, jobs) && p'.remap.Keys == p.remap.Keys + {e.Key()}
    ensures KeysOf(p', jobs + [e])
  {
    var all := jobs + [e];
    forall x | x in p'.remap ensures exists k :: 0 <= k < |all| && all[k].Key() == x {
      if x in p.remap {
        var k :| 0 <= k < |jobs| && jobs[k].Key() == x;
        assert all[k].Key() == x;
      } else {
        assert all[|jobs|].Key() == x;
      }
    }
  }

  /** Every packed extent is held whole and unchanged in an output, no two in the same bytes. */
  lemma {:induction false} PackAllOk(jobs: seq<Extent>, v: View, limit: nat, clock: nat -> nat)
    requires JobsIn(jobs, v) && DistinctKeys(jobs)
    ensures PackOk(PackAll(jobs, v, limit, clock), jobs, v, clock)
  {
    if jobs == [] {
    } else {
      var k := |jobs| - 1;
      PackAllOk(jobs[..k], v, limit, clock);
      assert jobs[..k] + [jobs[k]] == jobs;
      PackOneOk(PackAll(jobs[..k], v, limit, clock), jobs[..k], jobs[k], v, limit, clock);
    }
  }

  // ---- How full the outputs are ----

  function TotalLength(exts: seq<Extent>): nat {
    if exts == [] then 0 else TotalLength(exts[..|exts| - 1]) + exts[|exts| - 1].length
  }

  function TotalOutput(outs: seq<Output>): nat {
    if outs == [] then 0 else TotalOutput(outs[..|outs| - 1]) + |outs[|outs| - 1].buf|
  }

  lemma PackOneTotal(p: Pack, e: Extent, data: Bytes, limit: nat, clock: nat -> nat)
    requires p.outs != [] && |data| == e.length
    ensures TotalOutput(PackOne(p, e, data, limit, clock).outs) == TotalOutput(p.outs) + e.length
  {
    var outs := if Rotates(p.outs, e, limit) then Opened(p.outs, clock) else p.outs;
    if Rotates(p.outs, e, limit) {
      assert outs[..|outs| - 1] == p.outs;
    }
    var outs' := PackOne(p, e, data, limit, clock).outs;
    assert outs'[..|outs'| - 1] == outs[..|outs| - 1];
  }

  /** The outputs hold exactly as many bytes as were packed. */
  lemma {:induction false} PackAllTotal(jobs: seq<Extent>, v: View, limit: nat, clock: nat -> nat)
    requires JobsIn(jobs, v)
    ensures TotalOutput(PackAll(jobs, v, limit, clock).outs) == TotalLength(jobs)
  {
    if jobs == [] {
      var outs := Opened([], clock);
      assert outs[..|outs| - 1] == [];
    } else {
      var k := |jobs| - 1;
      PackAllTotal(jobs[..k], v, limit, clock);
      PackOneTotal(PackAll(jobs[..k], v, limit, clock), jobs[k], ChunkSlice(v, jobs[k]), limit, clock);
    }
  }

  /** Full enough: any two outputs in a row together exceed the limit, and none but a lone first one is empty. */
  predicate WellFilled(outs: seq<Output>, limit: nat) {
    && (forall k | 0 <= k < |outs| - 1 :: |outs[k].buf| + |outs[k + 1].buf| > limit)
    && (forall k | 0 <= k < |outs| - 1 :: outs[k].buf != [])
  }

  predicate Fits(outs: seq<Output>, limit: nat) {
    forall k | 0 <= k < |outs| :: |outs[k].buf| <= limit
  }

  lemma PackOneFilled(p: Pack, e: Extent, data: Bytes, limit: nat, clock: nat -> nat)
    requires p.outs != [] && |data| == e.length > 0 && WellFilled(p.outs, limit)
    ensures WellFilled(PackOne(p, e, data, limit, clock).outs, limit)
    ensures Fits(p.outs, limit) && e.length <= limit ==> Fits(PackOne(p, e, data, limit, clock).outs, limit)
  {
    var rotates := Rotates(p.outs, e, limit);
    var outs := if rotates then Opened(p.outs, clock) else p.outs;
    var outs' := PackOne(p, e, data, limit, clock).outs;
    var n := |outs| - 1;
    forall k | 0 <= k < |outs'| - 1
      ensures |outs'[k].buf| + |outs'[k + 1].buf| > limit && outs'[k].buf != []
    {
      if k + 1 < n || !rotates {
        assert |outs[k].buf| + |outs[k + 1].buf| > limit;
      }
    }
  }

  /** When no packed extent exceeds the limit, no output does; and outputs are never opened early. */
  lemma {:induction false} PackAllFilled(jobs: seq<Extent>, v: View, limit: nat, clock: nat -> nat)
    requires JobsIn(jobs, v)
    ensures WellFilled(PackAll(jobs, v, limit, clock).outs, limit)
    ensures (forall k | 0 <= k < |jobs| :: jobs[k].length <= limit) ==> Fits(PackAll(jobs, v, limit, clock).outs, limit)
  {
    if jobs == [] {
    } else {
      var k := |jobs| - 1;
      PackAllFilled(jobs[..k], v, limit, clock);
      PackOneFilled(PackAll(jobs[..k], v, limit, clock), jobs[k], ChunkSlice(v, jobs[k]), limit, clock);
    }
  }

  lemma TotalLastTwo(outs: seq<Output>)
    requires |outs| >= 2
    ensures var n := |outs|;
            TotalOutput(outs) == TotalOutput(outs[..n - 2]) + |outs[n - 2].buf| + |outs[n - 1].buf|
  {
    var n := |outs|;
    assert outs[..n - 1][..n - 2] == outs[..n - 2];
  }

  lemma HalfStep(n: nat, c: nat)
    requires n >= 2
    ensures n / 2 * c == (n - 2) / 2 * c + c
  {
    assert n / 2 == (n - 2) / 2 + 1;
  }

  lemma {:induction false} FilledTotal(outs: seq<Output>, limit: nat)
    requires WellFilled(outs, limit)
    ensures |outs| / 2 * (limit + 1) <= TotalOutput(outs)
  {
    if |outs| < 2 {
      assert |outs| / 2 == 0;
    } else {
      var n := |outs|;
      FilledTotal(outs[..n - 2], limit);
      TotalLastTwo(outs);
      assert |outs[n - 2].buf| + |outs[n - 2 + 1].buf| > limit;
      HalfStep(n, limit + 1);
    }
  }

  /** The number of outputs is at most twice the number that the bytes would fill, plus one. */
  lemma PackCount(jobs: seq<Extent>, v: View, limit: nat, clock: nat -> nat)
    requires JobsIn(jobs, v) && limit > 0
    ensures |PackAll(jobs, v, limit, clock).outs| <= 2 * (TotalLength(jobs) / limit) + 1
  {
    var outs := PackAll(jobs, v, limit, clock).outs;
    PackAllFilled(jobs, v, limit, clock);
    PackAllTotal(jobs, v, limit, clock);
    FilledTotal(outs, limit);
    CountBound(|outs|, limit, TotalLength(jobs));
  }

  lemma CountBound(n: nat, limit: nat, t: nat)
    requires limit > 0 && n / 2 * (limit + 1) <= t
    ensures n <= 2 * (t / limit) + 1
  {
    var m := n / 2;
    assert m * (limit + 1) == m * limit + m;
    assert t == t / limit * limit + t % limit;
    if m >= t / limit + 1 {
      MulMonotone(t / limit + 1, m, limit);
    }
  }

  lemma MulMonotone(a: nat, b: nat, c: nat)
    requires a <= b
    ensures a * c <= b * c
  {
  }

  // ---- How much of a chunk can be live ----

  /** The numbers from `lo` up to but not including `hi`. */
  function Between(lo: nat, hi: nat): (s: set<nat>)
    requires lo <= hi
    ensures forall o :: o in s <==> lo <= o < hi
    ensures |s| == hi - lo
  {
    if lo == hi then {} else Between(lo, hi - 1) + {hi - 1}
  }

  function Offsets(e: Extent): set<nat> {
    Between(e.chunkOffset, e.ChunkEnd())
  }

  function Covered(exts: seq<Extent>): set<nat> {
    if exts == [] then {} else Covered(exts[..|exts| - 1]) + Offsets(exts[|exts| - 1])
  }

  lemma {:induction false} CoveredBy(exts: seq<Extent>, o: nat) returns (k: nat)
    requires o in Covered(exts)
    ensures k < |exts| && exts[k].chunkOffset <= o < exts[k].ChunkEnd()
  {
    k := |exts| - 1;
    if o !in Offsets(exts[k]) {
      k := CoveredBy(exts[..k], o);
    }
  }

  lemma LastCoversNew(exts: seq<Extent>)
    requires exts != [] && ChunkDisjoint(exts)
    requires forall k | 0 <= k < |exts| :: exts[k].chunkId == exts[0].chunkId
    ensures Covered(exts[..|exts| - 1]) !! Offsets(exts[|exts| - 1])
  {
    var n := |exts| - 1;
    forall o | o in Covered(exts[..n]) ensures o !in Offsets(exts[n]) {
      var k := CoveredBy(exts[..n], o);
      assert Sep(exts[k], exts[n]);
    }
  }

  lemma {:induction false} CoveredSize(exts: seq<Extent>)
    requires ChunkDisjoint(exts)
    requires forall k | 0 <= k < |exts| :: exts[k].chunkId == exts[0].chunkId
    ensures |Covered(exts)| == TotalLength(exts)
  {
    if exts == [] {
    } else {
      var n := |exts| - 1;
      var front, e := exts[..n], exts[n];
      CoveredSize(front);
      LastCoversNew(exts);
    }
  }

  /** Disjoint extents inside one chunk add up to at most its size. */
  lemma LiveAtMostSize(exts: seq<Extent>, size: nat)
    requires ChunkDisjoint(exts)
    requires forall k | 0 <= k < |exts| :: exts[k].chunkId == exts[0].chunkId && exts[k].ChunkEnd() <= size
    ensures TotalLength(exts) <= size
  {
    CoveredSize(exts);
    forall o | o in Covered(exts) ensures o in Between(0, size) {
      var k := CoveredBy(exts, o);
    }
    SubsetSize(Covered(exts), Between(0, size));
  }

  lemma {:induction false} SubsetSize(a: set<nat>, b: set<nat>)
    requires a <= b
    ensures |a| <= |b|
  {
    if a == {} {
    } else {
      var x :| x in a;
      SubsetSize(a - {x}, b - {x});
    }
  }
}
