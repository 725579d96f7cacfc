/**
 Writes that run beside each other.  `FileHandle.Write` takes four locks, one
 after the other: it looks up the inode, adds up the sizes in use, appends to the
 chunk store and records the extent in the index.  Here these are four steps of
 each writer, interleaved in any way with those of other writers and with every
 other operation of the whole machine.
 */
module Races {
  import opened Base
  import opened Extents
  import InPlaceFilter
  import opened IndexModel
  import opened FileData
  import opened ChunkModel
  import opened Sums
  import opened Filesystem
  import opened Runs

  // ---- The machine ----

  /** How far a write has come: it saw this size, passed the capacity check, or holds an extent to record. */
  datatype Phase = Looked(size: nat) | Admitted | Appended(ext: Extent)

  datatype Writer = Writer(ino: Ino, data: Bytes, off: nat, now: int, phase: Phase) {
    function End(): nat {
      off + |data|
    }
  }

  datatype Par = Par(fs: Fs, writers: map<nat, Writer>)

  datatype Act =
    | Look(t: nat, ino: Ino, data: Bytes, off: nat, now: int)  // GetInode
    | Check(t: nat)                                            // UsedBytes
    | Store(t: nat, put: PutOutcome)                           // Append
    | Record(t: nat, fm: FilterMode)                           // WriteExtent
    | Other(op: Op)

  ghost predicate Fits(s: Fs, size: nat, end: nat) {
    end > size ==> Used(s.idx) + (end - size) <= s.maxFsSize
  }

  function Moved(p: Par, t: nat, phase: Phase): Par
    requires t in p.writers
  {
    p.(writers := p.writers[t := p.writers[t].(phase := phase)])
  }

  function Done(p: Par, t: nat): Par {
    p.(writers := p.writers - {t})
  }

  ghost function StoreStep(p: Par, t: nat, o: PutOutcome): Par
    requires t in p.writers
  {
    var w := p.writers[t];
    var r := Append(p.fs.chunks, p.fs.objects, w.data, w.off, o);
    var p1 := p.(fs := p.fs.(chunks := r.chunks, objects := r.objects));
    if r.result.Some? then Moved(p1, t, Appended(r.result.value)) else Done(p1, t)
  }

  ghost function RecordStep(p: Par, t: nat, fm: FilterMode): Par
    requires t in p.writers && p.writers[t].phase.Appended?
  {
    var w := p.writers[t];
    Done(p.(fs := Changed(p.fs, WriteExtent(p.fs.idx, w.ino, w.phase.ext, w.now, fm))), t)
  }

  /** One step of one goroutine; a writer that is not there, or not at that step, does nothing. */
  ghost function ParStep(p: Par, a: Act): Par {
    match a
    case Look(t, i, data, off, now) =>
      if i !in p.fs.idx.inodes then p
      else p.(writers := p.writers[t := Writer(i, data, off, now, Looked(SizeOf(p.fs.idx, i)))])
    case Check(t) =>
      if !(t in p.writers && p.writers[t].phase.Looked?) then p
      else if Fits(p.fs, p.writers[t].phase.size, p.writers[t].End()) then Moved(p, t, Admitted)
      else Done(p, t)
    case Store(t, o) => if t in p.writers && p.writers[t].phase.Admitted? then StoreStep(p, t, o) else p
    case Record(t, fm) => if t in p.writers && p.writers[t].phase.Appended? then RecordStep(p, t, fm) else p
    case Other(op) => Par(Step(p.fs, op), if op.Restart? then map[] else p.writers)
  }

  /** What an operation must not do to an extent that a writer is about to record. */
  ghost predicate Spares(s: Fs, op: Op, w: Writer) {
    w.phase.Appended? ==>
      && (op.DeleteChunk? ==> op.id != w.phase.ext.chunkId)
      && (op.Remap? ==> Unused(RemapExtents(s.idx, op.table), w.phase.ext))
  }

  ghost predicate ActOk(p: Par, a: Act) {
    match a
    case Look(t, _, data, _, _) => t !in p.writers && data != []
    case Record(t, fm) =>
      t in p.writers && p.writers[t].phase.Appended? ==>
        WriteSafe(p.fs.idx, p.writers[t].ino, p.writers[t].phase.ext, fm)
    case Other(op) => !op.Write? && OpOk(p.fs, op) && forall t | t in p.writers :: Spares(p.fs, op, p.writers[t])
    case _ => true
  }

  ghost function ParRun(p: Par, acts: seq<Act>): Par
    decreases |acts|
  {
    if acts == [] then p else ParRun(ParStep(p, acts[0]), acts[1..])
  }

  ghost predicate ParRunOk(p: Par, acts: seq<Act>)
    decreases |acts|
  {
    acts == [] || (ActOk(p, acts[0]) && ParRunOk(ParStep(p, acts[0]), acts[1..]))
  }

  // ---- Undisturbed, the four steps are the write ----

  lemma UndisturbedWrite(p: Par, t: nat, op: Op)
    requires t !in p.writers && op.Write?
    ensures var p1 := ParStep(p, Look(t, op.ino, op.data, op.off, op.now));
            var p3 := ParStep(ParStep(p1, Check(t)), Store(t, op.put));
            ParStep(p3, Record(t, op.fm)) == Par(Step(p.fs, op), p.writers)
  {
    var p1 := ParStep(p, Look(t, op.ino, op.data, op.off, op.now));
    var p2 := ParStep(p1, Check(t));
    var p3 := ParStep(p2, Store(t, op.put));
    if op.ino !in p.fs.idx.inodes {
      assert p1 == p && p2 == p && p3 == p;
    } else {
      assert p1.writers - {t} == p.writers;
      if !HasRoom(p.fs, op.ino, op.off + |op.data|) {
        assert p2 == p && p3 == p;
      } else {
        assert p2.writers - {t} == p.writers;
        assert p3.writers - {t} == p.writers;
      }
    }
  }

  // ---- What every interleaving keeps ----

  /** An extent to record holds the data of its write, in chunk bytes that no file uses. */
  ghost predicate WriterOk(d: IndexData, v: View, w: Writer) {
    && w.data != []
    && (w.phase.Appended? ==>
        var e := w.phase.ext;
        && e.fileOffset == w.off && e.length == |w.data|
        && ReadChunk(v, e.chunkId, e.chunkOffset, e.length) == Some(w.data)
        && Unused(d, e))
  }

  predicate WritersSep(w: Writer, u: Writer) {
    w.phase.Appended? && u.phase.Appended? ==> Sep(w.phase.ext, u.phase.ext) && Sep(u.phase.ext, w.phase.ext)
  }

  ghost predicate ParInv(p: Par) {
    && Inv(p.fs)
    && (forall t | t in p.writers :: WriterOk(p.fs.idx, FsView(p.fs), p.writers[t]))
    && (forall t, u | t in p.writers && u in p.writers && t != u :: WritersSep(p.writers[t], p.writers[u]))
  }

  /** What a step does to the bytes: a write takes effect when it is recorded, and then as a whole. */
  ghost function Effect(r: Seen, p: Par, a: Act): Seen {
    match a
    case Record(t, _) =>
      if t in p.writers && p.writers[t].phase.Appended? && p.writers[t].ino in r.files then
        var w := p.writers[t];
        r.(files := r.files[w.ino := Overlay(r.files[w.ino], w.off, w.data)])
      else r
    case Other(op) => FileStep(r, op, true, LiveAfter(p.fs, op))
    case _ => r
  }

  /** No step but a deletion or a restart takes bytes away. */
  lemma ViewGrows(s: Fs, op: Op)
    requires Inv(s) && OpOk(s, op) && !op.Write? && !op.DeleteChunk? && !op.Restart?
    ensures GrowsUnlessEmpty(FsView(s), FsView(Step(s, op)))
  {
    if op.SealActive? {
      SealGrows(s.chunks, s.objects, op.put);
    } else if op.FlushActive? {
      FlushKeeps(s.chunks, s.objects, op.put);
    }
  }

  lemma ViewKeeps(s: Fs, op: Op, id: string)
    requires Inv(s) && OpOk(s, op) && !op.Write? && !op.Restart?
    requires op.DeleteChunk? ==> op.id != id
    requires id in FsView(s) && FsView(s)[id] != []
    ensures id in FsView(Step(s, op)) && FsView(s)[id] <= FsView(Step(s, op))[id]
  {
    if !op.DeleteChunk? {
      ViewGrows(s, op);
    }
  }

  lemma ResizeKeepsUnused(d: IndexData, i: Ino, a: AttrChange, now: int, e: Extent)
    requires KeysOk(d) && i in d.inodes && Unused(d, e)
    requires forall j | j in d.extents ::
               Positive(d.extents[j]) && FileDisjoint(d.extents[j]) && ChunkDisjoint(d.extents[j])
    ensures Unused(SetAttr(d, i, a, now).value, e)
  {
    SetAttrShape(d, i, a, now);
    if i in d.extents && a.size.Some? && a.size.value != SizeOf(d, i) {
      TrimAreParts(d.extents[i], a.size.value);
      PartsCrossSep(Trim(d.extents[i], a.size.value), d.extents[i], [e]);
    }
  }

  lemma UnusedStays(s: Fs, op: Op, e: Extent)
    requires Inv(s) && OpOk(s, op) && !op.Write? && !op.Restart? && Unused(s.idx, e)
    requires op.Remap? ==> Unused(RemapExtents(s.idx, op.table), e)
    ensures Unused(Step(s, op).idx, e)
  {
    if op.Meta? {
      if ApplyMeta(s.idx, op.meta, s.blockSize).Some? {
        MetaDrops(s.idx, op.meta, s.blockSize);
      }
    } else if op.ChangeAttr? {
      if op.ino in s.idx.inodes {
        forall j | j in s.idx.extents
          ensures Positive(s.idx.extents[j]) && FileDisjoint(s.idx.extents[j]) && ChunkDisjoint(s.idx.extents[j])
        {
          assert ListOk(s.idx.extents[j], SizeOf(s.idx, j), FsView(s));
        }
        ResizeKeepsUnused(s.idx, op.ino, op.change, op.now, e);
      }
    }
  }

  lemma OtherKeepsWriter(s: Fs, op: Op, w: Writer)
    requires Inv(s) && OpOk(s, op) && !op.Write? && !op.Restart?
    requires WriterOk(s.idx, FsView(s), w) && Spares(s, op, w)
    ensures WriterOk(Step(s, op).idx, FsView(Step(s, op)), w)
  {
    if w.phase.Appended? {
      var e := w.phase.ext;
      ViewKeeps(s, op, e.chunkId);
      PrefixReads(FsView(s), FsView(Step(s, op)), e.chunkId, e.chunkOffset, e.length);
      UnusedStays(s, op, e);
    }
  }

  lemma OtherKeeps(p: Par, op: Op)
    requires ParInv(p) && ActOk(p, Other(op))
    ensures ParInv(ParStep(p, Other(op)))
    ensures Abs(ParStep(p, Other(op)).fs) == Effect(Abs(p.fs), p, Other(op))
  {
    StepSimulates(p.fs, op);
    if !op.Restart? {
      var q := ParStep(p, Other(op));
      forall t | t in q.writers ensures WriterOk(q.fs.idx, FsView(q.fs), q.writers[t]) {
        OtherKeepsWriter(p.fs, op, p.writers[t]);
      }
    }
  }

  /** New chunk bytes are apart from those that any other writer holds. */
  lemma NewExtentSep(d: IndexData, v: View, w: Writer, e: Extent)
    requires WriterOk(d, v, w) && w.phase.Appended? && Beyond(v, e)
    ensures Sep(w.phase.ext, e) && Sep(e, w.phase.ext)
  {
  }

  lemma GrownWriter(d: IndexData, v: View, v': View, w: Writer)
    requires WriterOk(d, v, w) && GrowsUnlessEmpty(v, v')
    ensures WriterOk(d, v', w)
  {
    if w.phase.Appended? {
      PrefixReads(v, v', w.phase.ext.chunkId, w.phase.ext.chunkOffset, w.phase.ext.length);
    }
  }

  lemma StoreSeps(p: Par, t: nat, o: PutOutcome)
    requires ParInv(p) && t in p.writers && p.writers[t].phase.Admitted?
    ensures var ws := StoreStep(p, t, o).writers;
            forall x, y | x in ws && y in ws && x != y :: WritersSep(ws[x], ws[y])
  {
    var w, ws := p.writers[t], StoreStep(p, t, o).writers;
    var r := Append(p.fs.chunks, p.fs.objects, w.data, w.off, o);
    AppendKeeps(p.fs.chunks, p.fs.objects, w.data, w.off, o);
    forall x, y | x in ws && y in ws && x != y ensures WritersSep(ws[x], ws[y]) {
      assert WritersSep(p.writers[x], p.writers[y]);
      if r.result.Some? {
        if x == t && ws[y].phase.Appended? {
          NewExtentSep(p.fs.idx, FsView(p.fs), p.writers[y], r.result.value);
        } else if y == t && ws[x].phase.Appended? {
          NewExtentSep(p.fs.idx, FsView(p.fs), p.writers[x], r.result.value);
        }
      }
    }
  }

  lemma StoreKeeps(p: Par, t: nat, o: PutOutcome)
    requires ParInv(p) && t in p.writers && p.writers[t].phase.Admitted?
    ensures ParInv(StoreStep(p, t, o)) && Abs(StoreStep(p, t, o).fs) == Abs(p.fs)
  {
    var w, q := p.writers[t], StoreStep(p, t, o);
    var r := Append(p.fs.chunks, p.fs.objects, w.data, w.off, o);
    AppendKeeps(p.fs.chunks, p.fs.objects, w.data, w.off, o);
    ChunksMoveOn(p.fs, q.fs);
    var v, v' := FsView(p.fs), FsView(q.fs);
    forall u | u in q.writers ensures WriterOk(q.fs.idx, v', q.writers[u]) {
      if u == t {
        BeyondUnused(p.fs.idx, v, r.result.value);
      } else {
        GrownWriter(p.fs.idx, v, v', p.writers[u]);
      }
    }
    StoreSeps(p, t, o);
  }

  /** Recording one writer's extent leaves the others' unused. */
  lemma RecordKeepsUnused(d: IndexData, v: View, w: Writer, fm: FilterMode, e: Extent)
    requires DataOk(d, v) && IsRegular(d, w.ino) && WriterOk(d, v, w) && w.phase.Appended?
    requires WriteSafe(d, w.ino, w.phase.ext, fm) && Unused(d, e) && Sep(e, w.phase.ext)
    ensures Unused(WriteExtent(d, w.ino, w.phase.ext, w.now, fm).value, e)
  {
    var exts := d.extents[w.ino];
    assert ListOk(exts, SizeOf(d, w.ino), v);
    if fm.InPlace? {
      InPlaceFilter.InPlaceAgrees(exts, w.phase.ext);
    }
    WriteFreshCross(exts, w.phase.ext, [e]);
  }

  lemma RecordKeeps(p: Par, t: nat, fm: FilterMode)
    requires ParInv(p) && t in p.writers && p.writers[t].phase.Appended? && ActOk(p, Record(t, fm))
    ensures ParInv(RecordStep(p, t, fm))
    ensures Abs(RecordStep(p, t, fm).fs) == Effect(Abs(p.fs), p, Record(t, fm))
  {
    var w, q := p.writers[t], RecordStep(p, t, fm);
    assert WriterOk(p.fs.idx, FsView(p.fs), w);
    if IsRegular(p.fs.idx, w.ino) {
      WriteLands(p.fs, w.ino, w.phase.ext, w.data, w.now, fm);
      forall u | u in q.writers ensures WriterOk(q.fs.idx, FsView(q.fs), q.writers[u]) {
        assert WriterOk(p.fs.idx, FsView(p.fs), p.writers[u]) && WritersSep(p.writers[u], w);
        if p.writers[u].phase.Appended? {
          RecordKeepsUnused(p.fs.idx, FsView(p.fs), w, fm, p.writers[u].phase.ext);
        }
      }
    } else {
      assert w.ino !in Abs(p.fs).files;
    }
  }

  /**
   Every step of every writer and every other operation keeps the invariant, and
   a write has its whole effect on the bytes at the moment it is recorded.
   */
  lemma ParStepKeeps(p: Par, a: Act)
    requires ParInv(p) && ActOk(p, a)
    ensures ParInv(ParStep(p, a)) && Abs(ParStep(p, a).fs) == Effect(Abs(p.fs), p, a)
  {
    match a
    case Look(_, _, _, _, _) =>
    case Check(_) =>
    case Store(t, o) =>
      if t in p.writers && p.writers[t].phase.Admitted? {
        StoreKeeps(p, t, o);
      }
    case Record(t, fm) =>
      if t in p.writers && p.writers[t].phase.Appended? {
        RecordKeeps(p, t, fm);
      }
    case Other(op) => OtherKeeps(p, op);
  }

  ghost function RunEffect(r: Seen, p: Par, acts: seq<Act>): Seen
    decreases |acts|
  {
    if acts == [] then r else RunEffect(Effect(r, p, acts[0]), ParStep(p, acts[0]), acts[1..])
  }

  /** Over every interleaving, the bytes are those of the recorded writes and the other operations, in that order. */
  lemma {:induction false} ParRunKeeps(p: Par, acts: seq<Act>)
    requires ParInv(p) && ParRunOk(p, acts)
    ensures ParInv(ParRun(p, acts)) && Abs(ParRun(p, acts).fs) == RunEffect(Abs(p.fs), p, acts)
    decreases |acts|
  {
    if acts == [] {
    } else {
      ParStepKeeps(p, acts[0]);
      ParRunKeeps(ParStep(p, acts[0]), acts[1..]);
    }
  }

  // ---- Reads beside writes ----

  predicate Forgets(a: Act, id: string) {
    a.Other? && (a.op.Restart? || (a.op.DeleteChunk? && a.op.id == id))
  }

  lemma ActKeepsChunk(p: Par, a: Act, id: string)
    requires ParInv(p) && ActOk(p, a) && !Forgets(a, id) && id in FsView(p.fs) && FsView(p.fs)[id] != []
    ensures var v, v' := FsView(p.fs), FsView(ParStep(p, a).fs); id in v' && v[id] <= v'[id]
  {
    match a
    case Look(_, _, _, _, _) =>
    case Check(_) =>
    case Store(t, o) =>
      if t in p.writers && p.writers[t].phase.Admitted? {
        AppendKeeps(p.fs.chunks, p.fs.objects, p.writers[t].data, p.writers[t].off, o);
      }
    case Record(_, _) =>
    case Other(op) => ViewKeeps(p.fs, op, id);
  }

  lemma {:induction false} ChunkStays(p: Par, acts: seq<Act>, id: string)
    requires ParInv(p) && ParRunOk(p, acts) && id in FsView(p.fs) && FsView(p.fs)[id] != []
    requires forall k | 0 <= k < |acts| :: !Forgets(acts[k], id)
    ensures var v, v' := FsView(p.fs), FsView(ParRun(p, acts).fs); id in v' && v[id] <= v'[id]
    decreases |acts|
  {
    if acts == [] {
    } else {
      var q := ParStep(p, acts[0]);
      ParStepKeeps(p, acts[0]);
      ActKeepsChunk(p, acts[0], id);
      ChunkStays(q, acts[1..], id);
    }
  }

  /** Where a list is disjoint in the file, the byte at a position is that of the one extent that covers it. */
  lemma {:induction false} OneCovers(exts: seq<Extent>, k: nat, v: View, p: nat)
    requires k < |exts| && FileDisjoint(exts) && Covers(exts[k], p)
    ensures ByteAt(exts, v, p) == ChunkByte(v, exts[k].chunkId, exts[k].chunkOffset + (p - exts[k].fileOffset))
  {
    var n := |exts| - 1;
    if k == n {
    } else {
      assert Apart(exts[k], exts[n]);
      OneCovers(exts[..n], k, v, p);
    }
  }

  lemma ExtentShows(exts: seq<Extent>, size: nat, k: nat, v: View, off: nat, len: nat)
    requires ListOk(exts, size, v) && k < |exts| && exts[k].fileOffset <= off && off + len <= exts[k].End()
    ensures off + len <= size
    ensures ReadChunk(v, exts[k].chunkId, exts[k].chunkOffset + (off - exts[k].fileOffset), len) ==
            Some(Content(exts, size, v)[off..off + len])
  {
    var e, c := exts[k], Content(exts, size, v);
    assert InView(e, v) && e.End() <= size;
    var o := e.chunkOffset + (off - e.fileOffset);
    var got := v[e.chunkId][o..o + len];
    forall n | 0 <= n < |got| ensures got[n] == c[off..off + len][n] {
      OneCovers(exts, k, v, off + n);
    }
    assert got == c[off..off + len];
  }

  /**
   `FileHandle.Read` takes the extent list first and reads the chunks later, one
   by one.  However other goroutines run in between, each chunk read gives the
   bytes the file had when the list was taken, unless the chunk has been deleted.
   */
  lemma LateReadExact(p: Par, acts: seq<Act>, i: Ino, k: nat, off: nat, len: nat)
    requires ParInv(p) && ParRunOk(p, acts) && i in p.fs.idx.extents && k < |p.fs.idx.extents[i]|
    requires var e := p.fs.idx.extents[i][k]; e.fileOffset <= off && off + len <= e.End()
    requires forall n | 0 <= n < |acts| :: !Forgets(acts[n], p.fs.idx.extents[i][k].chunkId)
    ensures var e := p.fs.idx.extents[i][k];
            && off + len <= |Abs(p.fs).files[i]|
            && ReadChunk(FsView(ParRun(p, acts).fs), e.chunkId, e.chunkOffset + (off - e.fileOffset), len) ==
               Some(Abs(p.fs).files[i][off..off + len])
  {
    var exts, v := p.fs.idx.extents[i], FsView(p.fs);
    var e := exts[k];
    assert ListOk(exts, SizeOf(p.fs.idx, i), v);
    ExtentShows(exts, SizeOf(p.fs.idx, i), k, v, off, len);
    assert InView(e, v);
    ChunkStays(p, acts, e.chunkId);
    PrefixReads(v, FsView(ParRun(p, acts).fs), e.chunkId, e.chunkOffset + (off - e.fileOffset), len);
  }

  lemma RecordedLast(d: IndexData, w: Writer, fm: FilterMode)
    requires IsRegular(d, w.ino) && w.phase.Appended? && WriteSafe(d, w.ino, w.phase.ext, fm)
    ensures var exts := WriteExtent(d, w.ino, w.phase.ext, w.now, fm).value.extents[w.ino];
            exts != [] && exts[|exts| - 1] == w.phase.ext
  {
    if fm.InPlace? {
      InPlaceFilter.InPlaceAgrees(ExtentsOf(d, w.ino), w.phase.ext);
    }
  }

  /**
   Deleting a chunk that an unrecorded extent lies in loses the write: with an
   otherwise allowed deletion of chunk `id` in between, recording leaves the index
   readable if and only if the extent is in another chunk.
   */
  lemma RecordAfterDeleteIff(p: Par, t: nat, id: string, fm: FilterMode)
    requires ParInv(p) && t in p.writers && p.writers[t].phase.Appended? && IsRegular(p.fs.idx, p.writers[t].ino)
    requires ActOk(p, Record(t, fm)) && OpOk(p.fs, DeleteChunk(id, true))
    ensures var q := ParStep(ParStep(p, Other(DeleteChunk(id, true))), Record(t, fm));
            Inv(q.fs) <==> p.writers[t].phase.ext.chunkId != id
  {
    var w, del := p.writers[t], DeleteChunk(id, true);
    var p1 := Par(Step(p.fs, del), p.writers[t := w]);
    assert WriterOk(p.fs.idx, FsView(p.fs), w);
    assert p1 == ParStep(p, Other(del)) && p1.fs.idx == p.fs.idx;
    var q := RecordStep(p1, t, fm);
    if w.phase.ext.chunkId != id {
      StepSimulates(p.fs, del);
      OtherKeepsWriter(p.fs, del, w);
      WriteLands(p1.fs, w.ino, w.phase.ext, w.data, w.now, fm);
    } else {
      var exts := q.fs.idx.extents[w.ino];
      RecordedLast(p.fs.idx, w, fm);
      assert exts[|exts| - 1] == w.phase.ext && !InView(exts[|exts| - 1], FsView(q.fs));
      assert !ListOk(exts, SizeOf(q.fs.idx, w.ino), FsView(q.fs));
    }
  }

  // ---- Capacity ----

  /** What the files add up to once file `i`, if there is one, reaches to `end`. */
  ghost function UsedOnce(d: IndexData, i: Ino, end: nat): int {
    if IsRegular(d, i) then Used(d) - SizeOf(d, i) + Max(SizeOf(d, i), end) else Used(d)
  }

  /** The sizes once a write has been recorded. */
  ghost function Reached(sizes: map<Ino, nat>, w: Writer): map<Ino, nat> {
    if w.ino in sizes then sizes[w.ino := Max(sizes[w.ino], w.End())] else sizes
  }

  lemma RecordUses(p: Par, t: nat, fm: FilterMode)
    requires ParInv(p) && t in p.writers && p.writers[t].phase.Appended?
    ensures var w, q := p.writers[t], RecordStep(p, t, fm);
            && Used(q.fs.idx) == UsedOnce(p.fs.idx, w.ino, w.End())
            && SizesOf(q.fs.idx.inodes) == Reached(SizesOf(p.fs.idx.inodes), w)
            && SameCopies(p.fs, q.fs) && q.fs.maxFsSize == p.fs.maxFsSize
  {
    var w, q := p.writers[t], RecordStep(p, t, fm);
    assert WriterOk(p.fs.idx, FsView(p.fs), w);
    if IsRegular(p.fs.idx, w.ino) {
      WriteSizes(p.fs.idx, w.ino, w.phase.ext, w.now, fm);
      UsedReplace(p.fs.idx, q.fs.idx, w.ino, Max(SizeOf(p.fs.idx, w.ino), w.End()));
    }
  }

  /** The two unchecked operations, and the record of a write, which was checked some time ago. */
  ghost predicate ActFits(p: Par, a: Act) {
    match a
    case Record(t, _) =>
      t in p.writers && p.writers[t].phase.Appended? ==>
        UsedOnce(p.fs.idx, p.writers[t].ino, p.writers[t].End()) <= p.fs.maxFsSize
    case Other(op) => GrowthFits(p.fs, op)
    case _ => true
  }

  lemma RecordCapIff(p: Par, t: nat, fm: FilterMode)
    requires ParInv(p) && t in p.writers && p.writers[t].phase.Appended? && CapInv(p.fs)
    ensures CapInv(RecordStep(p, t, fm).fs) <==> ActFits(p, Record(t, fm))
  {
    RecordUses(p, t, fm);
  }

  lemma BeforeRecordCap(p: Par, a: Act)
    requires CapInv(p.fs) && (a.Look? || a.Check? || a.Store?)
    ensures CapInv(ParStep(p, a).fs)
  {
  }

  lemma ParCapStepIff(p: Par, a: Act)
    requires ParInv(p) && ActOk(p, a) && CapInv(p.fs)
    ensures CapInv(ParStep(p, a).fs) <==> ActFits(p, a)
  {
    if a.Other? {
      CapStepIff(p.fs, a.op);
    } else if a.Record? {
      if a.t in p.writers && p.writers[a.t].phase.Appended? {
        RecordCapIff(p, a.t, a.fm);
      }
    } else {
      BeforeRecordCap(p, a);
    }
  }

  ghost predicate AllActsFit(p: Par, acts: seq<Act>)
    decreases |acts|
  {
    acts == [] || (ActFits(p, acts[0]) && AllActsFit(ParStep(p, acts[0]), acts[1..]))
  }

  ghost predicate CapThroughout(p: Par, acts: seq<Act>)
    decreases |acts|
  {
    CapInv(p.fs) && (acts == [] || CapThroughout(ParStep(p, acts[0]), acts[1..]))
  }

  /** An interleaving keeps within capacity throughout if and only if each write still fits when it is recorded. */
  lemma {:induction false} ParCapRunIff(p: Par, acts: seq<Act>)
    requires ParInv(p) && ParRunOk(p, acts) && CapInv(p.fs)
    ensures CapThroughout(p, acts) <==> AllActsFit(p, acts)
    decreases |acts|
  {
    if acts == [] {
    } else {
      ParCapStepIff(p, acts[0]);
      ParStepKeeps(p, acts[0]);
      if ActFits(p, acts[0]) {
        ParCapRunIff(ParStep(p, acts[0]), acts[1..]);
      }
    }
  }

  // ---- Writes admitted together ----

  ghost function Settled(sizes: map<Ino, nat>, ws: seq<Writer>): map<Ino, nat>
    decreases |ws|
  {
    if ws == [] then sizes else Settled(Reached(sizes, ws[0]), ws[1..])
  }

  /** Each file has come to the highest of its size and the ends of the writes to it. */
  ghost predicate IsSettled(sizes: map<Ino, nat>, ws: seq<Writer>, sizes': map<Ino, nat>) {
    && sizes'.Keys == sizes.Keys
    && (forall i | i in sizes :: sizes[i] <= sizes'[i])
    && (forall w | w in ws && w.ino in sizes :: w.End() <= sizes'[w.ino])
    && (forall i | i in sizes && sizes'[i] != sizes[i] :: exists w :: w in ws && w.ino == i && sizes'[i] == w.End())
  }

  lemma {:induction false} SettledIs(sizes: map<Ino, nat>, ws: seq<Writer>)
    ensures IsSettled(sizes, ws, Settled(sizes, ws))
    decreases |ws|
  {
    if ws == [] {
    } else {
      var s1, r := Reached(sizes, ws[0]), Settled(sizes, ws);
      SettledIs(s1, ws[1..]);
      forall w | w in ws && w.ino in sizes ensures w.End() <= r[w.ino] {
        if w != ws[0] {
          assert w in ws[1..];
        }
      }
      forall i | i in sizes && r[i] != sizes[i] ensures exists w :: w in ws && w.ino == i && r[i] == w.End() {
        if r[i] == s1[i] {
          assert ws[0] in ws;
        } else {
          var w :| w in ws[1..] && w.ino == i && r[i] == w.End();
          assert w in ws;
        }
      }
    }
  }

  /** The order of the writes makes no difference to the sizes. */
  lemma SettledInAnyOrder(sizes: map<Ino, nat>, ws: seq<Writer>, us: seq<Writer>)
    requires forall w :: w in ws <==> w in us
    ensures Settled(sizes, ws) == Settled(sizes, us)
  {
    SettledIs(sizes, ws);
    SettledIs(sizes, us);
    var a, b := Settled(sizes, ws), Settled(sizes, us);
    forall i | i in sizes ensures a[i] == b[i] {
      if a[i] != sizes[i] {
        var w :| w in ws && w.ino == i && a[i] == w.End();
        assert w in us;
      }
      if b[i] != sizes[i] {
        var w :| w in us && w.ino == i && b[i] == w.End();
        assert w in ws;
      }
    }
  }

  lemma SettledGrows(sizes: map<Ino, nat>, ws: seq<Writer>)
    ensures Sum(sizes) <= Sum(Settled(sizes, ws))
  {
    SettledIs(sizes, ws);
    SumBounded(Settled(sizes, ws), sizes);
  }

  /** Each of these writers, all different, holds an extent to record. */
  predicate Together(p: Par, ts: seq<nat>) {
    && (forall k | 0 <= k < |ts| :: ts[k] in p.writers && p.writers[ts[k]].phase.Appended?)
    && (forall k, l | 0 <= k < l < |ts| :: ts[k] != ts[l])
  }

  function Requests(p: Par, ts: seq<nat>): seq<Writer>
    requires Together(p, ts)
  {
    seq(|ts|, k requires 0 <= k < |ts| => p.writers[ts[k]])
  }

  function Records(ts: seq<nat>, fms: seq<FilterMode>): seq<Act>
    requires |fms| == |ts|
  {
    seq(|ts|, k requires 0 <= k < |ts| => Record(ts[k], fms[k]))
  }

  lemma FirstRecorded(p: Par, ts: seq<nat>)
    requires ParInv(p) && Together(p, ts) && ts != []
    ensures var w, q := p.writers[ts[0]], Done(p, ts[0]);
            && Requests(p, ts)[0] == w && Together(q, ts[1..]) && Requests(p, ts)[1..] == Requests(q, ts[1..])
  {
    var q := Done(p, ts[0]);
    forall k | 0 <= k < |ts[1..]| ensures ts[1..][k] in q.writers && q.writers[ts[1..][k]] == p.writers[ts[1 + k]] {
      assert ts[0] != ts[1 + k];
    }
  }

  lemma FirstRecord(ts: seq<nat>, fms: seq<FilterMode>)
    requires |fms| == |ts| && ts != []
    ensures Records(ts, fms)[0] == Record(ts[0], fms[0]) && Records(ts, fms)[1..] == Records(ts[1..], fms[1..])
  {
  }

  lemma SameRequests(p: Par, q: Par, ts: seq<nat>)
    requires Together(p, ts) && q.writers == p.writers
    ensures Together(q, ts) && Requests(q, ts) == Requests(p, ts)
  {
  }

  lemma OneOfTogether(p: Par, q: Par, ts: seq<nat>, fm: FilterMode)
    requires ParInv(p) && CapInv(p.fs) && Together(p, ts) && ts != [] && ActOk(p, Record(ts[0], fm))
    requires q == RecordStep(p, ts[0], fm)
    ensures ParInv(q) && Together(q, ts[1..]) && q.fs.maxFsSize == p.fs.maxFsSize
    ensures CapInv(q.fs) <==> Sum(SizesOf(q.fs.idx.inodes)) <= p.fs.maxFsSize
    ensures Settled(SizesOf(p.fs.idx.inodes), Requests(p, ts)) ==
            Settled(SizesOf(q.fs.idx.inodes), Requests(q, ts[1..]))
  {
    RecordUses(p, ts[0], fm);
    RecordKeeps(p, ts[0], fm);
    FirstRecorded(p, ts);
    SameRequests(Done(p, ts[0]), q, ts[1..]);
  }

  /**
   Writes that have all been admitted keep within capacity, in whatever order
   they are recorded, if and only if the sizes they reach together fit.
   */
  lemma {:induction false} TogetherFitsIff(p: Par, ts: seq<nat>, fms: seq<FilterMode>)
    requires ParInv(p) && CapInv(p.fs) && Together(p, ts) && |fms| == |ts| && ParRunOk(p, Records(ts, fms))
    ensures CapThroughout(p, Records(ts, fms)) <==>
            Sum(Settled(SizesOf(p.fs.idx.inodes), Requests(p, ts))) <= p.fs.maxFsSize
    decreases |ts|
  {
    if ts == [] {
    } else {
      var acts := Records(ts, fms);
      FirstRecord(ts, fms);
      var q := ParStep(p, acts[0]);
      OneOfTogether(p, q, ts, fms[0]);
      SettledGrows(SizesOf(q.fs.idx.inodes), Requests(q, ts[1..]));
      if CapInv(q.fs) {
        TogetherFitsIff(q, ts[1..], fms[1..]);
      }
    }
  }

  // ---- Two writes that do not fit together ----

  function AdmitActs(p: Par, t: nat, u: nat, i: Ino, j: Ino, a: Bytes, b: Bytes, now: int): seq<Act> {
    [Look(t, i, a, SizeOf(p.fs.idx, i), now), Look(u, j, b, SizeOf(p.fs.idx, j), now)] + [Check(t), Check(u)]
  }

  function LandActs(t: nat, u: nat): seq<Act> {
    [Store(t, Stored), Store(u, Stored)] + [Record(t, FreshList), Record(u, FreshList)]
  }

  lemma {:induction false} ParRunConcat(p: Par, a: seq<Act>, b: seq<Act>)
    ensures ParRun(p, a + b) == ParRun(ParRun(p, a), b)
    ensures ParRunOk(p, a + b) <==> ParRunOk(p, a) && ParRunOk(ParRun(p, a), b)
    decreases |a|
  {
    if a == [] {
      assert a + b == b;
    } else {
      assert (a + b)[0] == a[0] && (a + b)[1..] == a[1..] + b;
      ParRunConcat(ParStep(p, a[0]), a[1..], b);
    }
  }

  lemma OneAct(p: Par, x: Act)
    ensures ParRun(p, [x]) == ParStep(p, x) && (ParRunOk(p, [x]) <==> ActOk(p, x))
  {
    assert [x][1..] == [];
  }

  lemma TwoActs(p: Par, x: Act, y: Act)
    ensures ParRun(p, [x, y]) == ParStep(ParStep(p, x), y)
    ensures ParRunOk(p, [x, y]) <==> ActOk(p, x) && ActOk(ParStep(p, x), y)
  {
    assert [x, y] == [x] + [y];
    OneAct(p, x);
    OneAct(ParStep(p, x), y);
    ParRunConcat(p, [x], [y]);
  }

  /** Two more writers, both at the same step. */
  function Two(p: Par, t: nat, u: nat, w: Writer, x: Writer): Par {
    p.(writers := p.writers[t := w][u := x])
  }

  lemma TwoKeep(p: Par, t: nat, u: nat, w: Writer, x: Writer)
    requires ParInv(p) && w.phase.Admitted? && x.phase.Admitted? && w.data != [] && x.data != []
    requires t !in p.writers && u !in p.writers
    ensures ParInv(Two(p, t, u, w, x)) && Two(p, t, u, w, x).writers - {t} - {u} == p.writers
  {
  }

  lemma BothChecked(p: Par, q: Par, t: nat, u: nat)
    requires t != u && t in p.writers && u in p.writers && p.writers[t].phase.Looked? && p.writers[u].phase.Looked?
    requires Fits(p.fs, p.writers[t].phase.size, p.writers[t].End())
    requires Fits(p.fs, p.writers[u].phase.size, p.writers[u].End())
    requires q == Two(p, t, u, p.writers[t].(phase := Admitted), p.writers[u].(phase := Admitted))
    ensures ParRunOk(p, [Check(t), Check(u)]) && ParRun(p, [Check(t), Check(u)]) == q
  {
    TwoActs(p, Check(t), Check(u));
  }

  lemma BothAdmitted(p: Par, t: nat, u: nat, i: Ino, j: Ino, a: Bytes, b: Bytes, now: int)
    requires t != u && t !in p.writers && u !in p.writers && i in p.fs.idx.inodes && j in p.fs.idx.inodes
    requires a != [] && b != []
    requires Used(p.fs.idx) + |a| <= p.fs.maxFsSize && Used(p.fs.idx) + |b| <= p.fs.maxFsSize
    ensures var acts, ni, nj := AdmitActs(p, t, u, i, j, a, b, now), SizeOf(p.fs.idx, i), SizeOf(p.fs.idx, j);
            && ParRunOk(p, acts)
            && ParRun(p, acts) == Two(p, t, u, Writer(i, a, ni, now, Admitted), Writer(j, b, nj, now, Admitted))
  {
    var ni, nj := SizeOf(p.fs.idx, i), SizeOf(p.fs.idx, j);
    var p2 := Two(p, t, u, Writer(i, a, ni, now, Looked(ni)), Writer(j, b, nj, now, Looked(nj)));
    var p4 := Two(p, t, u, Writer(i, a, ni, now, Admitted), Writer(j, b, nj, now, Admitted));
    TwoActs(p, Look(t, i, a, ni, now), Look(u, j, b, nj, now));
    BothChecked(p2, p4, t, u);
    ParRunConcat(p, [Look(t, i, a, ni, now), Look(u, j, b, nj, now)], [Check(t), Check(u)]);
  }

  /** The same writes, of which `t` now holds an extent to record. */
  predicate NowAppended(p: Par, q: Par, t: nat) {
    && t in p.writers && t in q.writers && q.writers[t].phase.Appended?
    && q.writers == p.writers[t := p.writers[t].(phase := q.writers[t].phase)]
    && q.fs == p.fs.(chunks := q.fs.chunks, objects := q.fs.objects) && q.fs.chunks.maxSize == p.fs.chunks.maxSize
  }

  lemma StoreSucceeds(p: Par, t: nat)
    requires ParInv(p) && t in p.writers && p.writers[t].phase.Admitted?
    requires |p.writers[t].data| <= p.fs.chunks.maxSize
    ensures var q := ParStep(p, Store(t, Stored)); ParInv(q) && NowAppended(p, q, t)
  {
    StoreKeeps(p, t, Stored);
    AppendKeeps(p.fs.chunks, p.fs.objects, p.writers[t].data, p.writers[t].off, Stored);
  }

  lemma BothStored(p: Par, t: nat, u: nat)
    requires ParInv(p) && t != u && t in p.writers && u in p.writers
    requires p.writers[t].phase.Admitted? && p.writers[u].phase.Admitted?
    requires |p.writers[t].data| <= p.fs.chunks.maxSize && |p.writers[u].data| <= p.fs.chunks.maxSize
    ensures var acts := [Store(t, Stored), Store(u, Stored)];
            && ParRunOk(p, acts) && ParInv(ParRun(p, acts))
            && exists p1 :: NowAppended(p, p1, t) && NowAppended(p1, ParRun(p, acts), u)
  {
    StoreSucceeds(p, t);
    var p1 := ParStep(p, Store(t, Stored));
    StoreSucceeds(p1, u);
    TwoActs(p, Store(t, Stored), Store(u, Stored));
  }

  /** The record of an append to the end of its file. */
  lemma AppendRecorded(p: Par, t: nat)
    requires ParInv(p) && t in p.writers && p.writers[t].phase.Appended?
    requires IsRegular(p.fs.idx, p.writers[t].ino) && p.writers[t].off == SizeOf(p.fs.idx, p.writers[t].ino)
    ensures var q := ParStep(p, Record(t, FreshList));
            && ParInv(q) && q.writers == p.writers - {t}
            && Used(q.fs.idx) == Used(p.fs.idx) + |p.writers[t].data|
            && SameCopies(p.fs, q.fs) && q.fs.maxFsSize == p.fs.maxFsSize
            && forall j | j != p.writers[t].ino && IsRegular(p.fs.idx, j) ::
                 IsRegular(q.fs.idx, j) && SizeOf(q.fs.idx, j) == SizeOf(p.fs.idx, j)
  {
    RecordUses(p, t, FreshList);
    RecordKeeps(p, t, FreshList);
  }

  lemma BothRecorded(p: Par, t: nat, u: nat)
    requires ParInv(p) && t != u && t in p.writers && u in p.writers && p.writers[t].ino != p.writers[u].ino
    requires p.writers[t].phase.Appended? && p.writers[u].phase.Appended?
    requires IsRegular(p.fs.idx, p.writers[t].ino) && p.writers[t].off == SizeOf(p.fs.idx, p.writers[t].ino)
    requires IsRegular(p.fs.idx, p.writers[u].ino) && p.writers[u].off == SizeOf(p.fs.idx, p.writers[u].ino)
    ensures var acts := [Record(t, FreshList), Record(u, FreshList)];
            var q := ParRun(p, acts);
            && ParRunOk(p, acts) && q.writers == p.writers - {t} - {u}
            && Used(q.fs.idx) == Used(p.fs.idx) + |p.writers[t].data| + |p.writers[u].data|
            && SameCopies(p.fs, q.fs) && q.fs.maxFsSize == p.fs.maxFsSize
  {
    AppendRecorded(p, t);
    var p1 := ParStep(p, Record(t, FreshList));
    AppendRecorded(p1, u);
    TwoActs(p, Record(t, FreshList), Record(u, FreshList));
  }

  /** An admitted append to the end of its file, small enough for a chunk. */
  ghost predicate AtEnd(p: Par, w: Writer) {
    && w.phase.Admitted? && |w.data| <= p.fs.chunks.maxSize
    && IsRegular(p.fs.idx, w.ino) && w.off == SizeOf(p.fs.idx, w.ino)
  }

  ghost predicate ReadyToLand(p: Par, t: nat, u: nat) {
    && t != u && t in p.writers && u in p.writers && p.writers[t].ino != p.writers[u].ino
    && AtEnd(p, p.writers[t]) && AtEnd(p, p.writers[u])
  }

  lemma BothLand(p: Par, first: seq<Act>, p4: Par, t: nat, u: nat)
    requires ParRunOk(p, first) && ParRun(p, first) == p4 && ParInv(p4) && ReadyToLand(p4, t, u)
    ensures var q := ParRun(p, first + LandActs(t, u));
            && ParRunOk(p, first + LandActs(t, u)) && q.writers == p4.writers - {t} - {u}
            && Used(q.fs.idx) == Used(p4.fs.idx) + |p4.writers[t].data| + |p4.writers[u].data|
            && SameCopies(p4.fs, q.fs) && q.fs.maxFsSize == p4.fs.maxFsSize
  {
    var stores, records := [Store(t, Stored), Store(u, Stored)], [Record(t, FreshList), Record(u, FreshList)];
    BothStored(p4, t, u);
    var p6 := ParRun(p4, stores);
    assert p6.writers - {t} - {u} == p4.writers - {t} - {u};
    BothRecorded(p6, t, u);
    ParRunConcat(p4, stores, records);
    ParRunConcat(p, first, stores + records);
  }

  /**
   Two appends to different files that fit one by one, but not together, can
   both be checked before either is recorded, and then both are acknowledged.
   */
  lemma RaceOverfills(p: Par, t: nat, u: nat, i: Ino, j: Ino, a: Bytes, b: Bytes, now: int)
    requires ParInv(p) && CapInv(p.fs) && t != u && t !in p.writers && u !in p.writers
    requires i != j && IsRegular(p.fs.idx, i) && IsRegular(p.fs.idx, j)
    requires 0 < |a| <= p.fs.chunks.maxSize && 0 < |b| <= p.fs.chunks.maxSize
    requires Used(p.fs.idx) + |a| <= p.fs.maxFsSize && Used(p.fs.idx) + |b| <= p.fs.maxFsSize
    ensures var acts := AdmitActs(p, t, u, i, j, a, b, now) + LandActs(t, u);
            var q := ParRun(p, acts);
            && ParRunOk(p, acts) && q.writers == p.writers
            && Used(q.fs.idx) == Used(p.fs.idx) + |a| + |b|
            && (CapInv(q.fs) <==> Used(p.fs.idx) + |a| + |b| <= p.fs.maxFsSize)
  {
    var w := Writer(i, a, SizeOf(p.fs.idx, i), now, Admitted);
    var x := Writer(j, b, SizeOf(p.fs.idx, j), now, Admitted);
    var p4 := Two(p, t, u, w, x);
    BothAdmitted(p, t, u, i, j, a, b, now);
    TwoKeep(p, t, u, w, x);
    BothLand(p, AdmitActs(p, t, u, i, j, a, b, now), p4, t, u);
  }

  function Make(name: string, now: int): Op {
    Meta(MakeNode(ROOT_INO, name, REGULAR, 0x1A4, 0, 0, now))
  }

  lemma MakesFile(d: IndexData, name: string, now: int, blockSize: int)
    requires KeysOk(d)
    ensures var d', i := MakeNamed(d, ROOT_INO, name, REGULAR, 0x1A4, 0, 0, now, blockSize), d.nextIno;
            && d'.nextIno == i + 1 && IsRegular(d', i) && NoFileGrows(d.inodes, d'.inodes)
            && (forall j | IsRegular(d, j) :: IsRegular(d', j))
  {
    MakeNamedNeverGrows(d, ROOT_INO, name, REGULAR, 0x1A4, 0, 0, now, blockSize);
    var d1 := CreateInode(d, REGULAR, 0x1A4, 0, 0, 0, now, blockSize);
    assert forall j | IsRegular(d, j) :: j in d1.inodes && d1.inodes[j] == d.inodes[j];
  }

  lemma Makes(s: Fs, name: string, now: int)
    requires Inv(s) && CapInv(s)
    ensures var s', i := Step(s, Make(name, now)), s.idx.nextIno;
            && Inv(s') && CapInv(s') && Used(s'.idx) <= Used(s.idx) && s'.chunks == s.chunks
            && s'.maxFsSize == s.maxFsSize && s'.idx.nextIno == i + 1 && IsRegular(s'.idx, i)
            && (forall j | IsRegular(s.idx, j) :: IsRegular(s'.idx, j))
  {
    MetaSimulates(s, Make(name, now));
    CapStepIff(s, Make(name, now));
    MakesFile(s.idx, name, now, s.blockSize);
    UsedBounded(s.idx, Step(s, Make(name, now)).idx);
  }

  ghost function TwoFiles(c: Config, now: int): Fs {
    Step(Step(Mount(c, now), Make("a", now)), Make("b", now))
  }

  lemma TwoFilesHold(c: Config, now: int)
    ensures var s := TwoFiles(c, now);
            && Inv(s) && CapInv(s) && Used(s.idx) == 0 && s.chunks.maxSize == c.maxChunk && s.maxFsSize == c.maxFsSize
            && IsRegular(s.idx, ROOT_INO + 1) && IsRegular(s.idx, ROOT_INO + 2)
  {
    MountInv(c, now);
    FreshUses(now, c.blockSize);
    Makes(Mount(c, now), "a", now);
    Makes(Step(Mount(c, now), Make("a", now)), "b", now);
  }

  /** A fresh mount with room for one byte, two new files, and a write of one byte to each: two bytes are in use. */
  lemma RaceFromMount(c: Config, now: int, a: Byte, b: Byte)
    requires c.maxChunk > 0 && c.maxFsSize == 1
    ensures var p, i := Par(TwoFiles(c, now), map[]), ROOT_INO + 1;
            var acts := AdmitActs(p, 0, 1, i, i + 1, [a], [b], now) + LandActs(0, 1);
            ParRunOk(p, acts) && Used(ParRun(p, acts).fs.idx) == 2 && !CapInv(ParRun(p, acts).fs)
  {
    TwoFilesHold(c, now);
    RaceOverfills(Par(TwoFiles(c, now), map[]), 0, 1, ROOT_INO + 1, ROOT_INO + 2, [a], [b], now);
  }

  // ---- One write at a time ----

  predicate SetsSize(op: Op) {
    op.ChangeAttr? && op.change.size.Some?
  }

  /** The file has the size that the write saw, or what the write will add fits. */
  ghost predicate Reserved(s: Fs, w: Writer) {
    && w.ino < s.idx.nextIno
    && (IsRegular(s.idx, w.ino) ==>
        if w.phase.Looked? then w.phase.size == SizeOf(s.idx, w.ino)
        else UsedOnce(s.idx, w.ino, w.End()) <= s.maxFsSize)
  }

  predicate OneInFlight(p: Par) {
    forall t, u | t in p.writers && u in p.writers :: t == u
  }

  ghost predicate AllReserved(p: Par) {
    forall t | t in p.writers :: Reserved(p.fs, p.writers[t])
  }

  ghost predicate LoneInv(p: Par) {
    ParInv(p) && CapInv(p.fs) && OneInFlight(p) && AllReserved(p)
  }

  /** A write starts, or a size is set, only while no write is in flight. */
  ghost predicate LoneOk(p: Par, a: Act) {
    && ActOk(p, a)
    && (a.Look? ==> p.writers == map[])
    && (a.Other? ==> GrowthFits(p.fs, a.op) && (SetsSize(a.op) ==> p.writers == map[]))
  }

  lemma SameSizesReserve(s: Fs, s': Fs, w: Writer)
    requires Reserved(s, w) && s'.maxFsSize == s.maxFsSize && s.idx.nextIno <= s'.idx.nextIno
    requires Used(s'.idx) <= Used(s.idx)
    requires IsRegular(s'.idx, w.ino) ==> IsRegular(s.idx, w.ino) && SizeOf(s'.idx, w.ino) == SizeOf(s.idx, w.ino)
    ensures Reserved(s', w)
  {
  }

  lemma MetaReserves(s: Fs, op: Op, w: Writer)
    requires Inv(s) && op.Meta? && Reserved(s, w)
    ensures Reserved(Step(s, op), w)
  {
    if ApplyMeta(s.idx, op.meta, s.blockSize).Some? {
      MetaDrops(s.idx, op.meta, s.blockSize);
      MetaNeverGrows(s.idx, op.meta, s.blockSize);
      UsedBounded(s.idx, Step(s, op).idx);
      SameSizesReserve(s, Step(s, op), w);
    }
  }

  lemma AttrReserves(s: Fs, op: Op, w: Writer)
    requires op.ChangeAttr? && !SetsSize(op) && Reserved(s, w)
    ensures Reserved(Step(s, op), w)
  {
    ChangeAttrUses(s, op);
    SameSizesReserve(s, Step(s, op), w);
  }

  lemma SameInodes(s: Fs, op: Op)
    requires !op.Meta? && !op.ChangeAttr? && !op.Touch? && !op.Write? && !op.Restart?
    ensures var t := Step(s, op);
            t.idx.inodes == s.idx.inodes && t.idx.nextIno == s.idx.nextIno && t.maxFsSize == s.maxFsSize
  {
  }

  lemma OtherReserves(s: Fs, op: Op, w: Writer)
    requires Inv(s) && !op.Write? && !op.Restart? && !SetsSize(op) && Reserved(s, w)
    ensures Reserved(Step(s, op), w)
  {
    if op.Meta? {
      MetaReserves(s, op, w);
    } else if op.ChangeAttr? {
      AttrReserves(s, op, w);
    } else if op.Touch? {
      UsedBounded(s.idx, Step(s, op).idx);
      SameSizesReserve(s, Step(s, op), w);
    } else {
      SameInodes(s, op);
    }
  }

  lemma LoneFits(p: Par, a: Act)
    requires LoneInv(p) && LoneOk(p, a)
    ensures ActFits(p, a)
  {
  }

  lemma OwnStepReserves(p: Par, a: Act)
    requires KeysOk(p.fs.idx) && CapInv(p.fs) && AllReserved(p) && OneInFlight(p) && !a.Other?
    requires a.Look? ==> p.writers == map[]
    ensures AllReserved(ParStep(p, a))
  {
  }

  lemma OtherStepReserves(p: Par, op: Op)
    requires Inv(p.fs) && AllReserved(p) && !op.Write? && (SetsSize(op) ==> p.writers == map[])
    ensures AllReserved(ParStep(p, Other(op)))
  {
    var q := ParStep(p, Other(op));
    forall t | t in q.writers ensures Reserved(q.fs, q.writers[t]) {
      OtherReserves(p.fs, op, p.writers[t]);
    }
  }

  lemma StillOneInFlight(p: Par, a: Act)
    requires OneInFlight(p) && (a.Look? ==> p.writers == map[])
    ensures OneInFlight(ParStep(p, a))
  {
    assert ParStep(p, a).writers.Keys <= p.writers.Keys || a.Look?;
  }

  /** While writes run one at a time, whatever runs beside them, the limit is kept. */
  lemma LoneStep(p: Par, a: Act)
    requires LoneInv(p) && LoneOk(p, a)
    ensures LoneInv(ParStep(p, a))
  {
    LoneFits(p, a);
    ParCapStepIff(p, a);
    ParStepKeeps(p, a);
    StillOneInFlight(p, a);
    if a.Other? {
      OtherStepReserves(p, a.op);
    } else {
      OwnStepReserves(p, a);
    }
  }

  ghost predicate LoneRunOk(p: Par, acts: seq<Act>)
    decreases |acts|
  {
    acts == [] || (LoneOk(p, acts[0]) && LoneRunOk(ParStep(p, acts[0]), acts[1..]))
  }

  lemma {:induction false} LoneRun(p: Par, acts: seq<Act>)
    requires LoneInv(p) && LoneRunOk(p, acts)
    ensures LoneInv(ParRun(p, acts)) && CapThroughout(p, acts)
    decreases |acts|
  {
    if acts == [] {
    } else {
      LoneStep(p, acts[0]);
      LoneRun(ParStep(p, acts[0]), acts[1..]);
    }
  }
}
