/**
 The chunk store: the active chunk buffered in memory over the object store, and
 a directory of cached chunks.  Each operation is proved to be a step of the chunk
 store joined with its cache, whose invariants hold over whole runs.
 */
module ChunkStores {
  import opened Base
  import opened ChunkIds
  import opened ChunkModel
  import opened ObjectStores
  import opened CachedChunks
  import opened WarmStarts
  import Cache

  class ChunkStore {
    const store: ObjectStore
    const maxChunkSize: nat
    var activeId: string
    var activeBuf: Bytes
    var activeDirty: bool
    var nextSeq: nat
    var cacheOn: bool
    var files: map<string, Bytes>        // the cache directory
    var diskUp: bool                     // while this holds, every write to it works
    ghost var held: map<string, Bytes>   // what was ever sealed under each ID

    ghost function State(): ChunkState
      reads this
    {
      ChunkState(activeId, activeBuf, activeDirty, nextSeq, maxChunkSize)
    }

    ghost function View(): View
      reads this, store
    {
      ViewOf(State(), store.objects)
    }

    /** The store and its cache, between reads. */
    ghost function Joined(): Joint
      reads this, store
    {
      AtRest(Chunks(State(), store.objects), held, files)
    }

    ghost predicate Valid()
      reads this, store
    {
      && ChunkOk(State(), store.objects)
      && CacheOk(Chunks(State(), store.objects), held, files)
      && (!cacheOn ==> files == map[])
    }

    constructor (store: ObjectStore, maxChunkSize: nat, diskUp: bool)
      ensures this.store == store && this.maxChunkSize == maxChunkSize && this.diskUp == diskUp
      ensures State() == NewChunks(maxChunkSize) && !cacheOn && files == map[]
    {
      this.store := store;
      this.maxChunkSize := maxChunkSize;
      activeId := ChunkId(0);
      activeBuf := [];
      activeDirty := false;
      nextSeq := 1;
      cacheOn := false;
      files := map[];
      this.diskUp := diskUp;
      held := map[];
    }

    /** Whether one write to the cache directory works. */
    method DiskAnswers() returns (a: bool)
      ensures diskUp ==> a
    {
      var luck: bool := *;
      a := diskUp || luck;
    }

    /** Moves the active chunk past everything listed, so that it aliases no stored chunk. */
    method RecoverNextSeq() returns (ok: bool, ghost ids: seq<string>)
      requires State() == NewChunks(maxChunkSize) && !cacheOn && files == map[]
      modifies this
      ensures !cacheOn && files == map[] && diskUp == old(diskUp)
      ensures store.up ==> ok
      ensures !ok ==> State() == old(State())
      ensures ok ==> Enumerates(ids, store.objects.Keys) && State() == Recovered(NewChunks(maxChunkSize), ids)
      ensures ok && !HasWideSeq(ids) ==> Valid() && activeId !in store.objects
    {
      ids := [];
      var listed := store.List();
      if listed.None? {
        return false, [];
      }
      ids := listed.value;
      var maxSeq := ScanListing(listed.value);
      if maxSeq >= 0 {
        nextSeq := maxSeq + 1;
        activeId := ChunkId(nextSeq);
        nextSeq := nextSeq + 1;
      }
      held := store.objects;
      if !HasWideSeq(ids) {
        RecoverKeeps(maxChunkSize, store.objects, ids);
      }
      ok := true;
    }

    /**
     Turns the cache on over a directory that may hold files of an earlier
     session.  Nothing checks them: every answer of the session is right if and
     only if no file disagrees with its stored chunk and none has a byte under an
     ID that is to come.
     */
    method SetCacheDir(dir: map<string, Bytes>) returns (ok: bool)
      requires !cacheOn && files == map[]
      modifies this
      ensures State() == old(State()) && diskUp == old(diskUp)
      ensures diskUp ==> ok
      ensures ok ==> cacheOn && files == dir
      ensures var c := Chunks(State(), store.objects);
              ok && old(Valid()) && JustStarted(c) ==>
                && Joined() == Started(c, dir)
                && (Valid() <==> WarmOk(c, dir))
                && (maxChunkSize > 0 ==> (EveryAnswerRight(c, dir) <==> WarmOk(c, dir)))
      ensures !ok ==> Valid() == old(Valid()) && !cacheOn
    {
      var made := DiskAnswers();
      if !made {
        return false;
      }
      ghost var c := Chunks(State(), store.objects);
      cacheOn := true;
      files := dir;
      held := HeldAtStart(c, dir);
      if old(Valid()) && JustStarted(c) {
        WarmInvIff(c, dir);
        if maxChunkSize > 0 {
          WarmAnswersIff(c, dir);
        }
      }
      ok := true;
    }

    /** The range is in the file of the chunk. */
    predicate Hit(id: string, off: nat, len: nat)
      reads this
    {
      cacheOn && id in files && off + len <= |files[id]|
    }

    /** A sealed chunk that the cache holds whole. */
    ghost predicate Kept(id: string, bytes: Bytes)
      reads this, store
    {
      && cacheOn && id in files && files[id] == bytes
      && id != activeId && id in View() && View()[id] == bytes
    }

    /** Every range of it is a hit, so that a read gives its bytes whatever the store does. */
    lemma KeptServes(id: string, bytes: Bytes, off: nat, len: nat)
      requires Kept(id, bytes) && off + len <= |bytes|
      ensures Hit(id, off, len) && ReadChunk(View(), id, off, len) == Some(bytes[off..off + len])
    {
    }

    method PutActive() returns (ok: bool, ghost o: PutOutcome, ghost cached: bool)
      requires activeBuf != []
      modifies this, store`objects
      ensures store.up ==> o.Stored?
      ensures var r := Seal(old(State()), old(store.objects), o);
              State() == r.chunks && store.objects == r.objects && ok == r.ok
      ensures var c := old(Chunks(State(), store.objects));
              held == HeldAfter(c, old(held), o) && files == FilesAfter(c, old(files), o, cached)
      ensures cacheOn == old(cacheOn) && diskUp == old(diskUp) && (cached ==> cacheOn)
      ensures ok && cacheOn && diskUp ==> cached
    {
      cached := false;
      var out := store.Put(activeId, activeBuf);
      o := out;
      if !out.Stored? {
        return false, o, cached;
      }
      var written := DiskAnswers();
      if cacheOn && written {
        cached := true;
        files := files[activeId := activeBuf];
      }
      held := held[activeId := activeBuf];
      activeId := ChunkId(nextSeq);
      nextSeq := nextSeq + 1;
      activeBuf := [];
      activeDirty := false;
      ok := true;
    }

    /** Puts the active chunk, then best-effort its cached copy, and opens a fresh one. */
    method SealLocked() returns (ok: bool, ghost o: PutOutcome, ghost cached: bool)
      requires Valid()
      modifies this, store`objects
      ensures var r := Seal(old(State()), old(store.objects), o);
              State() == r.chunks && store.objects == r.objects && ok == r.ok
      ensures store.up ==> ok && o.Stored?
      ensures Joined() == StepJoint(old(Joined()), Chunk(DoSeal(o), cached))
      ensures Valid() && cacheOn == old(cacheOn) && diskUp == old(diskUp)
      ensures ok && old(cacheOn && diskUp && activeBuf != []) ==> cached && Kept(old(activeId), old(activeBuf))
    {
      ghost var c := Chunks(State(), store.objects);
      if activeBuf == [] {
        o, cached := Stored, false;
        SealedAtRest(c, held, files, o, cached);
        held := HeldAfter(c, held, o);
        activeId := ChunkId(nextSeq);
        nextSeq := nextSeq + 1;
        return true, o, cached;
      }
      ok, o, cached := PutActive();
      SealedAtRest(c, old(held), old(files), o, cached);
    }

    /** Rotates if `n` more bytes would overflow the active chunk. */
    method MakeRoom(n: nat) returns (ok: bool, ghost o: PutOutcome, ghost cached: bool)
      requires Valid()
      modifies this, store`objects
      ensures var full := |old(activeBuf)| + n > maxChunkSize;
              && Joined() == (if full then StepJoint(old(Joined()), Chunk(DoSeal(o), cached)) else old(Joined()))
              && ok == (full ==> Seal(old(State()), old(store.objects), o).ok)
              && (full && ok && old(cacheOn && diskUp && activeBuf != []) ==> Kept(old(activeId), old(activeBuf)))
      ensures store.up ==> o.Stored?
      ensures Valid() && cacheOn == old(cacheOn) && diskUp == old(diskUp)
    {
      ok, o, cached := true, Stored, false;
      if |activeBuf| + n > maxChunkSize {
        ok, o, cached := SealLocked();
      }
    }

    /** Appends data to the active chunk, rotating first if it would overflow. */
    method Append(data: Bytes, fileOffset: nat) returns (r: Option<Extent>, ghost o: PutOutcome, ghost cached: bool)
      requires Valid()
      modifies this, store`objects
      ensures var a := ChunkModel.Append(old(State()), old(store.objects), data, fileOffset, o);
              State() == a.chunks && store.objects == a.objects && r == a.result
      ensures store.up ==> o.Stored?
      ensures Joined() == StepJoint(old(Joined()), Chunk(DoAppend(data, fileOffset, o), cached))
      ensures Valid() && cacheOn == old(cacheOn) && diskUp == old(diskUp)
      ensures r.Some? ==> ReadChunk(View(), r.value.chunkId, r.value.chunkOffset, r.value.length) == Some(data)
      ensures r.Some? && |old(activeBuf)| + |data| > maxChunkSize && old(cacheOn && diskUp && activeBuf != []) ==>
                Kept(old(activeId), old(activeBuf))
    {
      r, o, cached := None, Stored, false;
      if |data| > maxChunkSize {
        return;
      }
      var ok;
      ok, o, cached := MakeRoom(|data|);
      AppendIsSeal(old(Joined()), data, fileOffset, o, cached);
      if !ok {
        return;
      }
      AppendKeeps(old(State()), old(store.objects), data, fileOffset, o);
      BufferAtRest(Chunks(State(), store.objects), held, files, activeBuf + data);
      var chunkOffset := |activeBuf|;
      activeBuf := activeBuf + data;
      activeDirty := true;
      r := Some(Extent(activeId, chunkOffset, |data|, fileOffset));
    }

    /** What a read of a sealed chunk needs: the store, and the disk if there is a cache. */
    predicate Reachable()
      reads this, store
    {
      store.up && (cacheOn ==> diskUp)
    }

    /** Fetches the whole chunk and writes its file. */
    method FetchFullChunk(id: string) returns (data: Option<Bytes>, ghost o: FetchOutcome)
      requires Valid() && cacheOn && id != activeId
      modifies `files
      ensures Valid()
      ensures data.Some? <==> o.Complete?
      ensures data.Some? ==> id in store.objects && data.value == store.objects[id]
      ensures files == if data.Some? then old(files)[id := data.value] else old(files)
      ensures Reachable() && id in store.objects ==> data.Some?
    {
      data, o := None, NoSize;
      var size := store.Size(id);
      if size.None? {
        return;
      }
      o := NoBytes;
      var bytes := store.GetRange(id, 0, size.value);
      if bytes.None? {
        return;
      }
      o := NoFile;
      var written := DiskAnswers();
      if !written {
        return;
      }
      files := files[id := bytes.value];
      data, o := bytes, Complete;
    }

    /**
     Reads a range of a sealed chunk through the cache: from its file, or by
     fetching the whole chunk and writing the file.  Of a range that the view can
     serve, this is a read of the cache machine, its answer is the view's, and it
     fails neither on a hit nor while store and disk are up.
     */
    method ReadRange(id: string, off: nat, len: nat) returns (r: Option<Bytes>, ghost acts: seq<Cache.Action>)
      requires Valid() && cacheOn && id != activeId
      modifies `files
      ensures Valid() && (r.Some? ==> Hit(id, off, len))
      ensures ReadChunk(View(), id, off, len).Some? ==>
                && (r.Some? ==> r == ReadChunk(View(), id, off, len))
                && (old(Hit(id, off, len)) || Reachable() ==> r.Some?)
                && exists u ::
                     LoneRead(old(Joined()).cache, Cache.Request(id, off, len), acts, u) && LoneEnd(u, r, files)
    {
      ghost var c, req := Joined().cache, Cache.Request(id, off, len);
      ghost var served := ReadChunk(View(), id, off, len).Some?;
      acts := [];
      if served {
        AtRestInv(Chunks(State(), store.objects), held, files);
        ReadableSpawns(Joined(), 0, req);
        Cache.HitIsRight(c, req);
      }
      if id in files && off + len <= |files[id]| {
        if served {
          acts := LoneHit(c, req);
        }
        return Some(files[id][off..off + len]), acts;
      }
      if served {
        acts := LoneMiss(c, req);
      }
      var data, o := FetchFullChunk(id);
      r := if data.Some? && off + len <= |data.value| then Some(data.value[off..off + len]) else None;
      if served {
        ghost var u;
        acts, u := LoneFetchEnds(c, req, acts, o);
      }
    }

    /**
     Reads from the active buffer, through the cache, or from the store: of a
     range that the view can serve, the bytes of the view.  It fails neither on the
     active chunk nor on a hit, and on no other while store and disk are up.
     */
    method Read(id: string, off: nat, len: nat) returns (r: Option<Bytes>)
      requires Valid()
      modifies `files
      ensures Valid() && (r.Some? && cacheOn && id != activeId ==> Hit(id, off, len))
      ensures id == activeId ==> r == ReadChunk(View(), id, off, len)
      ensures ReadChunk(View(), id, off, len).Some? ==>
                && (r.Some? ==> r == ReadChunk(View(), id, off, len))
                && (old(Hit(id, off, len)) || Reachable() ==> r.Some?)
    {
      if id == activeId {
        if off + len > |activeBuf| {
          return None;
        }
        return Some(activeBuf[off..off + len]);
      }
      if cacheOn {
        ghost var acts;
        r, acts := ReadRange(id, off, len);
      } else {
        r := store.GetRange(id, off, len);
      }
    }

    /** Puts the active chunk if it changed since the last flush. */
    method FlushActive() returns (ok: bool, ghost o: PutOutcome)
      requires Valid()
      modifies this, store`objects
      ensures var r := Flush(old(State()), old(store.objects), o);
              State() == r.chunks && store.objects == r.objects && ok == r.ok
      ensures store.up ==> ok
      ensures Joined() == StepJoint(old(Joined()), Chunk(DoFlush(o), false))
      ensures Valid() && View() == old(View()) && held == old(held)
      ensures cacheOn == old(cacheOn) && diskUp == old(diskUp)
    {
      FlushKeeps(State(), store.objects, Stored);
      if !activeDirty {
        return true, Stored;
      }
      var out := store.Put(activeId, activeBuf);
      o := out;
      FlushKeeps(old(State()), old(store.objects), o);
      assert SealedOf(Chunks(State(), store.objects)) == old(SealedOf(Chunks(State(), store.objects)));
      if !out.Stored? {
        return false, o;
      }
      activeDirty := false;
      ok := true;
    }

    /** Puts a chunk that the compactor assembled, under a name that was never used. */
    method PutSealed(id: string, data: Bytes) returns (o: PutOutcome)
      requires Valid() && COMPACTED_PREFIX <= id && id !in store.objects && id !in held
      modifies `held, store`objects
      ensures store.objects == Landed(old(store.objects), id, data, o)
      ensures store.up ==> o.Stored?
      ensures Joined() == StepJoint(old(Joined()), Chunk(DoPutSealed(id, data, o), false))
      ensures held == (if o.Lost? then old(held) else old(held)[id := data])
      ensures Valid()
    {
      ghost var c := Chunks(State(), store.objects);
      o := store.Put(id, data);
      PutAtRest(c, held, files, id, data, o);
      if !o.Lost? {
        held := held[id := data];
      }
    }

    /** Deletes a sealed chunk from the store; its cached file stays. */
    method DeleteChunk(id: string) returns (ok: bool, reached: bool)
      requires Valid() && id != activeId
      modifies store`objects
      ensures store.objects == (if reached then old(store.objects) - {id} else old(store.objects))
      ensures (ok ==> reached) && (store.up ==> ok)
      ensures reached ==> Joined() == StepJoint(old(Joined()), Chunk(DoDelete(id), false))
      ensures Valid()
    {
      ghost var c := Chunks(State(), store.objects);
      ok, reached := store.Delete(id);
      if reached {
        assert SealedOf(Chunks(State(), store.objects)) == SealedOf(c) - {id};
      }
    }

    /** The listed objects other than the active chunk. */
    method ListSealed() returns (r: Option<seq<string>>)
      ensures r.Some? ==> Enumerates(r.value, store.objects.Keys - {activeId})
      ensures store.up ==> r.Some?
    {
      var all := store.List();
      if all.None? {
        return None;
      }
      var sealed := [];
      for k := 0 to |all.value|
        invariant Enumerates(sealed, (set j | 0 <= j < k :: all.value[j]) - {activeId})
      {
        ghost var before := (set j | 0 <= j < k :: all.value[j]) - {activeId};
        ghost var after := (set j | 0 <= j < k + 1 :: all.value[j]) - {activeId};
        if all.value[k] != activeId {
          assert after == before + {all.value[k]};
          sealed := sealed + [all.value[k]];
        } else {
          assert after == before;
        }
      }
      assert (set j | 0 <= j < |all.value| :: all.value[j]) == store.objects.Keys;
      r := Some(sealed);
    }

    method SealedSize(id: string) returns (r: Option<nat>)
      ensures r.Some? ==> id in View() && r.value == |View()[id]|
      ensures store.up && id in View() ==> r.Some?
    {
      if id == activeId {
        return Some(|activeBuf|);
      }
      r := store.Size(id);
    }
  }
}
