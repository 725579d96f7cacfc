/**
 The backing object store: create-or-replace objects, any call of which may
 fail.  The index object is held in the form that a cold start decodes.
 */
module ObjectStores {
  import opened Base
  import opened IndexModel
  import opened ChunkModel

  datatype IndexLookup = Found(data: IndexData) | NotFound | Unavailable

  /** While `up` holds every call answers and takes effect; otherwise each may do so or not. */
  class ObjectStore {
    var objects: View
    var index: Option<IndexData>
    var up: bool

    constructor (up: bool)
      ensures objects == map[] && index.None? && this.up == up
    {
      objects := map[];
      index := None;
      this.up := up;
    }

    /** Whether one call succeeds. */
    method Answers() returns (a: bool)
      ensures up ==> a
    {
      var luck: bool := *;
      a := up || luck;
    }

    /** What comes of one write: the store's to choose. */
    method Outcome() returns (o: PutOutcome)
      ensures up ==> o.Stored?
    {
      o := *;
      if up {
        o := Stored;
      }
    }

    /** Writes one object. */
    method Put(id: string, data: Bytes) returns (o: PutOutcome)
      modifies `objects
      ensures objects == Landed(old(objects), id, data, o)
      ensures up ==> o.Stored?
    {
      o := Outcome();
      if !o.Lost? {
        objects := objects[id := data];
      }
    }

    /** Reads a range: the stored bytes, or an error if there are none or the store does not answer. */
    method GetRange(id: string, off: nat, len: nat) returns (r: Option<Bytes>)
      ensures r.Some? ==> r == ReadChunk(objects, id, off, len)
      ensures up ==> r == ReadChunk(objects, id, off, len)
    {
      var answers := Answers();
      if answers && id in objects && off + len <= |objects[id]| {
        r := Some(objects[id][off..off + len]);
      } else {
        r := None;
      }
    }

    method Size(id: string) returns (r: Option<nat>)
      ensures r.Some? ==> id in objects && r.value == |objects[id]|
      ensures up && id in objects ==> r.Some?
    {
      var answers := Answers();
      r := if answers && id in objects then Some(|objects[id]|) else None;
    }

    /** Removes one object; a removal that reports failure may have been carried out. */
    method Delete(id: string) returns (ok: bool, reached: bool)
      modifies `objects
      ensures objects == if reached then old(objects) - {id} else old(objects)
      ensures ok ==> reached
      ensures up ==> ok
    {
      reached := Answers();
      ok := Answers();
      ok := ok && reached;
      if reached {
        objects := objects - {id};
      }
    }

    /** Every object ID once, in an order of the store's choosing. */
    method List() returns (r: Option<seq<string>>)
      ensures r.Some? ==> Enumerates(r.value, objects.Keys)
      ensures up ==> r.Some?
    {
      var answers := Answers();
      if !answers {
        return None;
      }
      var ids, rest := [], objects.Keys;
      while rest != {}
        invariant rest <= objects.Keys
        invariant Enumerates(ids, objects.Keys - rest)
        decreases |rest|
      {
        var id :| id in rest;
        EnumeratesSnoc(ids, objects.Keys - rest, id);
        assert objects.Keys - (rest - {id}) == (objects.Keys - rest) + {id};
        ids, rest := ids + [id], rest - {id};
      }
      assert objects.Keys - rest == objects.Keys;
      r := Some(ids);
    }

    method PutRaw(d: IndexData) returns (o: PutOutcome)
      modifies `index
      ensures index == if o.Lost? then old(index) else Some(d)
      ensures up ==> o.Stored?
    {
      o := Outcome();
      if !o.Lost? {
        index := Some(d);
      }
    }

    method GetRaw() returns (r: IndexLookup)
      ensures r.Found? ==> index == Some(r.data)
      ensures r.NotFound? ==> index.None?
      ensures up ==> !r.Unavailable?
    {
      var answers := Answers();
      r := if !answers then Unavailable else if index.Some? then Found(index.value) else NotFound;
    }
  }

  lemma EnumeratesSnoc<T>(ids: seq<T>, keys: set<T>, x: T)
    requires Enumerates(ids, keys) && x !in keys
    ensures Enumerates(ids + [x], keys + {x})
  {
    assert (ids + [x])[|ids|] == x;
    forall k | k in keys + {x} ensures k in ids + [x] {
      if k in keys {
        assert k in ids;
      }
    }
  }

  /** `ids` lists exactly the members of `keys`, each once. */
  predicate Enumerates<T(==)>(ids: seq<T>, keys: set<T>) {
    && (forall i | 0 <= i < |ids| :: ids[i] in keys)
    && (forall k | k in keys :: k in ids)
    && (forall i, j | 0 <= i < j < |ids| :: ids[i] != ids[j])
  }
}
