/**
 The extent list of one file, read as a sparse byte array.  A list is read the
 way the file handle fills its buffer: extents are copied in list order, so the
 last extent that covers a position decides its byte, and a position that no
 extent covers reads as zero.
 */
module Extents {
  import opened Base

  predicate Covers(e: Extent, p: nat) {
    e.fileOffset <= p < e.End()
  }

  function ChunkByte(v: View, id: string, o: nat): Byte {
    if id in v && o < |v[id]| then v[id][o] else 0
  }

  function ByteAt(exts: seq<Extent>, v: View, p: nat): Byte {
    if exts == [] then 0
    else
      var e := exts[|exts| - 1];
      if Covers(e, p) then ChunkByte(v, e.chunkId, e.chunkOffset + (p - e.fileOffset))
      else ByteAt(exts[..|exts| - 1], v, p)
  }

  /** The bytes of a file of the given size. */
  function Content(exts: seq<Extent>, size: nat, v: View): Bytes {
    seq(size, p requires 0 <= p => ByteAt(exts, v, p))
  }

  /** These are the bytes of the file from `start` on. */
  predicate ShowsFile(b: Bytes, exts: seq<Extent>, v: View, start: nat) {
    forall p | 0 <= p < |b| :: b[p] == ByteAt(exts, v, start + p)
  }

  // ---- The reference byte array ----

  /** Writing `data` at `off`: the file grows if need be, with zeros in any gap. */
  function Overlay(c: Bytes, off: nat, data: Bytes): Bytes {
    seq(Max(|c|, off + |data|), p requires 0 <= p =>
      if off <= p < off + |data| then data[p - off]
      else if p < |c| then c[p]
      else 0)
  }

  /** Truncating to `n`: cut, or extend with zeros. */
  function Resize(c: Bytes, n: nat): Bytes {
    seq(n, p requires 0 <= p => if p < |c| then c[p] else 0)
  }

  // ---- The two list transformations of the index ----

  predicate Overlaps(e: Extent, w: Extent) {
    !(e.End() <= w.fileOffset || e.fileOffset >= w.End())
  }

  /** What remains of `e` once `w` has been written over it. */
  function Pieces(e: Extent, w: Extent): seq<Extent> {
    if !Overlaps(e, w) then [e]
    else
      (if e.fileOffset < w.fileOffset
       then [Extent(e.chunkId, e.chunkOffset, w.fileOffset - e.fileOffset, e.fileOffset)] else []) +
      (if e.End() > w.End()
       then [Extent(e.chunkId, e.chunkOffset + (w.End() - e.fileOffset), e.End() - w.End(), w.End())] else [])
  }

  /** The surviving extents, collected into a fresh list. */
  function Survivors(exts: seq<Extent>, w: Extent): seq<Extent> {
    if exts == [] then [] else Survivors(exts[..|exts| - 1], w) + Pieces(exts[|exts| - 1], w)
  }

  /** Copy-on-write overwrite as the index documents it. */
  function WriteFresh(exts: seq<Extent>, w: Extent): seq<Extent> {
    Survivors(exts, w) + [w]
  }

  function TrimOne(e: Extent, n: nat): seq<Extent> {
    if e.fileOffset >= n then []
    else if e.End() > n then [e.(length := n - e.fileOffset)]
    else [e]
  }

  function Trim(exts: seq<Extent>, n: nat): seq<Extent> {
    if exts == [] then [] else Trim(exts[..|exts| - 1], n) + TrimOne(exts[|exts| - 1], n)
  }

  // ---- What a list must satisfy ----

  /** `e` denotes bytes that `v` holds. */
  predicate InView(e: Extent, v: View) {
    e.length > 0 && e.chunkId in v && e.ChunkEnd() <= |v[e.chunkId]|
  }

  predicate ListIn(exts: seq<Extent>, size: nat, v: View) {
    forall i | 0 <= i < |exts| :: InView(exts[i], v) && exts[i].End() <= size
  }

  /** The two extents share no file position. */
  predicate Apart(a: Extent, b: Extent) {
    a.End() <= b.fileOffset || b.End() <= a.fileOffset
  }

  predicate FileDisjoint(exts: seq<Extent>) {
    forall i, j | 0 <= i < j < |exts| :: Apart(exts[i], exts[j])
  }

  /** The two extents share no chunk byte. */
  predicate Sep(a: Extent, b: Extent) {
    a.chunkId != b.chunkId || a.ChunkEnd() <= b.chunkOffset || b.ChunkEnd() <= a.chunkOffset
  }

  predicate ChunkDisjoint(exts: seq<Extent>) {
    forall i, j | 0 <= i < j < |exts| :: Sep(exts[i], exts[j])
  }

  predicate CrossSep(xs: seq<Extent>, ys: seq<Extent>) {
    forall i, j | 0 <= i < |xs| && 0 <= j < |ys| :: Sep(xs[i], ys[j])
  }

  // ---- Reading through the transformations ----

  lemma ByteAtSnoc(xs: seq<Extent>, e: Extent, v: View, p: nat)
    ensures ByteAt(xs + [e], v, p) ==
            if Covers(e, p) then ChunkByte(v, e.chunkId, e.chunkOffset + (p - e.fileOffset)) else ByteAt(xs, v, p)
  {
    assert (xs + [e])[..|xs + [e]| - 1] == xs;
  }

  /** Outside the write, exactly the pieces of `e` cover what `e` covers, at the same chunk bytes. */
  lemma PiecesCover(e: Extent, w: Extent, p: nat)
    requires w.length > 0
    requires !Covers(w, p)
    ensures forall k | 0 <= k < |Pieces(e, w)| :: Covers(Pieces(e, w)[k], p) ==>
              Covers(e, p) && SameByte(Pieces(e, w)[k], e, p)
    ensures Covers(e, p) ==> exists k :: 0 <= k < |Pieces(e, w)| && Covers(Pieces(e, w)[k], p)
    ensures |Pieces(e, w)| <= 2
  {
    if Covers(e, p) {
      if !Overlaps(e, w) || p < w.fileOffset {
        assert Covers(Pieces(e, w)[0], p);
      } else {
        assert Covers(Pieces(e, w)[|Pieces(e, w)| - 1], p);
      }
    }
  }

  predicate SameByte(q: Extent, e: Extent, p: nat) {
    q.chunkId == e.chunkId && q.chunkOffset + (p - q.fileOffset) == e.chunkOffset + (p - e.fileOffset)
  }

  /** Replacing `e` by at most two extents that cover the same bytes at `p` changes nothing there. */
  lemma ByteAtReplace(xs: seq<Extent>, e: Extent, qs: seq<Extent>, v: View, p: nat)
    requires |qs| <= 2
    requires forall k | 0 <= k < |qs| :: Covers(qs[k], p) ==> Covers(e, p) && SameByte(qs[k], e, p)
    requires Covers(e, p) ==> exists k :: 0 <= k < |qs| && Covers(qs[k], p)
    ensures ByteAt(xs + qs, v, p) == ByteAt(xs + [e], v, p)
  {
    ByteAtSnoc(xs, e, v, p);
    if |qs| == 0 {
      assert xs + qs == xs;
    } else if |qs| == 1 {
      assert xs + qs == xs + [qs[0]];
      ByteAtSnoc(xs, qs[0], v, p);
    } else {
      assert xs + qs == (xs + [qs[0]]) + [qs[1]];
      ByteAtSnoc(xs + [qs[0]], qs[1], v, p);
      ByteAtSnoc(xs, qs[0], v, p);
    }
  }

  /** Two lists that read alike at `p` still do once the same extent is appended to both. */
  lemma ByteAtCongruence(xs: seq<Extent>, ys: seq<Extent>, e: Extent, v: View, p: nat)
    requires ByteAt(xs, v, p) == ByteAt(ys, v, p)
    ensures ByteAt(xs + [e], v, p) == ByteAt(ys + [e], v, p)
  {
    ByteAtSnoc(xs, e, v, p);
    ByteAtSnoc(ys, e, v, p);
  }

  lemma {:induction false} SurvivorsOutside(exts: seq<Extent>, w: Extent, v: View, p: nat)
    requires w.length > 0
    requires !Covers(w, p)
    ensures ByteAt(Survivors(exts, w), v, p) == ByteAt(exts, v, p)
  {
    if exts == [] {
    } else {
      var front, e := exts[..|exts| - 1], exts[|exts| - 1];
      SurvivorsOutside(front, w, v, p);
      PiecesCover(e, w, p);
      ByteAtReplace(Survivors(front, w), e, Pieces(e, w), v, p);
      ByteAtCongruence(Survivors(front, w), front, e, v, p);
      assert exts == front + [e];
    }
  }

  lemma {:induction false} ReadsZeroBeyond(exts: seq<Extent>, v: View, p: nat)
    requires forall i | 0 <= i < |exts| :: exts[i].End() <= p
    ensures ByteAt(exts, v, p) == 0
  {
    if exts == [] {
    } else {
      ReadsZeroBeyond(exts[..|exts| - 1], v, p);
    }
  }

  /** A copy-on-write overwrite is an overlay on the byte array. */
  lemma WriteFreshIsOverlay(exts: seq<Extent>, size: nat, w: Extent, v: View)
    requires ListIn(exts, size, v)
    requires InView(w, v)
    ensures Content(WriteFresh(exts, w), Max(size, w.End()), v) ==
            Overlay(Content(exts, size, v), w.fileOffset, v[w.chunkId][w.chunkOffset..w.ChunkEnd()])
  {
    forall p | 0 <= p < Max(size, w.End())
      ensures ByteAt(WriteFresh(exts, w), v, p) ==
              if Covers(w, p) then v[w.chunkId][w.chunkOffset + (p - w.fileOffset)]
              else if p < size then ByteAt(exts, v, p) else 0
    {
      ByteAtSnoc(Survivors(exts, w), w, v, p);
      if !Covers(w, p) {
        SurvivorsOutside(exts, w, v, p);
        if p >= size {
          ReadsZeroBeyond(exts, v, p);
        }
      }
    }
  }

  /** Below the cut, exactly what remains of `e` covers what `e` covers, at the same chunk bytes. */
  lemma TrimCover(e: Extent, n: nat, p: nat)
    requires p < n
    ensures forall k | 0 <= k < |TrimOne(e, n)| :: Covers(TrimOne(e, n)[k], p) ==>
              Covers(e, p) && SameByte(TrimOne(e, n)[k], e, p)
    ensures Covers(e, p) ==> exists k :: 0 <= k < |TrimOne(e, n)| && Covers(TrimOne(e, n)[k], p)
    ensures |TrimOne(e, n)| <= 1
  {
    if Covers(e, p) {
      assert Covers(TrimOne(e, n)[0], p);
    }
  }

  lemma TrimStep(front: seq<Extent>, e: Extent, n: nat, v: View, p: nat)
    requires p < n && ByteAt(Trim(front, n), v, p) == ByteAt(front, v, p)
    ensures ByteAt(Trim(front, n) + TrimOne(e, n), v, p) == ByteAt(front + [e], v, p)
  {
    TrimCover(e, n, p);
    ByteAtReplace(Trim(front, n), e, TrimOne(e, n), v, p);
    ByteAtCongruence(Trim(front, n), front, e, v, p);
  }

  lemma {:induction false} TrimInside(exts: seq<Extent>, n: nat, v: View, p: nat)
    requires p < n
    ensures ByteAt(Trim(exts, n), v, p) == ByteAt(exts, v, p)
  {
    if exts == [] {
    } else {
      var front, e := exts[..|exts| - 1], exts[|exts| - 1];
      TrimInside(front, n, v, p);
      TrimStep(front, e, n, v, p);
      assert exts == front + [e];
    }
  }

  /** Trimming the list and setting the size is a cut or a zero-extension of the byte array. */
  lemma TrimIsResize(exts: seq<Extent>, size: nat, n: nat, v: View)
    requires ListIn(exts, size, v)
    ensures Content(Trim(exts, n), n, v) == Resize(Content(exts, size, v), n)
  {
    forall p | 0 <= p < n
      ensures ByteAt(Trim(exts, n), v, p) == if p < size then ByteAt(exts, v, p) else 0
    {
      TrimInside(exts, n, v, p);
      if p >= size {
        ReadsZeroBeyond(exts, v, p);
      }
    }
  }

  /** A list keeps its bytes while every chunk it uses only grows at the end. */
  lemma {:induction false} ByteAtStable(exts: seq<Extent>, v: View, v': View, p: nat)
    requires forall i | 0 <= i < |exts| ::
      InView(exts[i], v) && exts[i].chunkId in v' && v[exts[i].chunkId] <= v'[exts[i].chunkId]
    ensures ByteAt(exts, v, p) == ByteAt(exts, v', p)
  {
    if exts == [] {
    } else {
      ByteAtStable(exts[..|exts| - 1], v, v', p);
    }
  }

  /** A view that only gains chunks, and bytes at the end of chunks. */
  predicate Grows(v: View, v': View) {
    forall id | id in v :: id in v' && v[id] <= v'[id]
  }

  /** The same, except that a chunk holding no byte may be forgotten. */
  predicate GrowsUnlessEmpty(v: View, v': View) {
    forall id | id in v && v[id] != [] :: id in v' && v[id] <= v'[id]
  }

  // ---- Sub-extents keep every separation their originals had ----

  /** `q` denotes part of the chunk bytes and part of the file positions of `e`. */
  predicate Within(q: Extent, e: Extent) {
    && q.chunkId == e.chunkId
    && e.chunkOffset <= q.chunkOffset && q.ChunkEnd() <= e.ChunkEnd()
    && e.fileOffset <= q.fileOffset && q.End() <= e.End()
    && q.length > 0
  }

  predicate AllWithin(qs: seq<Extent>, es: seq<Extent>) {
    forall i | 0 <= i < |qs| :: exists j :: 0 <= j < |es| && Within(qs[i], es[j])
  }

  predicate Positive(exts: seq<Extent>) {
    forall i | 0 <= i < |exts| :: exts[i].length > 0
  }

  /**
   Appending mutually separate parts of one more extent `e` to parts of `front`
   keeps the whole list a list of parts, disjoint in the file and in the chunks.
   */
  lemma AppendParts(front: seq<Extent>, e: Extent, qs: seq<Extent>, ps: seq<Extent>)
    requires AllWithin(qs, front)
    requires forall k | 0 <= k < |ps| :: Within(ps[k], e)
    requires FileDisjoint(front + [e]) && ChunkDisjoint(front + [e])
    requires FileDisjoint(qs) && ChunkDisjoint(qs)
    requires FileDisjoint(ps) && ChunkDisjoint(ps)
    ensures AllWithin(qs + ps, front + [e])
    ensures FileDisjoint(qs + ps) && ChunkDisjoint(qs + ps)
  {
    var es, all := front + [e], qs + ps;
    forall i | 0 <= i < |all| ensures exists j :: 0 <= j < |es| && Within(all[i], es[j]) {
      if i < |qs| {
        var j :| 0 <= j < |front| && Within(qs[i], front[j]);
        assert Within(all[i], es[j]);
      } else {
        assert Within(all[i], es[|front|]);
      }
    }
    forall i, j | 0 <= i < j < |all| ensures Apart(all[i], all[j]) && Sep(all[i], all[j]) {
      if j < |qs| {
        assert all[i] == qs[i] && all[j] == qs[j];
      } else if i < |qs| {
        var f :| 0 <= f < |front| && Within(qs[i], front[f]);
        assert es[f] == front[f] && es[|front|] == e;
        assert Within(all[j], e);
        assert Apart(es[f], es[|front|]) && Sep(es[f], es[|front|]);
      } else {
        assert all[i] == ps[i - |qs|] && all[j] == ps[j - |qs|];
      }
    }
  }

  lemma DisjointFront(exts: seq<Extent>)
    requires exts != []
    requires FileDisjoint(exts) && ChunkDisjoint(exts) && Positive(exts)
    ensures var front := exts[..|exts| - 1];
            FileDisjoint(front) && ChunkDisjoint(front) && Positive(front) && front + [exts[|exts| - 1]] == exts
  {
  }

  lemma {:induction false} SurvivorsAreParts(exts: seq<Extent>, w: Extent)
    requires w.length > 0
    requires FileDisjoint(exts) && ChunkDisjoint(exts) && Positive(exts)
    ensures AllWithin(Survivors(exts, w), exts)
    ensures FileDisjoint(Survivors(exts, w)) && ChunkDisjoint(Survivors(exts, w))
  {
    if exts == [] {
    } else {
      var front, e := exts[..|exts| - 1], exts[|exts| - 1];
      DisjointFront(exts);
      SurvivorsAreParts(front, w);
      AppendParts(front, e, Survivors(front, w), Pieces(e, w));
    }
  }

  lemma {:induction false} SurvivorsAvoid(exts: seq<Extent>, w: Extent, k: nat)
    requires w.length > 0
    requires k < |Survivors(exts, w)|
    ensures Apart(Survivors(exts, w)[k], w)
  {
    var front, e := exts[..|exts| - 1], exts[|exts| - 1];
    if k < |Survivors(front, w)| {
      SurvivorsAvoid(front, w, k);
    }
  }

  lemma {:induction false} TrimAreParts(exts: seq<Extent>, n: nat)
    requires FileDisjoint(exts) && ChunkDisjoint(exts) && Positive(exts)
    ensures AllWithin(Trim(exts, n), exts)
    ensures FileDisjoint(Trim(exts, n)) && ChunkDisjoint(Trim(exts, n))
  {
    if exts == [] {
    } else {
      var front, e := exts[..|exts| - 1], exts[|exts| - 1];
      DisjointFront(exts);
      TrimAreParts(front, n);
      AppendParts(front, e, Trim(front, n), TrimOne(e, n));
    }
  }

  lemma {:induction false} TrimEndsBy(exts: seq<Extent>, n: nat, k: nat)
    requires k < |Trim(exts, n)|
    ensures Trim(exts, n)[k].End() <= n
  {
    var front := exts[..|exts| - 1];
    if k < |Trim(front, n)| {
      TrimEndsBy(front, n, k);
    }
  }

  /**
   `trimExtents`: one pass over the list that drops what starts at or beyond the
   new size and shortens what crosses it.
   */
  method TrimExtents(exts: seq<Extent>, n: nat) returns (kept: seq<Extent>)
    ensures kept == Trim(exts, n)
  {
    kept := [];
    for i := 0 to |exts|
      invariant kept == Trim(exts[..i], n)
    {
      var e := exts[i];
      assert exts[..i + 1][..i] == exts[..i];
      if e.fileOffset >= n {
        continue;
      }
      if e.End() > n {
        e := e.(length := n - e.fileOffset);
      }
      kept := kept + [e];
    }
    assert exts[..|exts|] == exts;
  }
}
