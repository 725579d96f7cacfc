/**
 The overwrite loop of the index as it runs.  The surviving extents are appended
 to the front of the very slice that the loop is still ranging over, so an
 extent that leaves both a head and a tail overwrites the next slot before the
 loop has read it.  This module states what the loop computes on every list,
 when that is the documented overwrite, and what it loses when it is not.
 */
module InPlaceFilter {
  import opened Base
  import opened Extents

  // ---- The loop as a function of the memory it works in ----

  /** Go's `append` at position `k` of a backing array; positions past the end grow it. */
  function Poke(mem: seq<Extent>, k: nat, e: Extent): seq<Extent>
    requires k <= |mem|
  {
    if k < |mem| then mem[k := e] else mem + [e]
  }

  function PokeAll(mem: seq<Extent>, k: nat, es: seq<Extent>): (r: seq<Extent>)
    requires k <= |mem|
    ensures |r| >= |mem| && |r| >= k + |es|
    decreases |es|
  {
    if es == [] then mem else PokeAll(Poke(mem, k, es[0]), k + 1, es[1..])
  }

  /** The rest of the loop: the next slot to read is `i` of `n`, the next to write is `k`. */
  function LoopFrom(mem: seq<Extent>, i: nat, k: nat, n: nat, w: Extent): seq<Extent>
    requires i <= n <= |mem| && k <= |mem|
    decreases n - i
  {
    if i == n then mem[..k]
    else
      var ps := Pieces(mem[i], w);
      LoopFrom(PokeAll(mem, k, ps), i + 1, k + |ps|, n, w)
  }

  function WriteInPlace(exts: seq<Extent>, w: Extent): seq<Extent> {
    LoopFrom(exts, 0, 0, |exts|, w) + [w]
  }

  // ---- When the loop is the documented overwrite ----

  /** `e` sticks out of the write on both sides. */
  predicate Contains(e: Extent, w: Extent) {
    e.fileOffset < w.fileOffset && w.End() < e.End()
  }

  /** Some extent other than the last leaves both a head and a tail. */
  predicate SplitsBeforeLast(exts: seq<Extent>, w: Extent) {
    exists i :: 0 <= i < |exts| - 1 && Contains(exts[i], w)
  }

  lemma {:induction false} SurvivorsConcat(xs: seq<Extent>, ys: seq<Extent>, w: Extent)
    ensures Survivors(xs + ys, w) == Survivors(xs, w) + Survivors(ys, w)
  {
    if ys == [] {
      assert xs + ys == xs;
    } else {
      var ys', y := ys[..|ys| - 1], ys[|ys| - 1];
      assert (xs + ys)[..|xs + ys| - 1] == xs + ys';
      SurvivorsConcat(xs, ys', w);
    }
  }

  lemma SurvivorsOne(e: Extent, w: Extent)
    ensures Survivors([e], w) == Pieces(e, w)
  {
    assert [e][..0] == [];
    assert Survivors([], w) + Pieces(e, w) == Pieces(e, w);
  }

  lemma SurvivorsCons(xs: seq<Extent>, w: Extent)
    requires xs != []
    ensures Survivors(xs, w) == Pieces(xs[0], w) + Survivors(xs[1..], w)
  {
    var head, rest := [xs[0]], xs[1..];
    SurvivorsOne(xs[0], w);
    SurvivorsConcat(head, rest, w);
    assert head + rest == xs;
  }

  lemma {:induction false} PokeAllWrites(mem: seq<Extent>, k: nat, es: seq<Extent>)
    requires k <= |mem|
    ensures PokeAll(mem, k, es)[..k + |es|] == mem[..k] + es
    ensures forall j | k + |es| <= j < |mem| :: PokeAll(mem, k, es)[j] == mem[j]
    decreases |es|
  {
    if es == [] {
    } else {
      var mem' := Poke(mem, k, es[0]);
      PokeAllWrites(mem', k + 1, es[1..]);
      assert mem'[..k + 1] == mem[..k] + [es[0]];
      assert mem[..k] + es == (mem[..k] + [es[0]]) + es[1..];
    }
  }

  /** One turn of the loop that writes no slot beyond the one just read. */
  lemma LoopTurn(mem: seq<Extent>, i: nat, k: nat, n: nat, w: Extent)
    requires k <= i < n <= |mem|
    requires k + |Pieces(mem[i], w)| <= i + 1 || i + 1 == n
    ensures var ps := Pieces(mem[i], w);
            var mem' := PokeAll(mem, k, ps);
            && LoopFrom(mem, i, k, n, w) == LoopFrom(mem', i + 1, k + |ps|, n, w)
            && mem'[..k + |ps|] == mem[..k] + ps
            && mem'[i + 1..n] == mem[i + 1..n]
  {
    PokeAllWrites(mem, k, Pieces(mem[i], w));
  }

  lemma SurvivorsShift(mem: seq<Extent>, i: nat, n: nat, w: Extent)
    requires i < n <= |mem|
    ensures Survivors(mem[i..n], w) == Pieces(mem[i], w) + Survivors(mem[i + 1..n], w)
  {
    SurvivorsCons(mem[i..n], w);
    assert mem[i..n][1..] == mem[i + 1..n];
  }

  /** While no slot is overwritten unread, the loop copies the survivors of the slots ahead. */
  lemma {:induction false} LoopKeepsPace(mem: seq<Extent>, i: nat, k: nat, n: nat, w: Extent)
    requires k <= i <= n <= |mem|
    requires forall j | i <= j < n - 1 :: !Contains(mem[j], w)
    ensures LoopFrom(mem, i, k, n, w) == mem[..k] + Survivors(mem[i..n], w)
    decreases n - i
  {
    if i == n {
      assert mem[i..n] == [];
    } else {
      var ps := Pieces(mem[i], w);
      var mem' := PokeAll(mem, k, ps);
      LoopTurn(mem, i, k, n, w);
      var rest := Survivors(mem[i + 1..n], w);
      assert LoopFrom(mem', i + 1, k + |ps|, n, w) == mem'[..k + |ps|] + rest by {
        if i + 1 == n {
          assert mem[i + 1..n] == [];
        } else {
          SameSlots(mem, mem', i + 1, n);
          LoopKeepsPace(mem', i + 1, k + |ps|, n, w);
        }
      }
      SurvivorsShift(mem, i, n, w);
      Associative(mem[..k], ps, rest);
    }
  }

  lemma SameSlots(mem: seq<Extent>, mem': seq<Extent>, i: nat, n: nat)
    requires i <= n <= |mem| && n <= |mem'|
    requires mem[i..n] == mem'[i..n]
    ensures forall j | i <= j < n :: mem[j] == mem'[j]
  {
    forall j | i <= j < n ensures mem[j] == mem'[j] {
      assert mem[j] == mem[i..n][j - i] && mem'[j] == mem'[i..n][j - i];
    }
  }

  lemma Associative(a: seq<Extent>, b: seq<Extent>, c: seq<Extent>)
    ensures (a + b) + c == a + (b + c)
  {
  }

  /** Extents that do not overlap the write survive as they are. */
  lemma {:induction false} SurvivorsUntouched(exts: seq<Extent>, w: Extent)
    requires forall i | 0 <= i < |exts| :: !Overlaps(exts[i], w)
    ensures Survivors(exts, w) == exts
  {
    if exts == [] {
    } else {
      SurvivorsUntouched(exts[..|exts| - 1], w);
      assert exts[..|exts| - 1] + [exts[|exts| - 1]] == exts;
    }
  }

  // ---- What the loop computes when it is not ----

  function Head(e: Extent, w: Extent): Extent
    requires Contains(e, w)
  {
    Extent(e.chunkId, e.chunkOffset, w.fileOffset - e.fileOffset, e.fileOffset)
  }

  function Tail(e: Extent, w: Extent): Extent
    requires Contains(e, w)
  {
    Extent(e.chunkId, e.chunkOffset + (w.End() - e.fileOffset), e.End() - w.End(), w.End())
  }

  function Repeat(e: Extent, count: nat): seq<Extent> {
    seq(count, _ => e)
  }

  lemma RepeatTurn(mem: seq<Extent>, i: nat, n: nat, w: Extent)
    requires 0 < i < n <= |mem| && !Overlaps(mem[i], w)
    ensures var mem' := PokeAll(mem, i + 1, [mem[i]]);
            && i + 2 <= |mem'| && n <= |mem'|
            && LoopFrom(mem, i, i + 1, n, w) == LoopFrom(mem', i + 1, i + 2, n, w)
            && mem'[i + 1] == mem[i] && mem'[..i + 1] == mem[..i] + [mem[i]]
  {
    var mem' := PokeAll(mem, i + 1, [mem[i]]);
    PokeAllWrites(mem, i + 1, [mem[i]]);
    assert mem'[i + 1] == mem'[..i + 2][i + 1];
    assert mem'[..i + 1] == mem'[..i + 2][..i + 1];
  }

  /** Once a kept extent sits in the slot read next, it is copied on to the end of the list. */
  lemma {:induction false} LoopRepeats(mem: seq<Extent>, i: nat, n: nat, w: Extent)
    requires 0 < i <= n <= |mem| && i + 1 <= |mem|
    requires !Overlaps(mem[i], w)
    ensures LoopFrom(mem, i, i + 1, n, w) == mem[..i] + Repeat(mem[i], n - i + 1)
    decreases n - i
  {
    if i == n {
      assert mem[..i + 1] == mem[..i] + [mem[i]];
      assert Repeat(mem[i], 1) == [mem[i]];
    } else {
      RepeatTurn(mem, i, n, w);
      LoopRepeats(PokeAll(mem, i + 1, [mem[i]]), i + 1, n, w);
      assert Repeat(mem[i], n - i + 1) == [mem[i]] + Repeat(mem[i], n - i);
    }
  }

  lemma {:induction false} LoopPrefix(mem: seq<Extent>, i: nat, s: nat, n: nat, w: Extent)
    requires i <= s < n <= |mem|
    requires forall j | i <= j < s :: !Overlaps(mem[j], w)
    ensures LoopFrom(mem, i, i, n, w) == LoopFrom(mem, s, s, n, w)
    decreases s - i
  {
    if i == s {
    } else {
      assert PokeAll(mem, i, [mem[i]]) == mem;
      LoopPrefix(mem, i + 1, s, n, w);
    }
  }

  /** In a disjoint list the write lies inside at most one extent and meets no other. */
  lemma OnlyOneOverlaps(exts: seq<Extent>, w: Extent, s: nat)
    requires FileDisjoint(exts) && Positive(exts) && w.length > 0
    requires s < |exts| && Contains(exts[s], w)
    ensures forall j | 0 <= j < |exts| && j != s :: !Overlaps(exts[j], w)
  {
    forall j | 0 <= j < |exts| && j != s ensures !Overlaps(exts[j], w) {
      if j < s {
        assert Apart(exts[j], exts[s]);
      } else {
        assert Apart(exts[s], exts[j]);
      }
    }
  }

  /**
   When the write falls strictly inside extent `s`, the loop keeps the extents
   before `s`, the head, and copies of the tail in place of every later extent.
   */
  lemma SplitShape(exts: seq<Extent>, w: Extent, s: nat)
    requires FileDisjoint(exts) && Positive(exts) && w.length > 0
    requires s < |exts| && Contains(exts[s], w)
    ensures WriteInPlace(exts, w) ==
            exts[..s] + [Head(exts[s], w)] + Repeat(Tail(exts[s], w), |exts| - s) + [w]
  {
    var n, h, t := |exts|, Head(exts[s], w), Tail(exts[s], w);
    OnlyOneOverlaps(exts, w, s);
    LoopPrefix(exts, 0, s, n, w);
    assert Pieces(exts[s], w) == [h, t];
    var mem := PokeAll(exts, s, [h, t]);
    PokeAllWrites(exts, s, [h, t]);
    assert mem[s + 1] == mem[..s + 2][s + 1];
    assert mem[..s + 1] == mem[..s + 2][..s + 1] == exts[..s] + [h];
    LoopRepeats(mem, s + 1, n, w);
  }

  lemma SurvivorsSplit(before: seq<Extent>, e: Extent, after: seq<Extent>, w: Extent)
    requires forall i | 0 <= i < |before| :: !Overlaps(before[i], w)
    requires forall i | 0 <= i < |after| :: !Overlaps(after[i], w)
    ensures Survivors(before + [e] + after, w) == before + Pieces(e, w) + after
  {
    SurvivorsConcat(before + [e], after, w);
    SurvivorsUntouched(after, w);
    SurvivorsUntouched(before, w);
    assert (before + [e])[..|before + [e]| - 1] == before;
  }

  /** The documented overwrite splits extent `s` and keeps every other one. */
  lemma FreshShape(exts: seq<Extent>, w: Extent, s: nat)
    requires FileDisjoint(exts) && Positive(exts) && w.length > 0
    requires s < |exts| && Contains(exts[s], w)
    ensures WriteFresh(exts, w) == exts[..s] + [Head(exts[s], w), Tail(exts[s], w)] + exts[s + 1..] + [w]
  {
    OnlyOneOverlaps(exts, w, s);
    var before, e, after := exts[..s], exts[s], exts[s + 1..];
    assert before + [e] + after == exts;
    SurvivorsSplit(before, e, after, w);
  }

  /** The slot after a split, as documented: the extent that followed. */
  lemma FreshSlot(exts: seq<Extent>, w: Extent, s: nat)
    requires FileDisjoint(exts) && Positive(exts) && w.length > 0
    requires s < |exts| - 1 && Contains(exts[s], w)
    ensures |WriteFresh(exts, w)| > s + 2 && WriteFresh(exts, w)[s + 2] == exts[s + 1]
  {
    FreshShape(exts, w, s);
    var front := exts[..s] + [Head(exts[s], w), Tail(exts[s], w)];
    assert (front + exts[s + 1..])[s + 2] == exts[s + 1..][0];
  }

  /** And as the loop leaves it: another copy of the tail. */
  lemma SplitSlot(exts: seq<Extent>, w: Extent, s: nat)
    requires FileDisjoint(exts) && Positive(exts) && w.length > 0
    requires s < |exts| - 1 && Contains(exts[s], w)
    ensures |WriteInPlace(exts, w)| > s + 2 && WriteInPlace(exts, w)[s + 2] == Tail(exts[s], w)
  {
    SplitShape(exts, w, s);
    var front, tails := exts[..s] + [Head(exts[s], w)], Repeat(Tail(exts[s], w), |exts| - s);
    assert (front + tails)[s + 2] == tails[1];
  }

  /** Without a split before the last extent the loop is the documented overwrite, on any list. */
  lemma InPlaceAgrees(exts: seq<Extent>, w: Extent)
    requires !SplitsBeforeLast(exts, w)
    ensures WriteInPlace(exts, w) == WriteFresh(exts, w)
  {
    LoopKeepsPace(exts, 0, 0, |exts|, w);
    assert exts[0..|exts|] == exts;
  }

  /**
   On the lists a file can have, the loop is the documented overwrite if and
   only if no extent before the last one contains the write.
   */
  lemma InPlaceAgreesIff(exts: seq<Extent>, w: Extent)
    requires FileDisjoint(exts) && Positive(exts) && w.length > 0
    ensures WriteInPlace(exts, w) == WriteFresh(exts, w) <==> !SplitsBeforeLast(exts, w)
  {
    if SplitsBeforeLast(exts, w) {
      var s :| 0 <= s < |exts| - 1 && Contains(exts[s], w);
      SplitSlot(exts, w, s);
      FreshSlot(exts, w, s);
      assert Apart(exts[s], exts[s + 1]);
    } else {
      InPlaceAgrees(exts, w);
    }
  }

  // ---- The same, on the bytes that a reader sees ----

  /** A list in which no extent covers `p` reads as zero there. */
  lemma {:induction false} UncoveredReadsZero(exts: seq<Extent>, v: View, p: nat)
    requires forall i | 0 <= i < |exts| :: !Covers(exts[i], p)
    ensures ByteAt(exts, v, p) == 0
  {
    if exts == [] {
    } else {
      UncoveredReadsZero(exts[..|exts| - 1], v, p);
    }
  }

  /** In a disjoint list the one extent that covers `p` decides its byte. */
  lemma {:induction false} CoveredReadsChunk(exts: seq<Extent>, v: View, p: nat, k: nat)
    requires FileDisjoint(exts)
    requires k < |exts| && Covers(exts[k], p)
    ensures ByteAt(exts, v, p) == ChunkByte(v, exts[k].chunkId, exts[k].chunkOffset + (p - exts[k].fileOffset))
  {
    if k == |exts| - 1 {
    } else {
      assert Apart(exts[k], exts[|exts| - 1]);
      CoveredReadsChunk(exts[..|exts| - 1], v, p, k);
    }
  }

  lemma LostReadsZero(exts: seq<Extent>, w: Extent, s: nat, k: nat, p: nat, v: View)
    requires FileDisjoint(exts) && Positive(exts) && w.length > 0
    requires s < k < |exts| && Contains(exts[s], w)
    requires Covers(exts[k], p)
    ensures !Covers(w, p)
    ensures ByteAt(WriteInPlace(exts, w), v, p) == 0
  {
    SplitShape(exts, w, s);
    var r := WriteInPlace(exts, w);
    forall i | 0 <= i < |r| ensures !Covers(r[i], p) {
      if i < s {
        assert r[i] == exts[i] && Apart(exts[i], exts[k]);
      } else {
        assert Apart(exts[s], exts[k]);
        assert r[i] == Head(exts[s], w) || r[i] == Tail(exts[s], w) || r[i] == w;
      }
    }
    assert r[|r| - 1] == w;
    UncoveredReadsZero(r, v, p);
  }

  /** A chunk whose every byte is one, long enough to hold `e`. */
  function OnesFor(e: Extent): View {
    map[e.chunkId := seq(e.ChunkEnd(), _ => 1)]
  }

  lemma FreshReadsOne(exts: seq<Extent>, w: Extent, s: nat)
    requires FileDisjoint(exts) && Positive(exts) && w.length > 0
    requires s < |exts| - 1 && Contains(exts[s], w)
    ensures ByteAt(WriteFresh(exts, w), OnesFor(exts[s + 1]), exts[s + 1].fileOffset) == 1
  {
    var lost := exts[s + 1];
    var v, p := OnesFor(lost), lost.fileOffset;
    assert Apart(exts[s], lost);
    ByteAtSnoc(Survivors(exts, w), w, v, p);
    SurvivorsOutside(exts, w, v, p);
    CoveredReadsChunk(exts, v, p, s + 1);
  }

  /** When a split is lost, some chunk contents show it: the next extent's first byte reads as zero. */
  lemma SplitShows(exts: seq<Extent>, size: nat, w: Extent, s: nat)
    requires FileDisjoint(exts) && Positive(exts) && w.length > 0
    requires forall i | 0 <= i < |exts| :: exts[i].End() <= size
    requires s < |exts| - 1 && Contains(exts[s], w)
    ensures var v, end := OnesFor(exts[s + 1]), Max(size, w.End());
            Content(WriteInPlace(exts, w), end, v) != Content(WriteFresh(exts, w), end, v)
  {
    var lost := exts[s + 1];
    var v, p, end := OnesFor(lost), lost.fileOffset, Max(size, w.End());
    LostReadsZero(exts, w, s, s + 1, p, v);
    FreshReadsOne(exts, w, s);
    assert Content(WriteInPlace(exts, w), end, v)[p] == 0;
    assert Content(WriteFresh(exts, w), end, v)[p] == 1;
  }

  /**
   The loop gives a reader the overwritten file, whatever the chunks hold, if
   and only if no extent before the last one contains the write.
   */
  lemma InPlaceReadsRightIff(exts: seq<Extent>, size: nat, w: Extent)
    requires FileDisjoint(exts) && Positive(exts) && w.length > 0
    requires forall i | 0 <= i < |exts| :: exts[i].End() <= size
    ensures (forall v: View :: Content(WriteInPlace(exts, w), Max(size, w.End()), v) ==
                               Content(WriteFresh(exts, w), Max(size, w.End()), v))
            <==> !SplitsBeforeLast(exts, w)
  {
    if SplitsBeforeLast(exts, w) {
      var s :| 0 <= s < |exts| - 1 && Contains(exts[s], w);
      SplitShows(exts, size, w, s);
    } else {
      InPlaceAgrees(exts, w);
    }
  }

  /**
   A file of two extents, [0, 8) and [8, 12), overwritten at [2, 4): the second
   extent is gone and its four bytes read as zero.
   */
  lemma SplitLosesData()
    ensures var a, b := Extent("chunk-00000000", 0, 8, 0), Extent("chunk-00000000", 8, 4, 8);
            var w := Extent("chunk-00000000", 12, 2, 2);
            && FileDisjoint([a, b]) && Positive([a, b])
            && SplitsBeforeLast([a, b], w)
            && b !in WriteInPlace([a, b], w)
            && forall v: View :: Content(WriteInPlace([a, b], w), 12, v)[8..12] == [0, 0, 0, 0]
  {
    var a, b := Extent("chunk-00000000", 0, 8, 0), Extent("chunk-00000000", 8, 4, 8);
    var w := Extent("chunk-00000000", 12, 2, 2);
    assert Contains([a, b][0], w);
    SplitShape([a, b], w, 0);
    forall v: View, p: nat | 8 <= p < 12 ensures ByteAt(WriteInPlace([a, b], w), v, p) == 0 {
      LostReadsZero([a, b], w, 0, 1, p, v);
    }
  }

  // ---- The loop itself ----

  /** `append(s, e)`: writes in place while there is capacity, else moves to a larger array. */
  method SliceAppend(b: array<Extent>, k: nat, e: Extent) returns (b': array<Extent>)
    requires k <= b.Length
    modifies b
    ensures k < b'.Length && b'[..k + 1] == old(b[..k]) + [e]
    ensures k < b.Length ==> b' == b && forall j | k < j < b.Length :: b[j] == old(b[j])
    ensures k == b.Length ==> fresh(b') && b[..] == old(b[..])
  {
    if k < b.Length {
      b' := b;
    } else {
      b' := new Extent[2 * k + 1](i requires 0 <= i reads b => if i < b.Length then b[i] else e);
    }
    b'[k] := e;
  }

  /** Appends what remains of `e`, writing no slot past the last one appended. */
  method AppendPieces(b: array<Extent>, k: nat, e: Extent, w: Extent) returns (b': array<Extent>, k': nat)
    requires k <= b.Length
    modifies b
    ensures k' == k + |Pieces(e, w)| <= b'.Length && b'[..k'] == old(b[..k]) + Pieces(e, w)
    ensures forall j | k' <= j < b.Length :: b[j] == old(b[j])
    ensures forall j | 0 <= j < k' && j < b.Length :: b[j] == b'[j]
    ensures b' == b || (fresh(b') && b.Length < k')
  {
    b', k' := b, k;
    if !Overlaps(e, w) {
      b' := SliceAppend(b', k', e);
      k' := k' + 1;
    } else {
      if e.fileOffset < w.fileOffset {
        b' := SliceAppend(b', k', Extent(e.chunkId, e.chunkOffset, w.fileOffset - e.fileOffset, e.fileOffset));
        k' := k' + 1;
      }
      if e.End() > w.End() {
        var cut := w.End() - e.fileOffset;
        b' := SliceAppend(b', k', Extent(e.chunkId, e.chunkOffset + cut, e.End() - w.End(), w.End()));
        k' := k' + 1;
      }
    }
  }

  /** One turn of the loop: reads slot `i` of `a` and appends what remains of it to `b`. */
  method FilterTurn(a: array<Extent>, b: array<Extent>, i: nat, m: nat, n: nat, w: Extent, ghost mem: seq<Extent>)
    returns (b': array<Extent>, m': nat, ghost mem': seq<Extent>)
    requires i < n <= a.Length && n <= |mem| && m <= b.Length && m <= |mem|
    requires b[..m] == mem[..m] && forall j | i <= j < n :: a[j] == mem[j]
    requires b == a || n <= m
    modifies b
    ensures n <= |mem'| && m' <= b'.Length && m' <= |mem'|
    ensures b'[..m'] == mem'[..m'] && forall j | i < j < n :: a[j] == mem'[j]
    ensures b' == b || fresh(b')
    ensures b' == a || n <= m'
    ensures LoopFrom(mem, i, m, n, w) == LoopFrom(mem', i + 1, m', n, w)
  {
    ghost var ps := Pieces(a[i], w);
    mem' := PokeAll(mem, m, ps);
    PokeAllWrites(mem, m, ps);
    b', m' := AppendPieces(b, m, a[i], w);
    assert b'[..m'] == mem'[..m'];
    forall j | i < j < n ensures a[j] == mem'[j] {
      if j < m' {
        assert mem'[j] == mem'[..m'][j] == b'[j];
      }
    }
  }

  /** The loop of the filter over the slice of `n` extents in `a`. */
  method FilterLoop(a: array<Extent>, n: nat, w: Extent) returns (b: array<Extent>, m: nat)
    requires n <= a.Length
    modifies a
    ensures m <= b.Length && b[..m] == LoopFrom(old(a[..n]), 0, 0, n, w)
    ensures b == a || fresh(b)
  {
    ghost var exts := a[..n];
    ghost var mem := exts;
    var i := 0;
    b, m := a, 0;
    while i < n
      invariant i <= n <= |mem| && m <= b.Length && m <= |mem|
      invariant b[..m] == mem[..m]
      invariant forall j | i <= j < n :: a[j] == mem[j]
      invariant b == a || (fresh(b) && n <= m)
      invariant LoopFrom(mem, i, m, n, w) == LoopFrom(exts, 0, 0, n, w)
    {
      b, m, mem := FilterTurn(a, b, i, m, n, w, mem);
      i := i + 1;
    }
  }

  /**
   The filter of `WriteExtent`, run on the slice of `n` extents in `a`; the
   surviving slice is `b[..m]`.  The result does not depend on the capacity of `a`.
   */
  method FilterInPlace(a: array<Extent>, n: nat, w: Extent) returns (b: array<Extent>, m: nat)
    requires n <= a.Length
    modifies a
    ensures m <= b.Length && b[..m] == WriteInPlace(old(a[..n]), w)
    ensures b == a || fresh(b)
  {
    b, m := FilterLoop(a, n, w);
    b := SliceAppend(b, m, w);
    m := m + 1;
  }
}
