/**
 Chunk identifiers are strings: "chunk-%08d" for chunks written by the chunk
 store and "compacted-%d-%d" for chunks written by the compactor.  The printer
 pads to a minimum of eight digits; the scanner used at start-up reads at most
 eight characters, and the one used by the index codec reads any number of
 digits into 32 bits.
 */
module ChunkIds {
  import opened Base

  predicate IsDigit(c: char) {
    '0' <= c <= '9'
  }

  predicate AllDigits(s: string) {
    forall i | 0 <= i < |s| :: IsDigit(s[i])
  }

  function Digit(d: nat): (c: char)
    requires d < 10
    ensures IsDigit(c) && DigitValue(c) == d
  {
    ('0' as int + d) as char
  }

  function DigitValue(c: char): (d: nat)
    requires IsDigit(c)
    ensures d < 10
  {
    c as int - '0' as int
  }

  function Pow10(k: nat): (r: nat)
    ensures r > 0
  {
    if k == 0 then 1 else 10 * Pow10(k - 1)
  }

  /** The `%d` rendering of a natural number. */
  function Decimal(n: nat): (s: string)
    ensures |s| > 0 && AllDigits(s)
  {
    if n < 10 then [Digit(n)] else Decimal(n / 10) + [Digit(n % 10)]
  }

  /** The number a string of digits denotes. */
  function ValueOf(s: string): nat
    requires AllDigits(s)
  {
    if s == [] then 0 else 10 * ValueOf(s[..|s| - 1]) + DigitValue(s[|s| - 1])
  }

  function Zeros(k: nat): (s: string)
    ensures |s| == k && AllDigits(s)
  {
    seq(k, _ => '0')
  }

  /** The `%08d` rendering. */
  function Pad8(n: nat): (s: string)
    ensures |s| >= 8 && AllDigits(s)
  {
    var d := Decimal(n);
    if |d| < 8 then Zeros(8 - |d|) + d else d
  }

  const CHUNK_PREFIX: string := "chunk-"
  const COMPACTED_PREFIX: string := "compacted-"

  function ChunkId(n: nat): string {
    CHUNK_PREFIX + Pad8(n)
  }

  function CompactedId(stamp: nat, n: nat): string {
    COMPACTED_PREFIX + Decimal(stamp) + "-" + Decimal(n)
  }

  /** The number of leading digits. */
  function DigitRun(s: string): (n: nat)
    ensures n <= |s| && AllDigits(s[..n])
    ensures n < |s| ==> !IsDigit(s[n])
  {
    if s == [] || !IsDigit(s[0]) then 0
    else
      var n := 1 + DigitRun(s[1..]);
      assert forall i | 0 < i < n :: s[..n][i] == s[1..][..n - 1][i - 1];
      n
  }

  /** Blanks that a scan skips before a number. */
  predicate IsBlank(c: char) {
    c == ' ' || c == '\t' || c == '\r' || c as int == 0x0B || c as int == 0x0C
  }

  function SkipBlanks(s: string): string {
    if s != [] && IsBlank(s[0]) then SkipBlanks(s[1..]) else s
  }

  /** `Sscanf(text, "%<width>d")` into a signed integer: blanks, an optional sign, then digits, within the width. */
  function ScanSigned(text: string, width: nat): Option<int>
    requires width > 0
  {
    var s := SkipBlanks(text);
    var signed := s != [] && (s[0] == '+' || s[0] == '-');
    var body := if signed then s[1..] else s;
    var n := Min(DigitRun(body), if signed then width - 1 else width);
    if n == 0 then None
    else
      assert AllDigits(body[..n]) by {
        assert forall i | 0 <= i < n :: body[..n][i] == body[..DigitRun(body)][i];
      }
      var m: int := ValueOf(body[..n]);
      Some(if signed && s[0] == '-' then -m else m)
  }

  /** `Sscanf(id, "chunk-%08d")`: what the start-up scan makes of a listed object. */
  function ScanSeq(id: string): Option<int> {
    if CHUNK_PREFIX <= id then ScanSigned(id[|CHUNK_PREFIX|..], 8) else None
  }

  /** The sequence number the index codec stores for a chunk ID, if it has one. */
  function ParseChunkSeq(id: string): Option<nat> {
    if !(CHUNK_PREFIX <= id) then None
    else
      var rest := SkipBlanks(id[|CHUNK_PREFIX|..]);
      var n := DigitRun(rest);
      if n == 0 then None
      else
        var m := ValueOf(rest[..n]);
        if m < 0x1_0000_0000 then Some(m) else None
  }

  // ---- Printing and reading back ----

  lemma {:induction false} DecimalValue(n: nat)
    ensures ValueOf(Decimal(n)) == n
  {
    var s := Decimal(n);
    if n < 10 {
      assert s[..|s| - 1] == [];
    } else {
      DecimalValue(n / 10);
      assert s[..|s| - 1] == Decimal(n / 10);
    }
  }

  lemma {:induction false} LeadingZeros(k: nat, s: string)
    requires AllDigits(s)
    ensures AllDigits(Zeros(k) + s) && ValueOf(Zeros(k) + s) == ValueOf(s)
  {
    var zs := Zeros(k) + s;
    if s == [] && k == 0 {
    } else if s == [] {
      LeadingZeros(k - 1, s);
      assert zs[..|zs| - 1] == Zeros(k - 1) + s;
    } else {
      LeadingZeros(k, s[..|s| - 1]);
      assert zs[..|zs| - 1] == Zeros(k) + s[..|s| - 1];
    }
  }

  lemma Pad8Value(n: nat)
    ensures ValueOf(Pad8(n)) == n
  {
    DecimalValue(n);
    if |Decimal(n)| < 8 {
      LeadingZeros(8 - |Decimal(n)|, Decimal(n));
    }
  }

  lemma {:induction false} DecimalLength(n: nat, k: nat)
    requires k > 0
    ensures |Decimal(n)| <= k <==> n < Pow10(k)
  {
    if k == 1 {
      assert Pow10(1) == 10 * Pow10(0);
    } else if n >= 10 {
      DecimalLength(n / 10, k - 1);
    }
  }

  lemma Pow10Of8()
    ensures Pow10(8) == 100_000_000
  {
    assert Pow10(4) == 10_000;
    assert Pow10(6) == 1_000_000;
  }

  lemma {:induction false} ValueBound(s: string)
    requires AllDigits(s)
    ensures ValueOf(s) < Pow10(|s|)
  {
    if s == [] {
    } else {
      ValueBound(s[..|s| - 1]);
    }
  }

  lemma {:induction false} DigitRunAll(s: string)
    requires AllDigits(s)
    ensures DigitRun(s) == |s|
  {
    if s == [] {
    } else {
      DigitRunAll(s[1..]);
    }
  }

  lemma ChunkIdSuffix(n: nat)
    ensures CHUNK_PREFIX <= ChunkId(n) && ChunkId(n)[|CHUNK_PREFIX|..] == Pad8(n)
  {
  }

  lemma ChunkIdInjective(m: nat, n: nat)
    requires ChunkId(m) == ChunkId(n)
    ensures m == n
  {
    ChunkIdSuffix(m);
    ChunkIdSuffix(n);
    Pad8Value(m);
    Pad8Value(n);
  }

  /** The eight-wide scanner undoes the printer exactly on the numbers of at most eight digits. */
  lemma ScanPrinted(n: nat)
    ensures ScanSeq(ChunkId(n)) == Some(n) <==> n < 100_000_000
  {
    ChunkIdSuffix(n);
    DigitRunAll(Pad8(n));
    Pad8Value(n);
    Pow10Of8();
    DecimalLength(n, 8);
    var s := Pad8(n);
    assert !(s[0] == '+' || s[0] == '-') by {
      assert IsDigit(s[0]);
    }
    if n < 100_000_000 {
      assert s[..8] == s;
    } else {
      ValueBound(s[..8]);
    }
  }

  /** Whatever the scanner reads has at most eight digits. */
  lemma ScanBound(id: string)
    ensures ScanSeq(id).Some? ==> ScanSeq(id).value < 100_000_000
  {
    if ScanSeq(id).Some? {
      var s := SkipBlanks(id[|CHUNK_PREFIX|..]);
      var signed := s[0] == '+' || s[0] == '-';
      var body := if signed then s[1..] else s;
      var n := Min(DigitRun(body), if signed then 7 else 8);
      assert AllDigits(body[..n]) by {
        assert forall i | 0 <= i < n :: body[..n][i] == body[..DigitRun(body)][i];
      }
      ValueBound(body[..n]);
      Pow10Mono(n, 8);
      Pow10Of8();
    }
  }

  lemma {:induction false} Pow10Mono(a: nat, b: nat)
    requires a <= b
    ensures Pow10(a) <= Pow10(b)
  {
    if a == b {
    } else {
      Pow10Mono(a, b - 1);
    }
  }

  /** The codec's parser undoes the printer on every 32-bit sequence number and rejects the rest. */
  lemma ParsePrinted(n: nat)
    ensures ParseChunkSeq(ChunkId(n)) == if n < 0x1_0000_0000 then Some(n) else None
  {
    ChunkIdSuffix(n);
    DigitRunAll(Pad8(n));
    Pad8Value(n);
    assert Pad8(n)[..|Pad8(n)|] == Pad8(n);
  }

  /** IDs that survive the codec: exactly the printed 32-bit sequence numbers. */
  predicate Canonical(id: string) {
    ParseChunkSeq(id).Some? && ChunkId(ParseChunkSeq(id).value) == id
  }

  /** A compacted chunk has no sequence number, neither for the codec nor for the start-up scan. */
  lemma CompactedHasNoSeq(id: string)
    requires COMPACTED_PREFIX <= id
    ensures ParseChunkSeq(id).None? && ScanSeq(id).None?
    ensures forall n: nat :: ChunkId(n) != id
  {
    assert id[1] == 'o';
    assert CHUNK_PREFIX[1] == 'h';
    forall n: nat ensures ChunkId(n) != id {
      ChunkIdSuffix(n);
      assert ChunkId(n)[1] == 'h';
    }
  }

  /** Distinct counters give distinct compacted IDs, whatever the clock says. */
  lemma CompactedIdInjective(t1: nat, n1: nat, t2: nat, n2: nat)
    requires CompactedId(t1, n1) == CompactedId(t2, n2)
    ensures n1 == n2
  {
    if |Decimal(n1)| > |Decimal(n2)| {
      CompactedTail(t1, n1, |Decimal(n2)| + 1);
      CompactedDash(t2, n2);
    } else if |Decimal(n1)| < |Decimal(n2)| {
      CompactedTail(t2, n2, |Decimal(n1)| + 1);
      CompactedDash(t1, n1);
    } else {
      var k := |Decimal(n1)|;
      var s := CompactedId(t1, n1);
      assert s[|s| - k..] == Decimal(n1);
      var u := CompactedId(t2, n2);
      assert u[|u| - k..] == Decimal(n2);
      DecimalValue(n1);
      DecimalValue(n2);
    }
  }

  lemma CompactedDash(t: nat, n: nat)
    ensures var s := CompactedId(t, n);
            |s| > |Decimal(n)| && s[|s| - |Decimal(n)| - 1] == '-'
  {
  }

  lemma CompactedTail(t: nat, n: nat, k: nat)
    requires 0 < k <= |Decimal(n)|
    ensures IsDigit(CompactedId(t, n)[|CompactedId(t, n)| - k])
  {
    var s := CompactedId(t, n);
    assert s[|s| - k] == Decimal(n)[|Decimal(n)| - k];
  }

  // ---- Recovering the sequence counter from a listing ----

  /** The highest sequence number scanned so far, or -1. */
  function MaxSeq(ids: seq<string>): int {
    if ids == [] then -1
    else
      var m, s := MaxSeq(ids[..|ids| - 1]), ScanSeq(ids[|ids| - 1]);
      if s.Some? && s.value > m then s.value else m
  }

  /** The sequence number of the active chunk after start-up over this listing. */
  function RecoveredSeq(ids: seq<string>): nat {
    if MaxSeq(ids) < 0 then 0 else MaxSeq(ids) + 1
  }

  lemma {:induction false} MaxSeqBounds(ids: seq<string>, i: nat)
    requires i < |ids|
    ensures ScanSeq(ids[i]).Some? ==> ScanSeq(ids[i]).value <= MaxSeq(ids)
  {
    if i == |ids| - 1 {
    } else {
      MaxSeqBounds(ids[..|ids| - 1], i);
    }
  }

  lemma {:induction false} MaxSeqListed(ids: seq<string>)
    ensures MaxSeq(ids) >= 0 ==> exists i :: 0 <= i < |ids| && ScanSeq(ids[i]) == Some(MaxSeq(ids))
  {
    if ids == [] {
    } else {
      var front := ids[..|ids| - 1];
      MaxSeqListed(front);
      if MaxSeq(ids) >= 0 && MaxSeq(ids) == MaxSeq(front) {
        var i :| 0 <= i < |front| && ScanSeq(front[i]) == Some(MaxSeq(front));
        assert ids[i] == front[i];
      }
    }
  }

  lemma {:induction false} MaxSeqBelow(ids: seq<string>)
    ensures MaxSeq(ids) < 100_000_000
  {
    if ids == [] {
    } else {
      MaxSeqBelow(ids[..|ids| - 1]);
      ScanBound(ids[|ids| - 1]);
    }
  }

  /** Some listed chunk has a sequence number of nine or more digits. */
  ghost predicate HasWideSeq(ids: seq<string>) {
    exists n: nat :: n >= 100_000_000 && ChunkId(n) in ids
  }

  /**
   The session that starts over a listing, in whatever order it comes, issues
   only IDs absent from it if and only if no listed chunk has a sequence number
   too wide for the scanner.
   */
  lemma RecoveredIdsFreshIff(ids: seq<string>)
    ensures (forall n: nat | n >= RecoveredSeq(ids) :: ChunkId(n) !in ids) <==> !HasWideSeq(ids)
  {
    if HasWideSeq(ids) {
      var n: nat :| n >= 100_000_000 && ChunkId(n) in ids;
      MaxSeqBelow(ids);
      assert n >= RecoveredSeq(ids);
    } else {
      forall n: nat | n >= RecoveredSeq(ids) ensures ChunkId(n) !in ids {
        if ChunkId(n) in ids && n < 100_000_000 {
          ListedBelow(ids, n);
        }
      }
    }
  }

  /** A listed sequence number that the scanner can read is below the recovered one. */
  lemma ListedBelow(ids: seq<string>, n: nat)
    requires ChunkId(n) in ids && n < 100_000_000
    ensures n < RecoveredSeq(ids)
  {
    var i :| 0 <= i < |ids| && ids[i] == ChunkId(n);
    MaxSeqBounds(ids, i);
    ScanPrinted(n);
  }

  /**
   The first active ID alone is absent from the listing unless the listing
   holds both the highest eight-digit number and its nine-digit successor.
   */
  lemma RecoveredActiveFreshIff(ids: seq<string>)
    ensures ChunkId(RecoveredSeq(ids)) in ids <==>
            MaxSeq(ids) == 99_999_999 && ChunkId(MaxSeq(ids) + 1) in ids
  {
    var n := RecoveredSeq(ids);
    MaxSeqBelow(ids);
    assert n <= 100_000_000;
    if ChunkId(n) in ids && n < 100_000_000 {
      ListedBelow(ids, n);
    }
  }

  /** A listing holding chunk-100000000 alone: the scanner stops after eight digits. */
  lemma WideSeqMisread()
    ensures ScanSeq(ChunkId(100_000_000)) != Some(100_000_000)
    ensures HasWideSeq([ChunkId(100_000_000)])
    ensures exists n: nat :: n >= RecoveredSeq([ChunkId(100_000_000)]) && ChunkId(n) in [ChunkId(100_000_000)]
  {
    var ids := [ChunkId(100_000_000)];
    ScanPrinted(100_000_000);
    MaxSeqBelow(ids);
    assert ids[0] in ids;
  }

  /** The scan of `RecoverNextSeq` over a listing. */
  method ScanListing(ids: seq<string>) returns (maxSeq: int)
    ensures maxSeq == MaxSeq(ids)
  {
    maxSeq := -1;
    for i := 0 to |ids|
      invariant maxSeq == MaxSeq(ids[..i])
    {
      assert ids[..i + 1][..i] == ids[..i];
      var s := ScanSeq(ids[i]);
      if s.Some? && s.value > maxSeq {
        maxSeq := s.value;
      }
    }
    assert ids[..|ids|] == ids;
  }
}
