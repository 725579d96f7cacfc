/**
 The two dirty flags.  A persist takes a copy of the index, writes it out, and
 only then clears the flag, each under its own lock; other operations run in
 between.  A clean flag tells the truth exactly when none of them took effect.
 */
module Flags {
  import opened Base
  import opened Extents
  import opened IndexModel
  import opened FileData
  import opened ChunkModel
  import opened Names
  import opened Filesystem
  import opened Runs

  function ForgetAtime(inodes: map<Ino, Inode>): map<Ino, Inode> {
    map i | i in inodes :: inodes[i].(atime := 0)
  }

  /** Equal but for access times. */
  predicate SameButAtime(a: IndexData, b: IndexData) {
    a.(inodes := map[]) == b.(inodes := map[]) && ForgetAtime(a.inodes) == ForgetAtime(b.inodes)
  }

  /** The index is one that a cold start over the store could show, but for access times. */
  ghost predicate MatchesStore(s: Fs) {
    if s.durable.Some? then SameButAtime(s.durable.value, s.idx)
    else exists now :: SameButAtime(NewIndex(now, s.blockSize), s.idx)
  }

  predicate MatchesSaved(s: Fs) {
    s.saved.Some? ==> s.saved.value == s.idx
  }

  /** What a flag promises: clean towards the store, or towards the local file, is up to date with it. */
  ghost predicate FlagsTrue(s: Fs) {
    (!s.remoteDirty ==> MatchesStore(s)) && (!s.dirty ==> MatchesSaved(s))
  }

  // ---- Reading leaves the store alone ----

  /** An operation that changes no more of the index than an access time. */
  predicate OnlyReads(op: Op) {
    !op.Meta? && !op.ChangeAttr? && !op.Write? && !op.Remap?
  }

  /** However much is read, flushed and persisted, there is nothing new to put to the store. */
  lemma {:induction false} ReadsStayClean(s: Fs, ops: seq<Op>)
    requires !s.remoteDirty && forall k | 0 <= k < |ops| :: OnlyReads(ops[k])
    ensures !Run(s, ops).remoteDirty
    decreases |ops|
  {
    if ops == [] {
    } else {
      ReadsStayClean(Step(s, ops[0]), ops[1..]);
    }
  }

  // ---- What takes effect ----

  /** The operation changes the index in more than access times. */
  ghost predicate Structural(s: Fs, op: Op) {
    match op
    case Meta(m) => ApplyMeta(s.idx, m, s.blockSize).Some?
    case ChangeAttr(i, _, _) => i in s.idx.inodes
    case Write(_, _, _, _, _, _) => Accepted(s, op)
    case Remap(_) => true
    case _ => false
  }

  /** The operation changes the index. */
  ghost predicate Effective(s: Fs, op: Op) {
    Structural(s, op) || (op.Touch? && op.ino in s.idx.inodes)
  }

  ghost predicate NoneStructural(s: Fs, ops: seq<Op>)
    decreases |ops|
  {
    ops == [] || (!Structural(s, ops[0]) && NoneStructural(Step(s, ops[0]), ops[1..]))
  }

  ghost predicate NoneEffective(s: Fs, ops: seq<Op>)
    decreases |ops|
  {
    ops == [] || (!Effective(s, ops[0]) && NoneEffective(Step(s, ops[0]), ops[1..]))
  }

  lemma TouchSame(a: IndexData, d: IndexData, i: Ino, now: int)
    requires SameButAtime(a, d) && i in d.inodes
    ensures SameButAtime(a, TouchAtime(d, i, now).value)
  {
    assert ForgetAtime(TouchAtime(d, i, now).value.inodes) == ForgetAtime(d.inodes);
  }

  lemma NotEffectiveSame(s: Fs, op: Op)
    requires !Effective(s, op) && !op.Restart?
    ensures Step(s, op).idx == s.idx
  {
  }

  lemma NotStructuralSame(s: Fs, op: Op, a: IndexData)
    requires !Structural(s, op) && !op.Restart? && SameButAtime(a, s.idx)
    ensures SameButAtime(a, Step(s, op).idx)
  {
    if op.Touch? && op.ino in s.idx.inodes {
      TouchSame(a, s.idx, op.ino, op.now);
    } else {
      NotEffectiveSame(s, op);
    }
  }

  /** Flags go up with every change they are about. */
  lemma FlagsGoUp(s: Fs, op: Op)
    ensures Structural(s, op) ==> Step(s, op).remoteDirty && Step(s, op).dirty
    ensures Effective(s, op) ==> Step(s, op).dirty
  {
  }

  // ---- Every run ----

  /** Whether the index is as it was when each copy in hand was taken. */
  datatype Since = Since(remote: bool, local: bool)

  ghost function NextSince(q: Since, s: Fs, op: Op): Since {
    match op
    case EncodeIndex => q.(remote := true)
    case TakeLocal => q.(local := true)
    case _ => Since(q.remote && !Structural(s, op), q.local && !Effective(s, op))
  }

  /** No flag is cleared over a change that the copy written out does not have. */
  ghost predicate ClearsOk(q: Since, s: Fs, op: Op) {
    && (op.MarkRemoteClean? && s.remote.Out? ==> q.remote)
    && (op.MarkLocalClean? && s.local.Out? ==> q.local)
  }

  ghost predicate ClearsRunOk(q: Since, s: Fs, ops: seq<Op>)
    decreases |ops|
  {
    ops == [] || (ClearsOk(q, s, ops[0]) && ClearsRunOk(NextSince(q, s, ops[0]), Step(s, ops[0]), ops[1..]))
  }

  /** The copies that a persist holds, against the index and against what was written out. */
  ghost predicate RemoteInv(s: Fs, q: Since) {
    && (s.remote.Out? ==> s.durable == Some(s.remote.data))
    && (!s.remote.Idle? && (q.remote || (s.remote.InHand? && !s.remoteDirty)) ==> SameButAtime(s.remote.data, s.idx))
    && (!s.remoteDirty ==> MatchesStore(s))
  }

  ghost predicate LocalInv(s: Fs, q: Since) {
    && (s.local.Out? ==> s.saved == Some(s.local.data))
    && (!s.local.Idle? && (q.local || (s.local.InHand? && !s.dirty)) ==> s.local.data == s.idx)
    && (!s.dirty ==> MatchesSaved(s))
  }

  ghost predicate FlagInv(s: Fs, q: Since) {
    RemoteInv(s, q) && LocalInv(s, q)
  }

  predicate Persists(op: Op) {
    || op.EncodeIndex? || op.PutIndex? || op.MarkRemoteClean? || op.Restart?
    || op.TakeLocal? || op.WriteLocal? || op.MarkLocalClean?
  }

  /** An operation that is no step of a persist changes no copy. */
  lemma CopiesStay(s: Fs, op: Op)
    requires !Persists(op)
    ensures var t := Step(s, op);
            && t.durable == s.durable && t.remote == s.remote && t.saved == s.saved && t.local == s.local
            && t.blockSize == s.blockSize
            && (!Structural(s, op) ==> t.remoteDirty == s.remoteDirty)
            && (!Effective(s, op) ==> t.dirty == s.dirty)
  {
  }

  lemma RemoteStays(s: Fs, q: Since, op: Op)
    requires RemoteInv(s, q) && !Persists(op)
    ensures RemoteInv(Step(s, op), NextSince(q, s, op))
  {
    CopiesStay(s, op);
    FlagsGoUp(s, op);
    if !Structural(s, op) {
      forall a | SameButAtime(a, s.idx) ensures SameButAtime(a, Step(s, op).idx) {
        NotStructuralSame(s, op, a);
      }
    }
  }

  lemma LocalStays(s: Fs, q: Since, op: Op)
    requires LocalInv(s, q) && !Persists(op)
    ensures LocalInv(Step(s, op), NextSince(q, s, op))
  {
    CopiesStay(s, op);
    FlagsGoUp(s, op);
    if !Effective(s, op) {
      NotEffectiveSame(s, op);
    }
  }

  lemma RestartMatches(s: Fs, op: Op)
    requires op.Restart?
    ensures MatchesStore(Step(s, op))
  {
    if s.durable.None? {
      assert SameButAtime(NewIndex(op.now, op.config.blockSize), Step(s, op).idx);
    }
  }

  lemma RemoteStep(s: Fs, q: Since, op: Op)
    requires RemoteInv(s, q) && ClearsOk(q, s, op)
    ensures RemoteInv(Step(s, op), NextSince(q, s, op))
  {
    match op
    case Restart(_, _, _) => RestartMatches(s, op);
    case EncodeIndex =>
    case PutIndex(_) =>
    case MarkRemoteClean =>
    case TakeLocal =>
    case WriteLocal(_) =>
    case MarkLocalClean =>
    case _ => RemoteStays(s, q, op);
  }

  lemma LocalStep(s: Fs, q: Since, op: Op)
    requires LocalInv(s, q) && ClearsOk(q, s, op)
    ensures LocalInv(Step(s, op), NextSince(q, s, op))
  {
    if !Persists(op) {
      LocalStays(s, q, op);
    }
  }

  lemma FlagStep(s: Fs, q: Since, op: Op)
    requires FlagInv(s, q) && ClearsOk(q, s, op)
    ensures FlagInv(Step(s, op), NextSince(q, s, op))
  {
    RemoteStep(s, q, op);
    LocalStep(s, q, op);
  }

  /** Over every run, whatever fails: as long as no flag is cleared over a change, clean flags tell the truth. */
  lemma {:induction false} FlagRun(s: Fs, q: Since, ops: seq<Op>)
    requires FlagInv(s, q) && ClearsRunOk(q, s, ops)
    ensures FlagsTrue(Run(s, ops))
    decreases |ops|
  {
    if ops == [] {
    } else {
      FlagStep(s, q, ops[0]);
      FlagRun(Step(s, ops[0]), NextSince(q, s, ops[0]), ops[1..]);
    }
  }

  lemma FreshFlags(s: Fs, now: int)
    requires s.idx == NewIndex(now, s.blockSize) && s.durable.None? && s.saved.None?
    requires s.remote.Idle? && s.local.Idle?
    ensures FlagInv(s, Since(true, true))
  {
    assert SameButAtime(NewIndex(now, s.blockSize), s.idx);
  }

  // ---- One persist: what the clock shows ----

  /** Every clock reading of the run is at least `t`. */
  predicate ClockFrom(ops: seq<Op>, t: int) {
    forall k | 0 <= k < |ops| :: ReadFrom(ops[k], t)
  }

  predicate ReadFrom(op: Op, t: int) {
    match op
    case Meta(m) => m.now >= t
    case ChangeAttr(_, _, now) => now >= t
    case Touch(_, now) => now >= t
    case Write(_, _, _, now, _, _) => now >= t
    case _ => true
  }

  /** Some inode changed at `t` or later. */
  predicate ChangedFrom(d: IndexData, t: int) {
    exists i :: i in d.inodes && d.inodes[i].ctime >= t
  }

  predicate ChangedBefore(d: IndexData, t: int) {
    forall i | i in d.inodes :: d.inodes[i].ctime < t
  }

  lemma MakeStamps(d: IndexData, m: MetaOp, blockSize: int)
    requires m.MakeNode? || m.MakeSymlink?
    ensures ChangedFrom(ApplyMeta(d, m, blockSize).value, m.now)
  {
    var d' := ApplyMeta(d, m, blockSize).value;
    assert d.nextIno in d'.inodes && d'.inodes[d.nextIno].ctime == m.now;
  }

  /** A rename changes its source directory, which cannot be what it overwrites. */
  lemma MoveStamps(d: IndexData, m: MetaOp)
    requires LinkOk(d) && m.Move? && ApplyMeta(d, m, 0).Some?
    ensures ChangedFrom(ApplyMeta(d, m, 0).value, m.now)
  {
    var sp, dp := m.srcParent, m.dstParent;
    assert NonEmptyDir(d, sp);
    var taken := m.dstName in ChildrenOf(d, dp);
    var d1 := if taken then DropLink(d, ChildrenOf(d, dp)[m.dstName]) else d;
    assert sp in d1.inodes;
    MoveStampsSource(d1, ChildrenOf(d, sp)[m.srcName], sp, dp, m.now);
  }

  lemma MoveStampsSource(d: IndexData, c: Ino, sp: Ino, dp: Ino, now: int)
    requires sp in d.inodes
    ensures var inodes := StampDir(StampDir(StampCtime(d.inodes, c, now), sp, now), dp, now);
            sp in inodes && inodes[sp].ctime == now
  {
  }

  lemma RemoveStamps(d: IndexData, m: MetaOp)
    requires LinkOk(d) && m.Remove? && ApplyMeta(d, m, 0).Some?
    ensures ChangedFrom(ApplyMeta(d, m, 0).value, m.now)
  {
    var d' := ApplyMeta(d, m, 0).value;
    assert NonEmptyDir(d, m.parent);
    assert m.parent in d'.inodes && d'.inodes[m.parent].ctime == m.now;
  }

  /** Every operation on names that succeeds leaves a live inode with the time of the operation. */
  lemma MetaStamps(d: IndexData, m: MetaOp, blockSize: int)
    requires LinkOk(d) && ApplyMeta(d, m, blockSize).Some?
    ensures ChangedFrom(ApplyMeta(d, m, blockSize).value, m.now)
  {
    var d' := ApplyMeta(d, m, blockSize).value;
    match m
    case MakeNode(_, _, _, _, _, _, _) => MakeStamps(d, m, blockSize);
    case MakeSymlink(_, _, _, _, _, _) => MakeStamps(d, m, blockSize);
    case Link(_, _, i, now) => assert d'.inodes[i].ctime == now;
    case Remove(_, _, _) => RemoveStamps(d, m);
    case Move(_, _, _, _, _) => MoveStamps(d, m);
    case PutXattr(i, _, _, now) => assert d'.inodes[i].ctime == now;
    case DropXattr(i, _, now) => assert d'.inodes[i].ctime == now;
  }

  lemma StructuralStamps(s: Fs, op: Op, t: int)
    requires LinkOk(s.idx) && Structural(s, op) && !op.Remap? && ReadFrom(op, t)
    ensures ChangedFrom(Step(s, op).idx, t)
  {
    var d' := Step(s, op).idx;
    match op
    case Meta(m) =>
      MetaStamps(s.idx, m, s.blockSize);
      var i :| i in d'.inodes && d'.inodes[i].ctime >= m.now;
    case ChangeAttr(i, _, now) => assert d'.inodes[i].ctime == now;
    case Write(i, _, _, now, _, _) => assert d'.inodes[i].ctime == now;
    case _ =>
  }

  lemma ChangedStays(s: Fs, op: Op, t: int)
    requires ChangedFrom(s.idx, t) && !Structural(s, op) && !op.Restart?
    ensures ChangedFrom(Step(s, op).idx, t)
  {
    var i :| i in s.idx.inodes && s.idx.inodes[i].ctime >= t;
    var d' := Step(s, op).idx;
    if op.Touch? && op.ino in s.idx.inodes {
      assert i in d'.inodes && d'.inodes[i].ctime == s.idx.inodes[i].ctime;
    } else {
      NotEffectiveSame(s, op);
    }
  }

  /** What may run beside a persist towards the store: anything but another one, compaction, and a restart. */
  predicate BesideRemote(op: Op) {
    !op.EncodeIndex? && !op.MarkRemoteClean? && !op.Remap? && !op.DeleteChunk? && !op.PutSealed? && !op.Restart?
  }

  predicate AllBesideRemote(ops: seq<Op>) {
    forall k | 0 <= k < |ops| :: BesideRemote(ops[k])
  }

  lemma WindowStep(s: Fs, op: Op, t: int)
    requires NameInv(s) && NameOpOk(s, op) && BesideRemote(op) && ReadFrom(op, t)
    requires ChangedFrom(s.idx, t) || Structural(s, op)
    ensures ChangedFrom(Step(s, op).idx, t)
  {
    if Structural(s, op) {
      StructuralStamps(s, op, t);
    } else {
      ChangedStays(s, op, t);
    }
  }

  lemma {:induction false} WindowStamps(s: Fs, ops: seq<Op>, t: int)
    requires NameInv(s) && NameRunOk(s, ops) && AllBesideRemote(ops) && ClockFrom(ops, t)
    requires ChangedFrom(s.idx, t) || !NoneStructural(s, ops)
    ensures ChangedFrom(Run(s, ops).idx, t)
    decreases |ops|
  {
    if ops == [] {
    } else {
      assert BesideRemote(ops[0]) && ReadFrom(ops[0], t);
      if ChangedFrom(s.idx, t) || Structural(s, ops[0]) {
        WindowStep(s, ops[0], t);
      }
      NameStep(s, ops[0]);
      WindowStamps(Step(s, ops[0]), ops[1..], t);
    }
  }

  lemma {:induction false} WindowSame(s: Fs, ops: seq<Op>, a: IndexData)
    requires SameButAtime(a, s.idx) && AllBesideRemote(ops) && NoneStructural(s, ops)
    ensures SameButAtime(a, Run(s, ops).idx)
    decreases |ops|
  {
    if ops == [] {
    } else {
      assert BesideRemote(ops[0]);
      NotStructuralSame(s, ops[0], a);
      WindowSame(Step(s, ops[0]), ops[1..], a);
    }
  }

  /** The copy of the index `d` on its way to the store. */
  predicate Carries(s: Fs, d: IndexData) {
    (s.remote.InHand? ==> s.remote.data == d) && (s.remote.Out? ==> s.durable == Some(d))
  }

  lemma {:induction false} WindowCarries(s: Fs, ops: seq<Op>, d: IndexData)
    requires Carries(s, d) && AllBesideRemote(ops)
    ensures Carries(Run(s, ops), d)
    decreases |ops|
  {
    if ops == [] {
    } else {
      assert BesideRemote(ops[0]);
      if !Persists(ops[0]) {
        CopiesStay(s, ops[0]);
      }
      WindowCarries(Step(s, ops[0]), ops[1..], d);
    }
  }

  lemma StampsDiffer(a: IndexData, b: IndexData, t: int)
    requires ChangedBefore(a, t) && ChangedFrom(b, t)
    ensures !SameButAtime(a, b)
  {
    var i :| i in b.inodes && b.inodes[i].ctime >= t;
    assert i in ForgetAtime(b.inodes) && ForgetAtime(b.inodes)[i].ctime >= t;
    assert i in ForgetAtime(a.inodes) ==> ForgetAtime(a.inodes)[i].ctime < t;
  }

  /**
   The index has just been encoded; operations run, among them the put, which
   succeeds, and then the flag is cleared.  If the clock had moved on when the
   index was encoded, the clean flag is true if and only if no structural
   operation took effect in between.
   */
  lemma RemoteCleanIff(s: Fs, ops: seq<Op>, t: int)
    requires s.remote == InHand(s.idx) && NameInv(s) && NameRunOk(s, ops) && AllBesideRemote(ops)
    requires ChangedBefore(s.idx, t) && ClockFrom(ops, t)
    requires Run(s, ops).remote.Out?
    ensures var u := Step(Run(s, ops), MarkRemoteClean);
            !u.remoteDirty && u.durable == Some(s.idx) && (MatchesStore(u) <==> NoneStructural(s, ops))
  {
    WindowIff(s, ops, t);
    WindowCarries(s, ops, s.idx);
    MarkOver(Run(s, ops), s.idx);
  }

  /** Clearing the flag over the copy of `d` that was put. */
  lemma MarkOver(u: Fs, d: IndexData)
    requires u.remote.Out? && Carries(u, d)
    ensures var m := Step(u, MarkRemoteClean);
            !m.remoteDirty && m.durable == Some(d) && (MatchesStore(m) <==> SameButAtime(d, u.idx))
  {
  }

  /** The index is as it was, but for access times, if and only if no structural operation took effect. */
  lemma WindowIff(s: Fs, ops: seq<Op>, t: int)
    requires NameInv(s) && NameRunOk(s, ops) && AllBesideRemote(ops)
    requires ChangedBefore(s.idx, t) && ClockFrom(ops, t)
    ensures SameButAtime(s.idx, Run(s, ops).idx) <==> NoneStructural(s, ops)
  {
    if NoneStructural(s, ops) {
      WindowSame(s, ops, s.idx);
    } else {
      WindowStamps(s, ops, t);
      StampsDiffer(s.idx, Run(s, ops).idx, t);
    }
  }

  // ---- One local persist ----

  /** Some inode changed or was read at `t` or later. */
  predicate TouchedFrom(d: IndexData, t: int) {
    exists i :: i in d.inodes && (d.inodes[i].ctime >= t || d.inodes[i].atime >= t)
  }

  predicate TouchedBefore(d: IndexData, t: int) {
    forall i | i in d.inodes :: d.inodes[i].ctime < t && d.inodes[i].atime < t
  }

  predicate BesideLocal(op: Op) {
    !op.TakeLocal? && !op.MarkLocalClean? && !op.Remap? && !op.Restart?
  }

  predicate AllBesideLocal(ops: seq<Op>) {
    forall k | 0 <= k < |ops| :: BesideLocal(ops[k])
  }

  lemma EffectiveStamps(s: Fs, op: Op, t: int)
    requires LinkOk(s.idx) && Effective(s, op) && !op.Remap? && ReadFrom(op, t)
    ensures TouchedFrom(Step(s, op).idx, t)
  {
    var d' := Step(s, op).idx;
    if Structural(s, op) {
      StructuralStamps(s, op, t);
      var i :| i in d'.inodes && d'.inodes[i].ctime >= t;
    } else {
      assert d'.inodes[op.ino].atime >= t;
    }
  }

  lemma {:induction false} LocalWindowStamps(s: Fs, ops: seq<Op>, t: int)
    requires NameInv(s) && NameRunOk(s, ops) && AllBesideLocal(ops) && ClockFrom(ops, t)
    requires TouchedFrom(s.idx, t) || !NoneEffective(s, ops)
    ensures TouchedFrom(Run(s, ops).idx, t)
    decreases |ops|
  {
    if ops == [] {
    } else {
      assert BesideLocal(ops[0]) && ReadFrom(ops[0], t);
      if Effective(s, ops[0]) {
        EffectiveStamps(s, ops[0], t);
      } else {
        NotEffectiveSame(s, ops[0]);
      }
      NameStep(s, ops[0]);
      LocalWindowStamps(Step(s, ops[0]), ops[1..], t);
    }
  }

  lemma {:induction false} LocalWindowSame(s: Fs, ops: seq<Op>)
    requires AllBesideLocal(ops) && NoneEffective(s, ops)
    ensures Run(s, ops).idx == s.idx
    decreases |ops|
  {
    if ops == [] {
    } else {
      assert BesideLocal(ops[0]);
      NotEffectiveSame(s, ops[0]);
      LocalWindowSame(Step(s, ops[0]), ops[1..]);
    }
  }

  /** The copy of the index `d` on its way to the local file. */
  predicate CarriesLocal(s: Fs, d: IndexData) {
    (s.local.InHand? ==> s.local.data == d) && (s.local.Out? ==> s.saved == Some(d))
  }

  lemma {:induction false} WindowCarriesLocal(s: Fs, ops: seq<Op>, d: IndexData)
    requires CarriesLocal(s, d) && AllBesideLocal(ops)
    ensures CarriesLocal(Run(s, ops), d)
    decreases |ops|
  {
    if ops == [] {
    } else {
      assert BesideLocal(ops[0]);
      if !Persists(ops[0]) {
        CopiesStay(s, ops[0]);
      }
      WindowCarriesLocal(Step(s, ops[0]), ops[1..], d);
    }
  }

  lemma LocalWindowIff(s: Fs, ops: seq<Op>, t: int)
    requires NameInv(s) && NameRunOk(s, ops) && AllBesideLocal(ops)
    requires TouchedBefore(s.idx, t) && ClockFrom(ops, t)
    ensures Run(s, ops).idx == s.idx <==> NoneEffective(s, ops)
  {
    if NoneEffective(s, ops) {
      LocalWindowSame(s, ops);
    } else {
      LocalWindowStamps(s, ops, t);
    }
  }

  /**
   The same for the local file: the snapshot has just been taken, operations run,
   among them the write of the file, and the flag is cleared.  The clean flag is
   true if and only if no operation took effect in between, reads that set a time
   included.
   */
  lemma LocalCleanIff(s: Fs, ops: seq<Op>, t: int)
    requires s.local == InHand(s.idx) && NameInv(s) && NameRunOk(s, ops) && AllBesideLocal(ops)
    requires TouchedBefore(s.idx, t) && ClockFrom(ops, t)
    requires Run(s, ops).local.Out?
    ensures var u := Step(Run(s, ops), MarkLocalClean);
            !u.dirty && u.saved == Some(s.idx) && (MatchesSaved(u) <==> NoneEffective(s, ops))
  {
    WindowCarriesLocal(s, ops, s.idx);
    LocalWindowIff(s, ops, t);
  }

  // ---- Writes, whatever the clock shows ----

  /** Some extent denotes bytes that the view does not hold. */
  predicate HasBeyond(d: IndexData, v: View) {
    exists i, k :: i in d.extents && 0 <= k < |d.extents[i]| && !InView(d.extents[i][k], v)
  }

  predicate OnlyWrites(op: Op) {
    BesideRemote(op) && !op.Meta? && !op.ChangeAttr?
  }

  predicate AllOnlyWrites(ops: seq<Op>) {
    forall k | 0 <= k < |ops| :: OnlyWrites(ops[k])
  }

  lemma StillBeyond(v0: View, v: View, w: Extent)
    requires GrowsUnlessEmpty(v0, v) && Beyond(v, w) && w.length > 0
    ensures !InView(w, v0)
  {
  }

  /** A write that is acknowledged refers to bytes that no earlier view held. */
  lemma WriteGoesBeyond(s: Fs, op: Op, v0: View)
    requires Inv(s) && OpOk(s, op) && op.Write? && Accepted(s, op) && GrowsUnlessEmpty(v0, FsView(s))
    ensures HasBeyond(Step(s, op).idx, v0)
  {
    var i := op.ino;
    var w := Append(s.chunks, s.objects, op.data, op.off, op.put).result.value;
    AppendKeeps(s.chunks, s.objects, op.data, op.off, op.put);
    StillBeyond(v0, FsView(s), w);
    WriteStepIndex(s, op);
    var exts := WriteList(ExtentsOf(s.idx, i), w, op.fm);
    assert Step(s, op).idx.extents[i] == exts && exts[|exts| - 1] == w;
  }

  lemma GrowsOn(v0: View, v: View, v': View)
    requires GrowsUnlessEmpty(v0, v) && GrowsUnlessEmpty(v, v')
    ensures GrowsUnlessEmpty(v0, v')
  {
    forall id | id in v0 && v0[id] != [] ensures id in v' && v0[id] <= v'[id] {
      assert v[id] != [];
    }
  }

  lemma StepGrows(s: Fs, op: Op)
    requires ChunkOk(s.chunks, s.objects) && OnlyWrites(op)
    ensures GrowsUnlessEmpty(FsView(s), FsView(Step(s, op)))
  {
    if op.Write? {
      AppendKeeps(s.chunks, s.objects, op.data, op.off, op.put);
    } else if op.SealActive? {
      SealGrows(s.chunks, s.objects, op.put);
    } else if op.FlushActive? {
      FlushKeeps(s.chunks, s.objects, op.put);
    }
  }

  lemma ViewGrows(s: Fs, op: Op, v0: View)
    requires ChunkOk(s.chunks, s.objects) && OnlyWrites(op) && GrowsUnlessEmpty(v0, FsView(s))
    ensures GrowsUnlessEmpty(v0, FsView(Step(s, op)))
  {
    StepGrows(s, op);
    GrowsOn(v0, FsView(s), FsView(Step(s, op)));
  }

  lemma BeyondStays(s: Fs, op: Op, v0: View)
    requires OnlyWrites(op) && !Structural(s, op) && HasBeyond(s.idx, v0)
    ensures HasBeyond(Step(s, op).idx, v0)
  {
    var i, k :| i in s.idx.extents && 0 <= k < |s.idx.extents[i]| && !InView(s.idx.extents[i][k], v0);
    assert Step(s, op).idx.extents[i][k] == s.idx.extents[i][k];
  }

  lemma {:induction false} WritesGoBeyond(s: Fs, ops: seq<Op>, v0: View)
    requires Inv(s) && RunOk(s, ops) && AllOnlyWrites(ops) && GrowsUnlessEmpty(v0, FsView(s))
    requires HasBeyond(s.idx, v0) || !NoneStructural(s, ops)
    ensures HasBeyond(Run(s, ops).idx, v0)
    decreases |ops|
  {
    if ops == [] {
    } else {
      var op := ops[0];
      assert OnlyWrites(op);
      if Structural(s, op) {
        WriteGoesBeyond(s, op, v0);
      } else if HasBeyond(s.idx, v0) {
        BeyondStays(s, op, v0);
      }
      ViewGrows(s, op, v0);
      StepKeeps(s, op);
      WritesGoBeyond(Step(s, op), ops[1..], v0);
    }
  }

  lemma NothingBeyond(d: IndexData, v: View)
    requires DataOk(d, v)
    ensures !HasBeyond(d, v)
  {
    forall i, k | i in d.extents && 0 <= k < |d.extents[i]| ensures InView(d.extents[i][k], v) {
      assert ListOk(d.extents[i], SizeOf(d, i), v);
    }
  }

  /**
   With no assumption on the clock: if writes are the only structural operations
   that run beside the persist, the clean flag is true if and only if none of
   them was acknowledged.
   */
  lemma RemoteCleanIffNoWrite(s: Fs, ops: seq<Op>)
    requires Inv(s) && RunOk(Step(s, EncodeIndex), ops) && AllOnlyWrites(ops)
    requires Run(Step(s, EncodeIndex), ops).remote.Out?
    ensures var u := Step(Run(Step(s, EncodeIndex), ops), MarkRemoteClean);
            && !u.remoteDirty && u.durable == Some(s.idx)
            && (MatchesStore(u) <==> NoneStructural(Step(s, EncodeIndex), ops))
  {
    var s1 := Step(s, EncodeIndex);
    assert forall k | 0 <= k < |ops| :: OnlyWrites(ops[k]) && BesideRemote(ops[k]);
    WindowCarries(s1, ops, s.idx);
    if NoneStructural(s1, ops) {
      WindowSame(s1, ops, s.idx);
    } else {
      StepKeeps(s, EncodeIndex);
      WritesGoBeyond(s1, ops, FsView(s));
      NothingBeyond(s.idx, FsView(s));
    }
  }

  // ---- The run that fails ----

  lemma EncodeSees(s: Fs, op: Op)
    requires Inv(s) && op.Write?
    ensures var s1 := Step(s, EncodeIndex);
            && Inv(s1) && Abs(s1) == Abs(s).(pending := Some(Abs(s).files))
            && (OpOk(s1, op) <==> OpOk(s, op)) && (Accepted(s1, op) <==> Accepted(s, op))
  {
    var s1 := Step(s, EncodeIndex);
    assert HasRoom(s1, op.ino, op.off + |op.data|) <==> HasRoom(s, op.ino, op.off + |op.data|);
  }

  lemma WriteSees(s: Fs, op: Op)
    requires Inv(s) && op.Write? && OpOk(s, op) && Accepted(s, op)
    ensures var t := Step(s, op);
            && Inv(t) && op.ino in Abs(s).files
            && Abs(t) == Abs(s).(files := Abs(s).files[op.ino := Overlay(Abs(s).files[op.ino], op.off, op.data)])
            && t.remote == s.remote
  {
    StepSimulates(s, op);
    assert op.ino in s.idx.extents;
  }

  lemma PutSees(s: Fs)
    requires Inv(s) && s.remote.InHand? && OpOk(s, PutIndex(Stored))
    ensures var t := Step(Step(s, PutIndex(Stored)), MarkRemoteClean);
            Inv(t) && Abs(t).files == Abs(s).files && Abs(s).pending == Some(Abs(t).durable)
  {
    StepSimulates(s, PutIndex(Stored));
    StepSimulates(Step(s, PutIndex(Stored)), MarkRemoteClean);
  }

  lemma PutAfterWriteOk(s: Fs, op: Op)
    requires Inv(s) && Flushed(s, s.idx)
    requires op.Write? && OpOk(Step(s, EncodeIndex), op)
    ensures OpOk(Step(Step(s, EncodeIndex), op), PutIndex(Stored))
  {
    RunOfOne(Step(s, EncodeIndex), op);
    EncodedFlushedIsSafe(s, [op], Stored);
  }

  lemma FlagAfterWrite(s: Fs, op: Op)
    requires Inv(s) && op.Write? && Accepted(Step(s, EncodeIndex), op)
    requires RunOk(Step(s, EncodeIndex), [op, PutIndex(Stored)])
    ensures var u := Step(Run(Step(s, EncodeIndex), [op, PutIndex(Stored)]), MarkRemoteClean);
            !u.remoteDirty && !MatchesStore(u)
  {
    var s1 := Step(s, EncodeIndex);
    RunOfTwo(s1, op, PutIndex(Stored));
    WriteKeepsHand(s1, op);
    RemoteCleanIffNoWrite(s, [op, PutIndex(Stored)]);
  }

  lemma WriteKeepsHand(s: Fs, op: Op)
    requires op.Write?
    ensures Step(s, op).remote == s.remote
  {
  }

  /** A write that is acknowledged between the encoding and the put: the flag is clean and the store lacks the write. */
  lemma WriteForgotten(s: Fs, op: Op)
    requires Inv(s) && Flushed(s, s.idx)
    requires op.Write? && OpOk(s, op) && Accepted(s, op)
    ensures var s1 := Step(s, EncodeIndex);
            var u := Step(Run(s1, [op, PutIndex(Stored)]), MarkRemoteClean);
            && RunOk(s1, [op, PutIndex(Stored)]) && Inv(u)
            && !u.remoteDirty && !MatchesStore(u)
            && op.ino in Abs(s).files && Abs(u).durable == Abs(s).files
            && Abs(u).files == Abs(s).files[op.ino := Overlay(Abs(s).files[op.ino], op.off, op.data)]
  {
    var s1 := Step(s, EncodeIndex);
    EncodeSees(s, op);
    WriteSees(s1, op);
    PutAfterWriteOk(s, op);
    RunOfTwo(s1, op, PutIndex(Stored));
    PutSees(Step(s1, op));
    FlagAfterWrite(s, op);
  }

  lemma CreatedIndex(d: IndexData, m: MetaOp, blockSize: int)
    requires m.MakeNode? && m.fileType == REGULAR && d.extents == map[] && d.nextIno != m.parent
    ensures var d' := ApplyMeta(d, m, blockSize).value;
            d'.extents == map[d.nextIno := []] && IsRegular(d', d.nextIno) && SizeOf(d', d.nextIno) == 0
  {
  }

  lemma OneEmptyFile(d: IndexData, v: View, i: Ino)
    requires d.extents == map[i := []] && SizeOf(d, i) == 0
    ensures Files(d, v) == map[i := []]
  {
  }

  /** A write of one byte at the start of a file. */
  predicate OneByte(op: Op, i: Ino) {
    op.Write? && op.ino == i && |op.data| == 1 && op.off == 0 && op.fm.FreshList?
  }

  lemma FirstWriteAccepted(s: Fs, i: Ino, op: Op)
    requires s.idx.extents == map[i := []] && IsRegular(s.idx, i) && Used(s.idx) == 0
    requires s.chunks.maxSize > 0 && s.chunks.buf == [] && s.maxFsSize > 0 && OneByte(op, i)
    ensures OpOk(s, op) && Accepted(s, op)
  {
  }

  /** A fresh mount in which one file has been created. */
  lemma CreatedEmpty(c: Config, m: MetaOp)
    requires m.MakeNode? && m.fileType == REGULAR && m.parent == ROOT_INO
    ensures var s := Step(Mount(c, 0), Meta(m));
            && Inv(s) && s.idx.extents == map[ROOT_INO + 1 := []] && Used(s.idx) == 0
            && IsRegular(s.idx, ROOT_INO + 1) && SizeOf(s.idx, ROOT_INO + 1) == 0
            && s.chunks == NewChunks(c.maxChunk) && s.maxFsSize == c.maxFsSize
  {
    var s := Mount(c, 0);
    MountInv(c, 0);
    StepKeeps(s, Meta(m));
    CreatedIndex(s.idx, m, c.blockSize);
    FreshUses(0, c.blockSize);
    MetaNeverGrows(s.idx, m, c.blockSize);
    UsedBounded(s.idx, Step(s, Meta(m)).idx);
  }

  lemma EmptyFileFlushed(s: Fs, i: Ino)
    requires s.idx.extents == map[i := []]
    ensures Flushed(s, s.idx)
  {
  }

  /** A file system with one empty file, and a byte written to it while the index is put. */
  lemma FirstWriteForgotten(s: Fs, i: Ino, op: Op)
    requires Inv(s) && s.idx.extents == map[i := []] && IsRegular(s.idx, i) && SizeOf(s.idx, i) == 0
    requires Used(s.idx) == 0 && s.chunks.maxSize > 0 && s.chunks.buf == [] && s.maxFsSize > 0 && OneByte(op, i)
    ensures var s1 := Step(s, EncodeIndex);
            var u := Step(Run(s1, [op, PutIndex(Stored)]), MarkRemoteClean);
            && RunOk(s1, [op, PutIndex(Stored)]) && Inv(u)
            && !u.remoteDirty && !MatchesStore(u)
            && Abs(u).files == map[i := op.data] && Abs(u).durable == map[i := []]
  {
    FirstWriteReady(s, i, op);
    WriteForgotten(s, op);
    FirstOverlay(Abs(s).files, i, op.data);
  }

  lemma FirstWriteReady(s: Fs, i: Ino, op: Op)
    requires s.idx.extents == map[i := []] && IsRegular(s.idx, i) && SizeOf(s.idx, i) == 0
    requires Used(s.idx) == 0 && s.chunks.maxSize > 0 && s.chunks.buf == [] && s.maxFsSize > 0 && OneByte(op, i)
    ensures OpOk(s, op) && Accepted(s, op) && Flushed(s, s.idx) && Abs(s).files == map[i := []]
  {
    FirstWriteAccepted(s, i, op);
    OneEmptyFile(s.idx, FsView(s), i);
    EmptyFileFlushed(s, i);
  }

  lemma FirstOverlay(files: map<Ino, Bytes>, i: Ino, data: Bytes)
    requires files == map[i := []]
    ensures files[i := Overlay(files[i], 0, data)] == map[i := data]
  {
    assert Overlay([], 0, data) == data;
  }

  /**
   From a fresh mount with room for one byte: create a file, encode the index,
   write a byte, put the index, clear the flag.  The flag is clean, the file
   system shows the byte, and a cold start would not.
   */
  lemma LostWriteRun(c: Config, m: MetaOp, op: Op)
    requires c.maxChunk > 0 && c.maxFsSize > 0
    requires m.MakeNode? && m.fileType == REGULAR && m.parent == ROOT_INO && OneByte(op, ROOT_INO + 1)
    ensures var s1 := Step(Step(Mount(c, 0), Meta(m)), EncodeIndex);
            var u := Step(Run(s1, [op, PutIndex(Stored)]), MarkRemoteClean);
            && RunOk(s1, [op, PutIndex(Stored)]) && Inv(u)
            && !u.remoteDirty && !MatchesStore(u)
            && Abs(u).files == map[ROOT_INO + 1 := op.data] && Abs(u).durable == map[ROOT_INO + 1 := []]
  {
    CreatedEmpty(c, m);
    FirstWriteForgotten(Step(Mount(c, 0), Meta(m)), ROOT_INO + 1, op);
  }
}
