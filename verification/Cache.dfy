/**
 The chunk cache: any number of readers of sealed chunks, collapsing concurrent
 misses of one chunk into a single fetch.  A state machine whose steps are the
 atomic actions of the readers, interleaved in every way with seals, with
 deletions from the store and with failures of the store and of the disk.
 */
module Cache {
  import opened Base

  type Tid = nat

  /** Closed says that the ready channel is closed, with or without an error. */
  datatype Status = Open | Ready | Failed

  /** One inflight entry.  The owner is recorded for the proof; the code has it implicitly. */
  datatype Fetch = Fetch(id: string, owner: Tid, status: Status)

  /** A read of `len` bytes at `off` of one chunk. */
  datatype Request = Request(id: string, off: nat, len: nat)

  /** Where a reader stands. */
  datatype Pc =
    | Start                                          // before the fast path
    | Missed                                         // fast path missed, before the lock
    | Waiting(f: nat)                                // found an entry, waits for it
    | Sizing(f: nat)                                 // registered the entry, before asking for the size
    | Ranging(f: nat, size: nat)                     // before fetching that many bytes
    | Fetched(f: nat, data: Bytes)                   // before writing the file
    | Closing(f: nat, result: Option<Bytes>)         // before closing the channel
    | Leaving(f: nat, result: Option<Bytes>)         // closed, before removing the entry
    | Done(answer: Option<Bytes>)

  datatype Reader = Reader(req: Request, pc: Pc)

  datatype State = State(
    held: map<string, Bytes>,        // what was ever sealed under each ID
    store: map<string, Bytes>,       // what the store still holds of it
    files: map<string, Bytes>,       // the cache directory
    inflight: map<string, nat>,      // chunk ID to entry
    fetches: seq<Fetch>,             // every entry ever made
    readers: map<Tid, Reader>)

  function Slice(r: Request, data: Bytes): Option<Bytes> {
    if r.off + r.len <= |data| then Some(data[r.off..r.off + r.len]) else None
  }

  /** Reading a range of a cached file: misses if the file is absent or too short. */
  function FileSlice(files: map<string, Bytes>, r: Request): Option<Bytes> {
    if r.id in files then Slice(r, files[r.id]) else None
  }

  datatype Action =
    | Seal(id: string, data: Bytes, cached: bool)    // store put, then best-effort cache put
    | Drop(id: string)                               // the store loses a chunk
    | Spawn(t: Tid, req: Request)
    | Act(t: Tid, ok: bool)                          // the reader's next step; `ok` is the store's or disk's answer
    | Cancel(t: Tid)                                 // a waiting reader's context ends

  predicate Enabled(s: State, a: Action) {
    match a
    case Seal(id, data, cached) => id !in s.held
    case Drop(id) => true
    case Spawn(t, req) => t !in s.readers && req.id in s.held && req.off + req.len <= |s.held[req.id]|
    case Act(t, ok) =>
      && t in s.readers && !s.readers[t].pc.Done?
      && (s.readers[t].pc.Waiting? ==> s.readers[t].pc.f < |s.fetches| && !s.fetches[s.readers[t].pc.f].status.Open?)
    case Cancel(t) => t in s.readers && s.readers[t].pc.Waiting?
  }

  function Goto(s: State, t: Tid, pc: Pc): State
    requires t in s.readers
  {
    s.(readers := s.readers[t := s.readers[t].(pc := pc)])
  }

  /** What a reader does under the lock: re-check the file, join an entry, or register one. */
  function UnderLock(s: State, t: Tid): State
    requires t in s.readers
  {
    var r := s.readers[t].req;
    if FileSlice(s.files, r).Some? then Goto(s, t, Done(FileSlice(s.files, r)))
    else if r.id in s.inflight then Goto(s, t, Waiting(s.inflight[r.id]))
    else
      var f := |s.fetches|;
      Goto(s.(inflight := s.inflight[r.id := f], fetches := s.fetches + [Fetch(r.id, t, Open)]), t, Sizing(f))
  }

  function ReaderStep(s: State, t: Tid, ok: bool): State
    requires Enabled(s, Act(t, ok))
  {
    var r := s.readers[t].req;
    match s.readers[t].pc
    case Start =>
      if FileSlice(s.files, r).Some? then Goto(s, t, Done(FileSlice(s.files, r))) else Goto(s, t, Missed)
    case Missed => UnderLock(s, t)
    case Waiting(f) =>
      if s.fetches[f].status.Failed? then Goto(s, t, Done(None)) else Goto(s, t, Done(FileSlice(s.files, r)))
    case Sizing(f) =>
      if ok && r.id in s.store then Goto(s, t, Ranging(f, |s.store[r.id]|)) else Goto(s, t, Closing(f, None))
    case Ranging(f, size) =>
      if ok && r.id in s.store && size <= |s.store[r.id]| then Goto(s, t, Fetched(f, s.store[r.id][..size]))
      else Goto(s, t, Closing(f, None))
    case Fetched(f, data) =>
      if ok then Goto(s.(files := s.files[r.id := data]), t, Closing(f, Some(data))) else Goto(s, t, Closing(f, None))
    case Closing(f, result) =>
      if f < |s.fetches| then
        Goto(s.(fetches := s.fetches[f := s.fetches[f].(status := if result.Some? then Ready else Failed)]),
             t, Leaving(f, result))
      else s
    case Leaving(f, result) =>
      Goto(s.(inflight := s.inflight - {r.id}), t, Done(if result.Some? then Slice(r, result.value) else None))
    case Done(_) => s
  }

  function Step(s: State, a: Action): State
    requires Enabled(s, a)
  {
    match a
    case Seal(id, data, cached) =>
      s.(held := s.held[id := data], store := s.store[id := data],
         files := if cached then s.files[id := data] else s.files)
    case Drop(id) => s.(store := s.store - {id})
    case Spawn(t, req) => s.(readers := s.readers[t := Reader(req, Start)])
    case Act(t, ok) => ReaderStep(s, t, ok)
    case Cancel(t) => Goto(s, t, Done(None))
  }

  function Init(): State {
    State(map[], map[], map[], map[], [], map[])
  }

  // ---- The invariant ----

  /** As far as both go they have the same bytes. */
  predicate Agree(a: Bytes, b: Bytes) {
    a <= b || b <= a
  }

  /** A file may be cut short or too long, but has no wrong byte; one of a chunk not yet sealed is empty. */
  predicate DataOk(s: State) {
    && (forall id | id in s.store :: id in s.held && s.store[id] == s.held[id])
    && (forall id | id in s.files :: if id in s.held then Agree(s.files[id], s.held[id]) else s.files[id] == [])
  }

  /** The file holds the whole chunk. */
  predicate Complete(s: State, id: string) {
    id in s.held && id in s.files && s.held[id] <= s.files[id]
  }

  /** A hit is right, and of a complete file every read is a hit. */
  lemma HitIsRight(s: State, r: Request)
    requires DataOk(s) && r.id in s.held && r.off + r.len <= |s.held[r.id]|
    ensures FileSlice(s.files, r).Some? ==> FileSlice(s.files, r) == Slice(r, s.held[r.id])
    ensures Complete(s, r.id) ==> FileSlice(s.files, r).Some?
  {
    if FileSlice(s.files, r).Some? {
      var a, b := s.files[r.id], s.held[r.id];
      assert Agree(a, b);
      assert a[r.off..r.off + r.len] == b[r.off..r.off + r.len];
    }
  }

  /** The reader owns an entry that is still registered. */
  predicate Fetcher(pc: Pc) {
    pc.Sizing? || pc.Ranging? || pc.Fetched? || pc.Closing? || pc.Leaving?
  }

  /** What reader `t` has in hand is right, and its entry is the registered one. */
  predicate ReaderOk(s: State, t: Tid)
    requires t in s.readers
  {
    var r, pc := s.readers[t].req, s.readers[t].pc;
    && r.id in s.held && r.off + r.len <= |s.held[r.id]|
    && (pc.Waiting? || Fetcher(pc) ==> pc.f < |s.fetches| && s.fetches[pc.f].id == r.id)
    && (Fetcher(pc) ==>
          && s.fetches[pc.f].owner == t && r.id in s.inflight && s.inflight[r.id] == pc.f
          && (s.fetches[pc.f].status.Open? <==> !pc.Leaving?))
    && (pc.Ranging? ==> pc.size == |s.held[r.id]|)
    && (pc.Fetched? ==> pc.data == s.held[r.id])
    && (pc.Closing? || pc.Leaving? ==> pc.result.Some? ==> pc.result.value == s.held[r.id] && Complete(s, r.id))
    && (pc.Done? ==> pc.answer.Some? ==> pc.answer == Slice(r, s.held[r.id]))
  }

  predicate ReadersOk(s: State) {
    forall t | t in s.readers :: ReaderOk(s, t)
  }

  /** Every registered entry has an owner that is still at it. */
  predicate EntryOk(s: State, id: string)
    requires id in s.inflight
  {
    var f := s.inflight[id];
    && f < |s.fetches| && s.fetches[f].id == id
    && s.fetches[f].owner in s.readers
    && var r := s.readers[s.fetches[f].owner];
       Fetcher(r.pc) && r.pc.f == f && r.req.id == id
  }

  predicate EntriesOk(s: State) {
    forall id | id in s.inflight :: EntryOk(s, id)
  }

  predicate FetchOk(s: State, f: nat)
    requires f < |s.fetches|
  {
    && (s.fetches[f].status.Open? ==> s.fetches[f].id in s.inflight && s.inflight[s.fetches[f].id] == f)
    && (s.fetches[f].status.Ready? ==> Complete(s, s.fetches[f].id))
  }

  predicate FetchesOk(s: State) {
    forall f: nat | f < |s.fetches| :: FetchOk(s, f)
  }

  /** Of all the entries of one chunk, at most one is ready, and while one is open none is. */
  predicate OneSuccess(s: State) {
    forall f, g | 0 <= f < |s.fetches| && 0 <= g < |s.fetches| && f != g && s.fetches[f].id == s.fetches[g].id &&
                  s.fetches[f].status.Ready? :: s.fetches[g].status.Failed?
  }

  predicate Inv(s: State) {
    DataOk(s) && ReadersOk(s) && EntriesOk(s) && FetchesOk(s) && OneSuccess(s)
  }

  // ---- Each step keeps it ----

  lemma SealKeeps(s: State, a: Action)
    requires Inv(s) && Enabled(s, a) && (a.Seal? || a.Drop?)
    ensures Inv(Step(s, a))
  {
    var s' := Step(s, a);
    forall t | t in s'.readers ensures ReaderOk(s', t) {
      assert ReaderOk(s, t);
    }
    forall id | id in s'.inflight ensures EntryOk(s', id) {
      assert EntryOk(s, id);
    }
    forall f: nat | f < |s'.fetches| ensures FetchOk(s', f) {
      assert FetchOk(s, f);
    }
  }

  lemma SpawnKeeps(s: State, a: Action)
    requires Inv(s) && Enabled(s, a) && a.Spawn?
    ensures Inv(Step(s, a))
  {
    var s' := Step(s, a);
    forall t | t in s'.readers ensures ReaderOk(s', t) {
      if t in s.readers {
        assert ReaderOk(s, t);
      }
    }
    forall id | id in s'.inflight ensures EntryOk(s', id) {
      assert EntryOk(s, id);
    }
    forall f: nat | f < |s'.fetches| ensures FetchOk(s', f) {
      assert FetchOk(s, f);
    }
  }

  /** A step that only moves reader `t`, between two positions that own the same entry or none. */
  lemma MoveKeeps(s: State, t: Tid, pc: Pc)
    requires Inv(s) && t in s.readers
    requires Fetcher(s.readers[t].pc) ==> Fetcher(pc) && pc.f == s.readers[t].pc.f
    requires ReaderOk(Goto(s, t, pc), t)
    ensures Inv(Goto(s, t, pc))
  {
    var s' := Goto(s, t, pc);
    forall u | u in s'.readers ensures ReaderOk(s', u) {
      if u != t {
        assert ReaderOk(s, u);
      }
    }
    forall id | id in s'.inflight ensures EntryOk(s', id) {
      assert EntryOk(s, id);
    }
    forall f: nat | f < |s'.fetches| ensures FetchOk(s', f) {
      assert FetchOk(s, f);
    }
  }

  /** A fetch of a chunk is ready only if its file is complete, and then nobody registers another. */
  lemma RegisterSuccess(s: State, id: string, t: Tid)
    requires FetchesOk(s) && OneSuccess(s) && !Complete(s, id)
    ensures OneSuccess(s.(fetches := s.fetches + [Fetch(id, t, Open)]))
  {
    var s' := s.(fetches := s.fetches + [Fetch(id, t, Open)]);
    forall f, g | 0 <= f < |s'.fetches| && 0 <= g < |s'.fetches| && f != g && s'.fetches[f].id == s'.fetches[g].id &&
                  s'.fetches[f].status.Ready?
      ensures s'.fetches[g].status.Failed?
    {
      assert FetchOk(s, f);
    }
  }

  lemma RegisterReaders(s: State, t: Tid)
    requires ReadersOk(s) && t in s.readers && s.readers[t].pc.Missed?
    requires FileSlice(s.files, s.readers[t].req).None? && s.readers[t].req.id !in s.inflight
    ensures ReadersOk(UnderLock(s, t))
  {
    var s' := UnderLock(s, t);
    forall u | u in s'.readers ensures ReaderOk(s', u) {
      assert ReaderOk(s, u);
    }
  }

  lemma RegisterEntries(s: State, t: Tid)
    requires EntriesOk(s) && FetchesOk(s) && t in s.readers && s.readers[t].pc.Missed?
    requires FileSlice(s.files, s.readers[t].req).None? && s.readers[t].req.id !in s.inflight
    ensures EntriesOk(UnderLock(s, t)) && FetchesOk(UnderLock(s, t))
  {
    var s', id := UnderLock(s, t), s.readers[t].req.id;
    forall j | j in s'.inflight ensures EntryOk(s', j) {
      if j != id {
        assert EntryOk(s, j);
      }
    }
    forall f: nat | f < |s'.fetches| ensures FetchOk(s', f) {
      if f < |s.fetches| {
        assert FetchOk(s, f);
      }
    }
  }

  lemma RegisterKeeps(s: State, t: Tid)
    requires Inv(s) && t in s.readers && s.readers[t].pc.Missed?
    requires FileSlice(s.files, s.readers[t].req).None? && s.readers[t].req.id !in s.inflight
    ensures Inv(UnderLock(s, t))
  {
    assert ReaderOk(s, t);
    HitIsRight(s, s.readers[t].req);
    RegisterReaders(s, t);
    RegisterEntries(s, t);
    RegisterSuccess(s, s.readers[t].req.id, t);
  }

  lemma WriteKeeps(s: State, t: Tid)
    requires Inv(s) && t in s.readers && s.readers[t].pc.Fetched?
    ensures Inv(ReaderStep(s, t, true))
  {
    var s' := ReaderStep(s, t, true);
    assert ReaderOk(s, t);
    forall u | u in s'.readers ensures ReaderOk(s', u) {
      assert ReaderOk(s, u);
    }
    forall id | id in s'.inflight ensures EntryOk(s', id) {
      assert EntryOk(s, id);
    }
    forall f: nat | f < |s'.fetches| ensures FetchOk(s', f) {
      assert FetchOk(s, f);
    }
  }

  lemma CloseReaders(s: State, t: Tid, ok: bool)
    requires ReadersOk(s) && t in s.readers && s.readers[t].pc.Closing?
    ensures ReadersOk(ReaderStep(s, t, ok))
  {
    var s' := ReaderStep(s, t, ok);
    assert ReaderOk(s, t);
    forall u | u in s'.readers ensures ReaderOk(s', u) {
      assert ReaderOk(s, u);
    }
  }

  lemma CloseEntries(s: State, t: Tid, ok: bool)
    requires ReadersOk(s) && EntriesOk(s) && FetchesOk(s) && t in s.readers && s.readers[t].pc.Closing?
    ensures EntriesOk(ReaderStep(s, t, ok)) && FetchesOk(ReaderStep(s, t, ok))
  {
    var s' := ReaderStep(s, t, ok);
    assert ReaderOk(s, t);
    forall j | j in s'.inflight ensures EntryOk(s', j) {
      assert EntryOk(s, j);
    }
    forall f: nat | f < |s'.fetches| ensures FetchOk(s', f) {
      assert FetchOk(s, f);
    }
  }

  lemma CloseSuccess(s: State, t: Tid, ok: bool)
    requires ReadersOk(s) && FetchesOk(s) && OneSuccess(s) && t in s.readers && s.readers[t].pc.Closing?
    ensures OneSuccess(ReaderStep(s, t, ok))
  {
    var s' := ReaderStep(s, t, ok);
    assert ReaderOk(s, t);
    forall f, g | 0 <= f < |s'.fetches| && 0 <= g < |s'.fetches| && f != g && s'.fetches[f].id == s'.fetches[g].id &&
                  s'.fetches[f].status.Ready?
      ensures s'.fetches[g].status.Failed?
    {
      assert FetchOk(s, g);
    }
  }

  lemma CloseKeeps(s: State, t: Tid, ok: bool)
    requires Inv(s) && t in s.readers && s.readers[t].pc.Closing?
    ensures Inv(ReaderStep(s, t, ok))
  {
    CloseReaders(s, t, ok);
    CloseEntries(s, t, ok);
    CloseSuccess(s, t, ok);
    assert DataOk(ReaderStep(s, t, ok));
  }

  lemma LeaveReaders(s: State, t: Tid, ok: bool)
    requires ReadersOk(s) && t in s.readers && s.readers[t].pc.Leaving?
    ensures ReadersOk(ReaderStep(s, t, ok))
  {
    var s' := ReaderStep(s, t, ok);
    assert ReaderOk(s, t);
    forall u | u in s'.readers ensures ReaderOk(s', u) {
      assert ReaderOk(s, u);
    }
  }

  lemma LeaveEntries(s: State, t: Tid, ok: bool)
    requires ReadersOk(s) && EntriesOk(s) && FetchesOk(s) && t in s.readers && s.readers[t].pc.Leaving?
    ensures EntriesOk(ReaderStep(s, t, ok)) && FetchesOk(ReaderStep(s, t, ok))
  {
    var s' := ReaderStep(s, t, ok);
    assert ReaderOk(s, t);
    forall j | j in s'.inflight ensures EntryOk(s', j) {
      assert EntryOk(s, j);
    }
    forall f: nat | f < |s'.fetches| ensures FetchOk(s', f) {
      assert FetchOk(s, f);
    }
  }

  lemma LeaveKeeps(s: State, t: Tid, ok: bool)
    requires Inv(s) && t in s.readers && s.readers[t].pc.Leaving?
    ensures Inv(ReaderStep(s, t, ok))
  {
    LeaveReaders(s, t, ok);
    LeaveEntries(s, t, ok);
    assert DataOk(ReaderStep(s, t, ok)) && OneSuccess(ReaderStep(s, t, ok));
  }

  lemma StartKeeps(s: State, t: Tid, ok: bool)
    requires Inv(s) && Enabled(s, Act(t, ok)) && s.readers[t].pc.Start?
    ensures Inv(ReaderStep(s, t, ok))
  {
    var r := s.readers[t].req;
    assert ReaderOk(s, t);
    HitIsRight(s, r);
    MoveKeeps(s, t, if FileSlice(s.files, r).Some? then Done(FileSlice(s.files, r)) else Missed);
  }

  lemma WaitingKeeps(s: State, t: Tid, ok: bool)
    requires Inv(s) && Enabled(s, Act(t, ok)) && s.readers[t].pc.Waiting?
    ensures Inv(ReaderStep(s, t, ok))
  {
    var r, f := s.readers[t].req, s.readers[t].pc.f;
    assert ReaderOk(s, t);
    HitIsRight(s, r);
    MoveKeeps(s, t, Done(if s.fetches[f].status.Failed? then None else FileSlice(s.files, r)));
  }

  lemma LockKeeps(s: State, t: Tid)
    requires Inv(s) && t in s.readers && s.readers[t].pc.Missed?
    ensures Inv(UnderLock(s, t))
  {
    var r := s.readers[t].req;
    assert ReaderOk(s, t);
    HitIsRight(s, r);
    if FileSlice(s.files, r).Some? {
      MoveKeeps(s, t, Done(FileSlice(s.files, r)));
    } else if r.id in s.inflight {
      assert EntryOk(s, r.id);
      MoveKeeps(s, t, Waiting(s.inflight[r.id]));
    } else {
      RegisterKeeps(s, t);
    }
  }

  lemma AskKeeps(s: State, t: Tid, ok: bool)
    requires Inv(s) && Enabled(s, Act(t, ok)) && (s.readers[t].pc.Sizing? || s.readers[t].pc.Ranging?)
    ensures Inv(ReaderStep(s, t, ok))
  {
    var r, pc := s.readers[t].req, s.readers[t].pc;
    assert ReaderOk(s, t);
    if pc.Ranging? {
      assert r.id in s.store ==> s.store[r.id][..pc.size] == s.held[r.id];
    }
    MoveKeeps(s, t, ReaderStep(s, t, ok).readers[t].pc);
  }

  lemma FetchedKeeps(s: State, t: Tid, ok: bool)
    requires Inv(s) && Enabled(s, Act(t, ok)) && s.readers[t].pc.Fetched?
    ensures Inv(ReaderStep(s, t, ok))
  {
    assert ReaderOk(s, t);
    if ok {
      WriteKeeps(s, t);
    } else {
      MoveKeeps(s, t, Closing(s.readers[t].pc.f, None));
    }
  }

  lemma ActKeeps(s: State, t: Tid, ok: bool)
    requires Inv(s) && Enabled(s, Act(t, ok))
    ensures Inv(ReaderStep(s, t, ok))
  {
    match s.readers[t].pc
    case Start => StartKeeps(s, t, ok);
    case Missed => LockKeeps(s, t);
    case Waiting(_) => WaitingKeeps(s, t, ok);
    case Sizing(_) => AskKeeps(s, t, ok);
    case Ranging(_, _) => AskKeeps(s, t, ok);
    case Fetched(_, _) => FetchedKeeps(s, t, ok);
    case Closing(_, _) => CloseKeeps(s, t, ok);
    case Leaving(_, _) => LeaveKeeps(s, t, ok);
  }

  lemma StepKeeps(s: State, a: Action)
    requires Inv(s) && Enabled(s, a)
    ensures Inv(Step(s, a))
  {
    match a
    case Seal(_, _, _) => SealKeeps(s, a);
    case Drop(_) => SealKeeps(s, a);
    case Spawn(_, _) => SpawnKeeps(s, a);
    case Act(t, ok) => ActKeeps(s, t, ok);
    case Cancel(t) =>
      assert ReaderOk(s, t);
      MoveKeeps(s, t, Done(None));
  }

  // ---- Every interleaving ----

  predicate AllEnabled(s: State, acts: seq<Action>)
    decreases |acts|
  {
    acts == [] || (Enabled(s, acts[0]) && AllEnabled(Step(s, acts[0]), acts[1..]))
  }

  function Run(s: State, acts: seq<Action>): State
    requires AllEnabled(s, acts)
    decreases |acts|
  {
    if acts == [] then s else Run(Step(s, acts[0]), acts[1..])
  }

  lemma {:induction false} RunSnoc(s: State, acts: seq<Action>, a: Action)
    requires AllEnabled(s, acts) && Enabled(Run(s, acts), a)
    ensures AllEnabled(s, acts + [a]) && Run(s, acts + [a]) == Step(Run(s, acts), a)
    decreases |acts|
  {
    if acts == [] {
      assert [a][1..] == [] && acts + [a] == [a];
      assert AllEnabled(Step(s, a), []) && Run(Step(s, a), []) == Step(s, a);
    } else {
      assert (acts + [a])[1..] == acts[1..] + [a];
      RunSnoc(Step(s, acts[0]), acts[1..], a);
    }
  }

  lemma {:induction false} RunKeeps(s: State, acts: seq<Action>)
    requires Inv(s) && AllEnabled(s, acts)
    ensures Inv(Run(s, acts))
    decreases |acts|
  {
    if acts == [] {
    } else {
      StepKeeps(s, acts[0]);
      RunKeeps(Step(s, acts[0]), acts[1..]);
    }
  }

  /** In every reachable state each chunk has at most one active fetcher. */
  lemma OneFetcher(acts: seq<Action>, t: Tid, u: Tid)
    requires AllEnabled(Init(), acts)
    requires var s := Run(Init(), acts);
             && t in s.readers && u in s.readers && s.readers[t].req.id == s.readers[u].req.id
             && Fetcher(s.readers[t].pc) && Fetcher(s.readers[u].pc)
    ensures t == u
  {
    RunKeeps(Init(), acts);
    var s := Run(Init(), acts);
    assert ReaderOk(s, t) && ReaderOk(s, u);
  }

  /** Over every run at most one fetch of each chunk completes with success. */
  lemma OneSuccessfulFetch(acts: seq<Action>, f: nat, g: nat)
    requires AllEnabled(Init(), acts)
    requires var s := Run(Init(), acts);
             && f < |s.fetches| && g < |s.fetches| && s.fetches[f].id == s.fetches[g].id
             && s.fetches[f].status.Ready? && s.fetches[g].status.Ready?
    ensures f == g
  {
    RunKeeps(Init(), acts);
  }

  /**
   Over every run, every answer is the bytes that were sealed under the chunk
   ID, however it was served: by a hit, after a wait, by a fetch, or from the
   file that sealing left.
   */
  lemma AnswersAreSealedBytes(acts: seq<Action>, t: Tid)
    requires AllEnabled(Init(), acts)
    requires var s := Run(Init(), acts);
             t in s.readers && s.readers[t].pc.Done? && s.readers[t].pc.answer.Some?
    ensures var s := Run(Init(), acts);
            var r := s.readers[t].req;
            r.id in s.held && s.readers[t].pc.answer == Slice(r, s.held[r.id])
  {
    RunKeeps(Init(), acts);
    assert ReaderOk(Run(Init(), acts), t);
  }

  /** A waiter gets the outcome of the fetch it waited for: the bytes if it succeeded, else an error. */
  lemma WaiterSharesOutcome(s: State, t: Tid, ok: bool)
    requires Inv(s) && Enabled(s, Act(t, ok)) && s.readers[t].pc.Waiting?
    ensures var r := s.readers[t].req;
            var answer := Step(s, Act(t, ok)).readers[t].pc;
            && r.id in s.held
            && answer == Done(if s.fetches[s.readers[t].pc.f].status.Ready? then Slice(r, s.held[r.id]) else None)
  {
    assert ReaderOk(s, t);
    assert FetchOk(s, s.readers[t].pc.f);
    HitIsRight(s, s.readers[t].req);
  }

  // ---- What readers leave alone ----

  lemma FetchingLeavesStore(s: State, t: Tid, ok: bool)
    requires Enabled(s, Act(t, ok)) && Fetcher(s.readers[t].pc)
    ensures ReaderStep(s, t, ok).store == s.store && ReaderStep(s, t, ok).held == s.held
  {
    match s.readers[t].pc
    case Sizing(f) =>
    case Ranging(f, size) =>
    case Fetched(f, data) =>
    case Closing(f, result) =>
    case Leaving(f, result) =>
  }

  /** Readers change neither the store nor what was sealed. */
  lemma ReaderLeavesStore(s: State, t: Tid, ok: bool)
    requires Enabled(s, Act(t, ok))
    ensures ReaderStep(s, t, ok).store == s.store && ReaderStep(s, t, ok).held == s.held
  {
    if Fetcher(s.readers[t].pc) {
      FetchingLeavesStore(s, t, ok);
    } else if s.readers[t].pc.Missed? {
      assert UnderLock(s, t).store == s.store;
    }
  }

  // ---- Reads that nothing disturbs ----

  /** The chunk is stored, and no fetch of it that anyone takes part in has failed. */
  predicate Healthy(s: State, id: string) {
    id in s.store && forall u | u in s.readers && s.readers[u].req.id == id :: HealthyReader(s, u)
  }

  predicate HealthyReader(s: State, u: Tid)
    requires u in s.readers
  {
    var pc := s.readers[u].pc;
    && (pc.Closing? || pc.Leaving? ==> pc.result.Some?)
    && (pc.Waiting? || pc.Leaving? ==> pc.f < |s.fetches| && !s.fetches[pc.f].status.Failed?)
  }

  /** An action that does not harm the chunk: no failure, no deletion. */
  predicate Harmless(a: Action, id: string) {
    (a.Act? ==> a.ok) && (a.Drop? ==> a.id != id)
  }

  lemma HealthyEnvironment(s: State, a: Action, id: string)
    requires Inv(s) && Enabled(s, a) && !a.Act? && Healthy(s, id) && Harmless(a, id)
    ensures Healthy(Step(s, a), id)
  {
    var s' := Step(s, a);
    forall u | u in s'.readers && s'.readers[u].req.id == id ensures HealthyReader(s', u) {
      if u in s.readers {
        assert HealthyReader(s, u);
      }
    }
  }

  /** Of one chunk, the reader that moves stays healthy. */
  lemma HealthyOwn(s: State, t: Tid)
    requires Inv(s) && Enabled(s, Act(t, true)) && Healthy(s, s.readers[t].req.id)
    ensures t in ReaderStep(s, t, true).readers && HealthyReader(ReaderStep(s, t, true), t)
  {
    assert ReaderOk(s, t) && HealthyReader(s, t);
    var id := s.readers[t].req.id;
    if s.readers[t].pc.Missed? && id in s.inflight {
      assert EntryOk(s, id);
      var o := s.fetches[s.inflight[id]].owner;
      assert ReaderOk(s, o) && HealthyReader(s, o);
    }
  }

  /** And so does every other one. */
  lemma HealthyOther(s: State, t: Tid, u: Tid)
    requires Inv(s) && Enabled(s, Act(t, true)) && u in s.readers && u != t && Healthy(s, s.readers[u].req.id)
    ensures ReaderStep(s, t, true).readers.Keys == s.readers.Keys
    ensures ReaderStep(s, t, true).readers[u] == s.readers[u] && HealthyReader(ReaderStep(s, t, true), u)
  {
    OwnKeepsReaders(s, t, true);
    assert ReaderOk(s, t) && ReaderOk(s, u) && HealthyReader(s, u);
    var pc := s.readers[t].pc;
    if pc.Closing? && s.readers[t].req.id == s.readers[u].req.id {
      assert HealthyReader(s, t);
    }
  }

  lemma HealthyStep(s: State, a: Action, id: string)
    requires Inv(s) && Enabled(s, a) && Healthy(s, id) && Harmless(a, id)
    ensures Healthy(Step(s, a), id)
  {
    if a.Act? {
      var s' := Step(s, a);
      ReaderLeavesStore(s, a.t, a.ok);
      forall u | u in s'.readers && s'.readers[u].req.id == id ensures HealthyReader(s', u) {
        HealthyStepReader(s, a.t, id, u);
      }
    } else {
      HealthyEnvironment(s, a, id);
    }
  }

  lemma HealthyStepReader(s: State, t: Tid, id: string, u: Tid)
    requires Inv(s) && Enabled(s, Act(t, true)) && Healthy(s, id)
    requires u in ReaderStep(s, t, true).readers && ReaderStep(s, t, true).readers[u].req.id == id
    ensures HealthyReader(ReaderStep(s, t, true), u)
  {
    OwnKeepsReaders(s, t, true);
    if u == t {
      HealthyOwn(s, t);
    } else {
      HealthyOther(s, t, u);
    }
  }

  /** Only the position of reader `t` differs. */
  predicate OnlyMoves(s: State, s': State, t: Tid)
    requires t in s.readers
  {
    && s'.readers.Keys == s.readers.Keys && s'.readers[t].req == s.readers[t].req
    && forall u | u in s.readers && u != t :: s'.readers[u] == s.readers[u]
  }

  lemma FetchOnlyMoves(s: State, t: Tid, ok: bool)
    requires Enabled(s, Act(t, ok)) && Fetcher(s.readers[t].pc)
    ensures OnlyMoves(s, ReaderStep(s, t, ok), t)
  {
    match s.readers[t].pc
    case Sizing(f) =>
    case Ranging(f, size) =>
    case Fetched(f, data) =>
    case Closing(f, result) =>
    case Leaving(f, result) =>
  }

  lemma LockOnlyMoves(s: State, t: Tid)
    requires t in s.readers
    ensures OnlyMoves(s, UnderLock(s, t), t)
  {
  }

  lemma OwnKeepsReaders(s: State, t: Tid, ok: bool)
    requires Enabled(s, Act(t, ok))
    ensures OnlyMoves(s, ReaderStep(s, t, ok), t)
  {
    if Fetcher(s.readers[t].pc) {
      FetchOnlyMoves(s, t, ok);
    } else if s.readers[t].pc.Missed? {
      LockOnlyMoves(s, t);
    }
  }

  /** A reader of a healthy chunk that answers, answers with bytes. */
  lemma HealthyAnswers(s: State, t: Tid)
    requires Inv(s) && Enabled(s, Act(t, true)) && Healthy(s, s.readers[t].req.id)
    ensures var s' := ReaderStep(s, t, true);
            t in s'.readers && (s'.readers[t].pc.Done? ==> s'.readers[t].pc.answer.Some?)
  {
    var r, pc := s.readers[t].req, s.readers[t].pc;
    assert ReaderOk(s, t) && HealthyReader(s, t);
    if pc.Waiting? {
      assert FetchOk(s, pc.f);
      HitIsRight(s, r);
    }
  }

  // ---- Progress ----

  /** The steps a reader has left at most. */
  function Remaining(pc: Pc): nat {
    match pc
    case Start => 7
    case Missed => 6
    case Sizing(_) => 5
    case Ranging(_, _) => 4
    case Fetched(_, _) => 3
    case Closing(_, _) => 2
    case Leaving(_, _) => 1
    case Waiting(_) => 1
    case Done(_) => 0
  }

  /** The reader that holds `t` up: itself, or the owner of the entry it waits for. */
  function Blocker(s: State, t: Tid): Tid
    requires t in s.readers && ReaderOk(s, t)
  {
    var pc := s.readers[t].pc;
    if pc.Waiting? && s.fetches[pc.f].status.Open? then s.fetches[pc.f].owner else t
  }

  /**
   No reader is ever stuck: while it has not answered, it can move, or it waits
   for an entry whose fetcher can move and has still to close it.
   */
  lemma NeverStuck(s: State, t: Tid, ok: bool)
    requires Inv(s) && t in s.readers && !s.readers[t].pc.Done?
    ensures ReaderOk(s, t) && Enabled(s, Act(Blocker(s, t), ok))
    ensures Blocker(s, t) != t ==> Fetcher(s.readers[Blocker(s, t)].pc) && !s.readers[Blocker(s, t)].pc.Leaving?
  {
    assert ReaderOk(s, t);
    var pc := s.readers[t].pc;
    if pc.Waiting? && s.fetches[pc.f].status.Open? {
      assert FetchOk(s, pc.f);
      assert EntryOk(s, s.fetches[pc.f].id);
      assert ReaderOk(s, s.fetches[pc.f].owner);
    }
  }

  /** The steps that reader `t` takes in a run. */
  function StepsOf(acts: seq<Action>, t: Tid): nat {
    if acts == [] then 0
    else (if (acts[0].Act? || acts[0].Cancel?) && acts[0].t == t then 1 else 0) + StepsOf(acts[1..], t)
  }

  lemma FetchShortens(s: State, u: Tid, ok: bool)
    requires Enabled(s, Act(u, ok)) && Fetcher(s.readers[u].pc) && s.readers[u].pc.f < |s.fetches|
    ensures u in ReaderStep(s, u, ok).readers
    ensures Remaining(ReaderStep(s, u, ok).readers[u].pc) < Remaining(s.readers[u].pc)
  {
    match s.readers[u].pc
    case Sizing(_) =>
    case Ranging(_, _) =>
    case Fetched(_, _) =>
    case Closing(_, _) =>
    case Leaving(_, _) =>
  }

  lemma LockShortens(s: State, u: Tid)
    requires u in s.readers && s.readers[u].pc.Missed?
    ensures u in UnderLock(s, u).readers && Remaining(UnderLock(s, u).readers[u].pc) < Remaining(s.readers[u].pc)
  {
  }

  /** Its own step brings a reader nearer its end. */
  lemma OwnStepShortens(s: State, u: Tid, ok: bool)
    requires Enabled(s, Act(u, ok))
    requires Fetcher(s.readers[u].pc) ==> s.readers[u].pc.f < |s.fetches|
    ensures u in ReaderStep(s, u, ok).readers
    ensures Remaining(ReaderStep(s, u, ok).readers[u].pc) < Remaining(s.readers[u].pc)
  {
    if Fetcher(s.readers[u].pc) {
      FetchShortens(s, u, ok);
    } else if s.readers[u].pc.Missed? {
      LockShortens(s, u);
    }
  }

  lemma StepShortens(s: State, a: Action, t: Tid)
    requires Inv(s) && Enabled(s, a) && t in s.readers
    ensures t in Step(s, a).readers
    ensures var own := (a.Act? || a.Cancel?) && a.t == t;
            Remaining(Step(s, a).readers[t].pc) + (if own then 1 else 0) <= Remaining(s.readers[t].pc)
  {
    if a.Act? {
      assert ReaderOk(s, a.t);
      OwnKeepsReaders(s, a.t, a.ok);
      OwnStepShortens(s, a.t, a.ok);
    }
  }

  /** However the readers are interleaved, each one takes at most its remaining steps: every read ends. */
  lemma {:induction false} EveryReadEnds(s: State, acts: seq<Action>, t: Tid)
    requires Inv(s) && AllEnabled(s, acts) && t in s.readers
    ensures t in Run(s, acts).readers
    ensures Remaining(Run(s, acts).readers[t].pc) + StepsOf(acts, t) <= Remaining(s.readers[t].pc)
    decreases |acts|
  {
    if acts == [] {
    } else {
      StepKeeps(s, acts[0]);
      StepShortens(s, acts[0], t);
      EveryReadEnds(Step(s, acts[0]), acts[1..], t);
    }
  }
}
