/**
  Which way a version and a flush go on a row of Caracal.

  `Alone` lets one actor of a reachable row take its next steps with nobody in between; the lemmas say what the
  row is afterwards.  The last part speaks of whole runs: why a row has buffers, and what a row is like that nobody writes.
 */
module CaracalRoutes {
  import opened Bits
  import opened TwoLevelBitmap
  import opened Versions
  import opened SortedSlots
  import opened Workload
  import opened CaracalRow
  import opened CaracalInvariant
  import opened CaracalSteps
  import opened CaracalTheorems
  import opened CaracalEquivalence

  /** The row after at most `n` steps of actor `a`, who stops where it would have to wait or is done. */
  function Alone(r: Row, a: Actor, n: nat): Row
    decreases n
  {
    if n == 0 || !Enabled(r, a) then r else Alone(Step(r, a), a, n - 1)
  }

  /** The row when appender `s` is at `pc`. */
  function At(r: Row, s: nat, sh: Shared, pc: AppendPc): Row {
    r.(sh := sh, apc := r.apc[s := pc])
  }

  function FlushAt(r: Row, c: nat, sh: Shared, pc: FlushPc): Row {
    r.(sh := sh, fpc := r.fpc[c := pc])
  }

  lemma Once(r: Row, s: nat, n: nat, sh: Shared, pc: AppendPc, sh': Shared, pc': AppendPc)
    requires Enabled(r, Appender(s)) && |sh.buffers| == WIDTH
    requires !pc.ADone? && (pc.AFullLock? ==> sh.cnt == 0)
    requires AppendStep(r.epoch, r.cap, s, pc, sh) == (sh', pc')
    ensures Alone(At(r, s, sh, pc), Appender(s), n + 1) == Alone(At(r, s, sh', pc'), Appender(s), n)
  {
    hide AppendStep;
    assert r.apc[s := pc][s := pc'] == r.apc[s := pc'];
  }

  /** The append is done, or it waits for the lock. */
  lemma Stops(r: Row, s: nat, n: nat, sh: Shared, pc: AppendPc)
    requires Enabled(r, Appender(s)) && (pc.ADone? || (pc.AFullLock? && sh.cnt != 0))
    ensures Alone(At(r, s, sh, pc), Appender(s), n) == At(r, s, sh, pc)
  {
  }

  lemma FlushOnce(r: Row, c: nat, n: nat, sh: Shared, pc: FlushPc, sh': Shared, pc': FlushPc)
    requires Enabled(r, Flusher(c)) && |sh.buffers| == WIDTH
    requires !pc.FDone? && (pc.FLock? ==> sh.cnt == 0)
    requires FlushStep(r.epoch, c, pc, sh) == (sh', pc')
    ensures Alone(FlushAt(r, c, sh, pc), Flusher(c), n + 1) == Alone(FlushAt(r, c, sh', pc'), Flusher(c), n)
  {
    hide FlushStep;
    assert r.fpc[c := pc][c := pc'] == r.fpc[c := pc'];
  }

  /** What the collection at the beginning of epoch `x` removes. */
  function Cleaned(sh: Shared, x: int): Shared {
    sh.(slots := MinorGc(sh.slots, x),
        heap := sh.heap - AsSet(Dropped(sh.slots, x)),
        deleted := sh.deleted + |Dropped(sh.slots, x)|)
  }

  /** The new version of writer `s`, who has taken its first step at most. */
  function WithVersion(sh: Shared, id: int): Shared {
    sh.(heap := sh.heap[sh.created + 1 := Cell(None, Pending, id)], created := sh.created + 1)
  }

  /** The collection succeeds on a reachable row, also right after a version has been created. */
  lemma CanCollect(r: Row, s: nat)
    requires Inv(r) && r.phase.InitPhase? && s in r.apc && s < EPOCH_SIZE
    ensures GcOk(r.sh, Base(r.epoch)) && GcOk(WithVersion(r.sh, Pack(r.epoch + 1, s)), Base(r.epoch))
  {
    hide Inv, OldOk, ContentOk, HandlesOk, HeapOk, GcOk, Base, Pack, LockOk, OrderOk, BuffersOk, WithVersion;
    Parts(r);
    PackIsBase(r.epoch, s);
    CollectSucceeds(r.sh, Base(r.epoch), r.base);
    CanCollectAfterCreate(r.sh, Base(r.epoch), r.base, s, r.apc, r.epoch);
  }

  lemma CanCollectAfterCreate(sh: Shared, x: int, base: Slot, s: nat, apc: map<nat, AppendPc>, epoch: nat)
    requires OldOk(sh.slots, sh.heap, x, base) && HeapOk(sh.slots, sh.heap, sh.created, sh.deleted, apc, x)
    requires HandlesOk(sh.heap, apc, map[], epoch, x)
    ensures GcOk(WithVersion(sh, x + s), x)
  {
    hide OldOk, HandlesOk, HeapOk, GcOk;
    CreateKeeps(sh, x, base, s, apc, epoch);
    CollectSucceeds(Create(sh, x + s), x, base);
  }

  /** The state of the lock and of the worker's own buffer when an append begins. */
  lemma BeforeAppend(r: Row, s: nat)
    requires Inv(r) && Enabled(r, Appender(s)) && r.apc[s].ALoad?
    ensures |r.sh.buffers| == WIDTH && |r.sh.buffers[s % WIDTH]| < r.cap && s in r.apc && s < EPOCH_SIZE && r.phase.InitPhase?
    ensures r.sh.cnt == 0 ==> r.sh.holder == None
  {
    hide Inv, LockOk, OrderOk, BuffersOk, DataOk;
    Parts(r);
    LockIsFree(r);
    AloneOnCore(r.apc, r.fpc, s);
    RoomInBuffer(r.sh, r.cap, r.apc, r.fpc, s);
  }

  lemma RoomInBuffer(sh: Shared, cap: nat, apc: map<nat, AppendPc>, fpc: map<nat, FlushPc>, s: nat)
    requires BuffersOk(sh, cap, apc, fpc) && s in apc && s % WIDTH < |sh.buffers| && !Full(apc[s])
    requires forall t :: t in apc && t % WIDTH == s % WIDTH && t != s ==> apc[t].ALoad? || apc[t].ADone?
    ensures |sh.buffers[s % WIDTH]| < cap
  {
  }

  // ---------- the routes of an append ----------

  /** No buffers and a free lock: the version goes into the cleaned array, and the row gets no buffers. */
  lemma UncontendedAppend(r: Row, s: nat)
    requires Inv(r) && Enabled(r, Appender(s)) && r.apc[s].ALoad? && !r.sh.installed && r.sh.cnt == 0
    ensures var id, v := Pack(r.epoch + 1, s), r.sh.created + 1;
      var cleaned := Cleaned(WithVersion(r.sh, id), Base(r.epoch));
      Alone(r, Appender(s), 4) ==
        r.(sh := cleaned.(slots := Insert(cleaned.slots, Slot(id, v))), apc := r.apc[s := ADone(v)])
  {
    hide Inv, Alone, Enabled, GcOk, Collect, Cleaned, Insert, Pack, Base, At;
    BeforeAppend(r, s);
    CanCollect(r, s);
    var a, id, v, x := Appender(s), Pack(r.epoch + 1, s), r.sh.created + 1, Base(r.epoch);
    var created := WithVersion(r.sh, id);
    LockedCollect(created, a, x);
    var cleaned := Cleaned(created, x);
    var sh := cleaned.(slots := Insert(cleaned.slots, Slot(id, v)));
    Once(r, s, 3, r.sh, ALoad, r.sh, ATryLock);
    Once(r, s, 2, r.sh, ATryLock, Acquire(r.sh, a), AInsert);
    Once(r, s, 1, Acquire(r.sh, a), AInsert, Acquire(sh, a), AUnlock(v));
    Once(r, s, 0, Acquire(sh, a), AUnlock(v), sh, ADone(v));
    Stops(r, s, 0, sh, ADone(v));
    Finally(r, s, sh, ADone(v));
  }

  lemma Finally(r: Row, s: nat, sh: Shared, pc: AppendPc)
    ensures At(r, s, sh, pc) == r.(sh := sh, apc := r.apc[s := pc])
    ensures s in r.apc ==> At(r, s, r.sh, r.apc[s]) == r
  {
    assert s in r.apc ==> r.apc[s := r.apc[s]] == r.apc;
  }

  /** Holding the lock makes no difference to the collection. */
  lemma LockedCollect(sh: Shared, a: Actor, x: int)
    requires GcOk(sh, x)
    ensures Collect(Acquire(sh, a), x) == Acquire(Cleaned(sh, x), a)
    ensures Cleaned(sh, x) == sh.(slots := Cleaned(sh, x).slots, heap := Cleaned(sh, x).heap, deleted := Cleaned(sh, x).deleted)
  {
  }

  /** The row after a new version has been put into the buffer of worker `c`, which may be full now. */
  function Buffered(sh: Shared, cap: nat, c: nat, id: int): Shared
    requires c < |sh.buffers|
  {
    var buffer := Insert(sh.buffers[c], Slot(id, sh.created + 1));
    WithVersion(sh, id).(
      buffers := sh.buffers[c := buffer],
      recorded := if |buffer| < cap then sh.recorded + {c} else sh.recorded)
  }

  /** The row after the buffer has been full and has been appended as a whole. */
  function Overflowed(sh: Shared, c: nat, id: int, x: int): Shared
    requires c < |sh.buffers|
  {
    var cleaned := Cleaned(WithVersion(sh, id), x);
    cleaned.(slots := InsertAll(cleaned.slots, Insert(sh.buffers[c], Slot(id, sh.created + 1))),
             buffers := sh.buffers[c := []])
  }

  lemma BufferRoute(r: Row, s: nat, sh: Shared)
    requires Enabled(r, Appender(s)) && s < EPOCH_SIZE
    requires |sh.buffers| == WIDTH && sh.installed && |sh.buffers[s % WIDTH]| < r.cap
    requires var id := Pack(r.epoch + 1, s);
      GcOk(WithVersion(sh, id), Base(r.epoch)) && (sh.cnt == 0 ==> sh.holder == None)
    ensures var a, id, v, n := Appender(s), Pack(r.epoch + 1, s), sh.created + 1, |sh.buffers[s % WIDTH]| + 1;
      && (n < r.cap ==> Alone(At(r, s, sh, ABuffer), a, 1) == At(r, s, Buffered(sh, r.cap, s % WIDTH, id), ADone(v)))
      && (n == r.cap && sh.cnt != 0 ==>
            Alone(At(r, s, sh, ABuffer), a, 1) == At(r, s, Buffered(sh, r.cap, s % WIDTH, id), AFullLock(v)))
      && (n == r.cap && sh.cnt == 0 ==>
            Alone(At(r, s, sh, ABuffer), a, 4) == At(r, s, Overflowed(sh, s % WIDTH, id, Base(r.epoch)), ADone(v)))
  {
    hide Inv, Alone, Enabled, GcOk, Collect, Cleaned, Pack, Base, At, InsertAll, LowerBound, WithVersion, CaracalRow.BatchAppend;
    var a, c, id, v, x := Appender(s), s % WIDTH, Pack(r.epoch + 1, s), sh.created + 1, Base(r.epoch);
    CreatedIs(sh, id);
    var sh1 := Buffered(sh, r.cap, s % WIDTH, id);
    var full := |sh.buffers[c]| + 1 == r.cap;
    Once(r, s, 0, sh, ABuffer, sh1, if full then AFullLock(v) else ADone(v));
    Stops0(r, s, sh1, if full then AFullLock(v) else ADone(v));
    if full && sh.cnt == 0 {
      var sh2 := Overflowed(sh, s % WIDTH, id, x);
      OverflowIsBatch(sh, r.cap, s, id, x);
      Once(r, s, 3, sh, ABuffer, sh1, AFullLock(v));
      Once(r, s, 2, sh1, AFullLock(v), Acquire(sh1, a), AFullBatch(v));
      Once(r, s, 1, Acquire(sh1, a), AFullBatch(v), Acquire(sh2, a), AFullUnlock(v));
      Once(r, s, 0, Acquire(sh2, a), AFullUnlock(v), sh2, ADone(v));
      Stops0(r, s, sh2, ADone(v));
    }
  }

  lemma Stops0(r: Row, s: nat, sh: Shared, pc: AppendPc)
    ensures Alone(At(r, s, sh, pc), Appender(s), 0) == At(r, s, sh, pc)
  {
  }

  lemma CreatedIs(sh: Shared, id: int)
    ensures Create(sh, id) == WithVersion(sh, id)
    ensures WithVersion(sh, id) == sh.(heap := WithVersion(sh, id).heap, created := sh.created + 1)
  {
  }

  lemma OverflowIsBatch(sh: Shared, cap: nat, s: nat, id: int, x: int)
    requires |sh.buffers| == WIDTH && |sh.buffers[s % WIDTH]| + 1 == cap && GcOk(WithVersion(sh, id), x)
    ensures CaracalRow.BatchAppend(Acquire(Buffered(sh, cap, s % WIDTH, id), Appender(s)), s % WIDTH, x)
         == Acquire(Overflowed(sh, s % WIDTH, id, x), Appender(s))
    ensures Overflowed(sh, s % WIDTH, id, x).cnt == sh.cnt && Overflowed(sh, s % WIDTH, id, x).holder == sh.holder
  {
    hide LowerBound, MinorGc, Dropped, InsertAll;
    var c := s % WIDTH;
    var buffer := Insert(sh.buffers[c], Slot(id, sh.created + 1));
    assert sh.buffers[c := buffer][c := []] == sh.buffers[c := []];
  }

  /**
    On a row with buffers the version goes into the worker's own one, and the worker remembers the row.  Only a buffer
    that reaches its capacity is appended to the array, under the lock, and is empty afterwards.
   */
  lemma ContendedAppend(r: Row, s: nat)
    requires Inv(r) && Enabled(r, Appender(s)) && r.apc[s].ALoad? && r.sh.installed
    ensures |r.sh.buffers| == WIDTH && |r.sh.buffers[s % WIDTH]| < r.cap
    ensures var a, id, v, n := Appender(s), Pack(r.epoch + 1, s), r.sh.created + 1, |r.sh.buffers[s % WIDTH]| + 1;
      && (n < r.cap ==> Alone(r, a, 2) == At(r, s, Buffered(r.sh, r.cap, s % WIDTH, id), ADone(v)))
      && (n == r.cap && r.sh.cnt != 0 ==> Alone(r, a, 2) == At(r, s, Buffered(r.sh, r.cap, s % WIDTH, id), AFullLock(v)))
      && (n == r.cap && r.sh.cnt == 0 ==> Alone(r, a, 5) == At(r, s, Overflowed(r.sh, s % WIDTH, id, Base(r.epoch)), ADone(v)))
  {
    hide Inv, Alone, Enabled, GcOk, Pack, Base, At, Buffered, Overflowed, WithVersion;
    BeforeAppend(r, s);
    CanCollect(r, s);
    Finally(r, s, r.sh, ALoad);
    Once(r, s, 1, r.sh, ALoad, r.sh, ABuffer);
    Once(r, s, 4, r.sh, ALoad, r.sh, ABuffer);
    BufferRoute(r, s, r.sh);
  }

  /** No buffers and a lock that somebody holds: the row gets buffers, and the version goes into the worker's own one. */
  lemma CrowdedAppend(r: Row, s: nat)
    requires Inv(r) && Enabled(r, Appender(s)) && r.apc[s].ALoad? && !r.sh.installed && r.sh.cnt != 0
    ensures |r.sh.buffers| == WIDTH && |r.sh.buffers[s % WIDTH]| < r.cap
    ensures var a, id, v, n := Appender(s), Pack(r.epoch + 1, s), r.sh.created + 1, |r.sh.buffers[s % WIDTH]| + 1;
      var sh := Buffered(r.sh.(installed := true, contended := true), r.cap, s % WIDTH, id);
      Alone(r, a, 4) == At(r, s, sh, if n < r.cap then ADone(v) else AFullLock(v))
  {
    hide Inv, Alone, Enabled, GcOk, Pack, Base, At, Buffered, Overflowed, WithVersion;
    BeforeAppend(r, s);
    CanCollect(r, s);
    var sh1 := r.sh.(contended := true);
    var sh2 := r.sh.(installed := true, contended := true);
    SameCollection(r.sh, sh2, Pack(r.epoch + 1, s), Base(r.epoch));
    Finally(r, s, r.sh, ALoad);
    Once(r, s, 3, r.sh, ALoad, r.sh, ATryLock);
    Once(r, s, 2, r.sh, ATryLock, sh1, AInstall);
    Once(r, s, 1, sh1, AInstall, sh2, ABuffer);
    BufferRoute(r, s, sh2);
  }

  lemma SameCollection(sh: Shared, sh': Shared, id: int, x: int)
    requires GcOk(WithVersion(sh, id), x) && sh'.slots == sh.slots && sh'.heap == sh.heap && sh'.created == sh.created
    ensures GcOk(WithVersion(sh', id), x)
  {
  }

  // ---------- the routes of a flush ----------

  /** A worker that has not recorded the row is done with it at once: it takes no lock and changes nothing. */
  lemma UnrecordedFlush(r: Row, c: nat)
    requires Inv(r) && Enabled(r, Flusher(c)) && c !in r.sh.recorded
    ensures Step(r, Flusher(c)) == r.(fpc := r.fpc[c := FDone])
  {
    hide Shape, LockOk, OrderOk, OldOk, ContentOk, HandlesOk, HeapOk, ReadersOk, EarlierDone, CoreDone;
  }

  /** A worker that has recorded the row appends its buffer to the cleaned array under the lock, and forgets the row. */
  lemma RecordedFlush(r: Row, c: nat)
    requires Inv(r) && Enabled(r, Flusher(c)) && r.fpc[c].FCheck? && c in r.sh.recorded && r.sh.cnt == 0
    ensures |r.sh.buffers| == WIDTH && c < WIDTH
    ensures var cleaned := Cleaned(r.sh, Base(r.epoch));
      Alone(r, Flusher(c), 4) == r.(
        sh := cleaned.(slots := InsertAll(cleaned.slots, r.sh.buffers[c]), buffers := r.sh.buffers[c := []],
                       recorded := r.sh.recorded - {c}),
        fpc := r.fpc[c := FDone])
  {
    hide Inv, Alone, Enabled, GcOk, Base, FlushAt, Cleaned, CaracalRow.BatchAppend, InsertAll;
    BeforeFlush(r, c);
    var x, f := Base(r.epoch), Flusher(c);
    BatchCleans(r.sh, c, x);
    var cleaned := Cleaned(r.sh, x);
    var sh := cleaned.(slots := InsertAll(cleaned.slots, r.sh.buffers[c]), buffers := r.sh.buffers[c := []]);
    FlushFinally(r, c, sh.(recorded := r.sh.recorded - {c}));
    FlushOnce(r, c, 3, r.sh, FCheck, r.sh, FLock);
    FlushOnce(r, c, 2, r.sh, FLock, Acquire(r.sh, f), FBatch);
    FlushOnce(r, c, 1, Acquire(r.sh, f), FBatch, Acquire(sh, f), FUnlock);
    FlushOnce(r, c, 0, Acquire(sh, f), FUnlock, sh.(recorded := r.sh.recorded - {c}), FDone);
  }

  lemma BeforeFlush(r: Row, c: nat)
    requires Inv(r) && Enabled(r, Flusher(c))
    ensures |r.sh.buffers| == WIDTH && c < WIDTH && c in r.fpc && GcOk(r.sh, Base(r.epoch))
    ensures r.sh.cnt == 0 ==> r.sh.holder == None
  {
    hide Inv, LockOk, OrderOk, BuffersOk, OldOk, ContentOk, HandlesOk, HeapOk, GcOk, Base;
    Parts(r);
    LockIsFree(r);
    CollectSucceeds(r.sh, Base(r.epoch), r.base);
  }

  lemma BatchCleans(sh: Shared, c: nat, x: int)
    requires c < |sh.buffers| && GcOk(sh, x)
    ensures var cleaned := Cleaned(sh, x);
      && cleaned == sh.(slots := cleaned.slots, heap := cleaned.heap, deleted := cleaned.deleted)
      && CaracalRow.BatchAppend(Acquire(sh, Flusher(c)), c, x)
         == Acquire(cleaned.(slots := InsertAll(cleaned.slots, sh.buffers[c]), buffers := sh.buffers[c := []]), Flusher(c))
  {
    hide InsertAll, MinorGc, Dropped;
  }

  lemma FlushFinally(r: Row, c: nat, sh: Shared)
    requires c in r.fpc
    ensures FlushAt(r, c, r.sh, r.fpc[c]) == r
    ensures Alone(FlushAt(r, c, sh, FDone), Flusher(c), 0) == r.(sh := sh, fpc := r.fpc[c := FDone])
  {
    assert r.fpc[c := r.fpc[c]] == r.fpc;
  }

  // ---------- whole runs ----------

  /** The move is an append that finds the lock taken. */
  predicate FindsLockTaken(r: Row, m: Move) {
    m.Act? && m.a.Appender? && m.a.serial in r.apc && r.apc[m.a.serial].ATryLock? && r.sh.cnt != 0
  }

  lemma ContendedMove(w: seq<seq<Tx>>, k: Key, r: Row, m: Move)
    requires CanMove(w, r, m)
    ensures Make(w, k, r, m).sh.contended <==> r.sh.contended || FindsLockTaken(r, m)
  {
    hide EarlierDone, CoreDone, AppendStep, FlushStep, ReaderStep, WriterStep, Advance, PhaseDone;
    match m
    case Act(Appender(s)) => ContendedAppendStep(r.epoch, r.cap, s, r.apc[s], r.sh);
    case Act(Flusher(c)) => ContendedFlushStep(r.epoch, c, r.fpc[c], r.sh);
    case Act(Reader(s)) => ContendedReaderStep(r.epoch, s, r.rpc[s], r.sh);
    case Act(Writer(s)) => ContendedWriterStep(r.epoch, s, r.wpc[s], r.sh);
    case Barrier => SameShared(r, WriterSet(TxsAt(w, r.epoch + 1), k), ReaderSet(TxsAt(w, r.epoch + 1), k));
  }

  lemma ContendedAppendStep(epoch: nat, cap: nat, s: nat, pc: AppendPc, sh: Shared)
    requires |sh.buffers| == WIDTH && s < EPOCH_SIZE
    ensures AppendStep(epoch, cap, s, pc, sh).0.contended <==> sh.contended || (pc.ATryLock? && sh.cnt != 0)
  {
    hide GcOk, MinorGc, Dropped, InsertAll, Insert;
  }

  lemma ContendedFlushStep(epoch: nat, core: nat, pc: FlushPc, sh: Shared)
    requires |sh.buffers| == WIDTH && core < WIDTH
    ensures FlushStep(epoch, core, pc, sh).0.contended == sh.contended
  {
    hide GcOk, MinorGc, Dropped, InsertAll;
  }

  lemma ContendedReaderStep(epoch: nat, s: nat, pc: ReaderPc, sh: Shared)
    requires s < EPOCH_SIZE
    ensures ReaderStep(epoch, s, pc, sh).0.contended == sh.contended
  {
    hide LowerBound, HasOlder;
  }

  lemma ContendedWriterStep(epoch: nat, s: nat, pc: WriterPc, sh: Shared)
    ensures WriterStep(epoch, s, pc, sh).0.contended == sh.contended
  {
  }

  lemma {:induction false} Crowding(w: seq<seq<Tx>>, k: Key, r: Row, moves: seq<Move>) returns (n: nat)
    requires IsRun(w, k, r, moves) && !r.sh.contended && After(w, k, r, moves).sh.contended
    ensures n < |moves| && IsRun(w, k, r, moves[..n]) && FindsLockTaken(After(w, k, r, moves[..n]), moves[n])
    decreases |moves|
  {
    hide CanMove, Make, FindsLockTaken;
    ContendedMove(w, k, r, moves[0]);
    if FindsLockTaken(r, moves[0]) {
      n := 0;
    } else {
      var m := Crowding(w, k, Make(w, k, r, moves[0]), moves[1..]);
      n := m + 1;
      assert moves[..n][1..] == moves[1..][..m];
    }
  }

  /** In every run a row has buffers only because some append has found the row's lock taken. */
  lemma BuffersMeanContention(w: seq<seq<Tx>>, db: set<Key>, k: Key, cap: nat, moves: seq<Move>) returns (n: nat)
    requires Good(w, db) && k in db && |w| + 1 < LOW && cap >= 1 && IsRun(w, k, Start(w, k, cap), moves)
    requires After(w, k, Start(w, k, cap), moves).sh.installed
    ensures n < |moves| && IsRun(w, k, Start(w, k, cap), moves[..n])
    ensures FindsLockTaken(After(w, k, Start(w, k, cap), moves[..n]), moves[n])
  {
    hide Inv, Good, Start, IsRun, After, FindsLockTaken, SerialStore;
    StartInv(w, db, k, cap);
    RunKeepsInv(w, db, k, Start(w, k, cap), moves);
    InstalledIsContended(After(w, k, Start(w, k, cap), moves));
    StartUncontended(w, k, cap);
    n := Crowding(w, k, Start(w, k, cap), moves);
  }

  lemma InstalledIsContended(r: Row)
    requires Inv(r) && r.sh.installed
    ensures r.sh.contended
  {
    hide Shape, LockOk, OrderOk, OldOk, ContentOk, HandlesOk, HeapOk, ReadersOk;
  }

  lemma StartUncontended(w: seq<seq<Tx>>, k: Key, cap: nat)
    ensures !Start(w, k, cap).sh.contended
  {
  }

  /** Whatever moves are made on a row that the epoch does not write, the row's data stay as they are. */
  lemma UnwrittenMove(w: seq<seq<Tx>>, k: Key, r: Row, m: Move)
    requires Inv(r) && r.apc.Keys == {} && CanMove(w, r, m)
    ensures Make(w, k, r, m).sh == r.sh
  {
    hide Inv, Advance, PhaseDone, Step;
    match m
    case Act(a) => UnwrittenStep(r, a);
    case Barrier => SameShared(r, WriterSet(TxsAt(w, r.epoch + 1), k), ReaderSet(TxsAt(w, r.epoch + 1), k));
  }

  lemma UnwrittenStep(r: Row, a: Actor)
    requires Inv(r) && r.apc.Keys == {} && Enabled(r, a)
    ensures Step(r, a).sh == r.sh
  {
    hide Inv, EarlierDone, CoreDone, ReaderStep;
    match a
    case Appender(s) => NobodyAppends(r, s);
    case Flusher(c) =>
      NobodyRecorded(r);
      UnrecordedFlush(r, c);
    case Reader(s) => ReadChangesNothing(r, s);
    case Writer(s) => NoWriter(r, s);
  }

  lemma NobodyAppends(r: Row, s: nat)
    requires r.apc.Keys == {}
    ensures s !in r.apc
  {
    assert s !in r.apc.Keys;
  }

  lemma NobodyRecorded(r: Row)
    requires Inv(r) && r.apc.Keys == {}
    ensures r.sh.recorded == {}
  {
    hide Shape, LockOk, OrderOk, OldOk, ContentOk, HandlesOk, HeapOk, ReadersOk;
    forall c ensures c !in r.sh.recorded { assert forall s :: s in r.apc ==> s in r.apc.Keys; }
  }

  lemma ReadChangesNothing(r: Row, s: nat)
    requires Inv(r) && Enabled(r, Reader(s))
    ensures Step(r, Reader(s)).sh == r.sh
  {
    hide Inv, LowerBound, Outcome, TagOf, HasOlder, Pack, Shape, OldOk, ContentOk, HandlesOk, HeapOk, ReadersOk, ReaderOk;
    SearchSucceeds(r, s);
    ExecParts(r);
    FoundContent(r, s);
    OneReader(r, s);
    ReadOk(r.sh, r.apc.Keys, r.epoch, r.base, s, r.rpc[s]);
  }

  lemma NoWriter(r: Row, s: nat)
    requires Inv(r) && r.phase.ExecPhase? && s in r.wpc
    ensures s in r.apc.Keys
  {
    hide LockOk, OrderOk, OldOk, ContentOk, HandlesOk, HeapOk, BuffersOk, ReadersOk;
  }

  /** The barriers touch no row data. */
  lemma SameShared(r: Row, writers: set<nat>, readers: set<nat>)
    requires PhaseDone(r)
    ensures Advance(r, writers, readers).sh == r.sh
  {
    hide AllAt;
  }

  lemma EpochsGoUp(w: seq<seq<Tx>>, k: Key, r: Row, m: Move)
    requires CanMove(w, r, m)
    ensures Make(w, k, r, m).epoch == if m.Barrier? && r.phase.ExecPhase? then r.epoch + 1 else r.epoch
    ensures Make(w, k, r, m).epoch == r.epoch ==> Make(w, k, r, m).apc.Keys == r.apc.Keys
  {
    hide Step, Enabled, PhaseDone, AllAt;
    if m.Act? { StepFrame(r, m.a); }
  }

  lemma {:induction false} EpochNeverFalls(w: seq<seq<Tx>>, k: Key, r: Row, moves: seq<Move>)
    requires IsRun(w, k, r, moves)
    ensures r.epoch <= After(w, k, r, moves).epoch
    decreases |moves|
  {
    hide CanMove, Make;
    if moves != [] {
      EpochsGoUp(w, k, r, moves[0]);
      EpochNeverFalls(w, k, Make(w, k, r, moves[0]), moves[1..]);
    }
  }

  /**
    An epoch that does not write the row leaves it untouched: array, buffers, versions and counters are at every
    later point of the epoch what they were, so also nothing is collected, however much the row would have to give.
   */
  lemma {:induction false} UnwrittenRowIsUntouched(w: seq<seq<Tx>>, db: set<Key>, k: Key, r: Row, moves: seq<Move>)
    requires Good(w, db) && k in db && |w| + 1 < LOW && RunInv(w, db, k, r) && IsRun(w, k, r, moves)
    requires WriterSet(TxsAt(w, r.epoch), k) == {} && After(w, k, r, moves).epoch == r.epoch
    ensures After(w, k, r, moves).sh == r.sh
    decreases |moves|
  {
    hide Inv, Good, CanMove, Make, SerialStore;
    if moves != [] {
      var r' := Make(w, k, r, moves[0]);
      UnwrittenMove(w, k, r, moves[0]);
      EpochsGoUp(w, k, r, moves[0]);
      EpochNeverFalls(w, k, r', moves[1..]);
      MakeKeepsInv(w, db, k, r, moves[0]);
      UnwrittenRowIsUntouched(w, db, k, r', moves[1..]);
    }
  }
}
