/**
  One row of the Cheetah protocol as a transition system
  (protocols/cheetah/include/rw_bitmaps.hpp, protocols/cheetah/include/cheetah.hpp).

  The actors of an epoch are the cores that registered writes of the row (write phase), the reads
  of the row (read phase and execution phase) and its writes (execution phase).  Every atomic
  access of the source - compare-and-swap, fetch-and-add, load, store - and every acquire and
  release of the row's lock is a step of its own, and so is every release of memory.  Statements
  under the lock that touch only what the lock protects are taken together.

  `fault` becomes true when an assertion of the source fails or when a version that has been
  deleted is touched.
 */
module CheetahRow {
  import opened Bits
  import opened TwoLevelBitmap
  import opened Versions

  datatype Actor = Core(core: nat) | Reader(serial: nat) | Writer(serial: nat)

  /** What the lock and the phases protect, the heap of versions, and the Create/Delete counters. */
  datatype Memory = Memory(
    bits: TwoLevel,
    placeholders: map<nat, VersionId>,
    master: Option<VersionId>,
    previous: Option<VersionId>,
    heap: map<VersionId, Version>,
    created: nat,
    deleted: nat)

  /** `holder` is a history variable that no step reads: who took the lock. */
  datatype Shared = Shared(refCnt: int, cnt: int, mem: Memory, fault: bool, holder: Option<Actor>)

  // finalize_update_write_bitmaps, for one row
  datatype CorePc = CTryLock | CUpdate | CUnlock | CDone

  // append_pending_version, then read
  datatype ReaderPc =
    | RFetchAdd
    | RSecondAdd
    | RLookup
    | RLock(id: nat)
    | RPlace(id: nat)
    | RUnlock(v: VersionId)
    | RReady(v: VersionId)
    | RLoaded(v: VersionId)
    | RRead(v: VersionId, rec: Option<Tag>)
    | RFinalLock(rec: Option<Tag>)
    | RFinalPrevious(rec: Option<Tag>)
    | RFinalPlaceholders(rec: Option<Tag>)
    | RFinalSub(rec: Option<Tag>)
    | RFinalUnlock(rec: Option<Tag>)
    | RDone(rec: Option<Tag>)

  // upsert, with identify_write_version
  datatype WriterPc =
    | WLock
    | WFind
    | WLoadRef(v: VersionId)
    | WGcMaster(v: VersionId)
    | WStash(v: VersionId)
    | WAssign(v: VersionId)
    | WUnlock(res: Option<VersionId>)
    | WStoreRec(v: VersionId)
    | WStoreStatus(v: VersionId)
    | WDone(elided: bool)

  // ---------- pieces of the steps ----------

  function Fault(sh: Shared): Shared {
    sh.(fault := true)
  }

  function Check(sh: Shared, assertion: bool): Shared {
    if assertion then sh else Fault(sh)
  }

  function Acquire(sh: Shared, a: Actor): Shared {
    sh.(cnt := -1, holder := Some(a))
  }

  function Release(sh: Shared): Shared {
    sh.(cnt := sh.cnt + 1, holder := None)
  }

  function NewId(mem: Memory): VersionId {
    mem.created + 1
  }

  /** create_pending_version */
  function Create(mem: Memory): Memory {
    mem.(heap := mem.heap[NewId(mem) := Version(None, Pending)], created := mem.created + 1)
  }

  predicate IsStable(mem: Memory, v: VersionId) {
    v in mem.heap && mem.heap[v].status == Stable
  }

  /** gc */
  function Free(mem: Memory, v: VersionId): Memory {
    mem.(heap := mem.heap - {v}, deleted := mem.deleted + 1)
  }

  /** gc of every version in placeholders_, which is then cleared. */
  function FreePlaceholders(mem: Memory): Memory {
    mem.(heap := mem.heap - mem.placeholders.Values,
         deleted := mem.deleted + |mem.placeholders|,
         placeholders := map[])
  }

  /** The placeholders can be freed: each is live and STABLE, and none is there twice. */
  predicate CanFreePlaceholders(mem: Memory) {
    && (forall k :: k in mem.placeholders ==> IsStable(mem, mem.placeholders[k]))
    && |mem.placeholders.Values| == |mem.placeholders|
  }

  // ---------- the steps ----------

  function CoreStep(core: nat, tx_bitmap: Word, pc: CorePc, sh: Shared): (Shared, CorePc) {
    var mem := sh.mem;
    match pc
    case CTryLock => (Acquire(sh, Core(core)), CUpdate)
    case CUpdate =>
      if core < WIDTH && tx_bitmap != Zero() && CountPrefixSum(mem.bits, core) <= |mem.bits.txs|
         && !IsBitSet(mem.bits.core, core)
      then (sh.(mem := mem.(bits := Update(mem.bits, core, tx_bitmap))), CUnlock)
      else (Fault(sh), CUnlock)
    case CUnlock => (Release(sh), CDone)
    case CDone => (sh, pc)
  }

  /** The master version is handed out; the source asserts that it exists and is STABLE. */
  function TakeMaster(sh: Shared): (Shared, ReaderPc) {
    if sh.mem.master.Some? && IsStable(sh.mem, sh.mem.master.value)
    then (sh, RReady(sh.mem.master.value))
    else (Fault(sh), RReady(0))
  }

  function Lookup(s: nat, sh: Shared): (Shared, ReaderPc) {
    if sh.mem.bits.core == Zero() then
      TakeMaster(Check(sh, sh.mem.placeholders == map[]))
    else if s < EPOCH_SIZE && WellFormed(sh.mem.bits) then
      var (found, c, t) := IdentifyVisible(sh.mem.bits, s / WIDTH, s % WIDTH);
      if found then (sh, RLock(c * WIDTH + t)) else TakeMaster(sh)
    else (Fault(sh), RReady(0))
  }

  function ReaderStep(s: nat, pc: ReaderPc, sh: Shared): (Shared, ReaderPc) {
    var mem := sh.mem;
    match pc
    case RFetchAdd =>
      (sh.(refCnt := sh.refCnt + 1), if sh.refCnt == 0 then RSecondAdd else RLookup)
    case RSecondAdd => (sh.(refCnt := sh.refCnt + 1), RLookup)
    case RLookup => Lookup(s, sh)
    case RLock(id) => (Acquire(sh, Reader(s)), RPlace(id))
    case RPlace(id) =>
      if id in mem.placeholders then (sh, RUnlock(mem.placeholders[id]))
      else (sh.(mem := Create(mem).(placeholders := mem.placeholders[id := NewId(mem)])), RUnlock(NewId(mem)))
    case RUnlock(v) => (Release(sh), RReady(v))
    // wait_stable_and_execute_read: the spin ends when the status is STABLE
    case RReady(v) => (Check(sh, v in mem.heap), RLoaded(v))
    case RLoaded(v) =>
      if v in mem.heap then (sh, RRead(v, mem.heap[v].rec)) else (Fault(sh), RRead(v, None))
    // decrement_ref_cnt
    case RRead(v, rec) =>
      (Check(sh, 0 < sh.refCnt).(refCnt := sh.refCnt - 1),
       if sh.refCnt - 1 == 1 then RFinalLock(rec) else RDone(rec))
    case RFinalLock(rec) => (Acquire(sh, Reader(s)), RFinalPrevious(rec))
    case RFinalPrevious(rec) =>
      (if mem.previous.None? then sh
       else if IsStable(mem, mem.previous.value) && mem.master.Some?
       then sh.(mem := Free(mem, mem.previous.value).(previous := None))
       else Fault(sh),
       RFinalPlaceholders(rec))
    case RFinalPlaceholders(rec) =>
      (if CanFreePlaceholders(mem) then sh.(mem := FreePlaceholders(mem)) else Fault(sh), RFinalSub(rec))
    case RFinalSub(rec) =>
      (Check(sh, mem.previous.None? && mem.placeholders == map[] && 0 < sh.refCnt).(refCnt := sh.refCnt - 1),
       RFinalUnlock(rec))
    case RFinalUnlock(rec) => (Release(sh), RDone(rec))
    case RDone(_) => (sh, pc)
  }

  /** Under the lock: look the serial id up, decide whether this is the final write, take or create its version. */
  function Find(s: nat, sh: Shared): (Shared, WriterPc) {
    var mem := sh.mem;
    if s < EPOCH_SIZE && WellFormed(mem.bits) then
      if IsFinalState(mem.bits, s / WIDTH, s % WIDTH) then
        if s in mem.placeholders
        then (sh.(mem := mem.(placeholders := mem.placeholders - {s})), WLoadRef(mem.placeholders[s]))
        else (sh.(mem := Create(mem)), WLoadRef(NewId(mem)))
      else if s in mem.placeholders then (sh, WUnlock(Some(mem.placeholders[s])))
      else (sh, WUnlock(None))
    else (Fault(sh), WUnlock(None))
  }

  function WriterStep(epoch: nat, s: nat, pc: WriterPc, sh: Shared): (Shared, WriterPc) {
    var mem := sh.mem;
    match pc
    case WLock => (Acquire(sh, Writer(s)), WFind)
    case WFind => Find(s, sh)
    case WLoadRef(v) => (sh, if sh.refCnt == 0 then WGcMaster(v) else WStash(v))
    case WGcMaster(v) =>
      (if mem.master.Some? && IsStable(mem, mem.master.value) && mem.placeholders == map[]
       then sh.(mem := Free(mem, mem.master.value).(master := None))
       else Fault(sh),
       WAssign(v))
    case WStash(v) => (sh.(mem := mem.(previous := mem.master)), WAssign(v))
    case WAssign(v) => (sh.(mem := mem.(master := Some(v), bits := EMPTY)), WUnlock(Some(v)))
    case WUnlock(res) =>
      (Release(sh), match res case Some(v) => WStoreRec(v) case None => WDone(true))
    case WStoreRec(v) =>
      (if v in mem.heap
       then sh.(mem := mem.(heap := mem.heap[v := mem.heap[v].(rec := Some(Written(epoch, s)))]))
       else Fault(sh),
       WStoreStatus(v))
    case WStoreStatus(v) =>
      (if v in mem.heap
       then sh.(mem := mem.(heap := mem.heap[v := mem.heap[v].(status := Stable)]))
       else Fault(sh),
       WDone(false))
    case WDone(_) => (sh, pc)
  }

  // ---------- the row ----------

  datatype Phase = WritePhase | ReadPhase | ExecPhase

  /** What an epoch does to the row: each writing core's transaction bitmap, and the readers. */
  datatype Work = Work(cores: map<nat, Word>, readers: set<nat>)

  /** `base` and `baseId` record the content and identity of the master version when the epoch began. */
  datatype Row = Row(
    epoch: nat,
    phase: Phase,
    work: Work,
    base: Tag,
    baseId: VersionId,
    sh: Shared,
    cpc: map<nat, CorePc>,
    rpc: map<nat, ReaderPc>,
    wpc: map<nat, WriterPc>)

  predicate GoodWork(work: Work) {
    && (forall c :: c in work.cores ==> c < WIDTH && work.cores[c] != Zero())
    && (forall s :: s in work.readers ==> s < EPOCH_SIZE)
  }

  ghost function Writers(work: Work): set<nat> {
    Serials(work.cores)
  }

  predicate ReadPhasePc(pc: ReaderPc) {
    pc.RFetchAdd? || pc.RSecondAdd? || pc.RLookup? || pc.RLock? || pc.RPlace? || pc.RUnlock?
  }

  /** Lock acquisitions wait for a free lock, and a reader waits while its version is PENDING. */
  predicate Enabled(r: Row, a: Actor) {
    match a
    case Core(c) =>
      r.phase.WritePhase? && c in r.cpc && c in r.work.cores && !r.cpc[c].CDone?
      && (r.cpc[c].CTryLock? ==> r.sh.cnt == 0)
    case Reader(s) =>
      s in r.rpc && !r.rpc[s].RDone?
      && r.phase == (if ReadPhasePc(r.rpc[s]) then ReadPhase else ExecPhase)
      && (r.rpc[s].RLock? || r.rpc[s].RFinalLock? ==> r.sh.cnt == 0)
      && (r.rpc[s].RReady? && r.rpc[s].v in r.sh.mem.heap ==> IsStable(r.sh.mem, r.rpc[s].v))
    case Writer(s) =>
      r.phase.ExecPhase? && s in r.wpc && !r.wpc[s].WDone?
      && (r.wpc[s].WLock? ==> r.sh.cnt == 0)
  }

  function Step(r: Row, a: Actor): Row
    requires Enabled(r, a)
  {
    match a
    case Core(c) =>
      var (sh, pc) := CoreStep(c, r.work.cores[c], r.cpc[c], r.sh);
      r.(sh := sh, cpc := r.cpc[c := pc])
    case Reader(s) =>
      var (sh, pc) := ReaderStep(s, r.rpc[s], r.sh);
      r.(sh := sh, rpc := r.rpc[s := pc])
    case Writer(s) =>
      var (sh, pc) := WriterStep(r.epoch, s, r.wpc[s], r.sh);
      r.(sh := sh, wpc := r.wpc[s := pc])
  }

  predicate PhaseDone(r: Row) {
    match r.phase
    case WritePhase => forall c :: c in r.cpc ==> r.cpc[c].CDone?
    case ReadPhase => forall s :: s in r.rpc ==> r.rpc[s].RReady?
    case ExecPhase =>
      && (forall s :: s in r.rpc ==> r.rpc[s].RDone?)
      && (forall s :: s in r.wpc ==> r.wpc[s].WDone?)
  }

  ghost function StartEpoch(epoch: nat, work: Work, base: Tag, baseId: VersionId, sh: Shared): Row {
    Row(epoch, WritePhase, work, base, baseId, sh,
        AllAt(work.cores.Keys, CTryLock), AllAt(work.readers, RFetchAdd), AllAt(Writers(work), WLock))
  }

  /** The row as the loader leaves it: one STABLE master version. */
  ghost function Initial(work: Work): Row {
    StartEpoch(0, work, Loaded, 0,
      Shared(0, 0, Memory(EMPTY, map[], Some(0), None, map[0 := Version(Some(Loaded), Stable)], 0, 0), false, None))
  }

  /** The barrier: everyone has finished the phase; `next` is the work of the following epoch. */
  ghost function Advance(r: Row, next: Work): Row
    requires PhaseDone(r)
  {
    match r.phase
    case WritePhase => r.(phase := ReadPhase)
    case ReadPhase => r.(phase := ExecPhase)
    case ExecPhase =>
      var mem := r.sh.mem;
      var m := if mem.master.Some? then mem.master.value else 0;
      var base := if m in mem.heap && mem.heap[m].rec.Some? then mem.heap[m].rec.value else Loaded;
      StartEpoch(r.epoch + 1, next, base, m, r.sh)
  }
}
