/**
  One row of the Caracal protocol as a transition system
  (protocols/caracal/include/caracal.hpp, protocols/caracal/include/row_buffer.hpp).

  In the initialization phase the writes of the row are appended, by the worker that the serial id is
  assigned to, either to the row's sorted version array under its lock or to the worker's own buffer,
  and then every worker flushes its buffer.  In the execution phase reads search the array and writes
  fill their versions.  Loads, compare-and-swaps and lock operations are steps of their own; what runs
  under the lock or on a worker's own buffer is taken together.

  `fault` becomes true when an assertion of the source fails or a deleted version is touched.
 */
module CaracalRow {
  import opened Bits
  import opened TwoLevelBitmap
  import opened Versions
  import opened SortedSlots

  // ---------- global ids ----------

  const LOW: nat := 0x1_0000_0000
  const FULL: nat := 0x1_0000_0000_0000_0000

  /** `epoch << 32 | serial` on 64-bit words, for a serial id that fits 32 bits. */
  function Pack(epoch: nat, serial: nat): nat
    requires serial < LOW
  {
    (epoch * LOW) % FULL + serial
  }

  function PackedEpoch(id: nat): nat {
    id / LOW
  }

  function PackedSerial(id: nat): nat {
    id % LOW
  }

  /** The first id of epoch `e` of the workload, which is the source's epoch `e + 1`; the loader's id is 0. */
  function Base(e: nat): nat {
    Pack(e + 1, 0)
  }

  // ---------- the row ----------

  datatype Actor = Appender(serial: nat) | Flusher(core: nat) | Reader(serial: nat) | Writer(serial: nat)

  /** `owner` is a history variable that no step reads: the global id the version was created for. */
  datatype Cell = Cell(rec: Option<Tag>, status: Status, owner: int)

  /**
    `recorded` are the workers whose appended_core_buffers_ has this row.  `holder` and `contended` are history
    variables that no step reads: who took the lock, and whether an append has ever found it taken.
   */
  datatype Shared = Shared(
    slots: seq<Slot>,
    cnt: int,
    installed: bool,
    buffers: seq<seq<Slot>>,
    recorded: set<nat>,
    heap: map<VersionId, Cell>,
    created: nat,
    deleted: nat,
    fault: bool,
    holder: Option<Actor>,
    contended: bool)

  // do_append_pending_version
  datatype AppendPc =
    | ALoad
    | ATryLock
    | AInsert
    | AUnlock(v: VersionId)
    | AInstall
    | ABuffer
    | AFullLock(v: VersionId)
    | AFullBatch(v: VersionId)
    | AFullUnlock(v: VersionId)
    | ADone(v: VersionId)

  // finalize_batch_append
  datatype FlushPc = FCheck | FLock | FBatch | FUnlock | FDone

  datatype ReaderPc = RSearch | RWait(v: VersionId) | RLoad(v: VersionId) | RDone(rec: Option<Tag>)

  // upsert
  datatype WriterPc = WStoreRec(v: VersionId) | WStoreStatus(v: VersionId) | WDone(v: VersionId)

  function Fault(sh: Shared): Shared {
    sh.(fault := true)
  }

  function Check(sh: Shared, assertion: bool): Shared {
    if assertion then sh else Fault(sh)
  }

  function Acquire(sh: Shared, a: Actor): Shared {
    sh.(cnt := -1, holder := Some(a))
  }

  function Release(sh: Shared): Shared {
    sh.(cnt := sh.cnt + 1, holder := None)
  }

  function NewId(sh: Shared): VersionId {
    sh.created + 1
  }

  /** create_pending_version, for the write with global id `id`. */
  function Create(sh: Shared, id: int): Shared {
    sh.(heap := sh.heap[NewId(sh) := Cell(None, Pending, id)], created := sh.created + 1)
  }

  // ---------- garbage collection ----------

  /** is_exist_visible_version */
  predicate HasOlder(a: seq<Slot>, x: int) {
    x == 0 || exists i :: 0 <= i < |a| && a[i].id < x
  }

  /** minor_gc: drop the first entry as long as the second one is older than the epoch, too. */
  function MinorGc(a: seq<Slot>, x: int): seq<Slot>
  {
    if |a| > 1 && a[1].id < x then MinorGc(a[1..], x) else a
  }

  /** The versions that the loop deletes, in order. */
  function Dropped(a: seq<Slot>, x: int): seq<VersionId> {
    if |a| > 1 && a[1].id < x then [a[0].v] + Dropped(a[1..], x) else []
  }

  predicate CanDelete(sh: Shared, v: VersionId) {
    v in sh.heap && sh.heap[v].status == Stable && sh.heap[v].rec.Some?
  }

  predicate GcOk(sh: Shared, x: int) {
    && sh.slots != []
    && HasOlder(sh.slots, x)
    && (forall v :: v in Dropped(sh.slots, x) ==> CanDelete(sh, v))
    && (forall i, j :: 0 <= i < j < |Dropped(sh.slots, x)| ==> Dropped(sh.slots, x)[i] != Dropped(sh.slots, x)[j])
  }

  function Collect(sh: Shared, x: int): Shared {
    if GcOk(sh, x) then
      var gone := Dropped(sh.slots, x);
      sh.(slots := MinorGc(sh.slots, x),
          heap := sh.heap - AsSet(gone),
          deleted := sh.deleted + |gone|)
    else Fault(sh)
  }

  /** batch_append */
  function BatchAppend(sh: Shared, core: nat, x: int): Shared
    requires core < |sh.buffers|
  {
    var sh' := Collect(sh, x);
    sh'.(slots := InsertAll(sh'.slots, sh'.buffers[core]), buffers := sh'.buffers[core := []])
  }

  // ---------- the steps ----------

  /** appendable, on the worker's own buffer; the buffer must exist and must not be full already. */
  function Buffer(sh: Shared, cap: nat, core: nat, id: int): (Shared, AppendPc)
    requires core < |sh.buffers|
  {
    var v := NewId(sh);
    var sh' := Check(Create(sh, id), sh.installed && |sh.buffers[core]| < cap);
    var buffer := Insert(sh.buffers[core], Slot(id, v));
    var sh'' := sh'.(buffers := sh'.buffers[core := buffer]);
    if |buffer| < cap then (sh''.(recorded := sh''.recorded + {core}), ADone(v))
    else (sh'', AFullLock(v))
  }

  function AppendStep(epoch: nat, cap: nat, s: nat, pc: AppendPc, sh: Shared): (Shared, AppendPc)
    requires |sh.buffers| == WIDTH && s < EPOCH_SIZE
  {
    var x := Base(epoch);
    match pc
    case ALoad => (sh, if sh.installed then ABuffer else ATryLock)
    case ATryLock => if sh.cnt == 0 then (Acquire(sh, Appender(s)), AInsert) else (sh.(contended := true), AInstall)
    case AInsert =>
      var v := NewId(sh);
      var sh' := Collect(Create(sh, Pack(epoch + 1, s)), x);
      (sh'.(slots := Insert(sh'.slots, Slot(Pack(epoch + 1, s), v))), AUnlock(v))
    case AUnlock(v) => (Release(sh), ADone(v))
    // the compare-and-swap: whoever wins, the row has a buffer afterwards
    case AInstall => (sh.(installed := true), ABuffer)
    case ABuffer => Buffer(sh, cap, s % WIDTH, Pack(epoch + 1, s))
    case AFullLock(v) => (Acquire(sh, Appender(s)), AFullBatch(v))
    case AFullBatch(v) => (BatchAppend(sh, s % WIDTH, x), AFullUnlock(v))
    case AFullUnlock(v) => (Release(sh), ADone(v))
    case ADone(_) => (sh, pc)
  }

  function FlushStep(epoch: nat, core: nat, pc: FlushPc, sh: Shared): (Shared, FlushPc)
    requires |sh.buffers| == WIDTH && core < WIDTH
  {
    match pc
    case FCheck => (sh, if core in sh.recorded then FLock else FDone)
    case FLock => (Acquire(sh, Flusher(core)), FBatch)
    case FBatch => (BatchAppend(sh, core, Base(epoch)), FUnlock)
    case FUnlock => (Release(sh).(recorded := sh.recorded - {core}), FDone)
    case FDone => (sh, pc)
  }

  function ReaderStep(epoch: nat, s: nat, pc: ReaderPc, sh: Shared): (Shared, ReaderPc)
    requires s < EPOCH_SIZE
  {
    match pc
    case RSearch =>
      var id := Pack(epoch + 1, s);
      var p := LowerBound(sh.slots, id);
      if HasOlder(sh.slots, id) && p > 0 then (sh, RWait(sh.slots[p - 1].v)) else (Fault(sh), RWait(0))
    case RWait(v) => (Check(sh, v in sh.heap), RLoad(v))
    case RLoad(v) => if v in sh.heap then (sh, RDone(sh.heap[v].rec)) else (Fault(sh), RDone(None))
    case RDone(_) => (sh, pc)
  }

  function WriterStep(epoch: nat, s: nat, pc: WriterPc, sh: Shared): (Shared, WriterPc) {
    match pc
    case WStoreRec(v) =>
      (if v in sh.heap
       then sh.(heap := sh.heap[v := sh.heap[v].(rec := Some(Written(epoch, s)))])
       else Fault(sh),
       WStoreStatus(v))
    case WStoreStatus(v) =>
      (if v in sh.heap then sh.(heap := sh.heap[v := sh.heap[v].(status := Stable)]) else Fault(sh), WDone(v))
    case WDone(_) => (sh, pc)
  }

  // ---------- runs ----------

  datatype Phase = InitPhase | ExecPhase

  /** `base` is a history variable: the array's last entry when the epoch began. `cap` is the capacity of a buffer. */
  datatype Row = Row(
    epoch: nat,
    phase: Phase,
    cap: nat,
    base: Slot,
    sh: Shared,
    apc: map<nat, AppendPc>,
    fpc: map<nat, FlushPc>,
    rpc: map<nat, ReaderPc>,
    wpc: map<nat, WriterPc>)

  /** A worker appends in ascending order of serial id: everything before `s` on the same worker is done. */
  predicate EarlierDone(apc: map<nat, AppendPc>, s: nat) {
    forall t :: t in apc && t < s && t % WIDTH == s % WIDTH ==> apc[t].ADone?
  }

  predicate CoreDone(apc: map<nat, AppendPc>, core: nat) {
    forall t :: t in apc && t % WIDTH == core ==> apc[t].ADone?
  }

  predicate Enabled(r: Row, a: Actor) {
    && |r.sh.buffers| == WIDTH
    && match a
       case Appender(s) =>
         r.phase.InitPhase? && s < EPOCH_SIZE && s in r.apc && !r.apc[s].ADone? && EarlierDone(r.apc, s)
         && (r.apc[s].AFullLock? ==> r.sh.cnt == 0)
       case Flusher(c) =>
         r.phase.InitPhase? && c < WIDTH && c in r.fpc && !r.fpc[c].FDone? && CoreDone(r.apc, c)
         && (r.fpc[c].FLock? ==> r.sh.cnt == 0)
       case Reader(s) =>
         r.phase.ExecPhase? && s < EPOCH_SIZE && s in r.rpc && !r.rpc[s].RDone?
         && (r.rpc[s].RWait? && r.rpc[s].v in r.sh.heap ==> r.sh.heap[r.rpc[s].v].status == Stable)
       case Writer(s) => r.phase.ExecPhase? && s in r.wpc && !r.wpc[s].WDone?
  }

  function Step(r: Row, a: Actor): Row
    requires Enabled(r, a)
  {
    match a
    case Appender(s) =>
      var (sh, pc) := AppendStep(r.epoch, r.cap, s, r.apc[s], r.sh);
      r.(sh := sh, apc := r.apc[s := pc])
    case Flusher(c) =>
      var (sh, pc) := FlushStep(r.epoch, c, r.fpc[c], r.sh);
      r.(sh := sh, fpc := r.fpc[c := pc])
    case Reader(s) =>
      var (sh, pc) := ReaderStep(r.epoch, s, r.rpc[s], r.sh);
      r.(sh := sh, rpc := r.rpc[s := pc])
    case Writer(s) =>
      var (sh, pc) := WriterStep(r.epoch, s, r.wpc[s], r.sh);
      r.(sh := sh, wpc := r.wpc[s := pc])
  }

  predicate PhaseDone(r: Row) {
    match r.phase
    case InitPhase =>
      && (forall s :: s in r.apc ==> r.apc[s].ADone?)
      && (forall c :: c in r.fpc ==> r.fpc[c].FDone?)
    case ExecPhase =>
      && (forall s :: s in r.rpc ==> r.rpc[s].RDone?)
      && (forall s :: s in r.wpc ==> r.wpc[s].WDone?)
  }

  predicate IsCore(c: nat) {
    c < WIDTH
  }

  ghost function Cores(): set<nat> {
    set c: nat | c < WIDTH && IsCore(c)
  }

  ghost function StartEpoch(epoch: nat, cap: nat, base: Slot, sh: Shared, writers: set<nat>, readers: set<nat>): Row {
    Row(epoch, InitPhase, cap, base, sh,
        AllAt(writers, ALoad), AllAt(Cores(), FCheck), AllAt(readers, RSearch), AllAt({}, WDone(0)))
  }

  /** The row as the loader creates it: one STABLE version with id 0. */
  ghost function Initial(cap: nat, writers: set<nat>, readers: set<nat>): Row {
    StartEpoch(0, cap, Slot(0, 0),
      Shared([Slot(0, 0)], 0, false, seq(WIDTH, _ => []), {}, map[0 := Cell(Some(Loaded), Stable, 0)], 0, 0, false, None, false),
      writers, readers)
  }

  /** Every writer starts with the version that its append was given. */
  ghost function WritersFrom(apc: map<nat, AppendPc>): (wpc: map<nat, WriterPc>)
    ensures wpc.Keys == apc.Keys
    ensures forall s :: s in apc ==> wpc[s] == WStoreRec(if apc[s].ADone? then apc[s].v else 0)
  {
    WritersExist(apc);
    var wpc: map<nat, WriterPc> :| wpc.Keys == apc.Keys && forall s :: s in apc ==> wpc[s] == WStoreRec(if apc[s].ADone? then apc[s].v else 0);
    wpc
  }

  lemma WritersExist(apc: map<nat, AppendPc>)
    ensures exists wpc: map<nat, WriterPc> ::
      wpc.Keys == apc.Keys && forall s :: s in apc ==> wpc[s] == WStoreRec(if apc[s].ADone? then apc[s].v else 0)
  {
    var wpc := map s | s in apc :: WStoreRec(if apc[s].ADone? then apc[s].v else 0);
    assert wpc.Keys == apc.Keys;
  }

  /** The last entry of the array, which is the row's state for the following epoch. */
  function Last(slots: seq<Slot>): Slot {
    if slots != [] then slots[|slots| - 1] else Slot(0, 0)
  }

  /** The barrier, with the writers and readers of the following epoch. */
  ghost function Advance(r: Row, writers: set<nat>, readers: set<nat>): Row
    requires PhaseDone(r)
  {
    match r.phase
    case InitPhase => r.(phase := ExecPhase, wpc := WritersFrom(r.apc))
    case ExecPhase => StartEpoch(r.epoch + 1, r.cap, Last(r.sh.slots), r.sh, writers, readers)
  }
}
