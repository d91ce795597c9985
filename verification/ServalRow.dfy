/**
  One row of the Serval protocol as a transition system
  (protocols/serval/include/serval.hpp, protocols/serval/include/value.hpp).

  In the initialization phase the writes of the row are appended by the core that the serial id is
  assigned to.  The first one to arrive initializes the row under its lock; an append then goes to the
  global array under the lock, or, once the row is contended, to the core's own array in a row region
  that the first waiting thread installs.  In the execution phase reads look their version up and
  writes fill theirs.  Loads, read-modify-writes and lock operations are steps of their own; what runs
  under the lock, on a core's own array or on a region that no other thread can see yet is taken together.

  `fault` becomes true when an assertion of the source fails or a deleted version is touched.
 */
module ServalRow {
  import opened Bits
  import opened TwoLevelBitmap
  import opened Versions
  import opened SortedSlots
  import opened ServalRegion

  datatype Actor = Appender(serial: nat) | Reader(serial: nat) | Writer(serial: nat)

  /** Which write, or which of the loader's two versions, a version was created for. */
  datatype Owner = LoadedMaster | LoadedEntry | By(epoch: nat, serial: nat)

  /** `owner` is a history variable that no step reads. */
  datatype Cell = Cell(rec: Option<Tag>, status: Status, owner: Owner)

  /**
    `epoch` is the source's val->epoch_.  The others are history variables that no step reads: `holder` took the
    lock; `inits` says how often initialize_the_row has run in the current epoch; `failed` are the writes of this
    epoch whose append has found the lock taken, and `contended` says whether any append of any epoch has.
   */
  datatype Shared = Shared(
    cnt: int,
    epoch: nat,
    master: VersionId,
    slots: seq<Slot>,
    region: Option<Region>,
    heap: map<VersionId, Cell>,
    created: nat,
    deleted: nat,
    fault: bool,
    holder: Option<Actor>,
    inits: nat,
    failed: set<nat>,
    contended: bool)

  // do_append_pending_version: G* is epoch_guard, W* wait_region_installation, R* RowRegion::append
  datatype AppendPc =
    | GLoad
    | GTry
    | GCheck
    | GInit
    | GStore
    | GUnlock
    | ATry
    | ALoadRegion
    | AInsert
    | WLoad
    | WTry
    | WCheck
    | WMove
    | WUnlock
    | RLoad(locked: bool)
    | RGc(locked: bool)
    | ROr(locked: bool)
    | RInsert(locked: bool)
    | AUnlock(v: VersionId)
    | ADone(v: VersionId)

  datatype ReaderPc = EpochLoad | Search | Wait(v: VersionId) | Load(v: VersionId) | Done(rec: Option<Tag>)

  // upsert
  datatype WriterPc = WStoreRec(v: VersionId) | WStoreStatus(v: VersionId) | WDone(v: VersionId)

  function Fault(sh: Shared): Shared {
    sh.(fault := true)
  }

  function Check(sh: Shared, assertion: bool): Shared {
    if assertion then sh else Fault(sh)
  }

  function Acquire(sh: Shared, a: Actor): Shared {
    sh.(cnt := -1, holder := Some(a))
  }

  function Release(sh: Shared): Shared {
    sh.(cnt := sh.cnt + 1, holder := None)
  }

  function NewId(sh: Shared): VersionId {
    sh.created + 2
  }

  /** create_pending_version */
  function Create(sh: Shared, owner: Owner): Shared {
    sh.(heap := sh.heap[NewId(sh) := Cell(None, Pending, owner)], created := sh.created + 1)
  }

  // ---------- freeing ----------

  predicate CanFree(sh: Shared, vs: seq<VersionId>) {
    && (forall v :: v in vs ==> v in sh.heap && sh.heap[v].rec.Some? && sh.heap[v].status == Stable)
    && (forall i, j :: 0 <= i < j < |vs| ==> vs[i] != vs[j])
  }

  function Free(sh: Shared, vs: seq<VersionId>): Shared {
    if CanFree(sh, vs) then sh.(heap := sh.heap - AsSet(vs), deleted := sh.deleted + |vs|) else Fault(sh)
  }

  predicate HasDirtyRegion(sh: Shared) {
    sh.region.Some? && sh.region.value.core != Zero()
  }

  /** initialize_the_row, without the store to epoch_: the last version becomes the master version. */
  function Initialize(sh: Shared): Shared {
    var sh0 := Check(sh, !(sh.slots != [] && HasDirtyRegion(sh))).(inits := sh.inits + 1);
    if sh.slots != [] then
      var n := |sh.slots| - 1;
      Free(sh0, EntryVersions(sh.slots[..n]) + [sh.master]).(slots := [], master := sh.slots[n].v)
    else if HasDirtyRegion(sh) then
      var g := sh.region.value;
      var c := FindLargest(g.core);
      if 0 <= c < |g.arrays| && g.arrays[c].slots != [] && |g.arrays[c].slots| == CountBits(g.arrays[c].bits) then
        var a := g.arrays[c];
        var n := |a.slots| - 1;
        Free(sh0, [sh.master]).(master := a.slots[n],
          region := Some(Region(Zero(), g.arrays[c := PerCore(a.bits, a.slots[..n])])))
      else Fault(sh0)
    else sh0
  }

  // ---------- the steps ----------

  /** append of a fresh version to the core's own array in the region. */
  function InsertIntoRegion(sh: Shared, epoch: nat, s: nat): Shared
    requires s < EPOCH_SIZE
  {
    var c, t := s / WIDTH, s % WIDTH;
    var v := NewId(sh);
    var sh' := Create(sh, By(epoch, s));
    if sh.region.Some? && c < |sh.region.value.arrays| && CoreOk(sh.region.value.arrays[c])
       && CountBits(sh.region.value.arrays[c].bits) < WIDTH && !IsBitSet(sh.region.value.arrays[c].bits, t)
       && IsBitSet(sh.region.value.core, c)
    then
      var g := sh.region.value;
      sh'.(region := Some(g.(arrays := g.arrays[c := Append(g.arrays[c], v, t)])))
    else Fault(sh')
  }

  function AppendStep(epoch: nat, s: nat, pc: AppendPc, sh: Shared): (Shared, AppendPc)
    requires s < EPOCH_SIZE && (sh.region.Some? ==> |sh.region.value.arrays| == WIDTH)
  {
    var me := Appender(s);
    var c := s / WIDTH;
    match pc
    // epoch_guard
    case GLoad => (sh, if sh.epoch < epoch + 1 then GTry else ATry)
    case GTry => if sh.cnt == 0 then (Acquire(sh, me), GCheck) else (sh, GLoad)
    case GCheck => (sh, if sh.epoch < epoch + 1 then GInit else GUnlock)
    case GInit => (Initialize(sh), GStore)
    case GStore => (sh.(epoch := epoch + 1), GUnlock)
    case GUnlock => (Release(sh), ATry)
    // do_append_pending_version
    case ATry =>
      var sh' := Check(sh, sh.epoch == epoch + 1);
      if sh.cnt == 0 then (Acquire(sh', me), ALoadRegion)
      else (sh'.(failed := sh.failed + {s}, contended := true), WLoad)
    case ALoadRegion => (sh, if sh.region.Some? then RLoad(true) else AInsert)
    case AInsert =>
      var v := NewId(sh);
      (Create(sh, By(epoch, s)).(slots := Insert(sh.slots, Slot(s, v))), AUnlock(v))
    // wait_region_installation
    case WLoad => (sh, if sh.region.Some? then RLoad(false) else WTry)
    case WTry => if sh.cnt == 0 then (Acquire(sh, me), WCheck) else (sh, WLoad)
    case WCheck => (sh, if sh.region.Some? then WUnlock else WMove)
    // the region is filled before it is stored to row_region_
    case WMove =>
      (if Movable(sh.slots, FreshRegion())
       then sh.(region := Some(Move(sh.slots, FreshRegion())), slots := [])
       else Fault(sh),
       WUnlock)
    case WUnlock => (Release(sh), RLoad(false))
    // RowRegion::append
    case RLoad(locked) =>
      if sh.region.Some? then (sh, if IsBitSet(sh.region.value.core, c) then RInsert(locked) else RGc(locked))
      else (Fault(sh), RGc(locked))
    case RGc(locked) =>
      (if sh.region.Some? then
         var g := sh.region.value;
         Free(sh, g.arrays[c].slots).(region := Some(g.(arrays := g.arrays[c := EmptyArray()])))
       else Fault(sh),
       ROr(locked))
    case ROr(locked) =>
      (if sh.region.Some? then sh.(region := Some(sh.region.value.(core := SetBit(sh.region.value.core, c))))
       else Fault(sh),
       RInsert(locked))
    case RInsert(locked) =>
      (InsertIntoRegion(sh, epoch, s), if locked then AUnlock(NewId(sh)) else ADone(NewId(sh)))
    case AUnlock(v) => (Release(sh), ADone(v))
    case ADone(_) => (sh, pc)
  }

  /** The version below the reader in the global array or the region; None when the master version has to be read. */
  function Lookup(s: nat, sh: Shared): (Shared, Option<VersionId>)
    requires s < EPOCH_SIZE
  {
    if sh.slots != [] then
      var p := LowerBound(sh.slots, s);
      if s <= sh.slots[0].id then (sh, None)
      else if p > 0 then (Check(sh, 0 <= sh.slots[p - 1].id < s), Some(sh.slots[p - 1].v))
      else (Fault(sh), None)
    else if HasDirtyRegion(sh) then
      var g := sh.region.value;
      if RegionOk(g) && Settled(g) then
        var (found, c, t) := ServalRegion.IdentifyVisible(g, s / WIDTH, s % WIDTH);
        if found then
          if c < WIDTH && t < WIDTH && 0 <= IndexOf(g.arrays[c], t) < |g.arrays[c].slots|
          then (Check(sh, c * WIDTH + t < s), Some(g.arrays[c].slots[IndexOf(g.arrays[c], t)]))
          else (Fault(sh), None)
        else (sh, None)
      else (Fault(sh), None)
    else (sh, None)
  }

  function ReaderStep(epoch: nat, s: nat, pc: ReaderPc, sh: Shared): (Shared, ReaderPc)
    requires s < EPOCH_SIZE
  {
    match pc
    case EpochLoad => (sh, if sh.epoch != epoch + 1 then Load(sh.master) else Search)
    case Search =>
      var (sh', found) := Lookup(s, sh);
      (sh', match found case Some(v) => Wait(v) case None => Load(sh.master))
    case Wait(v) => (Check(sh, v in sh.heap), Load(v))
    case Load(v) => if v in sh.heap then (sh, Done(sh.heap[v].rec)) else (Fault(sh), Done(None))
    case Done(_) => (sh, pc)
  }

  function WriterStep(epoch: nat, s: nat, pc: WriterPc, sh: Shared): (Shared, WriterPc) {
    match pc
    case WStoreRec(v) =>
      (if v in sh.heap
       then sh.(heap := sh.heap[v := sh.heap[v].(rec := Some(Written(epoch, s)))])
       else Fault(sh),
       WStoreStatus(v))
    case WStoreStatus(v) =>
      (if v in sh.heap then sh.(heap := sh.heap[v := sh.heap[v].(status := Stable)]) else Fault(sh), WDone(v))
    case WDone(_) => (sh, pc)
  }

  // ---------- runs ----------

  datatype Phase = InitPhase | ExecPhase

  /**
    Epoch `e` of the workload is the source's epoch `e + 1`.  `base` and `before` are history variables: the
    content of the row when the epoch began, and its content before the last epoch in which it was written.
   */
  datatype Row = Row(
    epoch: nat,
    phase: Phase,
    base: Tag,
    before: Tag,
    sh: Shared,
    apc: map<nat, AppendPc>,
    rpc: map<nat, ReaderPc>,
    wpc: map<nat, WriterPc>)

  /** A core appends in ascending order of serial id. */
  predicate EarlierDone(apc: map<nat, AppendPc>, s: nat) {
    forall t :: t in apc && t < s && t / WIDTH == s / WIDTH ==> apc[t].ADone?
  }

  predicate Enabled(r: Row, a: Actor) {
    && (r.sh.region.Some? ==> |r.sh.region.value.arrays| == WIDTH)
    && match a
       case Appender(s) =>
         r.phase.InitPhase? && s < EPOCH_SIZE && s in r.apc && !r.apc[s].ADone? && EarlierDone(r.apc, s)
       case Reader(s) =>
         r.phase.ExecPhase? && s < EPOCH_SIZE && s in r.rpc && !r.rpc[s].Done?
         && (r.rpc[s].Wait? && r.rpc[s].v in r.sh.heap ==> r.sh.heap[r.rpc[s].v].status == Stable)
       case Writer(s) => r.phase.ExecPhase? && s in r.wpc && !r.wpc[s].WDone?
  }

  function Step(r: Row, a: Actor): Row
    requires Enabled(r, a)
  {
    match a
    case Appender(s) =>
      var (sh, pc) := AppendStep(r.epoch, s, r.apc[s], r.sh);
      r.(sh := sh, apc := r.apc[s := pc])
    case Reader(s) =>
      var (sh, pc) := ReaderStep(r.epoch, s, r.rpc[s], r.sh);
      r.(sh := sh, rpc := r.rpc[s := pc])
    case Writer(s) =>
      var (sh, pc) := WriterStep(r.epoch, s, r.wpc[s], r.sh);
      r.(sh := sh, wpc := r.wpc[s := pc])
  }

  predicate PhaseDone(r: Row) {
    match r.phase
    case InitPhase => forall s :: s in r.apc ==> r.apc[s].ADone?
    case ExecPhase =>
      && (forall s :: s in r.rpc ==> r.rpc[s].Done?)
      && (forall s :: s in r.wpc ==> r.wpc[s].WDone?)
  }

  ghost function StartEpoch(epoch: nat, base: Tag, before: Tag, sh: Shared, writers: set<nat>, readers: set<nat>): Row {
    Row(epoch, InitPhase, base, before, sh.(inits := 0, failed := {}),
        AllAt(writers, GLoad), AllAt(readers, EpochLoad), AllAt({}, WDone(0)))
  }

  /** The row as the loader creates it: a master version, and another version in the array with serial id -1. */
  function LoadedRow(): Shared {
    Shared(0, 0, 0, [Slot(-1, 1)], None,
      map[0 := Cell(Some(Loaded), Stable, LoadedMaster), 1 := Cell(Some(Loaded), Stable, LoadedEntry)],
      0, 0, false, None, 0, {}, false)
  }

  ghost function Initial(writers: set<nat>, readers: set<nat>): Row {
    StartEpoch(0, Loaded, Loaded, LoadedRow(), writers, readers)
  }

  /** Every writer starts with the version that its append was given. */
  ghost function WritersFrom(apc: map<nat, AppendPc>): (wpc: map<nat, WriterPc>)
    ensures wpc.Keys == apc.Keys
    ensures forall s :: s in apc ==> wpc[s] == WStoreRec(if apc[s].ADone? then apc[s].v else 0)
  {
    WritersExist(apc);
    var wpc: map<nat, WriterPc> :| wpc.Keys == apc.Keys && forall s :: s in apc ==> wpc[s] == WStoreRec(if apc[s].ADone? then apc[s].v else 0);
    wpc
  }

  lemma WritersExist(apc: map<nat, AppendPc>)
    ensures exists wpc: map<nat, WriterPc> ::
      wpc.Keys == apc.Keys && forall s :: s in apc ==> wpc[s] == WStoreRec(if apc[s].ADone? then apc[s].v else 0)
  {
    var wpc := map s | s in apc :: WStoreRec(if apc[s].ADone? then apc[s].v else 0);
    assert wpc.Keys == apc.Keys;
  }

  /** The barrier, with the writers and readers of the following epoch. */
  ghost function Advance(r: Row, writers: set<nat>, readers: set<nat>): Row
    requires PhaseDone(r)
  {
    match r.phase
    case InitPhase => r.(phase := ExecPhase, wpc := WritersFrom(r.apc))
    case ExecPhase =>
      StartEpoch(r.epoch + 1, Outcome(r.apc.Keys, r.epoch, r.base, EPOCH_SIZE),
                 if r.apc.Keys == {} then r.before else r.base, r.sh, writers, readers)
  }
}
