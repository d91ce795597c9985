/** The inductive invariant of a Serval row. */
module ServalInvariant {
  import opened Bits
  import opened TwoLevelBitmap
  import opened Versions
  import opened SortedSlots
  import opened ServalRegion
  import opened ServalRow

  predicate HasVersion(pc: AppendPc) {
    pc.AUnlock? || pc.ADone?
  }

  predicate InLock(pc: AppendPc) {
    || pc.GCheck? || pc.GInit? || pc.GStore? || pc.GUnlock?
    || pc.ALoadRegion? || pc.AInsert? || pc.WCheck? || pc.WMove? || pc.WUnlock? || pc.AUnlock?
    || ((pc.RLoad? || pc.RGc? || pc.ROr? || pc.RInsert?) && pc.locked)
  }

  /** The appender has not passed the epoch guard. */
  predicate AtGuard(pc: AppendPc) {
    pc.GLoad? || pc.GTry? || pc.GCheck? || pc.GInit? || pc.GStore?
  }

  function TagOf(owner: Owner): Tag {
    if owner.By? then Written(owner.epoch, owner.serial) else Loaded
  }

  /** The serial id under which a version is stored. */
  function SerialOf(owner: Owner): int {
    match owner
    case LoadedMaster => -2
    case LoadedEntry => -1
    case By(_, s) => s
  }

  predicate Handed(apc: map<nat, AppendPc>, id: int, v: VersionId) {
    id >= 0 && id in apc && HasVersion(apc[id]) && apc[id].v == v
  }

  /** What a lookup can see. */
  ghost predicate Stored(slots: seq<Slot>, region: Option<Region>, id: int, v: VersionId) {
    if region.Some? then RegionHas(region.value, id, v) else Has(slots, id, v)
  }

  /** The array is sorted, the region consistent, and never both hold versions. */
  ghost predicate StoreOk(slots: seq<Slot>, region: Option<Region>) {
    && Sorted(slots)
    && (region.Some? ==> slots == [] && RegionOk(region.value))
  }

  /** After the row has been initialized it holds exactly the versions handed out in this epoch. */
  ghost predicate ContentOk(slots: seq<Slot>, region: Option<Region>, apc: map<nat, AppendPc>) {
    forall id: int, v: VersionId :: Stored(slots, region, id, v) <==> Handed(apc, id, v)
  }

  ghost predicate IsTop(slots: seq<Slot>, region: Option<Region>, id: int, v: VersionId) {
    && Stored(slots, region, id, v)
    && forall id': int, v': VersionId :: Stored(slots, region, id', v') ==> id' <= id
  }

  /** Before that it still holds the versions of an earlier epoch; the last one is the row's content. */
  ghost predicate RestOk(slots: seq<Slot>, region: Option<Region>, heap: map<VersionId, Cell>, base: Tag) {
    && (region.Some? ==> |region.value.arrays| == WIDTH && Settled(region.value))
    && exists id: int, v: VersionId :: IsTop(slots, region, id, v) && v in heap && heap[v].rec == Some(base)
  }

  predicate Current(owner: Owner, epoch: nat) {
    owner.By? && owner.epoch == epoch
  }

  predicate Earlier(owner: Owner, epoch: nat) {
    owner.By? ==> owner.epoch < epoch
  }

  ghost predicate MasterOk(heap: map<VersionId, Cell>, master: VersionId, tag: Tag, epoch: nat) {
    && master in heap && !Current(heap[master].owner, epoch)
    && heap[master].rec == Some(tag) && heap[master].status == Stable
  }

  /** A version of the array, or of a core's own array, is live and is not the master version. */
  ghost predicate EntryOk(heap: map<VersionId, Cell>, master: VersionId, v: VersionId) {
    v in heap && v != master
  }

  ghost predicate SmallerSerial(heap: map<VersionId, Cell>, v: VersionId, u: VersionId) {
    v in heap && u in heap && SerialOf(heap[v].owner) < SerialOf(heap[u].owner)
  }

  /** The versions in core `c`'s array, current or stale, in ascending order of serial id. */
  ghost predicate ArrayOk(heap: map<VersionId, Cell>, master: VersionId, vs: seq<VersionId>, c: nat) {
    && (forall v :: v in vs ==> EntryOk(heap, master, v) && heap[v].owner.By? && heap[v].owner.serial / WIDTH == c)
    && (forall i, j :: 0 <= i < j < |vs| ==> SmallerSerial(heap, vs[i], vs[j]))
  }

  ghost predicate PlaceOk(slots: seq<Slot>, region: Option<Region>, heap: map<VersionId, Cell>, master: VersionId) {
    && (forall id: int, v: VersionId :: Has(slots, id, v) ==> EntryOk(heap, master, v) && SerialOf(heap[v].owner) == id)
    && (region.Some? ==> ArraysOk(heap, master, region.value.arrays))
  }

  ghost predicate ArraysOk(heap: map<VersionId, Cell>, master: VersionId, arrays: seq<PerCore>) {
    && |arrays| == WIDTH
    && forall c: nat :: c < WIDTH ==> ArrayOk(heap, master, arrays[c].slots, c)
  }

  ghost predicate NoneCurrent(heap: map<VersionId, Cell>, vs: seq<VersionId>, epoch: nat) {
    forall v :: v in vs && v in heap ==> !Current(heap[v].owner, epoch)
  }

  /** A core that has not written in this epoch keeps nothing of this epoch. */
  ghost predicate StaleOk(region: Option<Region>, heap: map<VersionId, Cell>, epoch: nat) {
    region.Some? ==>
      && |region.value.arrays| == WIDTH
      && forall c: nat :: c < WIDTH && !region.value.core[c] ==> NoneCurrent(heap, region.value.arrays[c].slots, epoch)
  }

  /** Versions of this epoch belong to a writer; all others are STABLE and hold what they were created for. */
  ghost predicate CellsOk(heap: map<VersionId, Cell>, apc: map<nat, AppendPc>, epoch: nat) {
    forall v :: v in heap ==>
      if Current(heap[v].owner, epoch) then Handed(apc, heap[v].owner.serial, v)
      else Earlier(heap[v].owner, epoch) && heap[v].status == Stable && heap[v].rec == Some(TagOf(heap[v].owner))
  }

  ghost predicate InRegion(region: Option<Region>, owner: Owner, v: VersionId) {
    && region.Some? && owner.By? && owner.serial / WIDTH < |region.value.arrays|
    && v in region.value.arrays[owner.serial / WIDTH].slots
  }

  ghost predicate Located(slots: seq<Slot>, region: Option<Region>, master: VersionId, owner: Owner, v: VersionId) {
    v == master || Has(slots, SerialOf(owner), v) || InRegion(region, owner, v)
  }

  /** Nothing is leaked: every live version can be found, and creations and deletions add up. */
  ghost predicate HeapOk(slots: seq<Slot>, region: Option<Region>, heap: map<VersionId, Cell>, master: VersionId,
                         created: nat, deleted: nat) {
    && (forall v :: v in heap ==> v < created + 2 && Located(slots, region, master, heap[v].owner, v))
    && created + 2 == |heap| + deleted
  }

  /** The state of the version of writer `s`. */
  function Content(epoch: nat, s: nat, wpc: map<nat, WriterPc>): Cell {
    if s in wpc then
      Cell(if wpc[s].WStoreRec? then None else Some(Written(epoch, s)),
           if wpc[s].WDone? then Stable else Pending, By(epoch, s))
    else Cell(None, Pending, By(epoch, s))
  }

  ghost predicate HandlesOk(heap: map<VersionId, Cell>, apc: map<nat, AppendPc>, wpc: map<nat, WriterPc>, epoch: nat) {
    forall s :: s in apc && HasVersion(apc[s]) ==> apc[s].v in heap && heap[apc[s].v] == Content(epoch, s, wpc)
  }

  ghost predicate Data(sh: Shared, apc: map<nat, AppendPc>, wpc: map<nat, WriterPc>, epoch: nat, base: Tag, before: Tag) {
    && StoreOk(sh.slots, sh.region)
    && (if sh.inits == 1 then ContentOk(sh.slots, sh.region, apc) else RestOk(sh.slots, sh.region, sh.heap, base))
    && MasterOk(sh.heap, sh.master, if sh.inits == 1 then base else before, epoch)
    && PlaceOk(sh.slots, sh.region, sh.heap, sh.master)
    && StaleOk(sh.region, sh.heap, epoch)
    && CellsOk(sh.heap, apc, epoch)
    && HeapOk(sh.slots, sh.region, sh.heap, sh.master, sh.created, sh.deleted)
    && HandlesOk(sh.heap, apc, wpc, epoch)
  }

  // ---------- control ----------

  ghost predicate Shape(r: Row) {
    && (forall s :: s in r.apc ==> s < EPOCH_SIZE)
    && (forall s :: s in r.rpc ==> s < EPOCH_SIZE)
    && !r.sh.fault
    && (r.phase.InitPhase? ==> r.wpc == map[] && forall s :: s in r.rpc ==> r.rpc[s].EpochLoad?)
    && (r.phase.ExecPhase? ==>
          && (forall s :: s in r.apc ==> r.apc[s].ADone?)
          && r.wpc.Keys == r.apc.Keys
          && (forall s :: s in r.wpc ==> r.wpc[s].v == r.apc[s].v))
  }

  ghost predicate LockOk(cnt: int, holder: Option<Actor>, apc: map<nat, AppendPc>) {
    && cnt == (if holder.Some? then -1 else 0)
    && (forall s :: s in apc ==> (InLock(apc[s]) <==> holder == Some(Appender(s))))
    && (match holder
        case None => true
        case Some(Appender(s)) => s in apc
        case Some(_) => false)
  }

  ghost predicate OrderOk(apc: map<nat, AppendPc>) {
    forall s :: s in apc && !apc[s].GLoad? ==> EarlierDone(apc, s)
  }

  /** initialize_the_row runs once, before the epoch is published, and nobody appends before that. */
  ghost predicate GuardOk(valEpoch: nat, inits: nat, epoch: nat, apc: map<nat, AppendPc>) {
    && valEpoch <= epoch + 1 && inits <= 1
    && (forall s :: s in apc && !AtGuard(apc[s]) ==> valEpoch == epoch + 1)
    && (forall s :: s in apc && (apc[s].GInit? || apc[s].GStore?) ==> valEpoch < epoch + 1)
    && (forall s :: s in apc && apc[s].GStore? ==> inits == 1)
    && (valEpoch == epoch + 1 ==> inits == 1 && apc.Keys != {})
    && (inits == 1 && valEpoch < epoch + 1 ==> exists s :: s in apc && apc[s].GStore?)
  }

  ghost predicate RegionPcOk(region: Option<Region>, apc: map<nat, AppendPc>) {
    && (forall s :: s in apc && (apc[s].AInsert? || apc[s].WMove?) ==> region.None?)
    && (forall s :: s in apc && (apc[s].WUnlock? || apc[s].RLoad? || apc[s].RGc? || apc[s].ROr? || apc[s].RInsert?) ==>
          region.Some?)
    && (region.Some? ==>
          && |region.value.arrays| == WIDTH
          && (forall s :: s in apc && s < EPOCH_SIZE && (apc[s].RGc? || apc[s].ROr?) ==> !region.value.core[s / WIDTH])
          && (forall s :: s in apc && s < EPOCH_SIZE && apc[s].ROr? ==> region.value.arrays[s / WIDTH] == EmptyArray())
          && (forall s :: s in apc && s < EPOCH_SIZE && apc[s].RInsert? ==> region.value.core[s / WIDTH])
          && (forall c: nat :: c < WIDTH && region.value.core[c] && region.value.arrays[c].bits == Zero() ==>
                exists s :: s in apc && s / WIDTH == c && apc[s].RInsert?))
  }

  /** The appender has found the lock taken and is on its way to the region. */
  predicate Waiting(pc: AppendPc) {
    || pc.WLoad? || pc.WTry? || pc.WCheck? || pc.WMove? || pc.WUnlock?
    || ((pc.RLoad? || pc.RGc? || pc.ROr? || pc.RInsert?) && !pc.locked)
  }

  /** Who has found the lock taken in this epoch ends with a region; a region needs somebody who has, in some epoch. */
  ghost predicate RouteOk(sh: Shared, apc: map<nat, AppendPc>) {
    && (forall s :: s in apc && Waiting(apc[s]) ==> s in sh.failed)
    && (forall s :: s in sh.failed ==> s in apc && (Waiting(apc[s]) || (apc[s].ADone? && sh.region.Some?)))
    && (sh.failed != {} || sh.region.Some? ==> sh.contended)
  }

  /** The version that a read of this epoch has to return, when the row was written in this epoch. */
  ghost predicate IsAnswer(apc: map<nat, AppendPc>, master: VersionId, s: nat, v: VersionId) {
    match Visible(apc.Keys, s)
    case Some(t) => Handed(apc, t, v)
    case None => v == master
  }

  /** What a read returns: an outdated content when the row was not written in this epoch. */
  ghost function ReadResult(writers: set<nat>, epoch: nat, base: Tag, before: Tag, s: nat): Tag {
    if writers == {} then before else Outcome(writers, epoch, base, s)
  }

  ghost predicate ReaderOk(sh: Shared, apc: map<nat, AppendPc>, epoch: nat, base: Tag, before: Tag, s: nat, pc: ReaderPc) {
    && (pc.Search? ==> sh.epoch == epoch + 1)
    && (pc.Wait? ==> sh.epoch == epoch + 1 && IsAnswer(apc, sh.master, s, pc.v))
    && (pc.Load? ==>
          && (if sh.epoch == epoch + 1 then IsAnswer(apc, sh.master, s, pc.v) else pc.v == sh.master)
          && pc.v in sh.heap && sh.heap[pc.v].status == Stable)
    && (pc.Done? ==> pc.rec == Some(ReadResult(apc.Keys, epoch, base, before, s)))
  }

  ghost predicate ReadersOk(r: Row) {
    forall s :: s in r.rpc ==> ReaderOk(r.sh, r.apc, r.epoch, r.base, r.before, s, r.rpc[s])
  }

  ghost predicate Inv(r: Row) {
    && Shape(r)
    && LockOk(r.sh.cnt, r.sh.holder, r.apc)
    && OrderOk(r.apc)
    && GuardOk(r.sh.epoch, r.sh.inits, r.epoch, r.apc)
    && RegionPcOk(r.sh.region, r.apc)
    && RouteOk(r.sh, r.apc)
    && Data(r.sh, r.apc, r.wpc, r.epoch, r.base, r.before)
    && ReadersOk(r)
  }
}
