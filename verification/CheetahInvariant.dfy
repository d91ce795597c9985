/** The inductive invariant of a Cheetah row. */
module CheetahInvariant {
  import opened Bits
  import opened TwoLevelBitmap
  import opened Versions
  import opened CheetahRow

  // ---------- where the actors are ----------

  predicate CoreInLock(pc: CorePc) { pc.CUpdate? || pc.CUnlock? }

  predicate ReaderInLock(pc: ReaderPc) {
    pc.RPlace? || pc.RUnlock? || pc.RFinalPrevious? || pc.RFinalPlaceholders? || pc.RFinalSub? || pc.RFinalUnlock?
  }

  predicate WriterInLock(pc: WriterPc) {
    pc.WFind? || pc.WLoadRef? || pc.WGcMaster? || pc.WStash? || pc.WAssign? || pc.WUnlock?
  }

  /** The reader has added itself to the reference counter and not yet taken itself off. */
  predicate Counted(pc: ReaderPc) {
    pc.RSecondAdd? || pc.RLookup? || pc.RLock? || pc.RPlace? || pc.RUnlock? || pc.RReady? || pc.RLoaded? || pc.RRead?
  }

  /** The reader saw the counter fall to 1 and has not yet taken the last unit off. */
  predicate Final(pc: ReaderPc) {
    pc.RFinalLock? || pc.RFinalPrevious? || pc.RFinalPlaceholders? || pc.RFinalSub?
  }

  predicate HasHandle(pc: ReaderPc) {
    pc.RUnlock? || pc.RReady? || pc.RLoaded? || pc.RRead?
  }

  predicate HasRecord(pc: ReaderPc) {
    pc.RRead? || Final(pc) || pc.RFinalUnlock? || pc.RDone?
  }

  /** The version that the final writer holds and has not yet published as master. */
  function Local(pc: WriterPc): Option<VersionId> {
    if pc.WLoadRef? || pc.WGcMaster? || pc.WStash? || pc.WAssign? then Some(pc.v) else None
  }

  predicate BeforeSwap(pc: WriterPc) {
    pc.WLock? || pc.WFind? || pc.WLoadRef? || pc.WGcMaster? || pc.WStash?
  }

  predicate Swapped(pc: WriterPc) { !BeforeSwap(pc) && !pc.WAssign? }

  ghost function FinalWriter(work: Work): Option<nat> {
    Visible(Writers(work), EPOCH_SIZE)
  }

  /** Where the final writer is; a row that is not written stays before the swap. */
  ghost function FinalPc(work: Work, wpc: map<nat, WriterPc>): WriterPc {
    var f := FinalWriter(work);
    if f.Some? && f.value in wpc then wpc[f.value] else WLock
  }

  ghost function CountedReaders(rpc: map<nat, ReaderPc>): set<nat> {
    set s | s in rpc && Counted(rpc[s])
  }

  /** The serial ids that some reader of the epoch resolves to. */
  ghost function Seen(work: Work): set<nat> {
    set s | s in work.readers && Visible(Writers(work), s).Some? :: Visible(Writers(work), s).value
  }

  /** What the read with serial id `s` has to return. */
  ghost function Expected(work: Work, epoch: nat, base: Tag, s: nat): Tag {
    Outcome(Writers(work), epoch, base, s)
  }

  /** The content of the version that belongs to writer `w` when the writer is at `pc`. */
  function Content(epoch: nat, w: nat, pc: WriterPc): Version {
    Version(if pc.WStoreStatus? || pc.WDone? then Some(Written(epoch, w)) else None,
            if pc.WDone? then Stable else Pending)
  }

  ghost function Opt<T>(o: Option<T>): set<T> {
    if o.Some? then {o.value} else {}
  }

  // ---------- the invariant, one aspect at a time ----------

  ghost predicate Shape(r: Row) {
    && GoodWork(r.work)
    && r.cpc.Keys == r.work.cores.Keys
    && r.rpc.Keys == r.work.readers
    && r.wpc.Keys == Writers(r.work)
    && !r.sh.fault
    && (!r.phase.WritePhase? ==> (forall c :: c in r.cpc ==> r.cpc[c].CDone?))
    && (forall s :: s in r.rpc ==> ReaderInPhase(r.phase, r.rpc[s]))
    && (!r.phase.ExecPhase? ==> (forall w :: w in r.wpc ==> r.wpc[w].WLock?))
  }

  predicate ReaderInPhase(phase: Phase, pc: ReaderPc) {
    match phase
    case WritePhase => pc.RFetchAdd?
    case ReadPhase => ReadPhasePc(pc) || pc.RReady?
    case ExecPhase => !ReadPhasePc(pc)
  }

  ghost predicate LockOk(cnt: int, holder: Option<Actor>, cpc: map<nat, CorePc>, rpc: map<nat, ReaderPc>,
                         wpc: map<nat, WriterPc>) {
    && cnt == (if holder.Some? then -1 else 0)
    && (forall c :: c in cpc ==> (CoreInLock(cpc[c]) <==> holder == Some(Core(c))))
    && (forall s :: s in rpc ==> (ReaderInLock(rpc[s]) <==> holder == Some(Reader(s))))
    && (forall w :: w in wpc ==> (WriterInLock(wpc[w]) <==> holder == Some(Writer(w))))
    && (match holder
        case None => true
        case Some(Core(c)) => c in cpc
        case Some(Reader(s)) => s in rpc
        case Some(Writer(w)) => w in wpc)
  }

  /** "#readers + 1": who is counted, who owes the second addition, who owes the last subtraction. */
  ghost predicate RefOk(refCnt: int, rpc: map<nat, ReaderPc>) {
    var counted := CountedReaders(rpc);
    && (counted == {} && (forall s :: s in rpc ==> !Final(rpc[s])) ==> refCnt == 0)
    && (counted != {} && (forall s :: s in rpc ==> !rpc[s].RSecondAdd?) ==> refCnt == |counted| + 1)
    && (forall s :: s in rpc && rpc[s].RSecondAdd? ==>
          && refCnt == |counted|
          && (forall t :: t in rpc && rpc[t].RSecondAdd? ==> t == s))
    && (forall s :: s in rpc && Final(rpc[s]) ==>
          && refCnt == 1
          && counted == {}
          && (forall t :: t in rpc && Final(rpc[t]) ==> t == s))
  }

  ghost predicate BitsOk(bits: TwoLevel, phase: Phase, work: Work, cpc: map<nat, CorePc>, swapped: bool) {
    && WellFormed(bits)
    && (if phase.WritePhase? then ToMap(bits) == Registered(work, cpc)
        else if swapped then bits == EMPTY
        else ToMap(bits) == work.cores)
  }

  /** The transaction bitmaps of the cores that have already updated the row's bitmaps. */
  ghost function Registered(work: Work, cpc: map<nat, CorePc>): (m: map<nat, Word>)
    ensures forall c :: c in m <==> c in cpc && c in work.cores && (cpc[c].CUnlock? || cpc[c].CDone?)
    ensures forall c :: c in m ==> m[c] == work.cores[c]
  {
    var done := set c | c in cpc && c in work.cores && (cpc[c].CUnlock? || cpc[c].CDone?);
    work.cores - (work.cores.Keys - done)
  }

  /** master_ and previous_master_ against the progress of the final writer. */
  ghost predicate MasterOk(mem: Memory, f: WriterPc, refCnt: int, baseId: VersionId) {
    && (BeforeSwap(f) ==> mem.master == Some(baseId) && mem.previous == None)
    && (f.WGcMaster? ==> refCnt == 0)
    && (f.WStash? ==> refCnt > 0)
    && (f.WAssign? ==>
          || (mem.master == None && mem.previous == None && refCnt == 0)
          || (mem.master == Some(baseId) == mem.previous && refCnt > 0))
    && (Swapped(f) ==>
          && mem.master.Some?
          && mem.master != Some(baseId)
          && (mem.previous == None || mem.previous == Some(baseId)))
  }

  ghost function Owners(mem: Memory, local: Option<VersionId>): set<VersionId> {
    Opt(mem.master) + Opt(mem.previous) + mem.placeholders.Values + Opt(local)
  }

  ghost predicate Injective(placeholders: map<nat, VersionId>) {
    forall i, j :: i in placeholders && j in placeholders && placeholders[i] == placeholders[j] ==> i == j
  }

  /** Every live version has exactly one owner, and no identity is used twice. */
  ghost predicate HeapOk(mem: Memory, local: Option<VersionId>, baseId: VersionId, base: Tag) {
    && mem.heap.Keys == Owners(mem, local)
    && Injective(mem.placeholders)
    && (forall v :: v in mem.placeholders.Values ==> Some(v) != mem.master && v != baseId && Some(v) != local)
    && local != Some(baseId)
    && (forall v :: v in mem.heap.Keys ==> v <= mem.created)
    && baseId <= mem.created
    && |mem.heap.Keys| == mem.created - mem.deleted + 1
    && (baseId in mem.heap ==> mem.heap[baseId] == Version(Some(base), Stable))
  }

  /** What the final reader has already given back, and what it must still find. */
  ghost predicate Drained(phase: Phase, refCnt: int, mem: Memory, rpc: map<nat, ReaderPc>, baseId: VersionId) {
    && (phase.WritePhase? ==> mem.placeholders == map[])
    && (phase.ExecPhase? && refCnt == 0 ==> mem.placeholders == map[] && mem.previous == None)
    && (forall s :: s in rpc && rpc[s].RFinalSub? ==> mem.placeholders == map[])
    && (forall s :: s in rpc && (rpc[s].RFinalPlaceholders? || rpc[s].RFinalSub?) ==> mem.previous == None)
    && (CountedReaders(rpc) != {} ==> baseId in mem.heap)
  }

  ghost predicate PlaceholdersOk(mem: Memory, work: Work, epoch: nat, wpc: map<nat, WriterPc>) {
    forall k :: k in mem.placeholders ==>
      && k in Seen(work)
      && k in wpc
      && mem.placeholders[k] in mem.heap
      && mem.heap[mem.placeholders[k]] == Content(epoch, k, wpc[k])
      && (FinalWriter(work) == Some(k) ==> wpc[k].WLock? || wpc[k].WFind?)
  }

  /** The version that the readers of writer `k` hold. */
  ghost predicate IsVersionOf(mem: Memory, work: Work, f: WriterPc, k: nat, v: VersionId) {
    if FinalWriter(work) == Some(k) && Local(f).Some? then Local(f) == Some(v)
    else if FinalWriter(work) == Some(k) && Swapped(f) then mem.master == Some(v)
    else k in mem.placeholders && mem.placeholders[k] == v
  }

  /** The version a reader was given in the read phase is still the one it has to wait for. */
  ghost predicate HandleOk(mem: Memory, work: Work, f: WriterPc, baseId: VersionId, s: nat, v: VersionId) {
    match Visible(Writers(work), s)
    case None => v == baseId
    case Some(k) => IsVersionOf(mem, work, f, k, v)
  }

  ghost predicate WriterFinished(work: Work, wpc: map<nat, WriterPc>, s: nat) {
    match Visible(Writers(work), s)
    case None => true
    case Some(k) => k in wpc && wpc[k].WDone?
  }

  /** The facts about the row that a reader relies on. */
  datatype ReaderView = ReaderView(mem: Memory, work: Work, epoch: nat, base: Tag, baseId: VersionId, wpc: map<nat, WriterPc>)

  function View(r: Row): ReaderView {
    ReaderView(r.sh.mem, r.work, r.epoch, r.base, r.baseId, r.wpc)
  }

  ghost predicate ReaderOk(x: ReaderView, s: nat, pc: ReaderPc) {
    && (pc.RLock? || pc.RPlace? ==> Visible(Writers(x.work), s) == Some(pc.id))
    && (HasHandle(pc) ==> HandleOk(x.mem, x.work, FinalPc(x.work, x.wpc), x.baseId, s, pc.v))
    && (pc.RLoaded? || HasRecord(pc) ==> WriterFinished(x.work, x.wpc, s))
    && (HasRecord(pc) ==> pc.rec == Some(Expected(x.work, x.epoch, x.base, s)))
  }

  ghost predicate ReadersOk(x: ReaderView, rpc: map<nat, ReaderPc>) {
    forall s :: s in rpc ==> ReaderOk(x, s, rpc[s])
  }

  /** Who has a version, who was eliminated, and where the version is. */
  ghost predicate WriterOk(mem: Memory, work: Work, epoch: nat, w: nat, pc: WriterPc) {
    var isFinal := FinalWriter(work) == Some(w);
    && (Local(pc).Some? ==> isFinal && pc.v in mem.heap && mem.heap[pc.v] == Content(epoch, w, pc))
    && (pc == WUnlock(None) || pc == WDone(true) ==> !isFinal && w !in Seen(work))
    && (pc == WDone(false) ==> isFinal || w in Seen(work))
    && ((pc.WUnlock? && pc.res.Some?) || pc.WStoreRec? || pc.WStoreStatus? ==>
          IsVersionOf(mem, work, pc, w, if pc.WUnlock? then pc.res.value else pc.v))
    && (isFinal && Swapped(pc) ==>
          mem.master.Some? && mem.master.value in mem.heap && mem.heap[mem.master.value] == Content(epoch, w, pc))
  }

  ghost predicate WritersOk(mem: Memory, work: Work, epoch: nat, wpc: map<nat, WriterPc>) {
    forall w :: w in wpc ==> WriterOk(mem, work, epoch, w, wpc[w])
  }

  ghost predicate Inv(r: Row) {
    && Shape(r)
    && LockOk(r.sh.cnt, r.sh.holder, r.cpc, r.rpc, r.wpc)
    && RefOk(r.sh.refCnt, r.rpc)
    && BitsOk(r.sh.mem.bits, r.phase, r.work, r.cpc, Swapped(FinalPc(r.work, r.wpc)))
    && MasterOk(r.sh.mem, FinalPc(r.work, r.wpc), r.sh.refCnt, r.baseId)
    && HeapOk(r.sh.mem, Local(FinalPc(r.work, r.wpc)), r.baseId, r.base)
    && Drained(r.phase, r.sh.refCnt, r.sh.mem, r.rpc, r.baseId)
    && PlaceholdersOk(r.sh.mem, r.work, r.epoch, r.wpc)
    && ReadersOk(View(r), r.rpc)
    && WritersOk(r.sh.mem, r.work, r.epoch, r.wpc)
  }
}
