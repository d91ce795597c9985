/** The execution phase and the epochs of a Caracal row, and what its runs are equivalent to. */
module CaracalTheorems {
  import opened Bits
  import opened TwoLevelBitmap
  import opened Versions
  import opened SortedSlots
  import opened Workload
  import opened CaracalRow
  import opened CaracalInvariant
  import opened CaracalSteps

  // ---------- what the array holds in the execution phase ----------

  lemma ExecParts(r: Row)
    requires Inv(r) && r.phase.ExecPhase?
    ensures Shape(r) && OldOk(r.sh.slots, r.sh.heap, Base(r.epoch), r.base)
    ensures ContentOk(r.sh.slots, r.sh.buffers, r.apc, Base(r.epoch))
    ensures HandlesOk(r.sh.heap, r.apc, r.wpc, r.epoch, Base(r.epoch))
    ensures HeapOk(r.sh.slots, r.sh.heap, r.sh.created, r.sh.deleted, r.apc, Base(r.epoch))
    ensures ReadersOk(r)
  {
    hide Shape, LockOk, OrderOk, OldOk, ContentOk, HandlesOk, HeapOk, BuffersOk, ReadersOk;
  }

  /** All buffers are flushed. */
  lemma BuffersAreEmpty(r: Row)
    requires Inv(r) && (r.phase.ExecPhase? || PhaseDone(r))
    ensures forall c: nat :: c < |r.sh.buffers| ==> r.sh.buffers[c] == []
    ensures forall s :: s in r.apc ==> r.apc[s].ADone?
    ensures r.sh.recorded == {} && (r.sh.installed ==> r.sh.contended)
  {
    hide LockOk, OrderOk, OldOk, ContentOk, HandlesOk, HeapOk, ReadersOk;
    forall c: nat | c < |r.sh.buffers|
      ensures r.sh.buffers[c] == []
    {
      assert IsCore(c);
      assert c in r.fpc && r.fpc[c].FDone?;
    }
    forall c: nat | c < WIDTH
      ensures c !in r.sh.recorded
    {
      assert IsCore(c);
      assert c in r.fpc;
    }
    assert forall c :: c in r.sh.recorded ==> c < WIDTH;
  }

  /** Every version handed out is in the array. */
  lemma AllInArray(r: Row, s: nat)
    requires Inv(r) && (r.phase.ExecPhase? || PhaseDone(r))
    requires s in r.apc
    ensures r.apc[s].ADone? && Has(r.sh.slots, Base(r.epoch) + s, r.apc[s].v)
  {
    BuffersAreEmpty(r);
    assert ContentOk(r.sh.slots, r.sh.buffers, r.apc, Base(r.epoch)) by {
      hide Shape, LockOk, OrderOk, OldOk, ContentOk, HandlesOk, HeapOk, BuffersOk, ReadersOk;
    }
    hide Inv, ContentOk, PhaseDone;
    WriterEntry(r.sh.slots, r.sh.buffers, r.apc, Base(r.epoch), s);
  }

  lemma AllInArrayById(r: Row, s: nat)
    requires Inv(r) && (r.phase.ExecPhase? || PhaseDone(r))
    requires s in r.apc
    ensures HasId(r.sh.slots, Base(r.epoch) + s)
  {
    hide Inv, PhaseDone;
    AllInArray(r, s);
    HasIdIsHas(r.sh.slots, Base(r.epoch) + s);
  }

  /** The entry that a search for serial id `s` arrives at. */
  function Found(r: Row, s: nat): Slot
    requires LowerBound(r.sh.slots, Base(r.epoch) + s) > 0
  {
    r.sh.slots[LowerBound(r.sh.slots, Base(r.epoch) + s) - 1]
  }

  lemma SearchSucceeds(r: Row, s: nat)
    requires Inv(r)
    ensures LowerBound(r.sh.slots, Base(r.epoch) + s) > 0
    ensures HasOlder(r.sh.slots, Base(r.epoch) + s)
    ensures Sorted(r.sh.slots)
  {
    hide LowerBound, Shape, LockOk, OrderOk, ContentOk, HandlesOk, HeapOk, BuffersOk, ReadersOk;
    BoundIsMonotone(r.sh.slots, Base(r.epoch), Base(r.epoch) + s);
    SearchFindsVisible(r.sh.slots, Base(r.epoch) + s);
  }

  /** The search finds a version of this epoch: the largest smaller writer's. */
  lemma FoundNew(r: Row, s: nat)
    requires Inv(r) && r.phase.ExecPhase? && LowerBound(r.sh.slots, Base(r.epoch) + s) > 0
    requires Found(r, s).id >= Base(r.epoch)
    ensures var t := Found(r, s).id - Base(r.epoch);
      && t in r.apc && t in r.wpc && Visible(r.apc.Keys, s) == Some(t)
      && Found(r, s).v in r.sh.heap
      && r.sh.heap[Found(r, s).v] == Content(r.epoch, Base(r.epoch), t, r.wpc)
  {
    hide LowerBound, Inv, OldOk, ContentOk, HeapOk, ReadersOk, Has, HasId, Sorted, IsVisible;
    var x, slot := Base(r.epoch), Found(r, s);
    ExecParts(r);
    SearchSucceeds(r, s);
    SearchFindsVisible(r.sh.slots, x + s);
    VisibleHas(r.sh.slots, x + s, slot.id, slot.v);
    SlotEntry(r.sh.slots, r.sh.buffers, r.apc, x, slot.id, slot.v);
    var t: nat := slot.id - x;
    assert t in r.apc && r.apc[t].v == slot.v;
    forall t' | t' in r.apc.Keys && t' < s
      ensures t' <= t
    {
      AllInArrayById(r, t');
      VisibleIsMax(r.sh.slots, x + s, slot.id, slot.v, x + t');
    }
    VisibleIsUnique(r.apc.Keys, s, t);
  }

  lemma VisibleHas(a: seq<Slot>, limit: int, id: int, v: VersionId)
    requires IsVisible(a, limit, id, v)
    ensures Has(a, id, v) && id < limit
  {
  }

  lemma VisibleIsMax(a: seq<Slot>, limit: int, id: int, v: VersionId, id': int)
    requires IsVisible(a, limit, id, v) && HasId(a, id') && id' < limit
    ensures id' <= id
  {
  }

  /** The search finds an older version: the row's state when the epoch began, and no smaller writer exists. */
  lemma FoundOld(r: Row, s: nat)
    requires Inv(r) && r.phase.ExecPhase? && LowerBound(r.sh.slots, Base(r.epoch) + s) > 0
    requires Found(r, s).id < Base(r.epoch)
    ensures Visible(r.apc.Keys, s) == None
    ensures Found(r, s).v in r.sh.heap
    ensures r.sh.heap[Found(r, s).v] == Cell(Some(TagOf(r.base.id)), Stable, r.base.id)
  {
    hide LowerBound, Inv, ContentOk, HandlesOk, HeapOk, ReadersOk, Has, HasId, Sorted, IsVisible, TagOf;
    var x, slot := Base(r.epoch), Found(r, s);
    ExecParts(r);
    SearchSucceeds(r, s);
    SearchFindsVisible(r.sh.slots, x + s);
    VisibleHas(r.sh.slots, x + s, slot.id, slot.v);
    SearchFindsVisible(r.sh.slots, x);
    HasBase(r.sh.slots, r.base.id, r.base.v, x);
    VisibleIsMax(r.sh.slots, x + s, slot.id, slot.v, r.base.id);
    HasIdIsHas(r.sh.slots, slot.id);
    VisibleIsMax(r.sh.slots, x, r.base.id, r.base.v, slot.id);
    HasIsUnique(r.sh.slots, slot.id, slot.v, r.base.v);
    forall t | t in r.apc.Keys
      ensures s <= t
    {
      if t < s {
        AllInArrayById(r, t);
        VisibleIsMax(r.sh.slots, x + s, slot.id, slot.v, x + t);
      }
    }
  }

  lemma HasBase(a: seq<Slot>, id: int, v: VersionId, limit: int)
    requires IsVisible(a, limit, id, v)
    ensures HasId(a, id) && Has(a, id, v)
  {
    HasIdIsHas(a, id);
  }

  /** Once it is STABLE, the version that a search finds has the content that the serial order asks for. */
  lemma FoundContent(r: Row, s: nat)
    requires Inv(r) && r.phase.ExecPhase? && LowerBound(r.sh.slots, Base(r.epoch) + s) > 0
    ensures Found(r, s).v in r.sh.heap
    ensures r.sh.heap[Found(r, s).v].status == Stable ==>
      r.sh.heap[Found(r, s).v].rec == Some(Outcome(r.apc.Keys, r.epoch, TagOf(r.base.id), s))
  {
    hide LowerBound, Inv, TagOf, Found;
    if Found(r, s).id >= Base(r.epoch) { FoundNew(r, s); } else { FoundOld(r, s); }
  }

  // ---------- reads ----------

  lemma AssembleRead(r: Row, s: nat, pc: ReaderPc)
    requires Inv(r) && Enabled(r, Reader(s)) && ReaderStep(r.epoch, s, r.rpc[s], r.sh) == (r.sh, pc)
    requires ReaderOk(r.sh.slots, r.sh.heap, r.apc.Keys, r.epoch, Base(r.epoch), r.base, s, pc)
    ensures Inv(Step(r, Reader(s)))
  {
    hide LockOk, OrderOk, OldOk, ContentOk, HandlesOk, HeapOk, BuffersOk, ReaderStep, ReaderOk, Cores, Base;
  }

  /** One step of a read, given what its search finds. */
  lemma ReadOk(sh: Shared, writers: set<nat>, epoch: nat, base: Slot, s: nat, pc: ReaderPc)
    requires s < EPOCH_SIZE && ReaderOk(sh.slots, sh.heap, writers, epoch, Base(epoch), base, s, pc) && !pc.RDone?
    requires var x := Base(epoch);
      && HasOlder(sh.slots, x + s) && LowerBound(sh.slots, x + s) > 0
      && var v := sh.slots[LowerBound(sh.slots, x + s) - 1].v;
      && v in sh.heap
      && (sh.heap[v].status == Stable ==> sh.heap[v].rec == Some(Outcome(writers, epoch, TagOf(base.id), s)))
    requires pc.RWait? && pc.v in sh.heap ==> sh.heap[pc.v].status == Stable
    ensures ReaderStep(epoch, s, pc, sh).0 == sh
    ensures ReaderOk(sh.slots, sh.heap, writers, epoch, Base(epoch), base, s, ReaderStep(epoch, s, pc, sh).1)
  {
    hide LowerBound, Outcome, TagOf, HasOlder, Pack, Base;
    PackIsBase(epoch, s);
  }

  lemma ReaderStepKeeps(r: Row, s: nat)
    requires Inv(r) && Enabled(r, Reader(s))
    ensures Inv(Step(r, Reader(s)))
  {
    hide Inv, LowerBound, Outcome, TagOf, HasOlder, Pack, Shape, OldOk, ContentOk, HandlesOk, HeapOk, ReadersOk,
      ReaderStep, ReaderOk;
    SearchSucceeds(r, s);
    ExecParts(r);
    FoundContent(r, s);
    OneReader(r, s);
    ReadOk(r.sh, r.apc.Keys, r.epoch, r.base, s, r.rpc[s]);
    AssembleRead(r, s, ReaderStep(r.epoch, s, r.rpc[s], r.sh).1);
  }

  lemma OneReader(r: Row, s: nat)
    requires ReadersOk(r) && s in r.rpc
    ensures ReaderOk(r.sh.slots, r.sh.heap, r.apc.Keys, r.epoch, Base(r.epoch), r.base, s, r.rpc[s])
  {
    hide ReaderOk;
  }

  // ---------- writes ----------

  /** The write fills its own version only. */
  lemma WriterStepKeeps(r: Row, s: nat)
    requires Inv(r) && Enabled(r, Writer(s))
    ensures Inv(Step(r, Writer(s)))
  {
    hide Inv, Shape, OldOk, ContentOk, HandlesOk, HeapOk, ReadersOk, LowerBound;
    ExecParts(r);
    WriterHasVersion(r, s);
    var x := Base(r.epoch);
    var (sh', pc) := WriterStep(r.epoch, s, r.wpc[s], r.sh);
    var v := r.apc[s].v;
    OwnVersion(r.sh.heap, r.apc, r.wpc, r.epoch, x, s);
    assert sh'.heap == r.sh.heap[v := sh'.heap[v]];
    OldWithMoreHeap(r.sh.slots, r.sh.heap, sh'.heap, x, r.base);
    WrittenHandles(r.sh.heap, sh'.heap, r.apc, r.wpc, r.epoch, x, s, pc);
    WrittenHeap(r.sh.slots, r.sh.heap, sh'.heap, r.sh.created, r.sh.deleted, r.apc, x, v);
    WrittenReaders(r, s, sh');
    AssembleWrite(r, s, sh', pc);
  }

  lemma WriterHasVersion(r: Row, s: nat)
    requires Shape(r) && r.phase.ExecPhase? && s in r.wpc
    ensures s in r.apc && r.apc[s].ADone? && r.wpc[s].v == r.apc[s].v
  {
  }

  lemma OwnVersion(heap: map<VersionId, Cell>, apc: map<nat, AppendPc>, wpc: map<nat, WriterPc>, epoch: nat, x: int, s: nat)
    requires HandlesOk(heap, apc, wpc, epoch, x) && s in apc && HasVersion(apc[s])
    ensures apc[s].v in heap && heap[apc[s].v] == Content(epoch, x, s, wpc)
  {
    hide Content;
  }

  lemma WrittenHandles(heap: map<VersionId, Cell>, heap': map<VersionId, Cell>, apc: map<nat, AppendPc>,
                       wpc: map<nat, WriterPc>,
                       epoch: nat, x: int, s: nat, pc: WriterPc)
    requires HandlesOk(heap, apc, wpc, epoch, x) && s in apc && HasVersion(apc[s]) && s in wpc
    requires apc[s].v in heap' && heap' == heap[apc[s].v := heap'[apc[s].v]]
    requires heap'[apc[s].v] == Content(epoch, x, s, wpc[s := pc])
    ensures HandlesOk(heap', apc, wpc[s := pc], epoch, x)
  {
  }

  lemma WrittenHeap(slots: seq<Slot>, heap: map<VersionId, Cell>, heap': map<VersionId, Cell>, created: nat, deleted: nat,
                    apc: map<nat, AppendPc>, x: int, v: VersionId)
    requires HeapOk(slots, heap, created, deleted, apc, x) && v in heap && v in heap'
    requires heap' == heap[v := heap'[v]] && heap'[v].owner == heap[v].owner
    ensures HeapOk(slots, heap', created, deleted, apc, x)
  {
    hide Has, Handed;
    assert heap'.Keys == heap.Keys;
  }

  lemma WrittenReaders(r: Row, s: nat, sh': Shared)
    requires ReadersOk(r) && s in r.wpc && r.wpc[s].v in r.sh.heap && r.wpc[s].v in sh'.heap
    requires sh' == r.sh.(heap := r.sh.heap[r.wpc[s].v := sh'.heap[r.wpc[s].v]])
    requires r.sh.heap[r.wpc[s].v].status == Stable ==> sh'.heap[r.wpc[s].v].status == Stable
    ensures forall t :: t in r.rpc ==>
      ReaderOk(r.sh.slots, sh'.heap, r.apc.Keys, r.epoch, Base(r.epoch), r.base, t, r.rpc[t])
  {
    hide LowerBound, Outcome, TagOf;
  }

  lemma AssembleWrite(r: Row, s: nat, sh': Shared, pc: WriterPc)
    requires Inv(r) && Enabled(r, Writer(s)) && WriterStep(r.epoch, s, r.wpc[s], r.sh) == (sh', pc)
    requires sh' == r.sh.(heap := sh'.heap) && pc.v == r.wpc[s].v
    requires OldOk(sh'.slots, sh'.heap, Base(r.epoch), r.base)
    requires HandlesOk(sh'.heap, r.apc, r.wpc[s := pc], r.epoch, Base(r.epoch))
    requires HeapOk(sh'.slots, sh'.heap, sh'.created, sh'.deleted, r.apc, Base(r.epoch))
    requires forall t :: t in r.rpc ==>
      ReaderOk(r.sh.slots, sh'.heap, r.apc.Keys, r.epoch, Base(r.epoch), r.base, t, r.rpc[t])
    ensures Inv(Step(r, Writer(s)))
  {
    hide LockOk, OrderOk, OldOk, ContentOk, HandlesOk, HeapOk, WriterStep, ReaderOk, Cores, Base, LowerBound;
    assert r.wpc[s := pc].Keys == r.wpc.Keys;
    SameBuffers(r.sh, sh', r.cap, r.apc, r.fpc);
    hide BuffersOk;
  }

  lemma SameBuffers(sh: Shared, sh': Shared, cap: nat, apc: map<nat, AppendPc>, fpc: map<nat, FlushPc>)
    requires BuffersOk(sh, cap, apc, fpc)
    requires sh'.buffers == sh.buffers && sh'.recorded == sh.recorded && sh'.installed == sh.installed
    requires sh'.contended == sh.contended
    ensures BuffersOk(sh', cap, apc, fpc)
  {
  }

  /** Every interleaving: whoever takes the next step of the row, the invariant holds afterwards. */
  lemma StepKeepsInv(r: Row, a: Actor)
    requires Inv(r) && Enabled(r, a)
    ensures Inv(Step(r, a))
  {
    hide Inv, Step, Enabled;
    match a
    case Appender(s) => AppendStepKeeps(r, s);
    case Flusher(c) => FlushStepKeeps(r, c);
    case Reader(s) => ReaderStepKeeps(r, s);
    case Writer(s) => WriterStepKeeps(r, s);
  }

  // ---------- the barriers ----------

  lemma NobodyInLock(r: Row)
    requires Inv(r) && (r.phase.ExecPhase? || PhaseDone(r))
    ensures r.sh.cnt == 0 && r.sh.holder == None
  {
    hide OrderOk, OldOk, ContentOk, HandlesOk, HeapOk, BuffersOk, ReadersOk;
  }

  lemma FreshActors(r: Row)
    requires |r.sh.buffers| == WIDTH && r.cap >= 1
    requires forall c: nat :: c < WIDTH ==> r.sh.buffers[c] == []
    requires forall s :: s in r.apc ==> r.apc[s].ALoad?
    requires forall c :: c in r.fpc ==> r.fpc[c].FCheck?
    requires forall s :: s in r.rpc ==> r.rpc[s].RSearch?
    requires r.sh.cnt == 0 && r.sh.holder == None && r.sh.recorded == {} && (r.sh.installed ==> r.sh.contended)
    ensures LockOk(r.sh.cnt, r.sh.holder, r.apc, r.fpc) && OrderOk(r.apc, r.fpc)
    ensures BuffersOk(r.sh, r.cap, r.apc, r.fpc) && ReadersOk(r)
  {
    hide LowerBound;
  }

  lemma FreshContent(r: Row, x: int)
    requires |r.sh.buffers| == WIDTH
    requires forall c: nat :: c < WIDTH ==> r.sh.buffers[c] == []
    requires forall s :: s in r.apc ==> r.apc[s].ALoad?
    requires forall id: int, v: VersionId :: Has(r.sh.slots, id, v) ==> id < x
    ensures ContentOk(r.sh.slots, r.sh.buffers, r.apc, x)
    ensures HandlesOk(r.sh.heap, r.apc, r.wpc, r.epoch, x)
  {
    hide Has, HasId, Handed, Rightful;
    EmptyHasNothing();
  }

  /** The beginning of an epoch, over an array that is in order. */
  lemma StartEpochInv(epoch: nat, cap: nat, base: Slot, sh: Shared, writers: set<nat>, readers: set<nat>)
    requires |sh.buffers| == WIDTH && cap >= 1 && epoch + 1 < LOW && !sh.fault && sh.cnt == 0 && sh.holder == None
    requires sh.recorded == {} && (sh.installed ==> sh.contended)
    requires (forall s :: s in writers ==> s < EPOCH_SIZE) && (forall s :: s in readers ==> s < EPOCH_SIZE)
    requires forall c: nat :: c < WIDTH ==> sh.buffers[c] == []
    requires OldOk(sh.slots, sh.heap, Base(epoch), base)
    requires forall id: int, v: VersionId :: Has(sh.slots, id, v) ==> id < Base(epoch)
    requires forall v :: v in sh.heap ==> v <= sh.created && Has(sh.slots, sh.heap[v].owner, v)
    requires sh.created + 1 == |sh.heap| + sh.deleted
    ensures Inv(StartEpoch(epoch, cap, base, sh, writers, readers))
  {
    hide StartEpoch, Inv, LockOk, OrderOk, OldOk, ContentOk, HandlesOk, HeapOk, BuffersOk, ReadersOk, Has, Handed,
      Base, Cores;
    var r := StartEpoch(epoch, cap, base, sh, writers, readers);
    StartFields(epoch, cap, base, sh, writers, readers);
    FreshActors(r);
    FreshContent(r, Base(epoch));
    FreshHeap(sh, r.apc, Base(epoch));
    AssembleStart(r);
  }

  lemma FreshHeap(sh: Shared, apc: map<nat, AppendPc>, x: int)
    requires forall v :: v in sh.heap ==> v <= sh.created && Has(sh.slots, sh.heap[v].owner, v)
    requires sh.created + 1 == |sh.heap| + sh.deleted
    ensures HeapOk(sh.slots, sh.heap, sh.created, sh.deleted, apc, x)
  {
    hide Has, Handed;
  }

  lemma AssembleStart(r: Row)
    requires |r.sh.buffers| == WIDTH && r.cap >= 1 && r.epoch + 1 < LOW && !r.sh.fault && r.phase.InitPhase?
    requires forall s :: s in r.apc.Keys ==> s < EPOCH_SIZE
    requires forall s :: s in r.rpc ==> s < EPOCH_SIZE && r.rpc[s].RSearch?
    requires r.fpc.Keys == Cores() && r.wpc == map[]
    requires LockOk(r.sh.cnt, r.sh.holder, r.apc, r.fpc) && OrderOk(r.apc, r.fpc)
    requires OldOk(r.sh.slots, r.sh.heap, Base(r.epoch), r.base)
    requires ContentOk(r.sh.slots, r.sh.buffers, r.apc, Base(r.epoch))
    requires HandlesOk(r.sh.heap, r.apc, r.wpc, r.epoch, Base(r.epoch))
    requires HeapOk(r.sh.slots, r.sh.heap, r.sh.created, r.sh.deleted, r.apc, Base(r.epoch))
    requires BuffersOk(r.sh, r.cap, r.apc, r.fpc) && ReadersOk(r)
    ensures Inv(r)
  {
    hide LockOk, OrderOk, OldOk, ContentOk, HandlesOk, HeapOk, BuffersOk, ReadersOk, Base, Cores;
  }

  lemma StartFields(epoch: nat, cap: nat, base: Slot, sh: Shared, writers: set<nat>, readers: set<nat>)
    ensures var r := StartEpoch(epoch, cap, base, sh, writers, readers);
      && r.base == base && r.epoch == epoch && r.apc.Keys == writers && r.rpc.Keys == readers && r.phase.InitPhase?
      && r.cap == cap && r.sh == sh && r.fpc.Keys == Cores() && r.wpc == map[]
      && (forall s :: s in r.apc ==> r.apc[s].ALoad?)
      && (forall c :: c in r.fpc ==> r.fpc[c].FCheck?)
      && (forall s :: s in r.rpc ==> r.rpc[s].RSearch?)
  {
    hide AllAt, Cores;
    assert StartEpoch(epoch, cap, base, sh, writers, readers).wpc.Keys == {};
  }

  /** The loader's row satisfies the invariant. */
  lemma InitialInv(cap: nat, writers: set<nat>, readers: set<nat>)
    requires cap >= 1 && (forall s :: s in writers ==> s < EPOCH_SIZE) && (forall s :: s in readers ==> s < EPOCH_SIZE)
    ensures Inv(Initial(cap, writers, readers))
    ensures Initial(cap, writers, readers).base == Slot(0, 0)
    ensures TagOf(0) == Loaded
  {
    hide AllAt, Inv, StartEpoch;
    var a := [Slot(0, 0)];
    var heap := map[0 := Cell(Some(Loaded), Stable, 0)];
    assert Has(a, 0, 0) by { assert a[0] == Slot(0, 0); }
    assert Base(0) == LOW;
    BoundIsUnique(a, Base(0), 1);
    StartEpochInv(0, cap, Slot(0, 0), Shared(a, 0, false, seq(WIDTH, _ => []), {}, heap, 0, 0, false, None, false), writers, readers);
    StartFields(0, cap, Slot(0, 0), Shared(a, 0, false, seq(WIDTH, _ => []), {}, heap, 0, 0, false, None, false), writers, readers);
  }

  // from the initialization phase to the execution phase

  lemma ToExec(r: Row, writers: set<nat>, readers: set<nat>)
    requires Inv(r) && PhaseDone(r) && r.phase.InitPhase?
    ensures Inv(Advance(r, writers, readers))
    ensures Advance(r, writers, readers) == r.(phase := ExecPhase, wpc := WritersFrom(r.apc))
  {
    hide LockOk, OrderOk, OldOk, ContentOk, HandlesOk, HeapOk, BuffersOk, ReadersOk, Base, WritersFrom;
    FreshWriters(r.apc);
    NewWriters(r.sh.heap, r.apc, r.epoch, Base(r.epoch));
    IdleReaders(r.(phase := ExecPhase, wpc := WritersFrom(r.apc)));
    AssembleExec(r, WritersFrom(r.apc));
  }

  lemma AssembleExec(r: Row, wpc: map<nat, WriterPc>)
    requires Inv(r) && PhaseDone(r) && r.phase.InitPhase? && wpc.Keys == r.apc.Keys
    requires forall s :: s in wpc ==> wpc[s].v == r.apc[s].v
    requires HandlesOk(r.sh.heap, r.apc, wpc, r.epoch, Base(r.epoch))
    requires ReadersOk(r.(phase := ExecPhase, wpc := wpc))
    ensures Inv(r.(phase := ExecPhase, wpc := wpc))
  {
    hide LockOk, OrderOk, OldOk, ContentOk, HandlesOk, HeapOk, BuffersOk, ReadersOk, Base;
  }

  lemma FreshWriters(apc: map<nat, AppendPc>)
    ensures WritersFrom(apc).Keys == apc.Keys
    ensures forall s :: s in apc && apc[s].ADone? ==> WritersFrom(apc)[s] == WStoreRec(apc[s].v)
  {
  }

  lemma NewWriters(heap: map<VersionId, Cell>, apc: map<nat, AppendPc>, epoch: nat, x: int)
    requires HandlesOk(heap, apc, map[], epoch, x) && forall s :: s in apc ==> apc[s].ADone?
    ensures HandlesOk(heap, apc, WritersFrom(apc), epoch, x)
  {
    hide WritersFrom;
    FreshWriters(apc);
  }

  // from one epoch to the next

  /** At the end of the epoch everything in the array is STABLE and holds what its id says. */
  lemma EndContent(r: Row, id: int, v: VersionId)
    requires Inv(r) && PhaseDone(r) && r.phase.ExecPhase? && Has(r.sh.slots, id, v)
    ensures 0 <= id < Base(r.epoch) + EPOCH_SIZE
    ensures v in r.sh.heap && r.sh.heap[v] == Cell(Some(TagOf(id)), Stable, id)
  {
    hide LowerBound, TagOf, Base, Has, HasId, Sorted, LockOk, OrderOk, BuffersOk, ReadersOk, HeapOk;
    var x := Base(r.epoch);
    if id >= x {
      assert ContentOk(r.sh.slots, r.sh.buffers, r.apc, x);
      hide ContentOk, OldOk;
      SlotEntry(r.sh.slots, r.sh.buffers, r.apc, x, id, v);
      TagOfPacked(r.epoch, id - x);
    }
  }

  lemma EndOld(r: Row)
    requires Inv(r) && PhaseDone(r) && r.phase.ExecPhase? && r.epoch + 2 < LOW
    ensures OldOk(r.sh.slots, r.sh.heap, Base(r.epoch + 1), Last(r.sh.slots))
    ensures forall id: int, v: VersionId :: Has(r.sh.slots, id, v) ==> id < Base(r.epoch + 1)
  {
    hide Inv, TagOf, Base, Has, PhaseDone, LowerBound;
    BaseGrows(r.epoch);
    forall id: int, v: VersionId | Has(r.sh.slots, id, v)
      ensures 0 <= id < Base(r.epoch + 1) && v in r.sh.heap && r.sh.heap[v] == Cell(Some(TagOf(id)), Stable, id)
    {
      EndContent(r, id, v);
    }
    SearchSucceeds(r, 0);
    WholeArrayIsOld(r.sh.slots, Base(r.epoch + 1));
  }

  lemma WholeArrayIsOld(a: seq<Slot>, x: int)
    requires forall id: int, v: VersionId :: Has(a, id, v) ==> id < x
    ensures LowerBound(a, x) == |a|
  {
    forall i | 0 <= i < |a|
      ensures a[i].id < x
    {
      assert a[i] == Slot(a[i].id, a[i].v) && Has(a, a[i].id, a[i].v);
    }
    BoundIsUnique(a, x, |a|);
  }

  lemma EndHeap(r: Row)
    requires Inv(r) && r.phase.ExecPhase?
    ensures forall v :: v in r.sh.heap ==> v <= r.sh.created && Has(r.sh.slots, r.sh.heap[v].owner, v)
    ensures r.sh.created + 1 == |r.sh.heap| + r.sh.deleted
  {
    hide Inv, Has, OldOk, ContentOk, HandlesOk, ReadersOk;
    ExecParts(r);
    forall v | v in r.sh.heap
      ensures v <= r.sh.created && Has(r.sh.slots, r.sh.heap[v].owner, v)
    {
      var owner := r.sh.heap[v].owner;
      if Handed(r.apc, Base(r.epoch), owner, v) { AllInArray(r, owner - Base(r.epoch)); }
    }
  }

  /** The last entry is what a read behind all writers of the epoch would find. */
  lemma LastIsOutcome(r: Row)
    requires Inv(r) && PhaseDone(r) && r.phase.ExecPhase?
    ensures TagOf(Last(r.sh.slots).id) == Outcome(r.apc.Keys, r.epoch, TagOf(r.base.id), EPOCH_SIZE)
  {
    hide Inv, TagOf, Has, LowerBound, PhaseDone;
    forall id: int, v: VersionId | Has(r.sh.slots, id, v)
      ensures id < Base(r.epoch) + EPOCH_SIZE
    {
      EndContent(r, id, v);
    }
    WholeArrayIsOld(r.sh.slots, Base(r.epoch) + EPOCH_SIZE);
    SearchSucceeds(r, EPOCH_SIZE);
    FoundContent(r, EPOCH_SIZE);
    var last := Last(r.sh.slots);
    assert last == Found(r, EPOCH_SIZE);
    LastEntry(r.sh.slots);
    EndContent(r, last.id, last.v);
  }

  lemma LastEntry(a: seq<Slot>)
    requires a != []
    ensures Has(a, Last(a).id, Last(a).v)
  {
    assert a[|a| - 1] == Slot(Last(a).id, Last(a).v);
  }

  lemma ToNextEpoch(r: Row, writers: set<nat>, readers: set<nat>)
    requires Inv(r) && PhaseDone(r) && r.phase.ExecPhase? && r.epoch + 2 < LOW
    requires (forall s :: s in writers ==> s < EPOCH_SIZE) && (forall s :: s in readers ==> s < EPOCH_SIZE)
    ensures Inv(Advance(r, writers, readers))
    ensures Advance(r, writers, readers).base == Last(r.sh.slots)
  {
    hide Inv, OldOk, Has, Base, StartEpoch, PhaseDone, Last, Advance;
    EndOld(r);
    EndHeap(r);
    BuffersAreEmpty(r);
    NobodyInLock(r);
    FixedParts(r);
    StartEpochInv(r.epoch + 1, r.cap, Last(r.sh.slots), r.sh, writers, readers);
    StartFields(r.epoch + 1, r.cap, Last(r.sh.slots), r.sh, writers, readers);
    AdvanceIsStart(r, writers, readers);
  }

  lemma FixedParts(r: Row)
    requires Inv(r)
    ensures |r.sh.buffers| == WIDTH && r.cap >= 1 && !r.sh.fault
  {
    hide LockOk, OrderOk, OldOk, ContentOk, HandlesOk, HeapOk, BuffersOk, ReadersOk;
  }

  lemma AdvanceIsStart(r: Row, writers: set<nat>, readers: set<nat>)
    requires PhaseDone(r) && r.phase.ExecPhase?
    ensures Advance(r, writers, readers) == StartEpoch(r.epoch + 1, r.cap, Last(r.sh.slots), r.sh, writers, readers)
  {
    hide AllAt;
  }
}
