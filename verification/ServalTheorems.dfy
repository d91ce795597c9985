/** The execution phase and the barriers of a Serval row. */
module ServalTheorems {
  import opened Bits
  import opened TwoLevelBitmap
  import opened Versions
  import opened SortedSlots
  import opened ServalRegion
  import opened ServalRow
  import opened ServalInvariant
  import opened ServalData
  import opened ServalSteps

  // ---------- what the row holds in the execution phase ----------

  lemma DataIn(sh: Shared, apc: map<nat, AppendPc>, wpc: map<nat, WriterPc>, epoch: nat, base: Tag, before: Tag)
    requires Data(sh, apc, wpc, epoch, base, before)
    ensures StoreOk(sh.slots, sh.region)
    ensures sh.inits == 1 ==> ContentOk(sh.slots, sh.region, apc)
    ensures sh.inits != 1 ==> RestOk(sh.slots, sh.region, sh.heap, base)
    ensures MasterOk(sh.heap, sh.master, if sh.inits == 1 then base else before, epoch)
    ensures PlaceOk(sh.slots, sh.region, sh.heap, sh.master) && StaleOk(sh.region, sh.heap, epoch)
    ensures CellsOk(sh.heap, apc, epoch)
    ensures HeapOk(sh.slots, sh.region, sh.heap, sh.master, sh.created, sh.deleted)
    ensures HandlesOk(sh.heap, apc, wpc, epoch)
  {
    hide StoreOk, ContentOk, RestOk, MasterOk, PlaceOk, StaleOk, CellsOk, HeapOk, HandlesOk;
  }

  lemma InvParts(r: Row)
    requires Inv(r)
    ensures Shape(r) && LockOk(r.sh.cnt, r.sh.holder, r.apc) && OrderOk(r.apc)
    ensures GuardOk(r.sh.epoch, r.sh.inits, r.epoch, r.apc) && RegionPcOk(r.sh.region, r.apc) && RouteOk(r.sh, r.apc)
    ensures Data(r.sh, r.apc, r.wpc, r.epoch, r.base, r.before) && ReadersOk(r)
  {
    hide Shape, LockOk, OrderOk, GuardOk, RegionPcOk, RouteOk, Data, ReadersOk;
  }

  /** Every appender is done: the phase has been completed or is over. */
  ghost predicate AllDone(r: Row) {
    r.phase.ExecPhase? || PhaseDone(r)
  }

  /** The row was written in this epoch exactly when it was initialized in it. */
  lemma WrittenMeansInitialized(r: Row)
    requires Inv(r) && AllDone(r)
    ensures r.apc.Keys != {} ==> r.sh.epoch == r.epoch + 1 && r.sh.inits == 1
    ensures r.apc.Keys == {} ==> r.sh.epoch <= r.epoch && r.sh.inits == 0
    ensures forall s :: s in r.apc ==> r.apc[s].ADone? && Handed(r.apc, s, r.apc[s].v)
  {
    InvParts(r);
    hide LockOk, OrderOk, RegionPcOk, Data, ReadersOk;
    if r.apc.Keys != {} {
      var s :| s in r.apc.Keys;
      assert !AtGuard(r.apc[s]);
    }
  }

  lemma RegionSettled(r: Row)
    requires Inv(r) && AllDone(r) && r.sh.region.Some?
    ensures |r.sh.region.value.arrays| == WIDTH && Settled(r.sh.region.value)
  {
    InvParts(r);
    hide LockOk, OrderOk, GuardOk, Data, ReadersOk;
  }

  // ---------- lookups ----------

  /** An entry with the greatest serial id below the reader's is the visible write. */
  lemma VisibleEntry(slots: seq<Slot>, region: Option<Region>, apc: map<nat, AppendPc>, s: nat, id: int, v: VersionId)
    requires ContentOk(slots, region, apc) && Stored(slots, region, id, v) && id < s
    requires forall t :: t in apc ==> apc[t].ADone?
    requires forall id': int, v': VersionId :: Stored(slots, region, id', v') && id' < s ==> id' <= id
    ensures 0 <= id && Handed(apc, id, v) && Visible(apc.Keys, s) == Some(id)
  {
    hide Stored;
    StoredIsHanded(slots, region, apc, id, v);
    forall t | t in apc.Keys && t < s
      ensures t <= id
    {
      StoredIsHanded(slots, region, apc, t, apc[t].v);
    }
    VisibleIsUnique(apc.Keys, s, id);
  }

  lemma NoVisibleEntry(slots: seq<Slot>, region: Option<Region>, apc: map<nat, AppendPc>, s: nat)
    requires ContentOk(slots, region, apc)
    requires forall t :: t in apc ==> apc[t].ADone?
    requires forall id: int, v: VersionId :: Stored(slots, region, id, v) ==> s <= id
    ensures Visible(apc.Keys, s) == None
  {
    hide Stored;
    forall t | t in apc.Keys
      ensures s <= t
    {
      StoredIsHanded(slots, region, apc, t, apc[t].v);
    }
  }

  /** What a lookup returns: the version of the largest smaller writer, if there is one. */
  ghost predicate IsFound(apc: map<nat, AppendPc>, s: nat, res: Option<VersionId>) {
    match Visible(apc.Keys, s)
    case Some(t) => res.Some? && Handed(apc, t, res.value)
    case None => res == None
  }

  lemma LookupInArray(sh: Shared, apc: map<nat, AppendPc>, s: nat)
    requires StoreOk(sh.slots, sh.region) && ContentOk(sh.slots, sh.region, apc) && sh.slots != [] && s < EPOCH_SIZE
    requires forall t :: t in apc ==> apc[t].ADone?
    ensures Lookup(s, sh).0 == sh && IsFound(apc, s, Lookup(s, sh).1)
  {
    hide LowerBound, ContentOk, Handed, Has, IsVisible, Sorted;
    SearchFindsVisible(sh.slots, s);
    FirstIsVisible(sh.slots, s);
    var p := LowerBound(sh.slots, s);
    if p > 0 {
      var id, v := sh.slots[p - 1].id, sh.slots[p - 1].v;
      VisibleInVector(sh.slots, s, id, v);
      forall id': int, v': VersionId | Stored(sh.slots, sh.region, id', v') && id' < s
        ensures id' <= id
      {
        HasIdIsHas(sh.slots, id');
        VisibleInVectorIsMax(sh.slots, s, id, v, id');
      }
      VisibleEntry(sh.slots, sh.region, apc, s, id, v);
    } else {
      forall id': int, v': VersionId | Stored(sh.slots, sh.region, id', v')
        ensures s <= id'
      {
        HasIdIsHas(sh.slots, id');
      }
      NoVisibleEntry(sh.slots, sh.region, apc, s);
    }
  }

  /** The lookup when the row's versions are in its region. */
  lemma LookupIsIdentifyThenGet(sh: Shared, s: nat)
    requires sh.slots == [] && sh.region.Some? && s < EPOCH_SIZE && HasDirtyRegion(sh)
    requires RegionOk(sh.region.value) && Settled(sh.region.value)
    ensures var g := sh.region.value; var (found, c, t) := ServalRegion.IdentifyVisible(g, s / WIDTH, s % WIDTH);
      && (!found ==> Lookup(s, sh) == (sh, None))
      && (found && c < WIDTH && t < WIDTH && 0 <= IndexOf(g.arrays[c], t) < |g.arrays[c].slots| && c * WIDTH + t < s
          ==> Lookup(s, sh) == (sh, Some(g.arrays[c].slots[IndexOf(g.arrays[c], t)])))
  {
    hide ServalRegion.IdentifyVisible, RegionOk, Settled, IndexOf;
    RegionArrays(sh.region.value);
  }

  lemma LookupInRegion(sh: Shared, apc: map<nat, AppendPc>, s: nat)
    requires StoreOk(sh.slots, sh.region) && ContentOk(sh.slots, sh.region, apc) && s < EPOCH_SIZE
    requires sh.region.Some? && HasDirtyRegion(sh) && RegionOk(sh.region.value) && Settled(sh.region.value)
    requires forall t :: t in apc ==> apc[t].ADone?
    ensures Lookup(s, sh).0 == sh && IsFound(apc, s, Lookup(s, sh).1)
  {
    hide ContentOk, Handed, RegionHas, RegionHasId, RegionOk, Settled, IsVisibleId, ServalRegion.IdentifyVisible,
      IndexOf, Lookup, Sorted, HasDirtyRegion;
    var g := sh.region.value;
    RegionArrays(g);
    LookupIsIdentifyThenGet(sh, s);
    ServalRegion.IdentifyVisibleIsMaxBelow(g, s / WIDTH, s % WIDTH);
    var (found, c, t) := ServalRegion.IdentifyVisible(g, s / WIDTH, s % WIDTH);
    if found {
      var id := c * WIDTH + t;
      VisibleIdHas(g, s, id);
      RegionHasIdIsHas(g, id);
      var v: VersionId :| RegionHas(g, id, v);
      GetFinds(g, c, t, v);
      forall id': int, v': VersionId | Stored(sh.slots, sh.region, id', v') && id' < s
        ensures id' <= id
      {
        RegionHasIdIsHas(g, id');
        VisibleIdIsMax(g, s, id, id');
      }
      VisibleEntry(sh.slots, sh.region, apc, s, id, v);
    } else {
      forall id': int, v': VersionId | Stored(sh.slots, sh.region, id', v')
        ensures s <= id'
      {
        RegionHasIdIsHas(g, id');
      }
      NoVisibleEntry(sh.slots, sh.region, apc, s);
    }
  }

  /** A row written in the epoch has its versions in the array or in the region. */
  lemma WrittenIsDirty(r: Row)
    requires Inv(r) && AllDone(r) && r.apc.Keys != {}
    ensures r.sh.slots != [] || HasDirtyRegion(r.sh)
  {
    hide Handed, Inv, AllDone, RegionHas;
    WrittenMeansInitialized(r);
    InvParts(r);
    DataIn(r.sh, r.apc, r.wpc, r.epoch, r.base, r.before);
    hide Data, ContentOk, PlaceOk, MasterOk, StaleOk, CellsOk, HeapOk, HandlesOk;
    var s :| s in r.apc.Keys;
    StoredIsHanded(r.sh.slots, r.sh.region, r.apc, s, r.apc[s].v);
    if r.sh.region.Some? {
      HasInArray(r.sh.region.value, s, r.apc[s].v);
      NonZeroHasPosition(r.sh.region.value.core);
    }
  }

  /** Bitmap lookup with rank indexing, or the search in the global array, finds the largest smaller writer's version. */
  lemma LookupFindsVisible(r: Row, s: nat)
    requires Inv(r) && AllDone(r) && r.apc.Keys != {} && s < EPOCH_SIZE
    ensures Lookup(s, r.sh).0 == r.sh && IsFound(r.apc, s, Lookup(s, r.sh).1)
  {
    hide Inv, AllDone, Handed, Lookup, IsFound, HasDirtyRegion, ContentOk, Settled;
    WrittenMeansInitialized(r);
    WrittenIsDirty(r);
    InvParts(r);
    DataIn(r.sh, r.apc, r.wpc, r.epoch, r.base, r.before);
    hide Data, PlaceOk, MasterOk, StaleOk, CellsOk, HeapOk, HandlesOk;
    if r.sh.slots != [] {
      LookupInArray(r.sh, r.apc, s);
    } else {
      DirtyIsSome(r.sh);
      RegionSettled(r);
      NoSlots(r.sh.slots, r.sh.region.value);
      LookupInRegion(r.sh, r.apc, s);
    }
  }

  lemma DirtyIsSome(sh: Shared)
    ensures HasDirtyRegion(sh) ==> sh.region.Some?
  {
  }

  // ---------- reads ----------

  lemma OneReader(r: Row, s: nat)
    requires ReadersOk(r) && s in r.rpc
    ensures ReaderOk(r.sh, r.apc, r.epoch, r.base, r.before, s, r.rpc[s])
  {
    hide ReaderOk;
  }

  lemma AssembleRead(r: Row, s: nat, pc: ReaderPc)
    requires Inv(r) && Enabled(r, Reader(s)) && ReaderStep(r.epoch, s, r.rpc[s], r.sh) == (r.sh, pc)
    requires ReaderOk(r.sh, r.apc, r.epoch, r.base, r.before, s, pc)
    ensures Inv(Step(r, Reader(s)))
  {
    hide LockOk, OrderOk, GuardOk, RegionPcOk, RouteOk, Data, ReaderStep, ReaderOk;
  }

  /** What is known about the versions that a read may arrive at. */
  ghost predicate AnswersOk(sh: Shared, apc: map<nat, AppendPc>, epoch: nat, base: Tag, before: Tag, s: nat) {
    && sh.master in sh.heap && sh.heap[sh.master].status == Stable
    && sh.heap[sh.master].rec == Some(if sh.epoch == epoch + 1 then base else before)
    && (sh.epoch == epoch + 1 <==> apc.Keys != {})
    && (sh.epoch == epoch + 1 ==> s < EPOCH_SIZE && Lookup(s, sh).0 == sh && IsFound(apc, s, Lookup(s, sh).1))
    && (forall t: nat, v: VersionId :: Visible(apc.Keys, s) == Some(t) && Handed(apc, t, v) ==>
          v in sh.heap && (sh.heap[v].status == Stable ==> sh.heap[v].rec == Some(Written(epoch, t))))
  }

  lemma AnswersAreOk(r: Row, s: nat)
    requires Inv(r) && r.phase.ExecPhase? && s < EPOCH_SIZE
    ensures AnswersOk(r.sh, r.apc, r.epoch, r.base, r.before, s)
  {
    hide Inv, Handed, Lookup, IsFound, Visible, RouteOk, Waiting;
    WrittenMeansInitialized(r);
    if r.apc.Keys != {} { LookupFindsVisible(r, s); }
    InvParts(r);
    DataIn(r.sh, r.apc, r.wpc, r.epoch, r.base, r.before);
    hide Data, StoreOk, ContentOk, RestOk, PlaceOk, StaleOk, CellsOk, HeapOk, ReadersOk, LockOk, OrderOk, GuardOk,
      RegionPcOk;
    forall t: nat, v: VersionId | Handed(r.apc, t, v)
      ensures v in r.sh.heap && (r.sh.heap[v].status == Stable ==> r.sh.heap[v].rec == Some(Written(r.epoch, t)))
    {
      HandedContent(r.sh.heap, r.apc, r.wpc, r.epoch, t, v);
    }
  }

  lemma HandedContent(heap: map<VersionId, Cell>, apc: map<nat, AppendPc>, wpc: map<nat, WriterPc>, epoch: nat, t: nat,
                      v: VersionId)
    requires HandlesOk(heap, apc, wpc, epoch) && Handed(apc, t, v)
    ensures t in apc && v in heap && heap[v] == Content(epoch, t, wpc)
    ensures heap[v].status == Stable ==> heap[v].rec == Some(Written(epoch, t))
  {
  }

  lemma ReadOk(sh: Shared, apc: map<nat, AppendPc>, epoch: nat, base: Tag, before: Tag, s: nat, pc: ReaderPc)
    requires s < EPOCH_SIZE && !pc.Done? && ReaderOk(sh, apc, epoch, base, before, s, pc) && AnswersOk(sh, apc, epoch, base, before, s)
    requires pc.Wait? && pc.v in sh.heap ==> sh.heap[pc.v].status == Stable
    ensures ReaderStep(epoch, s, pc, sh).0 == sh
    ensures ReaderOk(sh, apc, epoch, base, before, s, ReaderStep(epoch, s, pc, sh).1)
  {
    hide Lookup, Visible, Handed;
  }

  lemma ReaderStepKeeps(r: Row, s: nat)
    requires Inv(r) && Enabled(r, Reader(s))
    ensures Inv(Step(r, Reader(s)))
  {
    hide Inv, ReaderStep, ReaderOk, AnswersOk, Shape, LockOk, OrderOk, GuardOk, RegionPcOk, Data, ReadersOk;
    InvParts(r);
    OneReader(r, s);
    AnswersAreOk(r, s);
    ReadOk(r.sh, r.apc, r.epoch, r.base, r.before, s, r.rpc[s]);
    AssembleRead(r, s, ReaderStep(r.epoch, s, r.rpc[s], r.sh).1);
  }

  // ---------- writes ----------

  /** One version changes its content and keeps its owner. */
  ghost predicate Filled(heap: map<VersionId, Cell>, heap': map<VersionId, Cell>, v: VersionId) {
    v in heap && v in heap' && heap' == heap[v := heap'[v]] && heap'[v].owner == heap[v].owner
  }

  lemma FilledPlace(slots: seq<Slot>, region: Option<Region>, heap: map<VersionId, Cell>, heap': map<VersionId, Cell>,
                    master: VersionId, v: VersionId, epoch: nat)
    requires PlaceOk(slots, region, heap, master) && StaleOk(region, heap, epoch) && Filled(heap, heap', v)
    ensures PlaceOk(slots, region, heap', master) && StaleOk(region, heap', epoch)
  {
    hide Has;
    if region.Some? {
      forall c: nat | c < WIDTH
        ensures ArrayOk(heap', master, region.value.arrays[c].slots, c)
      {
        assert ArrayOk(heap, master, region.value.arrays[c].slots, c);
        FilledArray(heap, heap', master, region.value.arrays[c].slots, c, v);
      }
    }
  }

  lemma FilledArray(heap: map<VersionId, Cell>, heap': map<VersionId, Cell>, master: VersionId, vs: seq<VersionId>,
                    c: nat, v: VersionId)
    requires ArrayOk(heap, master, vs, c) && Filled(heap, heap', v)
    ensures ArrayOk(heap', master, vs, c)
  {
    forall i, j | 0 <= i < j < |vs|
      ensures SmallerSerial(heap', vs[i], vs[j])
    {
      assert SmallerSerial(heap, vs[i], vs[j]);
    }
  }

  lemma FilledHeap(slots: seq<Slot>, region: Option<Region>, heap: map<VersionId, Cell>, heap': map<VersionId, Cell>,
                   master: VersionId,
                   created: nat, deleted: nat, v: VersionId)
    requires HeapOk(slots, region, heap, master, created, deleted) && Filled(heap, heap', v)
    ensures HeapOk(slots, region, heap', master, created, deleted)
  {
    hide Located;
    assert heap'.Keys == heap.Keys;
  }

  lemma FilledCells(heap: map<VersionId, Cell>, heap': map<VersionId, Cell>, apc: map<nat, AppendPc>,
                    master: VersionId, tag: Tag, epoch: nat, v: VersionId)
    requires CellsOk(heap, apc, epoch) && MasterOk(heap, master, tag, epoch) && Filled(heap, heap', v) && Current(heap[v].owner, epoch)
    ensures CellsOk(heap', apc, epoch) && MasterOk(heap', master, tag, epoch)
  {
    hide Handed;
  }

  lemma FilledHandles(heap: map<VersionId, Cell>, heap': map<VersionId, Cell>, apc: map<nat, AppendPc>,
                      wpc: map<nat, WriterPc>,
                      epoch: nat, s: nat, pc: WriterPc)
    requires HandlesOk(heap, apc, wpc, epoch) && s in apc && HasVersion(apc[s]) && s in wpc
    requires Filled(heap, heap', apc[s].v) && heap'[apc[s].v] == Content(epoch, s, wpc[s := pc])
    ensures HandlesOk(heap', apc, wpc[s := pc], epoch)
  {
  }

  lemma FilledReaders(r: Row, s: nat, sh': Shared)
    requires ReadersOk(r) && sh' == r.sh.(heap := sh'.heap) && s in r.wpc && Filled(r.sh.heap, sh'.heap, r.wpc[s].v)
    requires r.sh.heap[r.wpc[s].v].status == Stable ==> sh'.heap[r.wpc[s].v].status == Stable
    ensures forall t :: t in r.rpc ==> ReaderOk(sh', r.apc, r.epoch, r.base, r.before, t, r.rpc[t])
  {
    hide IsAnswer, ReadResult;
  }

  lemma AssembleWrite(r: Row, s: nat, sh': Shared, pc: WriterPc)
    requires Inv(r) && Enabled(r, Writer(s)) && WriterStep(r.epoch, s, r.wpc[s], r.sh) == (sh', pc)
    requires sh' == r.sh.(heap := sh'.heap) && pc.v == r.wpc[s].v
    requires Data(sh', r.apc, r.wpc[s := pc], r.epoch, r.base, r.before)
    requires forall t :: t in r.rpc ==> ReaderOk(sh', r.apc, r.epoch, r.base, r.before, t, r.rpc[t])
    ensures Inv(Step(r, Writer(s)))
  {
    hide LockOk, OrderOk, GuardOk, RegionPcOk, Data, WriterStep, ReaderOk, Waiting;
    assert r.wpc[s := pc].Keys == r.wpc.Keys;
  }

  lemma WriterHasVersion(r: Row, s: nat)
    requires Shape(r) && r.phase.ExecPhase? && s in r.wpc
    ensures s in r.apc && r.apc[s].ADone? && r.wpc[s].v == r.apc[s].v && Handed(r.apc, s, r.wpc[s].v) && r.apc.Keys != {}
  {
    assert s in r.apc.Keys;
  }

  lemma MakeDataIn(sh: Shared, apc: map<nat, AppendPc>, wpc: map<nat, WriterPc>, epoch: nat, base: Tag, before: Tag)
    requires sh.inits == 1
    requires StoreOk(sh.slots, sh.region) && ContentOk(sh.slots, sh.region, apc)
    requires MasterOk(sh.heap, sh.master, base, epoch)
    requires PlaceOk(sh.slots, sh.region, sh.heap, sh.master) && StaleOk(sh.region, sh.heap, epoch)
    requires CellsOk(sh.heap, apc, epoch)
    requires HeapOk(sh.slots, sh.region, sh.heap, sh.master, sh.created, sh.deleted)
    requires HandlesOk(sh.heap, apc, wpc, epoch)
    ensures Data(sh, apc, wpc, epoch, base, before)
  {
    hide StoreOk, ContentOk, MasterOk, PlaceOk, StaleOk, CellsOk, HeapOk, HandlesOk;
  }

  lemma WriterStepKeeps(r: Row, s: nat)
    requires Inv(r) && Enabled(r, Writer(s))
    ensures Inv(Step(r, Writer(s)))
  {
    hide Inv, Shape, LockOk, OrderOk, GuardOk, RegionPcOk, Data, ReadersOk, StoreOk, ContentOk, RestOk, MasterOk,
      PlaceOk, StaleOk,
      CellsOk, HeapOk, HandlesOk, Handed;
    InvParts(r);
    WriterHasVersion(r, s);
    WrittenMeansInitialized(r);
    DataIn(r.sh, r.apc, r.wpc, r.epoch, r.base, r.before);
    var v := r.wpc[s].v;
    HandedContent(r.sh.heap, r.apc, r.wpc, r.epoch, s, v);
    var (sh', pc) := WriterStep(r.epoch, s, r.wpc[s], r.sh);
    assert Filled(r.sh.heap, sh'.heap, v);
    hide Filled;
    FilledPlace(r.sh.slots, r.sh.region, r.sh.heap, sh'.heap, r.sh.master, v, r.epoch);
    FilledHeap(r.sh.slots, r.sh.region, r.sh.heap, sh'.heap, r.sh.master, r.sh.created, r.sh.deleted, v);
    FilledCells(r.sh.heap, sh'.heap, r.apc, r.sh.master, r.base, r.epoch, v);
    FilledHandles(r.sh.heap, sh'.heap, r.apc, r.wpc, r.epoch, s, pc);
    FilledReaders(r, s, sh');
    MakeDataIn(sh', r.apc, r.wpc[s := pc], r.epoch, r.base, r.before);
    AssembleWrite(r, s, sh', pc);
  }

  /** Every interleaving: whoever takes the next step of the row, the invariant holds afterwards. */
  lemma StepKeepsInv(r: Row, a: Actor)
    requires Inv(r) && Enabled(r, a)
    ensures Inv(Step(r, a))
  {
    hide Inv, Step, Enabled;
    match a
    case Appender(s) => AppendStepKeeps(r, s);
    case Reader(s) => ReaderStepKeeps(r, s);
    case Writer(s) => WriterStepKeeps(r, s);
  }
}
