/**
  A Serval row through all epochs of a workload (executables/ycsb_serval.cpp), and exactly which of its
  reads agree with the serial execution.

  Rows share no data, so a run of the whole system is, seen from one row, one of the runs below: the
  workers' order of operations and the barriers, which wait for all rows, only exclude interleavings.
 */
module ServalEquivalence {
  import opened Bits
  import opened TwoLevelBitmap
  import opened Versions
  import opened SortedSlots
  import opened Workload
  import opened ServalRegion
  import opened ServalRow
  import opened ServalInvariant
  import opened ServalData
  import opened ServalSteps
  import opened ServalTheorems

  // ---------- the initialization phase, in any state of any run ----------

  /**
    The row is initialized at most once per epoch, before the epoch is published and before any append;
    global array and region are never both dirty; a region, once installed, is not replaced.
   */
  lemma InitPhaseProtocol(r: Row, s: nat)
    requires Inv(r) && s in r.apc
    ensures r.sh.inits <= 1
    ensures !AtGuard(r.apc[s]) ==> r.sh.inits == 1 && r.sh.epoch == r.epoch + 1
    ensures r.apc[s].GInit? ==> r.sh.inits == 0
    ensures !(r.sh.slots != [] && HasDirtyRegion(r.sh))
    ensures r.apc[s].WMove? ==> r.sh.region.None?
    ensures !r.sh.fault
  {
    InvParts(r);
    DataIn(r.sh, r.apc, r.wpc, r.epoch, r.base, r.before);
    hide LockOk, OrderOk, Data, ReadersOk, ContentOk, RestOk, PlaceOk, MasterOk, StaleOk, CellsOk, HeapOk, HandlesOk;
    if r.apc[s].GInit? {
      OnlyOneInitializes(r, s);
    }
  }

  lemma OnlyOneInitializes(r: Row, s: nat)
    requires LockOk(r.sh.cnt, r.sh.holder, r.apc) && GuardOk(r.sh.epoch, r.sh.inits, r.epoch, r.apc) && s in r.apc && r.apc[s].GInit?
    ensures r.sh.inits == 0
  {
    OnlyHolder(r.sh.cnt, r.sh.holder, r.apc, s);
    NotYetInitialized(r.sh.epoch, r.sh.inits, r.epoch, r.apc, s);
  }

  /** At the end of the phase a written row has been initialized once and holds exactly the epoch's writers, once each. */
  lemma WrittenRowIsComplete(r: Row)
    requires Inv(r) && AllDone(r) && r.apc.Keys != {}
    ensures r.sh.inits == 1 && r.sh.epoch == r.epoch + 1
    ensures forall id: int :: (exists v: VersionId :: Stored(r.sh.slots, r.sh.region, id, v)) <==> id >= 0 && id in r.apc.Keys
    ensures forall id: int, v: VersionId, v': VersionId ::
      Stored(r.sh.slots, r.sh.region, id, v) && Stored(r.sh.slots, r.sh.region, id, v') ==> v == v'
  {
    hide Inv, AllDone, Stored;
    WrittenMeansInitialized(r);
    InvParts(r);
    DataIn(r.sh, r.apc, r.wpc, r.epoch, r.base, r.before);
    hide Data, RestOk, PlaceOk, MasterOk, StaleOk, CellsOk, HeapOk, HandlesOk, LockOk, OrderOk, GuardOk, RegionPcOk,
      ReadersOk;
    forall id: int | id >= 0 && id in r.apc.Keys
      ensures exists v: VersionId :: Stored(r.sh.slots, r.sh.region, id, v)
    {
      StoredIsHanded(r.sh.slots, r.sh.region, r.apc, id, r.apc[id].v);
    }
  }

  // ---------- garbage collection ----------

  /**
    Delayed garbage collection: the master version is in no slot array, every live version is in exactly one
    place, and creations and deletions add up, so that nothing is deleted twice and nothing is lost.
   */
  lemma DelayedGcIsSafe(r: Row)
    requires Inv(r)
    ensures r.sh.master in r.sh.heap && r.sh.heap[r.sh.master].status == Stable
    ensures forall id: int, v: VersionId :: Has(r.sh.slots, id, v) ==> v in r.sh.heap && v != r.sh.master
    ensures r.sh.region.Some? ==>
      forall c: nat, v: VersionId :: c < WIDTH && c < |r.sh.region.value.arrays| && v in r.sh.region.value.arrays[c].slots ==>
        v in r.sh.heap && v != r.sh.master && r.sh.heap[v].owner.By? && r.sh.heap[v].owner.serial / WIDTH == c
    ensures forall v :: v in r.sh.heap ==> Located(r.sh.slots, r.sh.region, r.sh.master, r.sh.heap[v].owner, v)
    ensures r.sh.created + 2 == |r.sh.heap| + r.sh.deleted
  {
    hide Inv, Has, Located;
    InvParts(r);
    DataIn(r.sh, r.apc, r.wpc, r.epoch, r.base, r.before);
    hide Data, StoreOk, RestOk, ContentOk, StaleOk, CellsOk, HandlesOk, LockOk, OrderOk, GuardOk, RegionPcOk,
      ReadersOk, Shape;
    if r.sh.region.Some? {
      forall c: nat, v: VersionId | c < WIDTH && c < |r.sh.region.value.arrays| && v in r.sh.region.value.arrays[c].slots
        ensures v in r.sh.heap && v != r.sh.master && r.sh.heap[v].owner.By? && r.sh.heap[v].owner.serial / WIDTH == c
      {
        ArrayAt(r.sh.slots, r.sh.region.value, r.sh.heap, r.sh.master, c);
      }
    }
  }

  // ---------- the barriers ----------

  lemma NobodyInLock(r: Row)
    requires Inv(r) && AllDone(r)
    ensures r.sh.cnt == 0 && r.sh.holder == None
  {
    hide OrderOk, GuardOk, RegionPcOk, Data, ReadersOk;
  }

  lemma NewWriters(heap: map<VersionId, Cell>, apc: map<nat, AppendPc>, epoch: nat)
    requires HandlesOk(heap, apc, map[], epoch) && forall s :: s in apc ==> apc[s].ADone?
    ensures WritersFrom(apc).Keys == apc.Keys
    ensures forall s :: s in apc ==> WritersFrom(apc)[s].v == apc[s].v
    ensures HandlesOk(heap, apc, WritersFrom(apc), epoch)
  {
  }

  lemma ToExec(r: Row, writers: set<nat>, readers: set<nat>)
    requires Inv(r) && PhaseDone(r) && r.phase.InitPhase?
    ensures Inv(Advance(r, writers, readers))
    ensures Advance(r, writers, readers) == r.(phase := ExecPhase, wpc := WritersFrom(r.apc))
  {
    hide StoreOk, ContentOk, RestOk, MasterOk, PlaceOk, StaleOk, CellsOk, HeapOk, HandlesOk, LockOk, OrderOk, GuardOk,
      RegionPcOk, RouteOk, ReadersOk, WritersFrom;
    NewWriters(r.sh.heap, r.apc, r.epoch);
    IdleReaders(r.(phase := ExecPhase, wpc := WritersFrom(r.apc)));
    AssembleExec(r, WritersFrom(r.apc));
  }

  lemma AssembleExec(r: Row, wpc: map<nat, WriterPc>)
    requires Inv(r) && PhaseDone(r) && r.phase.InitPhase? && wpc.Keys == r.apc.Keys
    requires forall s :: s in wpc ==> wpc[s].v == r.apc[s].v
    requires HandlesOk(r.sh.heap, r.apc, wpc, r.epoch)
    requires ReadersOk(r.(phase := ExecPhase, wpc := wpc))
    ensures Inv(r.(phase := ExecPhase, wpc := wpc))
  {
    hide StoreOk, ContentOk, RestOk, MasterOk, PlaceOk, StaleOk, CellsOk, HeapOk, HandlesOk, LockOk, OrderOk, GuardOk,
      RegionPcOk, RouteOk, ReadersOk;
  }

  /** All versions are STABLE and hold what they were created for, and none belongs to the following epoch. */
  lemma EndCells(r: Row)
    requires Inv(r) && PhaseDone(r) && r.phase.ExecPhase?
    ensures CellsOk(r.sh.heap, map[], r.epoch + 1)
  {
    InvParts(r);
    DataIn(r.sh, r.apc, r.wpc, r.epoch, r.base, r.before);
    hide Data, StoreOk, ContentOk, RestOk, MasterOk, PlaceOk, StaleOk, HeapOk, LockOk, OrderOk, GuardOk, RegionPcOk,
      ReadersOk;
  }

  lemma CellsForAll(heap: map<VersionId, Cell>, apc: map<nat, AppendPc>, epoch: nat)
    requires CellsOk(heap, map[], epoch)
    ensures CellsOk(heap, apc, epoch)
    ensures forall v :: v in heap ==> !Current(heap[v].owner, epoch)
  {
  }

  lemma NoneCurrentAnywhere(region: Option<Region>, heap: map<VersionId, Cell>, epoch: nat)
    requires forall v :: v in heap ==> !Current(heap[v].owner, epoch)
    requires region.Some? ==> |region.value.arrays| == WIDTH
    ensures StaleOk(region, heap, epoch)
  {
  }

  lemma MasterLater(heap: map<VersionId, Cell>, master: VersionId, tag: Tag, epoch: nat)
    requires MasterOk(heap, master, tag, epoch) && forall v :: v in heap ==> !Current(heap[v].owner, epoch + 1)
    ensures MasterOk(heap, master, tag, epoch + 1)
  {
  }

  /** The content of a written row after the epoch: the version of its largest writer. */
  lemma WrittenRest(r: Row)
    requires Inv(r) && PhaseDone(r) && r.phase.ExecPhase? && r.apc.Keys != {}
    ensures RestOk(r.sh.slots, r.sh.region, r.sh.heap, Outcome(r.apc.Keys, r.epoch, r.base, EPOCH_SIZE))
  {
    hide Inv, Stored, Visible;
    WrittenMeansInitialized(r);
    if r.sh.region.Some? { RegionSettled(r); }
    InvParts(r);
    DataIn(r.sh, r.apc, r.wpc, r.epoch, r.base, r.before);
    hide Data, StoreOk, MasterOk, PlaceOk, StaleOk, CellsOk, HeapOk, LockOk, OrderOk, GuardOk, RegionPcOk, ReadersOk,
      Settled;
    LargestWriter(r.apc.Keys);
    var t := Visible(r.apc.Keys, EPOCH_SIZE).value;
    var v := r.apc[t].v;
    HandedContent(r.sh.heap, r.apc, r.wpc, r.epoch, t, v);
    assert r.wpc[t].WDone?;
    StoredIsHanded(r.sh.slots, r.sh.region, r.apc, t, v);
    assert IsTop(r.sh.slots, r.sh.region, t, v);
  }

  lemma LargestWriter(writers: set<nat>)
    requires writers != {} && forall s :: s in writers ==> s < EPOCH_SIZE
    ensures Visible(writers, EPOCH_SIZE).Some? && Visible(writers, EPOCH_SIZE).value in writers
    ensures forall s :: s in writers ==> s <= Visible(writers, EPOCH_SIZE).value
  {
  }

  lemma UnwrittenOutcome(epoch: nat, base: Tag, s: nat)
    ensures Outcome({}, epoch, base, s) == base
  {
    assert NoneBelow({}, s);
  }

  lemma RestAfterEpoch(r: Row)
    requires Inv(r) && PhaseDone(r) && r.phase.ExecPhase?
    ensures RestOk(r.sh.slots, r.sh.region, r.sh.heap, Outcome(r.apc.Keys, r.epoch, r.base, EPOCH_SIZE))
    ensures MasterOk(r.sh.heap, r.sh.master, if r.apc.Keys == {} then r.before else r.base, r.epoch)
  {
    hide Inv, RestOk, PhaseDone, Outcome;
    WrittenMeansInitialized(r);
    InvParts(r);
    DataIn(r.sh, r.apc, r.wpc, r.epoch, r.base, r.before);
    hide Data, MasterOk, StoreOk, ContentOk, PlaceOk, StaleOk, CellsOk, HeapOk, HandlesOk, LockOk, OrderOk, GuardOk,
      RegionPcOk, ReadersOk, Shape;
    if r.apc.Keys == {} { UnwrittenOutcome(r.epoch, r.base, EPOCH_SIZE); } else { WrittenRest(r); }
  }

  lemma RestIsSettled(slots: seq<Slot>, region: Option<Region>, heap: map<VersionId, Cell>, base: Tag)
    requires RestOk(slots, region, heap, base)
    ensures region.Some? ==> |region.value.arrays| == WIDTH && Settled(region.value)
  {
  }

  /** The beginning of an epoch, over a row at rest. */
  lemma StartEpochInv(epoch: nat, base: Tag, before: Tag, sh: Shared, writers: set<nat>, readers: set<nat>)
    requires !sh.fault && sh.cnt == 0 && sh.holder == None && sh.epoch <= epoch && (sh.region.Some? ==> sh.contended)
    requires (forall s :: s in writers ==> s < EPOCH_SIZE) && (forall s :: s in readers ==> s < EPOCH_SIZE)
    requires StoreOk(sh.slots, sh.region) && RestOk(sh.slots, sh.region, sh.heap, base)
    requires MasterOk(sh.heap, sh.master, before, epoch) && PlaceOk(sh.slots, sh.region, sh.heap, sh.master)
    requires CellsOk(sh.heap, map[], epoch)
    requires HeapOk(sh.slots, sh.region, sh.heap, sh.master, sh.created, sh.deleted)
    ensures Inv(StartEpoch(epoch, base, before, sh, writers, readers))
  {
    hide StartEpoch, StoreOk, ContentOk, RestOk, MasterOk, PlaceOk, StaleOk, CellsOk, HeapOk, HandlesOk, LockOk,
      OrderOk, GuardOk, RegionPcOk, RouteOk, ReadersOk;
    var r := StartEpoch(epoch, base, before, sh, writers, readers);
    StartFields(epoch, base, before, sh, writers, readers);
    CellsForAll(sh.heap, r.apc, epoch);
    RestIsSettled(sh.slots, sh.region, sh.heap, base);
    NoneCurrentAnywhere(sh.region, sh.heap, epoch);
    FreshControl(r);
    IdleReaders(r);
  }

  lemma StartFields(epoch: nat, base: Tag, before: Tag, sh: Shared, writers: set<nat>, readers: set<nat>)
    ensures var r := StartEpoch(epoch, base, before, sh, writers, readers);
      && r.epoch == epoch && r.phase.InitPhase? && r.base == base && r.before == before && r.sh == sh.(inits := 0, failed := {})
      && r.apc.Keys == writers && r.rpc.Keys == readers && r.wpc == map[]
      && (forall s :: s in r.apc ==> r.apc[s].GLoad?)
      && (forall s :: s in r.rpc ==> r.rpc[s].EpochLoad?)
  {
    hide AllAt;
    assert StartEpoch(epoch, base, before, sh, writers, readers).wpc.Keys == {};
  }

  lemma FreshControl(r: Row)
    requires forall s :: s in r.apc ==> r.apc[s].GLoad?
    requires r.sh.cnt == 0 && r.sh.holder == None && r.sh.inits == 0 && r.sh.epoch <= r.epoch
    requires r.sh.failed == {} && (r.sh.region.Some? ==> r.sh.contended)
    requires r.sh.region.Some? ==> |r.sh.region.value.arrays| == WIDTH && Settled(r.sh.region.value)
    ensures LockOk(r.sh.cnt, r.sh.holder, r.apc) && OrderOk(r.apc)
    ensures GuardOk(r.sh.epoch, r.sh.inits, r.epoch, r.apc) && RegionPcOk(r.sh.region, r.apc) && RouteOk(r.sh, r.apc)
    ensures HandlesOk(r.sh.heap, r.apc, r.wpc, r.epoch)
  {
  }

  /** The loader's row satisfies the invariant. */
  lemma InitialInv(writers: set<nat>, readers: set<nat>)
    requires (forall s :: s in writers ==> s < EPOCH_SIZE) && (forall s :: s in readers ==> s < EPOCH_SIZE)
    ensures Inv(Initial(writers, readers))
  {
    hide StartEpoch, Inv;
    LoadedRowIsOk();
    StartEpochInv(0, Loaded, Loaded, LoadedRow(), writers, readers);
  }

  lemma LoadedRowIsOk()
    ensures var sh := LoadedRow();
      && StoreOk(sh.slots, sh.region) && RestOk(sh.slots, sh.region, sh.heap, Loaded)
      && MasterOk(sh.heap, sh.master, Loaded, 0) && PlaceOk(sh.slots, sh.region, sh.heap, sh.master)
      && CellsOk(sh.heap, map[], 0)
      && HeapOk(sh.slots, sh.region, sh.heap, sh.master, sh.created, sh.deleted)
  {
    var sh := LoadedRow();
    assert sh.slots[0] == Slot(-1, 1) && Has(sh.slots, -1, 1);
    assert forall id: int, v: VersionId :: Has(sh.slots, id, v) ==> id == -1 && v == 1;
    assert IsTop(sh.slots, sh.region, -1, 1);
    assert sh.heap.Keys == {0, 1};
  }

  lemma ToNextEpoch(r: Row, writers: set<nat>, readers: set<nat>)
    requires Inv(r) && PhaseDone(r) && r.phase.ExecPhase?
    requires (forall s :: s in writers ==> s < EPOCH_SIZE) && (forall s :: s in readers ==> s < EPOCH_SIZE)
    ensures Inv(Advance(r, writers, readers))
  {
    hide Inv, StartEpoch, Outcome, RestOk, MasterOk, CellsOk;
    RestAfterEpoch(r);
    EndCells(r);
    NobodyInLock(r);
    InvParts(r);
    DataIn(r.sh, r.apc, r.wpc, r.epoch, r.base, r.before);
    hide Data, StoreOk, ContentOk, PlaceOk, StaleOk, HeapOk, HandlesOk, LockOk, OrderOk, RegionPcOk, ReadersOk;
    EpochIsNotAhead(r.sh.epoch, r.sh.inits, r.epoch, r.apc);
    CellsForAll(r.sh.heap, r.apc, r.epoch + 1);
    var before := if r.apc.Keys == {} then r.before else r.base;
    MasterLater(r.sh.heap, r.sh.master, before, r.epoch);
    StartEpochInv(r.epoch + 1, Outcome(r.apc.Keys, r.epoch, r.base, EPOCH_SIZE), before, r.sh, writers, readers);
  }

  // ---------- runs ----------

  datatype Move = Act(a: Actor) | Barrier

  ghost predicate CanMove(w: seq<seq<Tx>>, r: Row, m: Move) {
    && r.epoch < |w|
    && match m
       case Act(a) => Enabled(r, a)
       case Barrier => PhaseDone(r)
  }

  ghost function Make(w: seq<seq<Tx>>, k: Key, r: Row, m: Move): Row
    requires CanMove(w, r, m)
  {
    match m
    case Act(a) => Step(r, a)
    case Barrier => Advance(r, WriterSet(TxsAt(w, r.epoch + 1), k), ReaderSet(TxsAt(w, r.epoch + 1), k))
  }

  ghost function Start(w: seq<seq<Tx>>, k: Key): Row {
    Initial(WriterSet(TxsAt(w, 0), k), ReaderSet(TxsAt(w, 0), k))
  }

  ghost predicate IsRun(w: seq<seq<Tx>>, k: Key, r: Row, moves: seq<Move>)
    decreases |moves|
  {
    moves == [] || (CanMove(w, r, moves[0]) && IsRun(w, k, Make(w, k, r, moves[0]), moves[1..]))
  }

  ghost function After(w: seq<seq<Tx>>, k: Key, r: Row, moves: seq<Move>): Row
    requires IsRun(w, k, r, moves)
    decreases |moves|
  {
    if moves == [] then r else After(w, k, Make(w, k, r, moves[0]), moves[1..])
  }

  /** Some schedule leads from the loaded row to `r`. */
  ghost predicate Reachable(w: seq<seq<Tx>>, k: Key, r: Row) {
    exists moves: seq<Move> :: IsRun(w, k, Start(w, k), moves) && After(w, k, Start(w, k), moves) == r
  }

  lemma {:induction false} RunExtends(w: seq<seq<Tx>>, k: Key, r: Row, moves: seq<Move>, m: Move)
    requires IsRun(w, k, r, moves) && CanMove(w, After(w, k, r, moves), m)
    ensures IsRun(w, k, r, moves + [m])
    ensures After(w, k, r, moves + [m]) == Make(w, k, After(w, k, r, moves), m)
    decreases |moves|
  {
    hide CanMove, Make;
    if moves == [] {
      assert moves + [m] == [m];
      assert IsRun(w, k, Make(w, k, r, m), []);
    } else {
      RunExtends(w, k, Make(w, k, r, moves[0]), moves[1..], m);
      assert (moves + [m])[1..] == moves[1..] + [m];
    }
  }

  lemma ReachNext(w: seq<seq<Tx>>, k: Key, r: Row, m: Move)
    requires Reachable(w, k, r) && CanMove(w, r, m)
    ensures Reachable(w, k, Make(w, k, r, m))
  {
    hide CanMove, Make, IsRun, After;
    var moves: seq<Move> :| IsRun(w, k, Start(w, k), moves) && After(w, k, Start(w, k), moves) == r;
    RunExtends(w, k, Start(w, k), moves, m);
  }

  /** The last epoch before `e` in which the row was written, plus one; 0 when there is none. */
  function LastWritten(w: seq<seq<Tx>>, k: Key, e: nat): nat
    decreases e
  {
    if e == 0 then 0
    else if WriterSet(TxsAt(w, e - 1), k) != {} then e
    else LastWritten(w, k, e - 1)
  }

  /** The content of the row before the last epoch in which it was written. */
  ghost function StaleTag(w: seq<seq<Tx>>, db: set<Key>, k: Key, e: nat): Tag
    requires e <= |w|
  {
    LastWrittenInRange(w, k, e);
    var l := LastWritten(w, k, e);
    if l > 0 && k in SerialStore(w, db, l - 1, 0) then SerialStore(w, db, l - 1, 0)[k] else Loaded
  }

  lemma {:induction false} LastWrittenInRange(w: seq<seq<Tx>>, k: Key, e: nat)
    ensures LastWritten(w, k, e) <= e
    ensures LastWritten(w, k, e) > 0 ==> WriterSet(TxsAt(w, LastWritten(w, k, e) - 1), k) != {}
    ensures forall i :: LastWritten(w, k, e) <= i < e ==> WriterSet(TxsAt(w, i), k) == {}
    decreases e
  {
    if e > 0 && WriterSet(TxsAt(w, e - 1), k) == {} { LastWrittenInRange(w, k, e - 1); }
  }

  /** The invariant of the row, the serial execution up to the current epoch, and the source's val->epoch_. */
  ghost predicate RunInv(w: seq<seq<Tx>>, db: set<Key>, k: Key, r: Row) {
    && Inv(r)
    && r.epoch <= |w|
    && r.apc.Keys == WriterSet(TxsAt(w, r.epoch), k)
    && r.rpc.Keys == ReaderSet(TxsAt(w, r.epoch), k)
    && k in SerialStore(w, db, r.epoch, 0)
    && r.base == SerialStore(w, db, r.epoch, 0)[k]
    && r.before == StaleTag(w, db, k, r.epoch)
    && (r.sh.epoch == r.epoch + 1 || r.sh.epoch == LastWritten(w, k, r.epoch))
  }

  lemma StepFrame(r: Row, a: Actor)
    requires Enabled(r, a)
    ensures var r' := Step(r, a);
      && r'.epoch == r.epoch && r'.base == r.base && r'.before == r.before
      && r'.apc.Keys == r.apc.Keys && r'.rpc.Keys == r.rpc.Keys
      && (r'.sh.epoch == r.sh.epoch || r'.sh.epoch == r.epoch + 1)
  {
    hide Initialize, InsertIntoRegion, Lookup, Movable, ServalRegion.Move, EarlierDone, Free;
    match a
    case Appender(s) => AppendEpoch(r.epoch, s, r.apc[s], r.sh);
    case Reader(s) => LookupEpoch(s, r.sh);
    case Writer(s) =>
  }

  lemma AppendEpoch(epoch: nat, s: nat, pc: AppendPc, sh: Shared)
    requires s < EPOCH_SIZE && (sh.region.Some? ==> |sh.region.value.arrays| == WIDTH)
    ensures var sh' := AppendStep(epoch, s, pc, sh).0;
      sh'.epoch == sh.epoch || sh'.epoch == epoch + 1
  {
    hide Movable, ServalRegion.Move, CanFree;
  }

  lemma LookupEpoch(s: nat, sh: Shared)
    requires s < EPOCH_SIZE
    ensures Lookup(s, sh).0.epoch == sh.epoch
  {
    hide RegionOk, Settled, ServalRegion.IdentifyVisible, IndexOf, HasDirtyRegion;
  }

  lemma OutcomeIsSerial(w: seq<seq<Tx>>, db: set<Key>, k: Key, e: nat, s: nat)
    requires Good(w, db) && k in db && e < |w| && s <= EPOCH_SIZE
    ensures |w[e]| == EPOCH_SIZE && k in SerialStore(w, db, e, s) && k in SerialStore(w, db, e, 0)
    ensures Outcome(WriterSet(w[e], k), e, SerialStore(w, db, e, 0)[k], s) == SerialStore(w, db, e, s)[k]
  {
    hide Good, SerialStore, Visible;
    EpochSerials(w, db, e, k);
    StoreIsVisible(w, db, e, s, k);
  }

  lemma BarrierKeepsInv(w: seq<seq<Tx>>, db: set<Key>, k: Key, r: Row)
    requires Good(w, db) && k in db && RunInv(w, db, k, r) && r.epoch < |w| && PhaseDone(r) && r.phase.ExecPhase?
    ensures RunInv(w, db, k, Make(w, k, r, Barrier))
  {
    hide Inv, Good, SerialStore, Outcome, PhaseDone, StartEpoch, LastWritten, StaleTag;
    var writers, readers := WriterSet(TxsAt(w, r.epoch + 1), k), ReaderSet(TxsAt(w, r.epoch + 1), k);
    EpochSerials(w, db, r.epoch + 1, k);
    ToNextEpoch(r, writers, readers);
    WrittenMeansInitialized(r);
    OutcomeIsSerial(w, db, k, r.epoch, EPOCH_SIZE);
    NextEpochStore(w, db, r.epoch);
    StaleAfterEpoch(w, db, k, r.epoch);
    StartFields(r.epoch + 1, Outcome(r.apc.Keys, r.epoch, r.base, EPOCH_SIZE),
                if r.apc.Keys == {} then r.before else r.base, r.sh, writers, readers);
  }

  lemma StaleAfterEpoch(w: seq<seq<Tx>>, db: set<Key>, k: Key, e: nat)
    requires e < |w| && k in SerialStore(w, db, e, 0)
    ensures StaleTag(w, db, k, e + 1) ==
      if WriterSet(TxsAt(w, e), k) == {} then StaleTag(w, db, k, e) else SerialStore(w, db, e, 0)[k]
    ensures LastWritten(w, k, e + 1) == if WriterSet(TxsAt(w, e), k) == {} then LastWritten(w, k, e) else e + 1
  {
  }

  lemma MakeKeepsInv(w: seq<seq<Tx>>, db: set<Key>, k: Key, r: Row, m: Move)
    requires Good(w, db) && k in db && RunInv(w, db, k, r) && CanMove(w, r, m)
    ensures RunInv(w, db, k, Make(w, k, r, m))
  {
    hide Inv, Enabled, Step, Good, SerialStore, Advance, PhaseDone, LastWritten, StaleTag;
    match m
    case Act(a) =>
      StepKeepsInv(r, a);
      StepFrame(r, a);
    case Barrier =>
      if r.phase.InitPhase? {
        ToExec(r, WriterSet(TxsAt(w, r.epoch + 1), k), ReaderSet(TxsAt(w, r.epoch + 1), k));
      } else {
        BarrierKeepsInv(w, db, k, r);
      }
  }

  lemma {:induction false} RunKeepsInv(w: seq<seq<Tx>>, db: set<Key>, k: Key, r: Row, moves: seq<Move>)
    requires Good(w, db) && k in db && RunInv(w, db, k, r) && IsRun(w, k, r, moves)
    ensures RunInv(w, db, k, After(w, k, r, moves))
    decreases |moves|
  {
    hide RunInv, Good, CanMove, Make;
    if moves != [] {
      MakeKeepsInv(w, db, k, r, moves[0]);
      RunKeepsInv(w, db, k, Make(w, k, r, moves[0]), moves[1..]);
    }
  }

  lemma StartInv(w: seq<seq<Tx>>, db: set<Key>, k: Key)
    requires Good(w, db) && k in db
    ensures RunInv(w, db, k, Start(w, k))
  {
    hide Inv, Good, StartEpoch;
    EpochSerials(w, db, 0, k);
    InitialInv(WriterSet(TxsAt(w, 0), k), ReaderSet(TxsAt(w, 0), k));
    StartFields(0, Loaded, Loaded, LoadedRow(), WriterSet(TxsAt(w, 0), k), ReaderSet(TxsAt(w, 0), k));
  }

  // ---------- what reads return ----------

  lemma ReadIsResult(r: Row, s: nat)
    requires Inv(r) && s in r.rpc && r.rpc[s].Done?
    ensures r.rpc[s].rec == Some(ReadResult(r.apc.Keys, r.epoch, r.base, r.before, s))
  {
    InvParts(r);
    hide LockOk, OrderOk, GuardOk, RegionPcOk, Data, Shape;
    OneReader(r, s);
  }

  /** A read of a row that was written in the reader's epoch returns what the serial execution returns. */
  lemma WrittenRowReadsAreSerial(w: seq<seq<Tx>>, db: set<Key>, k: Key, moves: seq<Move>, s: nat, j: nat)
    requires Good(w, db) && k in db && IsRun(w, k, Start(w, k), moves)
    requires var r := After(w, k, Start(w, k), moves);
      && r.epoch < |w| && s < |w[r.epoch]| && j < |w[r.epoch][s]| && w[r.epoch][s][j] == Op(k, false)
      && WriterSet(w[r.epoch], k) != {}
    ensures var r := After(w, k, Start(w, k), moves);
      s in r.rpc && (r.rpc[s].Done? ==> r.rpc[s].rec == SerialRead(w, db, r.epoch, s, j))
  {
    hide Inv, Good, SerialStore, SerialRead, Start, IsRun, After, LastWritten, StaleTag;
    StartInv(w, db, k);
    RunKeepsInv(w, db, k, Start(w, k), moves);
    var r := After(w, k, Start(w, k), moves);
    EpochSerials(w, db, r.epoch, k);
    assert s in ReaderSet(w[r.epoch], k);
    if r.rpc[s].Done? {
      ReadIsResult(r, s);
      OutcomeIsSerial(w, db, k, r.epoch, s);
      SerialReadIsStore(w, db, r.epoch, s, j);
    }
  }

  /** What a row held before an epoch never carries the tag of that epoch. */
  lemma {:induction false} OlderTag(w: seq<seq<Tx>>, db: set<Key>, e: nat, k: Key)
    requires Good(w, db) && e <= |w| && k in db
    ensures k in SerialStore(w, db, e, 0)
    ensures SerialStore(w, db, e, 0)[k].Written? ==> SerialStore(w, db, e, 0)[k].epoch < e
    decreases e
  {
    hide Good, Visible;
    if e > 0 {
      OlderTag(w, db, e - 1, k);
      OutcomeIsSerial(w, db, k, e - 1, EPOCH_SIZE);
    }
  }

  /** Between its last write and epoch `e` the serial state of the row does not change. */
  lemma {:induction false} UnwrittenSince(w: seq<seq<Tx>>, db: set<Key>, k: Key, e: nat)
    requires Good(w, db) && e <= |w| && k in db
    ensures LastWritten(w, k, e) <= e
    ensures k in SerialStore(w, db, e, 0) && k in SerialStore(w, db, LastWritten(w, k, e), 0)
    ensures SerialStore(w, db, e, 0)[k] == SerialStore(w, db, LastWritten(w, k, e), 0)[k]
    decreases e
  {
    hide Good, Visible;
    OlderTag(w, db, e, k);
    if e > 0 && WriterSet(TxsAt(w, e - 1), k) == {} {
      UnwrittenSince(w, db, k, e - 1);
      OutcomeIsSerial(w, db, k, e - 1, EPOCH_SIZE);
      UnwrittenOutcome(e - 1, SerialStore(w, db, e - 1, 0)[k], EPOCH_SIZE);
    }
  }

  /** The row's content after its last written epoch carries the tag of that epoch. */
  lemma LastWriteTag(w: seq<seq<Tx>>, db: set<Key>, k: Key, l: nat)
    requires Good(w, db) && 0 < l <= |w| && k in db && WriterSet(w[l - 1], k) != {}
    ensures k in SerialStore(w, db, l, 0) && SerialStore(w, db, l, 0)[k].Written? && SerialStore(w, db, l, 0)[k].epoch == l - 1
  {
    hide Good, Visible;
    EpochSerials(w, db, l - 1, k);
    OutcomeIsSerial(w, db, k, l - 1, EPOCH_SIZE);
    LargestWriter(WriterSet(w[l - 1], k));
  }

  /** What a row merely read returns differs from its serial content exactly if the row was ever written. */
  lemma StaleTagDiffers(w: seq<seq<Tx>>, db: set<Key>, k: Key, e: nat)
    requires Good(w, db) && e <= |w| && k in db
    ensures k in SerialStore(w, db, e, 0)
    ensures StaleTag(w, db, k, e) == SerialStore(w, db, e, 0)[k] <==> LastWritten(w, k, e) == 0
  {
    hide Good, SerialStore, LastWritten;
    UnwrittenSince(w, db, k, e);
    LastWrittenInRange(w, k, e);
    var l := LastWritten(w, k, e);
    if l == 0 {
      LoadedStore(w, db, k);
    } else {
      OlderTag(w, db, l - 1, k);
      LastWriteTag(w, db, k, l);
    }
  }

  lemma LoadedStore(w: seq<seq<Tx>>, db: set<Key>, k: Key)
    requires k in db
    ensures k in SerialStore(w, db, 0, 0) && SerialStore(w, db, 0, 0)[k] == Loaded
  {
  }

  /**
    Exactly when Serval's reads are serial.  A read that has returned agrees with the serial execution if and
    only if, when it loads val->epoch_, it finds the current epoch there or 0, the value the loader stored.
   */
  lemma ReadIsSerialIff(w: seq<seq<Tx>>, db: set<Key>, k: Key, moves: seq<Move>, s: nat, j: nat)
    requires Good(w, db) && k in db && IsRun(w, k, Start(w, k), moves)
    requires var r := After(w, k, Start(w, k), moves);
      && r.epoch < |w| && s < |w[r.epoch]| && j < |w[r.epoch][s]| && w[r.epoch][s][j] == Op(k, false)
      && s in r.rpc && r.rpc[s].Done?
    ensures var r := After(w, k, Start(w, k), moves);
      r.rpc[s].rec == SerialRead(w, db, r.epoch, s, j) <==> r.sh.epoch == r.epoch + 1 || r.sh.epoch == 0
  {
    hide Inv, Good, SerialStore, SerialRead, Start, IsRun, After, LastWritten, StaleTag, Outcome;
    StartInv(w, db, k);
    RunKeepsInv(w, db, k, Start(w, k), moves);
    var r := After(w, k, Start(w, k), moves);
    EpochSerials(w, db, r.epoch, k);
    DoneMeansExec(r, s);
    WrittenMeansInitialized(r);
    ReadIsResult(r, s);
    SerialReadIsStore(w, db, r.epoch, s, j);
    OutcomeIsSerial(w, db, k, r.epoch, s);
    LastWrittenInRange(w, k, r.epoch);
    if r.apc.Keys == {} {
      UnwrittenOutcome(r.epoch, r.base, s);
      StaleTagDiffers(w, db, k, r.epoch);
    }
  }

  lemma DoneMeansExec(r: Row, s: nat)
    requires Inv(r) && s in r.rpc && r.rpc[s].Done?
    ensures r.phase.ExecPhase?
  {
    hide LockOk, OrderOk, GuardOk, RegionPcOk, Data, ReadersOk;
  }
}
