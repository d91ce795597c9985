/** What the invariant of a Cheetah row means: phase changes, quiescence, elimination, counting. */
module CheetahRowTheorems {
  import opened Bits
  import opened TwoLevelBitmap
  import opened Versions
  import opened CheetahRow
  import opened CheetahInvariant
  import opened CheetahSteps
  import opened CheetahReaderSteps
  import opened CheetahWriterSteps

  /** Every interleaving: whoever takes the next step of the row, the invariant holds afterwards. */
  lemma StepKeepsInv(r: Row, a: Actor)
    requires Inv(r) && Enabled(r, a)
    ensures Inv(Step(r, a))
  {
    hide Inv, Step;
    match a
    case Core(c) => CoreStepKeeps(r, c);
    case Reader(s) => ReaderStepKeeps(r, s);
    case Writer(w) => WriterStepKeeps(r, w);
  }

  lemma FreshHeap(mem: Memory, baseId: VersionId, base: Tag)
    requires mem.placeholders == map[] && mem.master == Some(baseId) && mem.previous == None
    requires mem.heap == map[baseId := Version(Some(base), Stable)]
    requires baseId <= mem.created && mem.created == mem.deleted
    ensures HeapOk(mem, None, baseId, base)
  {
    assert Owners(mem, None) == {baseId};
    assert mem.heap.Keys == {baseId};
    hide Owners;
  }

  lemma FreshActors(r: Row)
    requires r.phase.WritePhase? && r.sh.mem.bits == EMPTY && r.sh.refCnt == 0
    requires r.sh.mem.placeholders == map[] && r.sh.mem.previous == None
    requires forall c :: c in r.cpc ==> r.cpc[c].CTryLock?
    requires forall s :: s in r.rpc ==> r.rpc[s].RFetchAdd?
    requires forall w :: w in r.wpc ==> r.wpc[w].WLock?
    ensures FinalPc(r.work, r.wpc) == WLock
    ensures LockOk(0, None, r.cpc, r.rpc, r.wpc) && RefOk(0, r.rpc)
    ensures BitsOk(r.sh.mem.bits, r.phase, r.work, r.cpc, false)
    ensures Drained(r.phase, 0, r.sh.mem, r.rpc, r.baseId)
    ensures PlaceholdersOk(r.sh.mem, r.work, r.epoch, r.wpc)
    ensures ReadersOk(View(r), r.rpc) && WritersOk(r.sh.mem, r.work, r.epoch, r.wpc)
  {
    EmptyIsWellFormed();
    EmptyMap();
    hide Writers, Visible, FinalWriter, WellFormed, ToMap;
    assert CountedReaders(r.rpc) == {};
    assert Registered(r.work, r.cpc) == map[];
  }

  lemma StartEpochInv(epoch: nat, work: Work, base: Tag, baseId: VersionId, sh: Shared)
    requires GoodWork(work) && !sh.fault && sh.cnt == 0 && sh.holder == None && sh.refCnt == 0
    requires sh.mem.bits == EMPTY && sh.mem.placeholders == map[]
    requires sh.mem.master == Some(baseId) && sh.mem.previous == None
    requires sh.mem.heap == map[baseId := Version(Some(base), Stable)]
    requires baseId <= sh.mem.created && sh.mem.created == sh.mem.deleted
    ensures Inv(StartEpoch(epoch, work, base, baseId, sh))
  {
    hide AllAt, LockOk, RefOk, BitsOk, HeapOk, Drained, PlaceholdersOk, ReadersOk, WritersOk, Writers, FinalPc;
    FreshActors(StartEpoch(epoch, work, base, baseId, sh));
    FreshHeap(sh.mem, baseId, base);
  }

  /** The loader's row satisfies the invariant. */
  lemma InitialInv(work: Work)
    requires GoodWork(work)
    ensures Inv(Initial(work))
  {
    StartEpochInv(0, work, Loaded, 0,
      Shared(0, 0, Memory(EMPTY, map[], Some(0), None, map[0 := Version(Some(Loaded), Stable)], 0, 0), false, None));
  }

  lemma NobodyInLock(r: Row)
    requires Inv(r) && PhaseDone(r)
    ensures r.sh.cnt == 0 && r.sh.holder == None
  {
    hide RefOk, BitsOk, MasterOk, HeapOk, Drained, PlaceholdersOk, ReadersOk, WritersOk, Writers;
  }

  /** The actor is between acquiring and releasing the row's lock. */
  predicate InLock(r: Row, a: Actor) {
    match a
    case Core(c) => c in r.cpc && CoreInLock(r.cpc[c])
    case Reader(s) => s in r.rpc && ReaderInLock(r.rpc[s])
    case Writer(w) => w in r.wpc && WriterInLock(r.wpc[w])
  }

  /** The counter protocol of the lock excludes: it is -1 while somebody is inside, and nobody else is. */
  lemma LockIsExclusive(r: Row, a: Actor, b: Actor)
    requires Inv(r) && InLock(r, a) && InLock(r, b)
    ensures a == b && r.sh.cnt == -1
  {
    hide RefOk, BitsOk, MasterOk, HeapOk, Drained, PlaceholdersOk, ReadersOk, WritersOk, Shape;
  }

  /** The counter at the end of the read phase is the number of readers plus one, or 0 without readers. */
  lemma CounterAfterReadPhase(r: Row)
    requires Inv(r) && PhaseDone(r) && r.phase.ReadPhase?
    ensures r.sh.refCnt == if r.work.readers == {} then 0 else |r.work.readers| + 1
  {
    hide LockOk, BitsOk, MasterOk, HeapOk, Drained, PlaceholdersOk, ReadersOk, WritersOk, Writers;
    assert CountedReaders(r.rpc) == r.rpc.Keys;
  }

  /** At most one reader of the epoch is ever the final reader, and only when nobody else is counted. */
  lemma FinalReaderIsUnique(r: Row, s: nat, t: nat)
    requires Inv(r) && s in r.rpc && t in r.rpc && Final(r.rpc[s])
    ensures r.sh.refCnt == 1
    ensures Final(r.rpc[t]) ==> s == t
    ensures !Counted(r.rpc[t])
  {
    hide LockOk, BitsOk, MasterOk, HeapOk, Drained, PlaceholdersOk, ReadersOk, WritersOk, Shape;
    assert t !in CountedReaders(r.rpc);
  }

  /** A write is eliminated exactly when no reader of the epoch resolves to it and it is not the final state. */
  lemma EliminationIsExact(r: Row, w: nat)
    requires Inv(r) && w in r.wpc && r.wpc[w].WDone?
    ensures r.wpc[w].elided <==> FinalWriter(r.work) != Some(w) && w !in Seen(r.work)
  {
    hide LockOk, RefOk, BitsOk, MasterOk, HeapOk, Drained, PlaceholdersOk, ReadersOk, Shape;
    assert WriterOk(r.sh.mem, r.work, r.epoch, w, r.wpc[w]);
  }

  /** While a reader holds a version, the version has not been deleted; what it waits for is its writer. */
  lemma HeldVersionsAreLive(r: Row, s: nat)
    requires Inv(r) && s in r.rpc && HasHandle(r.rpc[s])
    ensures r.rpc[s].v in r.sh.mem.heap
    ensures !IsStable(r.sh.mem, r.rpc[s].v) <==>
      exists k :: Visible(Writers(r.work), s) == Some(k) && k in r.wpc && !r.wpc[k].WDone?
  {
    hide Inv;
    HandleIsLive(r, s);
  }

  /** A read returns the content written by the largest smaller writer of the epoch, or the epoch's base. */
  lemma ReadsExpected(r: Row, s: nat)
    requires Inv(r) && s in r.rpc && HasRecord(r.rpc[s])
    ensures r.rpc[s].rec == Some(Expected(r.work, r.epoch, r.base, s))
  {
    hide LockOk, RefOk, BitsOk, MasterOk, HeapOk, Drained, PlaceholdersOk, WritersOk, Shape;
    assert ReaderOk(View(r), s, r.rpc[s]);
  }

  lemma NothingCounted(r: Row)
    requires Inv(r) && PhaseDone(r) && r.phase.ExecPhase?
    ensures r.sh.refCnt == 0 && r.sh.mem.placeholders == map[] && r.sh.mem.previous == None
  {
    hide LockOk, BitsOk, MasterOk, HeapOk, PlaceholdersOk, ReadersOk, WritersOk, Writers;
    assert CountedReaders(r.rpc) == {};
  }

  /** The final state of the row, given the state in which the epoch began. */
  ghost function FinalTag(work: Work, epoch: nat, base: Tag): Tag {
    Expected(work, epoch, base, EPOCH_SIZE)
  }

  lemma MasterIsFinal(r: Row)
    requires Inv(r) && PhaseDone(r) && r.phase.ExecPhase?
    ensures r.sh.mem.master.Some? && r.sh.mem.master.value in r.sh.mem.heap
    ensures r.sh.mem.heap[r.sh.mem.master.value] == Version(Some(FinalTag(r.work, r.epoch, r.base)), Stable)
    ensures Local(FinalPc(r.work, r.wpc)) == None
  {
    NothingCounted(r);
    hide LockOk, RefOk, BitsOk, Drained, PlaceholdersOk, ReadersOk, HeapOk, MasterOk, WritersOk;
    var f := FinalWriter(r.work);
    if f.Some? {
      assert f.value in Writers(r.work);
      hide Writers;
      assert FinalPc(r.work, r.wpc) == r.wpc[f.value] && r.wpc[f.value].WDone?;
      FinalWriterDone(r, f.value);
    } else {
      hide Writers;
      NoFinalWriter(r);
    }
  }

  lemma FinalWriterDone(r: Row, f: nat)
    requires Inv(r) && FinalWriter(r.work) == Some(f) && f in r.wpc && r.wpc[f].WDone?
    ensures r.sh.mem.master.Some? && r.sh.mem.master.value in r.sh.mem.heap
    ensures r.sh.mem.heap[r.sh.mem.master.value] == Version(Some(FinalTag(r.work, r.epoch, r.base)), Stable)
  {
    hide LockOk, RefOk, BitsOk, Drained, PlaceholdersOk, ReadersOk, HeapOk, MasterOk, Shape, Writers;
    assert WriterOk(r.sh.mem, r.work, r.epoch, f, r.wpc[f]);
    hide WritersOk;
  }

  lemma NoFinalWriter(r: Row)
    requires Inv(r) && FinalWriter(r.work) == None && r.sh.mem.placeholders == map[] && r.sh.mem.previous == None
    ensures r.sh.mem.master.Some? && r.sh.mem.master.value in r.sh.mem.heap
    ensures r.sh.mem.heap[r.sh.mem.master.value] == Version(Some(FinalTag(r.work, r.epoch, r.base)), Stable)
    ensures Local(FinalPc(r.work, r.wpc)) == None
  {
    hide LockOk, RefOk, BitsOk, Drained, PlaceholdersOk, ReadersOk, WritersOk, Shape, Writers, Injective;
    assert FinalPc(r.work, r.wpc) == WLock;
    assert r.baseId in Owners(r.sh.mem, None);
  }

  lemma BitsAreEmpty(r: Row)
    requires Inv(r) && PhaseDone(r) && r.phase.ExecPhase?
    ensures r.sh.mem.bits == EMPTY
  {
    hide LockOk, RefOk, HeapOk, MasterOk, Drained, PlaceholdersOk, ReadersOk, WritersOk, WellFormed;
    if FinalWriter(r.work).Some? {
      assert FinalWriter(r.work).value in Writers(r.work);
    } else {
      NoCores(r.work);
      EmptyIsWellFormed();
      EmptyMap();
      assert r.work.cores == map[];
      RepresentationIsCanonical(r.sh.mem.bits, EMPTY);
    }
  }

  lemma EmptyMap()
    requires WellFormed(EMPTY)
    ensures ToMap(EMPTY) == map[]
  {
  }

  lemma CoreHasSerial(work: Work, c: nat)
    requires GoodWork(work) && c in work.cores
    ensures exists s :: s in Writers(work)
  {
    NonZeroHasPosition(work.cores[c]);
    var t :| t in Positions(work.cores[c]);
    SerialAddress(c, t);
    assert c * WIDTH + t in Writers(work);
  }

  lemma NoCores(work: Work)
    requires GoodWork(work) && FinalWriter(work) == None
    ensures work.cores == map[]
  {
    assert NoneBelow(Writers(work), EPOCH_SIZE);
    assert forall s :: s in Writers(work) ==> s < EPOCH_SIZE;
    hide Writers;
    if c: nat :| c in work.cores {
      CoreHasSerial(work, c);
    }
  }

  /**
    Quiescence and conservation: when everyone has finished the epoch, the counter is 0, bitmaps and
    placeholders are empty, nothing is stashed, the one live version is the STABLE master holding the
    final state, and as many versions have been deleted as were created.
   */
  lemma Quiescence(r: Row)
    requires Inv(r) && PhaseDone(r) && r.phase.ExecPhase?
    ensures r.sh.refCnt == 0 && r.sh.cnt == 0
    ensures r.sh.mem.bits == EMPTY && r.sh.mem.placeholders == map[] && r.sh.mem.previous == None
    ensures r.sh.mem.master.Some?
    ensures r.sh.mem.heap == map[r.sh.mem.master.value := Version(Some(FinalTag(r.work, r.epoch, r.base)), Stable)]
    ensures r.sh.mem.created == r.sh.mem.deleted && r.sh.mem.master.value <= r.sh.mem.created
  {
    NobodyInLock(r);
    NothingCounted(r);
    MasterIsFinal(r);
    BitsAreEmpty(r);
    hide LockOk, RefOk, BitsOk, MasterOk, HeapOk, Drained, PlaceholdersOk, ReadersOk, WritersOk, Shape, FinalTag,
      FinalPc, Local, PhaseDone;
    OneVersionLeft(r.sh.mem, r.baseId, r.base, r.sh.mem.master.value);
  }

  lemma OneVersionLeft(mem: Memory, baseId: VersionId, base: Tag, m: VersionId)
    requires HeapOk(mem, None, baseId, base)
    requires mem.placeholders == map[] && mem.previous == None && mem.master == Some(m)
    ensures mem.heap.Keys == {m} && mem.created == mem.deleted && m <= mem.created
    ensures m in mem.heap && mem.heap == map[m := mem.heap[m]]
  {
    assert Owners(mem, None) == {m};
    assert mem.heap.Keys == {m};
    hide Owners, Injective;
  }

  lemma NoFault(r: Row)
    requires Inv(r)
    ensures !r.sh.fault
  {
    hide LockOk, RefOk, BitsOk, MasterOk, HeapOk, Drained, PlaceholdersOk, ReadersOk, WritersOk;
  }

  lemma AdvanceFromExec(r: Row, next: Work)
    requires Inv(r) && PhaseDone(r) && r.phase.ExecPhase? && GoodWork(next)
    ensures Inv(Advance(r, next))
    ensures Advance(r, next).base == FinalTag(r.work, r.epoch, r.base)
  {
    hide Inv, FinalTag, PhaseDone, GoodWork, StartEpoch;
    NoFault(r);
    NobodyInLock(r);
    Quiescence(r);
    var base, m := FinalTag(r.work, r.epoch, r.base), r.sh.mem.master.value;
    StartEpochInv(r.epoch + 1, next, base, m, r.sh);
    assert Advance(r, next) == StartEpoch(r.epoch + 1, next, base, m, r.sh);
    StartEpochBase(r.epoch + 1, next, base, m, r.sh);
  }

  lemma StartEpochBase(epoch: nat, work: Work, base: Tag, baseId: VersionId, sh: Shared)
    ensures StartEpoch(epoch, work, base, baseId, sh).base == base
  {
  }

  lemma AdvanceFromWrite(r: Row, next: Work)
    requires Inv(r) && PhaseDone(r) && r.phase.WritePhase?
    ensures Inv(Advance(r, next))
  {
    hide LockOk, RefOk, HeapOk, MasterOk, PlaceholdersOk, ReadersOk, WritersOk, WellFormed, Writers, FinalWriter;
    assert Registered(r.work, r.cpc) == r.work.cores;
    assert View(Advance(r, next)) == View(r);
  }

  lemma DrainedAtExec(r: Row)
    requires Inv(r) && PhaseDone(r) && r.phase.ReadPhase?
    requires r.work.readers == {} ==> r.sh.mem.placeholders == map[]
    requires r.sh.refCnt == 0 <==> r.work.readers == {}
    ensures Drained(ExecPhase, r.sh.refCnt, r.sh.mem, r.rpc, r.baseId)
  {
    hide LockOk, RefOk, HeapOk, PlaceholdersOk, ReadersOk, WritersOk, BitsOk, Writers, FinalWriter, FinalPc;
    BeforeExecution(r);
  }

  lemma AdvanceFromRead(r: Row, next: Work)
    requires Inv(r) && PhaseDone(r) && r.phase.ReadPhase?
    ensures Inv(Advance(r, next))
  {
    hide Inv, LockOk, RefOk, HeapOk, PlaceholdersOk, ReadersOk, WritersOk, BitsOk, WellFormed, Writers, FinalWriter,
      Drained, MasterOk, FinalPc, Shape;
    CounterAfterReadPhase(r);
    if r.work.readers == {} { NoReaderNoPlaceholder(r); }
    DrainedAtExec(r);
    ToExec(r);
    assert Advance(r, next) == r.(phase := ExecPhase);
  }

  /** Nothing but the phase changes; the bitmaps are already complete. */
  lemma ToExec(r: Row)
    requires Inv(r) && PhaseDone(r) && r.phase.ReadPhase?
    requires Drained(ExecPhase, r.sh.refCnt, r.sh.mem, r.rpc, r.baseId)
    ensures Inv(r.(phase := ExecPhase))
  {
    hide LockOk, RefOk, HeapOk, PlaceholdersOk, ReadersOk, WritersOk, WellFormed, Writers, FinalWriter, Drained,
      MasterOk, FinalPc;
    assert View(r.(phase := ExecPhase)) == View(r);
  }

  lemma NoReaderNoPlaceholder(r: Row)
    requires Inv(r) && r.work.readers == {}
    ensures r.sh.mem.placeholders == map[]
  {
    hide LockOk, RefOk, BitsOk, HeapOk, MasterOk, WritersOk, ReadersOk, Drained, Writers, FinalWriter;
    assert r.sh.mem.placeholders.Keys <= Seen(r.work);
    assert Seen(r.work) == {};
  }

  /** The barrier keeps the invariant, and the next epoch starts from the final state of this one. */
  lemma AdvanceKeepsInv(r: Row, next: Work)
    requires Inv(r) && PhaseDone(r) && GoodWork(next)
    ensures Inv(Advance(r, next))
    ensures r.phase.ExecPhase? ==> Advance(r, next).base == FinalTag(r.work, r.epoch, r.base)
  {
    hide Inv, Advance, PhaseDone, FinalTag;
    match r.phase
    case WritePhase => AdvanceFromWrite(r, next);
    case ReadPhase => AdvanceFromRead(r, next);
    case ExecPhase => AdvanceFromExec(r, next);
  }

  /**
    What an actor of a reachable row waits for: the row's lock when it is about to take it, and a reader of the
    execution phase, first of all, the writer of its version.  Nothing else holds it back in its phase.
   */
  lemma WaitsOnlyFor(r: Row, a: Actor)
    requires Inv(r)
    ensures match a
      case Core(c) =>
        r.phase.WritePhase? && c in r.cpc && !r.cpc[c].CDone? ==>
          (Enabled(r, a) <==> (r.cpc[c].CTryLock? ==> r.sh.cnt == 0))
      case Reader(s) =>
        && (r.phase.ReadPhase? && s in r.rpc && !r.rpc[s].RReady? ==>
              (Enabled(r, a) <==> (r.rpc[s].RLock? ==> r.sh.cnt == 0)))
        && (r.phase.ExecPhase? && s in r.rpc && !r.rpc[s].RDone? ==>
              (Enabled(r, a) <==>
               && (r.rpc[s].RReady? ==> WriterFinished(r.work, r.wpc, s))
               && (r.rpc[s].RFinalLock? ==> r.sh.cnt == 0)))
      case Writer(w) =>
        r.phase.ExecPhase? && w in r.wpc && !r.wpc[w].WDone? ==>
          (Enabled(r, a) <==> (r.wpc[w].WLock? ==> r.sh.cnt == 0))
  {
    hide LockOk, RefOk, BitsOk, MasterOk, HeapOk, Drained, PlaceholdersOk, WritersOk, Writers, GoodWork, WriterFinished, ReadersOk;
    match a
    case Reader(s) =>
      if r.phase.ExecPhase? && s in r.rpc && r.rpc[s].RReady? { StableWhenFinished(r, s); }
    case _ =>
  }

  /** The version that a reader holds is STABLE exactly when the writer that it resolves to has finished. */
  lemma StableWhenFinished(r: Row, s: nat)
    requires Inv(r) && s in r.rpc && HasHandle(r.rpc[s])
    ensures r.rpc[s].v in r.sh.mem.heap
    ensures IsStable(r.sh.mem, r.rpc[s].v) <==> WriterFinished(r.work, r.wpc, s)
  {
    HeldVersionsAreLive(r, s);
    hide LockOk, RefOk, BitsOk, MasterOk, HeapOk, Drained, PlaceholdersOk, WritersOk, ReadersOk, GoodWork;
    if k: nat :| Visible(Writers(r.work), s) == Some(k) {
      assert IsMaxBelow(k, Writers(r.work), s);
      assert k in r.wpc.Keys;
    }
  }
}
