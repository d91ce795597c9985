/** The steps of readers keep the invariant of a Cheetah row. */
module CheetahReaderSteps {
  import opened Bits
  import opened TwoLevelBitmap
  import opened Versions
  import opened CheetahRow
  import opened CheetahInvariant
  import opened CheetahSteps

  // ---------- reader steps that leave the memory alone ----------

  lemma QuietReader(r: Row, s: nat, sh': Shared, pc': ReaderPc)
    requires Inv(r) && s in r.rpc
    requires sh'.mem == r.sh.mem && !sh'.fault && ReaderInPhase(r.phase, pc')
    requires LockEffect(Reader(s), r.sh, sh', ReaderInLock(r.rpc[s]), ReaderInLock(pc'))
    requires RefOk(sh'.refCnt, r.rpc[s := pc'])
    requires ReaderOk(View(r), s, pc')
    requires Drained(r.phase, sh'.refCnt, r.sh.mem, r.rpc[s := pc'], r.baseId)
    requires MasterOk(r.sh.mem, FinalPc(r.work, r.wpc), sh'.refCnt, r.baseId)
    ensures Inv(r.(sh := sh', rpc := r.rpc[s := pc']))
  {
    hide LockOk, LockEffect, RefOk, BitsOk, MasterOk, HeapOk, Drained, PlaceholdersOk, WritersOk, ReaderOk, FinalPc,
      Local, Swapped, GoodWork, ReaderInLock, Writers;
    LockReader(r, s, sh', pc');
    var r' := r.(sh := sh', rpc := r.rpc[s := pc']);
    assert r'.rpc.Keys == r.rpc.Keys;
    assert View(r') == View(r);
  }

  /** The pieces of the invariant after a reader step that changes the memory. */
  lemma ReaderAssembles(r: Row, s: nat, sh': Shared, pc': ReaderPc)
    requires Inv(r) && s in r.rpc && !sh'.fault && ReaderInPhase(r.phase, pc')
    requires LockEffect(Reader(s), r.sh, sh', ReaderInLock(r.rpc[s]), ReaderInLock(pc'))
    requires RefOk(sh'.refCnt, r.rpc[s := pc']) && sh'.mem.bits == r.sh.mem.bits
    requires MasterOk(sh'.mem, FinalPc(r.work, r.wpc), sh'.refCnt, r.baseId)
    requires HeapOk(sh'.mem, Local(FinalPc(r.work, r.wpc)), r.baseId, r.base)
    requires Drained(r.phase, sh'.refCnt, sh'.mem, r.rpc[s := pc'], r.baseId)
    requires PlaceholdersOk(sh'.mem, r.work, r.epoch, r.wpc)
    requires ReadersOk(View(r).(mem := sh'.mem), r.rpc[s := pc'])
    requires WritersOk(sh'.mem, r.work, r.epoch, r.wpc)
    ensures Inv(r.(sh := sh', rpc := r.rpc[s := pc']))
  {
    hide LockOk, LockEffect, RefOk, BitsOk, MasterOk, HeapOk, Drained, PlaceholdersOk, ReadersOk, WritersOk, FinalPc,
      Local, Swapped, GoodWork, ReaderInLock, Writers;
    LockReader(r, s, sh', pc');
    var r' := r.(sh := sh', rpc := r.rpc[s := pc']);
    assert r'.rpc.Keys == r.rpc.Keys;
    assert View(r') == View(r).(mem := sh'.mem);
  }

  lemma BeforeExecution(r: Row)
    requires Inv(r) && !r.phase.ExecPhase?
    ensures FinalPc(r.work, r.wpc) == WLock
    ensures r.sh.mem.master == Some(r.baseId) && r.sh.mem.previous == None && r.baseId in r.sh.mem.heap
    ensures r.sh.mem.heap[r.baseId] == Version(Some(r.base), Stable)
    ensures forall s :: s in r.rpc ==> !Final(r.rpc[s])
  {
    hide LockOk, RefOk, BitsOk, PlaceholdersOk, WritersOk, ReadersOk, Drained;
  }

  lemma NoWriterNoPlaceholder(r: Row)
    requires Inv(r) && Writers(r.work) == {}
    ensures r.sh.mem.placeholders == map[]
  {
    hide LockOk, RefOk, BitsOk, HeapOk, MasterOk, WritersOk, ReadersOk, Drained, Writers, FinalWriter;
    assert r.sh.mem.placeholders.Keys <= Seen(r.work);
    assert Seen(r.work) == {};
  }

  lemma RFetchAddStep(r: Row, s: nat)
    requires Inv(r) && Enabled(r, Reader(s)) && r.rpc[s].RFetchAdd?
    ensures Inv(Step(r, Reader(s)))
  {
    hide LockOk, RefOk, BitsOk, HeapOk, PlaceholdersOk, WritersOk, ReadersOk;
    var (sh', pc') := ReaderStep(s, r.rpc[s], r.sh);
    BeforeExecution(r);
    RefFetchAdd(r.sh.refCnt, r.rpc, s, pc');
    QuietReader(r, s, sh', pc');
  }

  lemma RSecondAddStep(r: Row, s: nat)
    requires Inv(r) && Enabled(r, Reader(s)) && r.rpc[s].RSecondAdd?
    ensures Inv(Step(r, Reader(s)))
  {
    hide LockOk, RefOk, BitsOk, HeapOk, PlaceholdersOk, WritersOk, ReadersOk;
    var (sh', pc') := ReaderStep(s, r.rpc[s], r.sh);
    BeforeExecution(r);
    RefSecondAdd(r.sh.refCnt, r.rpc, s);
    QuietReader(r, s, sh', pc');
  }

  /** The bitmaps send the reader to the visible writer's version, or to the master version. */
  lemma LookupFindsVisible(mem: Memory, work: Work, s: nat)
    requires WellFormed(mem.bits) && ToMap(mem.bits) == work.cores && s < EPOCH_SIZE
    ensures mem.bits.core == Zero() ==> Writers(work) == {} && Visible(Writers(work), s) == None
    ensures mem.bits.core != Zero() ==>
      var (found, c, t) := IdentifyVisible(mem.bits, s / WIDTH, s % WIDTH);
      Visible(Writers(work), s) == if found then Some(c * WIDTH + t) else None
  {
    hide FindLargest, FindTwoLargestAmongOrLessThan, FindLargestLessThan, IdentifyVisible, CountPrefixSum, WellFormed;
    SerialAddress(s / WIDTH, s % WIDTH);
    NonZeroHasPosition(mem.bits.core);
    if mem.bits.core == Zero() {
      assert work.cores == map[];
    } else {
      IdentifyVisibleIsMaxBelow(mem.bits, s / WIDTH, s % WIDTH);
      var (found, c, t) := IdentifyVisible(mem.bits, s / WIDTH, s % WIDTH);
      if found { VisibleIsUnique(Writers(work), s, c * WIDTH + t); }
    }
  }

  lemma RLookupStep(r: Row, s: nat)
    requires Inv(r) && Enabled(r, Reader(s)) && r.rpc[s].RLookup?
    ensures Inv(Step(r, Reader(s)))
  {
    hide LockOk, RefOk, PlaceholdersOk, WritersOk, ReadersOk, MasterOk, Drained, IdentifyVisible, HeapOk, Writers, Visible;
    var (sh', pc') := ReaderStep(s, r.rpc[s], r.sh);
    BeforeExecution(r);
    LookupFindsVisible(r.sh.mem, r.work, s);
    if r.sh.mem.bits.core == Zero() { NoWriterNoPlaceholder(r); }
    RefQuiet(r.sh.refCnt, r.rpc, s, pc');
    DrainedQuiet(r, s, pc');
    QuietReader(r, s, sh', pc');
  }

  lemma DrainedQuiet(r: Row, s: nat, pc': ReaderPc)
    requires Inv(r) && s in r.rpc && Counted(r.rpc[s]) && Counted(pc')
    ensures Drained(r.phase, r.sh.refCnt, r.sh.mem, r.rpc[s := pc'], r.baseId)
  {
    hide LockOk, RefOk, PlaceholdersOk, WritersOk, ReadersOk, MasterOk, BitsOk, HeapOk;
    CountedAfter(r.rpc, s, pc');
  }

  /** A writer's version is live and its content is what the writer's progress says. */
  lemma VersionIsContent(r: Row, k: nat, v: VersionId)
    requires PlaceholdersOk(r.sh.mem, r.work, r.epoch, r.wpc)
    requires WritersOk(r.sh.mem, r.work, r.epoch, r.wpc)
    requires IsVersionOf(r.sh.mem, r.work, FinalPc(r.work, r.wpc), k, v)
    ensures k in r.wpc && v in r.sh.mem.heap && r.sh.mem.heap[v] == Content(r.epoch, k, r.wpc[k])
  {
  }

  /** What a reader holds is live, and what it holds is decided by its visible writer alone. */
  lemma HandleIsLive(r: Row, s: nat)
    requires Inv(r) && s in r.rpc && HasHandle(r.rpc[s])
    ensures r.rpc[s].v in r.sh.mem.heap
    ensures match Visible(Writers(r.work), s)
      case None => r.sh.mem.heap[r.rpc[s].v] == Version(Some(r.base), Stable)
      case Some(k) => k in r.wpc && r.sh.mem.heap[r.rpc[s].v] == Content(r.epoch, k, r.wpc[k])
  {
    hide LockOk, RefOk, BitsOk, MasterOk, PlaceholdersOk, WritersOk, IsVersionOf, FinalPc;
    assert ReaderOk(View(r), s, r.rpc[s]);
    match Visible(Writers(r.work), s)
    case None =>
      assert s in CountedReaders(r.rpc);
    case Some(k) =>
      VersionIsContent(r, k, r.rpc[s].v);
  }

  lemma RLockStep(r: Row, s: nat)
    requires Inv(r) && Enabled(r, Reader(s)) && r.rpc[s].RLock?
    ensures Inv(Step(r, Reader(s)))
  {
    hide RefOk, BitsOk, HeapOk, PlaceholdersOk, WritersOk;
    var (sh', pc') := ReaderStep(s, r.rpc[s], r.sh);
    BeforeExecution(r);
    RefQuiet(r.sh.refCnt, r.rpc, s, pc');
    QuietReader(r, s, sh', pc');
  }

  lemma RUnlockStep(r: Row, s: nat)
    requires Inv(r) && Enabled(r, Reader(s)) && r.rpc[s].RUnlock?
    ensures Inv(Step(r, Reader(s)))
  {
    hide RefOk, BitsOk, HeapOk, PlaceholdersOk, WritersOk;
    var (sh', pc') := ReaderStep(s, r.rpc[s], r.sh);
    BeforeExecution(r);
    RefQuiet(r.sh.refCnt, r.rpc, s, pc');
    QuietReader(r, s, sh', pc');
  }

  lemma RReadyStep(r: Row, s: nat)
    requires Inv(r) && Enabled(r, Reader(s)) && r.rpc[s].RReady?
    ensures Inv(Step(r, Reader(s)))
  {
    hide LockOk, RefOk, BitsOk, MasterOk, PlaceholdersOk, WritersOk, HeapOk, Drained, FinalPc, Visible, Writers, HandleOk;
    var (sh', pc') := ReaderStep(s, r.rpc[s], r.sh);
    HandleIsLive(r, s);
    RefQuiet(r.sh.refCnt, r.rpc, s, pc');
    DrainedQuiet(r, s, pc');
    QuietReader(r, s, sh', pc');
  }

  lemma RLoadedStep(r: Row, s: nat)
    requires Inv(r) && Enabled(r, Reader(s)) && r.rpc[s].RLoaded?
    ensures Inv(Step(r, Reader(s)))
  {
    hide LockOk, RefOk, BitsOk, MasterOk, PlaceholdersOk, WritersOk, HeapOk, Drained, FinalPc, Visible, Writers, HandleOk;
    var (sh', pc') := ReaderStep(s, r.rpc[s], r.sh);
    HandleIsLive(r, s);
    RefQuiet(r.sh.refCnt, r.rpc, s, pc');
    DrainedQuiet(r, s, pc');
    QuietReader(r, s, sh', pc');
  }

  lemma RReadStep(r: Row, s: nat)
    requires Inv(r) && Enabled(r, Reader(s)) && r.rpc[s].RRead?
    ensures Inv(Step(r, Reader(s)))
  {
    hide LockOk, RefOk, BitsOk, HeapOk, PlaceholdersOk, WritersOk;
    var (sh', pc') := ReaderStep(s, r.rpc[s], r.sh);
    RefDecrement(r.sh.refCnt, r.rpc, s, pc');
    QuietReader(r, s, sh', pc');
  }

  lemma RFinalLockStep(r: Row, s: nat)
    requires Inv(r) && Enabled(r, Reader(s)) && r.rpc[s].RFinalLock?
    ensures Inv(Step(r, Reader(s)))
  {
    hide RefOk, BitsOk, MasterOk, HeapOk, PlaceholdersOk, WritersOk;
    var (sh', pc') := ReaderStep(s, r.rpc[s], r.sh);
    RefQuiet(r.sh.refCnt, r.rpc, s, pc');
    QuietReader(r, s, sh', pc');
  }

  lemma RFinalSubStep(r: Row, s: nat)
    requires Inv(r) && Enabled(r, Reader(s)) && r.rpc[s].RFinalSub?
    ensures Inv(Step(r, Reader(s)))
  {
    hide BitsOk, HeapOk, PlaceholdersOk, WritersOk;
    var (sh', pc') := ReaderStep(s, r.rpc[s], r.sh);
    RefFinalSub(r.sh.refCnt, r.rpc, s);
    QuietReader(r, s, sh', pc');
  }

  lemma RFinalUnlockStep(r: Row, s: nat)
    requires Inv(r) && Enabled(r, Reader(s)) && r.rpc[s].RFinalUnlock?
    ensures Inv(Step(r, Reader(s)))
  {
    hide BitsOk, MasterOk, HeapOk, PlaceholdersOk, WritersOk;
    var (sh', pc') := ReaderStep(s, r.rpc[s], r.sh);
    RefQuiet(r.sh.refCnt, r.rpc, s, pc');
    QuietReader(r, s, sh', pc');
  }

  // ---------- reader steps that change the memory ----------

  lemma CreatedPlaceholderOwners(mem: Memory, mem': Memory, id: nat)
    requires id !in mem.placeholders
    requires mem' == Create(mem).(placeholders := mem.placeholders[id := NewId(mem)])
    ensures mem'.placeholders.Values == mem.placeholders.Values + {NewId(mem)}
    ensures mem'.heap.Keys == mem.heap.Keys + {NewId(mem)}
    ensures mem'.master == mem.master && mem'.previous == mem.previous && mem'.bits == mem.bits
    ensures Owners(mem', None) == Owners(mem, None) + {NewId(mem)}
  {
    ValuesAfterInsert(mem.placeholders, id, NewId(mem));
  }

  lemma CreatedPlaceholderHeap(mem: Memory, mem': Memory, baseId: VersionId, base: Tag, id: nat)
    requires HeapOk(mem, None, baseId, base) && id !in mem.placeholders
    requires mem' == Create(mem).(placeholders := mem.placeholders[id := NewId(mem)])
    ensures HeapOk(mem', None, baseId, base)
  {
    hide Injective, Owners;
    CreatedPlaceholderOwners(mem, mem', id);
    assert mem.placeholders.Values <= mem.heap.Keys && Opt(mem.master) <= mem.heap.Keys by { OwnersAreLive(mem, None); }
    InjectiveAfterInsert(mem.placeholders, id, NewId(mem));
  }

  lemma CreatedPlaceholderReaders(x: ReaderView, rpc: map<nat, ReaderPc>, s: nat)
    requires ReadersOk(x, rpc) && s in rpc && rpc[s].RPlace? && rpc[s].id !in x.mem.placeholders
    requires FinalPc(x.work, x.wpc) == WLock
    ensures var id, v := rpc[s].id, NewId(x.mem);
      ReadersOk(x.(mem := Create(x.mem).(placeholders := x.mem.placeholders[id := v])), rpc[s := RUnlock(v)])
  {
    hide Writers, FinalPc, WriterFinished, Expected;
    var id, v := rpc[s].id, NewId(x.mem);
    var x' := x.(mem := Create(x.mem).(placeholders := x.mem.placeholders[id := v]));
    forall t | t in rpc
      ensures ReaderOk(x', t, rpc[s := RUnlock(v)][t])
    {
      assert ReaderOk(x, t, rpc[t]);
    }
  }

  lemma CreatedPlaceholderPlaceholders(mem: Memory, mem': Memory, r: Row, s: nat, id: nat)
    requires PlaceholdersOk(mem, r.work, r.epoch, r.wpc) && HeapOk(mem, None, r.baseId, r.base)
    requires id !in mem.placeholders && s in r.work.readers && Visible(Writers(r.work), s) == Some(id)
    requires Shape(r) && !r.phase.ExecPhase?
    requires mem' == Create(mem).(placeholders := mem.placeholders[id := NewId(mem)])
    ensures PlaceholdersOk(mem', r.work, r.epoch, r.wpc)
  {
    hide Owners, Injective, FinalWriter, GoodWork, Visible, Writers;
    SeenByReader(r.work, s, id);
    assert NewId(mem) !in mem.heap.Keys;
    assert id in Writers(r.work);
    hide Seen;
  }

  lemma SeenByReader(work: Work, s: nat, id: nat)
    requires s in work.readers && Visible(Writers(work), s) == Some(id)
    ensures id in Seen(work) && id in Writers(work)
  {
    hide Visible, Writers;
  }

  lemma PlacingReader(r: Row, s: nat)
    requires ReadersOk(View(r), r.rpc) && s in r.rpc
    ensures ReaderOk(View(r), s, r.rpc[s])
  {
  }

  lemma WaitingWriters(r: Row, mem': Memory)
    requires Shape(r) && !r.phase.ExecPhase?
    ensures WritersOk(mem', r.work, r.epoch, r.wpc)
  {
  }

  /** While no write has run, creating a placeholder touches nothing the other aspects look at. */
  lemma CreatedPlaceholderRest(r: Row, s: nat, mem': Memory, pc': ReaderPc)
    requires MasterOk(r.sh.mem, WLock, r.sh.refCnt, r.baseId)
    requires Drained(r.phase, r.sh.refCnt, r.sh.mem, r.rpc[s := pc'], r.baseId) && r.phase.ReadPhase?
    requires s in r.rpc && (forall t :: t in r.rpc ==> !Final(r.rpc[t])) && !Final(pc')
    requires mem'.master == r.sh.mem.master && mem'.previous == r.sh.mem.previous && r.sh.mem.heap.Keys <= mem'.heap.Keys
    ensures MasterOk(mem', WLock, r.sh.refCnt, r.baseId)
    ensures Drained(r.phase, r.sh.refCnt, mem', r.rpc[s := pc'], r.baseId)
  {
  }

  lemma PlacingCreates(r: Row, s: nat)
    requires Inv(r) && Enabled(r, Reader(s)) && r.rpc[s].RPlace? && r.rpc[s].id !in r.sh.mem.placeholders
    ensures Inv(Step(r, Reader(s)))
  {
    hide RefOk, BitsOk, ReadersOk, PlaceholdersOk, LockOk, WritersOk, MasterOk, HeapOk, Drained, FinalPc, Visible,
      Writers, GoodWork, Create;
    var (sh', pc') := ReaderStep(s, r.rpc[s], r.sh);
    BeforeExecution(r);
    RefQuiet(r.sh.refCnt, r.rpc, s, pc');
    DrainedQuiet(r, s, pc');
    PlacingReader(r, s);
    CreatedPlaceholderOwners(r.sh.mem, sh'.mem, r.rpc[s].id);
    CreatedPlaceholderHeap(r.sh.mem, sh'.mem, r.baseId, r.base, r.rpc[s].id);
    CreatedPlaceholderPlaceholders(r.sh.mem, sh'.mem, r, s, r.rpc[s].id);
    CreatedPlaceholderReaders(View(r), r.rpc, s);
    WaitingWriters(r, sh'.mem);
    CreatedPlaceholderRest(r, s, sh'.mem, pc');
    ReaderAssembles(r, s, sh', pc');
  }

  lemma PlacingFinds(r: Row, s: nat)
    requires Inv(r) && Enabled(r, Reader(s)) && r.rpc[s].RPlace? && r.rpc[s].id in r.sh.mem.placeholders
    ensures Inv(Step(r, Reader(s)))
  {
    hide LockOk, RefOk, BitsOk, HeapOk, PlaceholdersOk, WritersOk, ReadersOk, MasterOk, Drained, Visible, Writers, FinalPc;
    var (sh', pc') := ReaderStep(s, r.rpc[s], r.sh);
    PlacingReader(r, s);
    BeforeExecution(r);
    RefQuiet(r.sh.refCnt, r.rpc, s, pc');
    DrainedQuiet(r, s, pc');
    QuietReader(r, s, sh', pc');
  }

  lemma RPlaceStep(r: Row, s: nat)
    requires Inv(r) && Enabled(r, Reader(s)) && r.rpc[s].RPlace?
    ensures Inv(Step(r, Reader(s)))
  {
    hide Inv, Step;
    if r.rpc[s].id in r.sh.mem.placeholders {
      PlacingFinds(r, s);
    } else {
      PlacingCreates(r, s);
    }
  }

  // ---------- the final reader ----------

  /** What readers and unpublished versions rely on is untouched while placeholders and master stay. */
  lemma ReadersIgnoreHeap(x: ReaderView, mem': Memory, rpc: map<nat, ReaderPc>, s: nat, pc': ReaderPc)
    requires ReadersOk(x, rpc) && s in rpc
    requires mem'.placeholders == x.mem.placeholders && mem'.master == x.mem.master
    requires ReaderOk(x, s, pc')
    ensures ReadersOk(x.(mem := mem'), rpc[s := pc'])
  {
    hide FinalPc, WriterFinished, Expected, Visible;
    forall t | t in rpc
      ensures ReaderOk(x.(mem := mem'), t, rpc[s := pc'][t])
    {
      assert ReaderOk(x, t, if t == s then pc' else rpc[t]);
    }
  }

  lemma FreePreviousOwners(mem: Memory, mem': Memory, baseId: VersionId)
    requires mem.previous == Some(baseId) && mem.master != Some(baseId) && baseId !in mem.placeholders.Values
    requires mem' == Free(mem, baseId).(previous := None)
    ensures baseId in Owners(mem, None)
    ensures Owners(mem', None) == Owners(mem, None) - {baseId}
    ensures mem'.placeholders == mem.placeholders && mem'.master == mem.master && mem'.previous == None
    ensures mem'.heap.Keys == mem.heap.Keys - {baseId}
    ensures mem'.created == mem.created && mem'.deleted == mem.deleted + 1
  {
  }

  lemma FreePreviousHeap(mem: Memory, mem': Memory, baseId: VersionId, base: Tag)
    requires HeapOk(mem, None, baseId, base)
    requires mem.previous == Some(baseId) && mem.master != Some(baseId)
    requires mem' == Free(mem, baseId).(previous := None)
    ensures IsStable(mem, baseId) && HeapOk(mem', None, baseId, base)
  {
    hide Injective, Owners, Free;
    FreePreviousOwners(mem, mem', baseId);
    assert baseId in mem.heap.Keys;
    assert |mem'.heap.Keys| == |mem.heap.Keys| - 1;
  }

  /** Freeing the old master takes no version from a placeholder or from a writer. */
  lemma FreePreviousVersions(r: Row, mem': Memory)
    requires PlaceholdersOk(r.sh.mem, r.work, r.epoch, r.wpc) && WritersOk(r.sh.mem, r.work, r.epoch, r.wpc)
    requires HeapOk(r.sh.mem, None, r.baseId, r.base) && r.sh.mem.master != Some(r.baseId)
    requires Local(FinalPc(r.work, r.wpc)) == None
    requires mem' == Free(r.sh.mem, r.baseId).(previous := None)
    ensures PlaceholdersOk(mem', r.work, r.epoch, r.wpc)
    ensures WritersOk(mem', r.work, r.epoch, r.wpc)
  {
    hide Owners, Injective, Visible, Seen, HeapOk, WritersOk;
    BaseIsNoPlaceholder(r.sh.mem, None, r.baseId, r.base);
    forall w | w in r.wpc
      ensures WriterOk(mem', r.work, r.epoch, w, r.wpc[w])
    {
      FreePreviousWriter(r, mem', w);
    }
    assert WritersOk(mem', r.work, r.epoch, r.wpc) by { EachWriterOk(mem', r.work, r.epoch, r.wpc); }
  }

  lemma FreePreviousWriter(r: Row, mem': Memory, w: nat)
    requires WritersOk(r.sh.mem, r.work, r.epoch, r.wpc) && w in r.wpc && r.sh.mem.master != Some(r.baseId)
    requires Local(FinalPc(r.work, r.wpc)) == None
    requires mem' == Free(r.sh.mem, r.baseId).(previous := None)
    ensures WriterOk(mem', r.work, r.epoch, w, r.wpc[w])
  {
    hide Seen, Visible;
    assert WriterOk(r.sh.mem, r.work, r.epoch, w, r.wpc[w]);
  }

  /** When the final reader is inside the lock, a stashed master belongs to a finished swap. */
  lemma FinalReaderSeesSwap(r: Row, s: nat)
    requires Inv(r) && s in r.rpc && r.rpc[s].RFinalPrevious?
    ensures r.sh.refCnt == 1 && CountedReaders(r.rpc) == {} && r.phase.ExecPhase?
    ensures !FinalPc(r.work, r.wpc).WAssign?
    ensures r.sh.mem.previous.Some? ==>
      && r.sh.mem.previous == Some(r.baseId)
      && Swapped(FinalPc(r.work, r.wpc))
      && Local(FinalPc(r.work, r.wpc)) == None
      && r.sh.mem.master.Some? && r.sh.mem.master != Some(r.baseId)
  {
    hide BitsOk, HeapOk, PlaceholdersOk, ReadersOk, WritersOk, Drained, Visible;
  }

  lemma FinalPreviousRest(r: Row, s: nat, mem': Memory)
    requires Inv(r) && s in r.rpc && r.rpc[s].RFinalPrevious?
    requires mem'.placeholders == r.sh.mem.placeholders && mem'.master == r.sh.mem.master && mem'.previous == None
    requires Swapped(FinalPc(r.work, r.wpc)) || r.sh.mem.previous == None
    requires CountedReaders(r.rpc) == {} && r.sh.refCnt == 1 && !FinalPc(r.work, r.wpc).WAssign?
    ensures MasterOk(mem', FinalPc(r.work, r.wpc), r.sh.refCnt, r.baseId)
    ensures Drained(r.phase, r.sh.refCnt, mem', r.rpc[s := RFinalPlaceholders(r.rpc[s].rec)], r.baseId)
    ensures ReaderOk(View(r), s, RFinalPlaceholders(r.rpc[s].rec))
  {
    hide BitsOk, HeapOk, PlaceholdersOk, WritersOk, Visible, FinalPc, LockOk, RefOk;
    CountedAfter(r.rpc, s, RFinalPlaceholders(r.rpc[s].rec));
  }

  lemma RFinalPreviousStep(r: Row, s: nat)
    requires Inv(r) && Enabled(r, Reader(s)) && r.rpc[s].RFinalPrevious?
    ensures Inv(Step(r, Reader(s)))
  {
    hide LockOk, RefOk, BitsOk, HeapOk, PlaceholdersOk, WritersOk, ReadersOk, MasterOk, Drained, Visible, Writers,
      FinalPc, Free, IsStable, Swapped, Local, ReaderOk;
    var (sh', pc') := ReaderStep(s, r.rpc[s], r.sh);
    FinalReaderSeesSwap(r, s);
    if r.sh.mem.previous.Some? {
      FreePreviousHeap(r.sh.mem, Free(r.sh.mem, r.baseId).(previous := None), r.baseId, r.base);
      FreePreviousVersions(r, sh'.mem);
      FreeKeepsOwners(r.sh.mem, r.baseId);
    }
    FinalPreviousRest(r, s, sh'.mem);
    ReadersIgnoreHeap(View(r), sh'.mem, r.rpc, s, pc');
    RefQuiet(r.sh.refCnt, r.rpc, s, pc');
    ReaderAssembles(r, s, sh', pc');
  }

  lemma FreeKeepsOwners(mem: Memory, v: VersionId)
    ensures Free(mem, v).placeholders == mem.placeholders && Free(mem, v).master == mem.master && Free(mem, v).bits == mem.bits
  {
  }

  /** Every reader has finished with its version, so the writer of every placeholder has finished. */
  lemma NoReaderLeft(r: Row, k: nat)
    requires Inv(r) && r.phase.ExecPhase? && CountedReaders(r.rpc) == {} && k in Seen(r.work)
    ensures k in r.wpc && r.wpc[k].WDone?
  {
    hide LockOk, RefOk, BitsOk, MasterOk, HeapOk, Drained, PlaceholdersOk, WritersOk, Writers, Visible;
    var s :| s in r.work.readers && Visible(Writers(r.work), s) == Some(k);
    assert s !in CountedReaders(r.rpc);
    assert ReaderOk(View(r), s, r.rpc[s]);
  }

  lemma PlaceholdersAreStable(r: Row)
    requires Inv(r) && r.phase.ExecPhase? && CountedReaders(r.rpc) == {}
    ensures CanFreePlaceholders(r.sh.mem)
    ensures forall k :: k in r.sh.mem.placeholders ==> k in r.wpc && r.wpc[k].WDone? && FinalWriter(r.work) != Some(k)
  {
    hide LockOk, RefOk, BitsOk, MasterOk, Drained, WritersOk, ReadersOk, Writers, Visible, Seen, Owners, Injective;
    InjectiveValues(r.sh.mem.placeholders);
    forall k | k in r.sh.mem.placeholders
      ensures k in r.wpc && r.wpc[k].WDone? && FinalWriter(r.work) != Some(k)
      ensures IsStable(r.sh.mem, r.sh.mem.placeholders[k])
    {
      NoReaderLeft(r, k);
    }
  }

  lemma FreePlaceholdersOwners(mem: Memory, local: Option<VersionId>)
    requires mem.placeholders.Values !! Opt(mem.master) && mem.placeholders.Values !! Opt(local)
    requires mem.previous == None
    ensures mem.placeholders.Values <= Owners(mem, local)
    ensures Owners(FreePlaceholders(mem), local) == Owners(mem, local) - mem.placeholders.Values
  {
    hide FreePlaceholders, Opt;
    FreePlaceholdersFields(mem);
    assert Opt(mem.previous) == {} by { OptNone<VersionId>(); }
    assert FreePlaceholders(mem).placeholders.Values == {};
    RemoveOwners(Opt(mem.master), Opt(mem.previous), mem.placeholders.Values, Opt(local));
  }

  lemma FreePlaceholdersFields(mem: Memory)
    ensures var mem' := FreePlaceholders(mem);
      && mem'.heap.Keys == mem.heap.Keys - mem.placeholders.Values
      && mem'.placeholders == map[] && mem'.master == mem.master && mem'.previous == mem.previous && mem'.bits == mem.bits
      && mem'.created == mem.created && mem'.deleted == mem.deleted + |mem.placeholders|
      && (forall v :: v in mem'.heap ==> v in mem.heap && mem'.heap[v] == mem.heap[v])
  {
  }

  lemma FreePlaceholdersHeap(mem: Memory, mem': Memory, local: Option<VersionId>, baseId: VersionId, base: Tag)
    requires HeapOk(mem, local, baseId, base) && mem.previous == None && CanFreePlaceholders(mem)
    requires mem' == FreePlaceholders(mem)
    ensures HeapOk(mem', local, baseId, base)
    ensures mem'.placeholders == map[] && mem'.master == mem.master && mem'.previous == None && mem'.bits == mem.bits
    ensures forall v :: v in mem'.heap ==> v in mem.heap && mem'.heap[v] == mem.heap[v]
    ensures forall v :: v in mem.heap && (mem.master == Some(v) || local == Some(v)) ==> v in mem'.heap
  {
    hide FreePlaceholders, Owners, Injective, CanFreePlaceholders;
    assert |mem.placeholders.Values| == |mem.placeholders| by { NoneTwice(mem); }
    PlaceholdersAreApart(mem, local, baseId, base);
    FreePlaceholdersOwners(mem, local);
    FreePlaceholdersFields(mem);
    SmallerBy(mem.heap.Keys, mem.placeholders.Values);
    NoPlaceholders(mem');
  }

  lemma NoneTwice(mem: Memory)
    requires CanFreePlaceholders(mem)
    ensures |mem.placeholders.Values| == |mem.placeholders|
  {
  }

  lemma PlaceholdersAreApart(mem: Memory, local: Option<VersionId>, baseId: VersionId, base: Tag)
    requires HeapOk(mem, local, baseId, base)
    ensures mem.placeholders.Values !! Opt(mem.master) && mem.placeholders.Values !! Opt(local)
    ensures baseId !in mem.placeholders.Values
  {
    hide Owners, Injective;
  }

  lemma SmallerBy<T>(a: set<T>, b: set<T>)
    requires b <= a
    ensures |a - b| == |a| - |b|
  {
  }

  lemma NoPlaceholders(mem: Memory)
    requires mem.placeholders == map[]
    ensures Injective(mem.placeholders) && mem.placeholders.Values == {}
  {
  }

  lemma FreePlaceholdersWriter(r: Row, mem': Memory, w: nat)
    requires w in r.wpc && WriterOk(r.sh.mem, r.work, r.epoch, w, r.wpc[w])
    requires w in r.sh.mem.placeholders ==> r.wpc[w].WDone?
    requires FinalWriter(r.work) == Some(w) ==> FinalPc(r.work, r.wpc) == r.wpc[w]
    requires mem'.master == r.sh.mem.master
    requires forall v :: v in mem'.heap ==> v in r.sh.mem.heap && mem'.heap[v] == r.sh.mem.heap[v]
    requires forall v :: v in r.sh.mem.heap && (r.sh.mem.master == Some(v) || Local(FinalPc(r.work, r.wpc)) == Some(v)) ==> v in mem'.heap
    ensures WriterOk(mem', r.work, r.epoch, w, r.wpc[w])
  {
    hide Seen, FinalWriter;
  }

  lemma FreePlaceholdersRest(r: Row, s: nat, mem': Memory)
    requires Inv(r) && s in r.rpc && r.rpc[s].RFinalPlaceholders?
    requires mem'.placeholders == map[] && mem'.master == r.sh.mem.master && mem'.previous == None
    ensures r.phase.ExecPhase? && CountedReaders(r.rpc) == {} && r.sh.mem.previous == None
    ensures MasterOk(mem', FinalPc(r.work, r.wpc), r.sh.refCnt, r.baseId)
    ensures Drained(r.phase, r.sh.refCnt, mem', r.rpc[s := RFinalSub(r.rpc[s].rec)], r.baseId)
    ensures PlaceholdersOk(mem', r.work, r.epoch, r.wpc)
    ensures ReadersOk(View(r).(mem := mem'), r.rpc[s := RFinalSub(r.rpc[s].rec)])
  {
    hide BitsOk, HeapOk, WritersOk, Visible, FinalPc, LockOk, Writers, Seen, WriterFinished, Expected;
    CountedAfter(r.rpc, s, RFinalSub(r.rpc[s].rec));
    var pc' := RFinalSub(r.rpc[s].rec);
    forall t | t in r.rpc
      ensures ReaderOk(View(r).(mem := mem'), t, r.rpc[s := pc'][t])
    {
      assert ReaderOk(View(r), t, r.rpc[t]);
      assert t !in CountedReaders(r.rpc);
    }
  }

  lemma RFinalPlaceholdersStep(r: Row, s: nat)
    requires Inv(r) && Enabled(r, Reader(s)) && r.rpc[s].RFinalPlaceholders?
    ensures Inv(Step(r, Reader(s)))
  {
    hide LockOk, RefOk, BitsOk, HeapOk, PlaceholdersOk, WritersOk, ReadersOk, MasterOk, Drained, Visible, Writers,
      FinalPc, FreePlaceholders, CanFreePlaceholders, Local;
    var (sh', pc') := ReaderStep(s, r.rpc[s], r.sh);
    FreePlaceholdersRest(r, s, r.sh.mem.(placeholders := map[], previous := None));
    PlaceholdersAreStable(r);
    FreePlaceholdersHeap(r.sh.mem, sh'.mem, Local(FinalPc(r.work, r.wpc)), r.baseId, r.base);
    FreePlaceholdersRest(r, s, sh'.mem);
    FreePlaceholdersWriters(r, sh'.mem);
    RefQuiet(r.sh.refCnt, r.rpc, s, pc');
    ReaderAssembles(r, s, sh', pc');
  }

  lemma FreePlaceholdersWriters(r: Row, mem': Memory)
    requires Inv(r) && mem'.master == r.sh.mem.master
    requires forall k :: k in r.sh.mem.placeholders ==> k in r.wpc && r.wpc[k].WDone?
    requires forall v :: v in mem'.heap ==> v in r.sh.mem.heap && mem'.heap[v] == r.sh.mem.heap[v]
    requires forall v :: v in r.sh.mem.heap && (r.sh.mem.master == Some(v) || Local(FinalPc(r.work, r.wpc)) == Some(v)) ==> v in mem'.heap
    ensures WritersOk(mem', r.work, r.epoch, r.wpc)
  {
    hide LockOk, RefOk, BitsOk, HeapOk, PlaceholdersOk, ReadersOk, MasterOk, Drained, Visible, Writers, WriterOk, Seen;
    forall w | w in r.wpc
      ensures WriterOk(mem', r.work, r.epoch, w, r.wpc[w])
    {
      FreePlaceholdersWriter(r, mem', w);
    }
  }

  lemma ReaderStepKeeps(r: Row, s: nat)
    requires Inv(r) && Enabled(r, Reader(s))
    ensures Inv(Step(r, Reader(s)))
  {
    hide Inv, Step;
    match r.rpc[s]
    case RFetchAdd => RFetchAddStep(r, s);
    case RSecondAdd => RSecondAddStep(r, s);
    case RLookup => RLookupStep(r, s);
    case RLock(_) => RLockStep(r, s);
    case RPlace(_) => RPlaceStep(r, s);
    case RUnlock(_) => RUnlockStep(r, s);
    case RReady(_) => RReadyStep(r, s);
    case RLoaded(_) => RLoadedStep(r, s);
    case RRead(_, _) => RReadStep(r, s);
    case RFinalLock(_) => RFinalLockStep(r, s);
    case RFinalPrevious(_) => RFinalPreviousStep(r, s);
    case RFinalPlaceholders(_) => RFinalPlaceholdersStep(r, s);
    case RFinalSub(_) => RFinalSubStep(r, s);
    case RFinalUnlock(_) => RFinalUnlockStep(r, s);
  }
}
