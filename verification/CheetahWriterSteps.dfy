/** The steps of cores and of writers keep the invariant of a Cheetah row. */
module CheetahWriterSteps {
  import opened Bits
  import opened TwoLevelBitmap
  import opened Versions
  import opened CheetahRow
  import opened CheetahInvariant
  import opened CheetahSteps

  // ---------- write phase: the cores register their transaction bitmaps ----------

  lemma HeapIgnoresBits(mem: Memory, mem': Memory, local: Option<VersionId>, baseId: VersionId, base: Tag)
    requires mem' == mem.(bits := mem'.bits) && HeapOk(mem, local, baseId, base)
    ensures HeapOk(mem', local, baseId, base)
  {
    hide Injective;
    assert Owners(mem', local) == Owners(mem, local);
    hide Owners;
  }

  /** Master and placeholders do not involve the bitmaps. */
  lemma BitsAreSeparate(r: Row, mem': Memory)
    requires mem' == r.sh.mem.(bits := mem'.bits)
    ensures MasterOk(r.sh.mem, FinalPc(r.work, r.wpc), r.sh.refCnt, r.baseId)
       ==> MasterOk(mem', FinalPc(r.work, r.wpc), r.sh.refCnt, r.baseId)
    ensures Drained(r.phase, r.sh.refCnt, r.sh.mem, r.rpc, r.baseId)
       ==> Drained(r.phase, r.sh.refCnt, mem', r.rpc, r.baseId)
    ensures PlaceholdersOk(r.sh.mem, r.work, r.epoch, r.wpc) ==> PlaceholdersOk(mem', r.work, r.epoch, r.wpc)
  {
    hide FinalPc, FinalWriter, Seen, CountedReaders;
  }

  /** In the write phase no reader and no writer has started. */
  lemma NobodyStarted(r: Row, mem': Memory)
    requires Shape(r) && r.phase.WritePhase?
    ensures ReadersOk(View(r).(mem := mem'), r.rpc)
    ensures WritersOk(mem', r.work, r.epoch, r.wpc)
  {
    hide Writers, GoodWork, Visible, FinalWriter, Seen;
  }

  lemma CoreAssembles(r: Row, c: nat, sh': Shared, pc': CorePc)
    requires Inv(r) && c in r.cpc && r.phase.WritePhase? && !sh'.fault
    requires sh'.mem == r.sh.mem.(bits := sh'.mem.bits) && sh'.refCnt == r.sh.refCnt
    requires LockEffect(Core(c), r.sh, sh', CoreInLock(r.cpc[c]), CoreInLock(pc'))
    requires WellFormed(sh'.mem.bits) && ToMap(sh'.mem.bits) == Registered(r.work, r.cpc[c := pc'])
    ensures Inv(r.(sh := sh', cpc := r.cpc[c := pc']))
  {
    hide HeapOk, LockOk, RefOk, FinalPc, Local, Swapped, WellFormed, Writers, GoodWork, WritersOk, ReadersOk, MasterOk,
      Drained, PlaceholdersOk, LockEffect, Registered;
    BitsAreSeparate(r, sh'.mem);
    HeapIgnoresBits(r.sh.mem, sh'.mem, Local(FinalPc(r.work, r.wpc)), r.baseId, r.base);
    NobodyStarted(r, sh'.mem);
    LockCore(r, c, sh', pc');
    var r' := r.(sh := sh', cpc := r.cpc[c := pc']);
    assert r'.cpc.Keys == r.cpc.Keys;
    assert View(r') == View(r).(mem := sh'.mem);
  }

  lemma CoreStepKeeps(r: Row, c: nat)
    requires Inv(r) && Enabled(r, Core(c))
    ensures Inv(Step(r, Core(c)))
  {
    hide LockOk, RefOk, HeapOk, MasterOk, Drained, PlaceholdersOk, ReadersOk, WritersOk, Writers, WellFormed,
      CountPrefixSum, Update;
    var (sh', pc') := CoreStep(c, r.work.cores[c], r.cpc[c], r.sh);
    if r.cpc[c].CUpdate? {
      RegisterCore(r.sh.mem.bits, r.work, r.cpc, c);
    } else {
      assert Registered(r.work, r.cpc[c := pc']) == Registered(r.work, r.cpc);
    }
    CoreAssembles(r, c, sh', pc');
  }

  lemma RegisterCore(bits: TwoLevel, work: Work, cpc: map<nat, CorePc>, c: nat)
    requires GoodWork(work) && WellFormed(bits) && ToMap(bits) == Registered(work, cpc)
    requires c in cpc && c in work.cores && cpc[c].CUpdate?
    ensures CountPrefixSum(bits, c) <= |bits.txs| && !IsBitSet(bits.core, c)
    ensures WellFormed(Update(bits, c, work.cores[c]))
    ensures ToMap(Update(bits, c, work.cores[c])) == Registered(work, cpc[c := CUnlock])
  {
    hide WellFormed, CountPrefixSum, Update, ToMap, IsBitSet;
    IsBitSetIsIndex(bits.core, c);
    assert c !in Positions(bits.core) by {
      assert c !in ToMap(bits);
      MapKeys(bits);
    }
    UpdateRefinesMapUpdate(bits, c, work.cores[c]);
    assert Registered(work, cpc[c := CUnlock]) == Registered(work, cpc)[c := work.cores[c]];
  }

  lemma MapKeys(bits: TwoLevel)
    requires WellFormed(bits)
    ensures ToMap(bits).Keys == Positions(bits.core)
  {
  }

  // ---------- execution phase: the writers ----------

  lemma FinalPcAfter(work: Work, wpc: map<nat, WriterPc>, w: nat, pc': WriterPc)
    requires w in wpc
    ensures FinalPc(work, wpc[w := pc']) == if FinalWriter(work) == Some(w) then pc' else FinalPc(work, wpc)
    ensures FinalWriter(work) == Some(w) ==> FinalPc(work, wpc) == wpc[w]
  {
  }

  /** Whoever could find the version of a writer before the step finds the same one afterwards. */
  ghost predicate VersionsStay(mem: Memory, mem': Memory, work: Work, f: WriterPc, f': WriterPc) {
    forall k, v :: IsVersionOf(mem, work, f, k, v) ==> IsVersionOf(mem', work, f', k, v)
  }

  lemma ReadersAfterWriter(x: ReaderView, rpc: map<nat, ReaderPc>, w: nat, pc': WriterPc, mem': Memory)
    requires ReadersOk(x, rpc) && w in x.wpc && !x.wpc[w].WDone?
    requires VersionsStay(x.mem, mem', x.work, FinalPc(x.work, x.wpc), FinalPc(x.work, x.wpc[w := pc']))
    ensures ReadersOk(x.(mem := mem', wpc := x.wpc[w := pc']), rpc)
  {
    hide FinalPc, IsVersionOf, Visible, Expected;
    forall s | s in rpc
      ensures ReaderOk(x.(mem := mem', wpc := x.wpc[w := pc']), s, rpc[s])
    {
      assert ReaderOk(x, s, rpc[s]);
    }
  }

  lemma WriterAssembles(r: Row, w: nat, sh': Shared, pc': WriterPc)
    requires Inv(r) && Enabled(r, Writer(w)) && !sh'.fault && sh'.refCnt == r.sh.refCnt
    requires LockEffect(Writer(w), r.sh, sh', WriterInLock(r.wpc[w]), WriterInLock(pc'))
    requires var f' := FinalPc(r.work, r.wpc[w := pc']);
      && BitsOk(sh'.mem.bits, r.phase, r.work, r.cpc, Swapped(f'))
      && MasterOk(sh'.mem, f', sh'.refCnt, r.baseId)
      && HeapOk(sh'.mem, Local(f'), r.baseId, r.base)
      && VersionsStay(r.sh.mem, sh'.mem, r.work, FinalPc(r.work, r.wpc), f')
    requires Drained(r.phase, sh'.refCnt, sh'.mem, r.rpc, r.baseId)
    requires PlaceholdersOk(sh'.mem, r.work, r.epoch, r.wpc[w := pc'])
    requires WritersOk(sh'.mem, r.work, r.epoch, r.wpc[w := pc'])
    ensures Inv(r.(sh := sh', wpc := r.wpc[w := pc']))
  {
    hide LockOk, LockEffect, RefOk, BitsOk, MasterOk, HeapOk, Drained, PlaceholdersOk, ReadersOk, WritersOk, FinalPc,
      Local, Swapped, GoodWork, WriterInLock, Writers, VersionsStay;
    LockWriter(r, w, sh', pc');
    ReadersAfterWriter(View(r), r.rpc, w, pc', sh'.mem);
    var r' := r.(sh := sh', wpc := r.wpc[w := pc']);
    assert r'.wpc.Keys == r.wpc.Keys;
    assert View(r') == View(r).(mem := sh'.mem, wpc := r'.wpc);
  }

  /** A step that leaves the memory alone, and moves no version from one owner to another. */
  lemma QuietWriter(r: Row, w: nat, sh': Shared, pc': WriterPc)
    requires Inv(r) && Enabled(r, Writer(w))
    requires sh'.mem == r.sh.mem && !sh'.fault && sh'.refCnt == r.sh.refCnt
    requires LockEffect(Writer(w), r.sh, sh', WriterInLock(r.wpc[w]), WriterInLock(pc'))
    requires WriterOk(r.sh.mem, r.work, r.epoch, w, pc')
    requires FinalWriter(r.work) == Some(w) ==>
      && Local(pc') == Local(r.wpc[w])
      && Swapped(pc') == Swapped(r.wpc[w])
      && MasterOk(r.sh.mem, pc', r.sh.refCnt, r.baseId)
    requires w in r.sh.mem.placeholders ==>
      && Content(r.epoch, w, pc') == Content(r.epoch, w, r.wpc[w])
      && (FinalWriter(r.work) == Some(w) ==> pc'.WLock? || pc'.WFind?)
    ensures Inv(r.(sh := sh', wpc := r.wpc[w := pc']))
  {
    hide LockOk, LockEffect, RefOk, BitsOk, MasterOk, HeapOk, Drained, ReadersOk, GoodWork, WriterInLock, Writers,
      FinalWriter, FinalPc, WriterOk, Local, Swapped;
    FinalPcAfter(r.work, r.wpc, w, pc');
    assert VersionsStay(r.sh.mem, r.sh.mem, r.work, FinalPc(r.work, r.wpc), FinalPc(r.work, r.wpc[w := pc']));
    WriterAssembles(r, w, sh', pc');
  }

  lemma WLockStep(r: Row, w: nat)
    requires Inv(r) && Enabled(r, Writer(w)) && r.wpc[w].WLock?
    ensures Inv(Step(r, Writer(w)))
  {
    hide LockOk, RefOk, BitsOk, HeapOk, Drained, PlaceholdersOk, ReadersOk, Writers, FinalWriter;
    var (sh', pc') := WriterStep(r.epoch, w, r.wpc[w], r.sh);
    FinalPcAfter(r.work, r.wpc, w, pc');
    QuietWriter(r, w, sh', pc');
  }

  lemma WLoadRefStep(r: Row, w: nat)
    requires Inv(r) && Enabled(r, Writer(w)) && r.wpc[w].WLoadRef?
    ensures Inv(Step(r, Writer(w)))
  {
    hide LockOk, RefOk, BitsOk, HeapOk, Drained, ReadersOk, Writers, FinalWriter;
    var (sh', pc') := WriterStep(r.epoch, w, r.wpc[w], r.sh);
    FinalPcAfter(r.work, r.wpc, w, pc');
    assert r.sh.refCnt >= 0 by { CounterIsNatural(r); }
    QuietWriter(r, w, sh', pc');
  }

  lemma CounterIsNatural(r: Row)
    requires RefOk(r.sh.refCnt, r.rpc)
    ensures r.sh.refCnt >= 0
  {
  }

  lemma WUnlockStep(r: Row, w: nat)
    requires Inv(r) && Enabled(r, Writer(w)) && r.wpc[w].WUnlock?
    ensures Inv(Step(r, Writer(w)))
  {
    hide LockOk, RefOk, BitsOk, HeapOk, Drained, ReadersOk, Writers, FinalWriter;
    var (sh', pc') := WriterStep(r.epoch, w, r.wpc[w], r.sh);
    FinalPcAfter(r.work, r.wpc, w, pc');
    QuietWriter(r, w, sh', pc');
  }

  // ---------- WFind ----------

  /** Whatever has happened to the bitmaps, is_final_state singles out the final writer. */
  lemma FindDecides(r: Row, w: nat)
    requires Inv(r) && r.phase.ExecPhase? && w in r.wpc && r.wpc[w].WFind?
    ensures w < EPOCH_SIZE && WellFormed(r.sh.mem.bits)
    ensures IsFinalState(r.sh.mem.bits, w / WIDTH, w % WIDTH) <==> FinalWriter(r.work) == Some(w)
  {
    hide LockOk, RefOk, MasterOk, HeapOk, Drained, PlaceholdersOk, ReadersOk, WritersOk, IsFinalState, WellFormed;
    FinalPcAfter(r.work, r.wpc, w, r.wpc[w]);
    assert w in Writers(r.work);
    hide Writers, FinalPc, Serials, ToMap;
    IsFinalStateIsGreatest(r.sh.mem.bits, w / WIDTH, w % WIDTH);
    SerialAddress(w / WIDTH, w % WIDTH);
    if Swapped(FinalPc(r.work, r.wpc)) {
      EmptyHasNoFinalState(w / WIDTH, w % WIDTH);
    } else if FinalWriter(r.work) != Some(w) {
      NotFinalNotGreatest(r.work, w);
    } else {
      FinalIsGreatest(r.work, w);
    }
  }

  lemma EmptyHasNoFinalState(core: nat, tx: nat)
    requires core < WIDTH && tx < WIDTH && WellFormed(EMPTY)
    ensures !IsFinalState(EMPTY, core, tx)
  {
  }

  lemma NotFinalNotGreatest(work: Work, w: nat)
    requires FinalWriter(work) != Some(w)
    ensures !IsMaxBelow(w, Serials(work.cores), EPOCH_SIZE)
  {
    if IsMaxBelow(w, Serials(work.cores), EPOCH_SIZE) { VisibleIsUnique(Writers(work), EPOCH_SIZE, w); }
  }

  lemma FinalIsGreatest(work: Work, w: nat)
    requires FinalWriter(work) == Some(w)
    ensures IsMaxBelow(w, Serials(work.cores), EPOCH_SIZE)
  {
  }

  /** The version of an unfinished writer that some reader resolves to can be found. */
  lemma SeenIsPlaced(r: Row, w: nat) returns (v: VersionId)
    requires Inv(r) && r.phase.ExecPhase? && w in Seen(r.work) && w in r.wpc && !r.wpc[w].WDone?
    ensures IsVersionOf(r.sh.mem, r.work, FinalPc(r.work, r.wpc), w, v)
  {
    hide LockOk, RefOk, BitsOk, MasterOk, HeapOk, Drained, PlaceholdersOk, WritersOk, Writers, Visible, FinalPc, IsVersionOf;
    var s :| s in r.work.readers && Visible(Writers(r.work), s) == Some(w);
    assert ReaderOk(View(r), s, r.rpc[s]);
    v := r.rpc[s].v;
  }

  lemma FindNotFinal(r: Row, w: nat)
    requires Inv(r) && Enabled(r, Writer(w)) && r.wpc[w].WFind? && FinalWriter(r.work) != Some(w)
    ensures Inv(Step(r, Writer(w)))
  {
    hide LockOk, RefOk, BitsOk, MasterOk, HeapOk, Drained, PlaceholdersOk, ReadersOk, WritersOk, Writers, FinalWriter,
      FinalPc, Seen, IsFinalState, WellFormed;
    FindDecides(r, w);
    var (sh', pc') := WriterStep(r.epoch, w, r.wpc[w], r.sh);
    if w in Seen(r.work) {
      var v := SeenIsPlaced(r, w);
    }
    QuietWriter(r, w, sh', pc');
  }

  lemma TakenOwners(m: set<nat>, p: set<nat>, rest: set<nat>, v: nat)
    ensures m + p + rest + {v} == m + p + (rest + {v}) + {}
  {
  }

  /** The final writer takes its placeholder out of the map. */
  lemma TakenHeap(mem: Memory, mem': Memory, w: nat, baseId: VersionId, base: Tag)
    requires HeapOk(mem, None, baseId, base) && w in mem.placeholders
    requires mem' == mem.(placeholders := mem.placeholders - {w})
    ensures HeapOk(mem', Some(mem.placeholders[w]), baseId, base)
  {
    var v := mem.placeholders[w];
    var rest := mem.placeholders - {w};
    TakenValues(mem.placeholders, w);
    InjectiveWithout(mem.placeholders, w);
    hide Injective;
    TakenOwners(Opt(mem.master), Opt(mem.previous), rest.Values, v);
    assert Owners(mem', Some(v)) == Owners(mem, None);
    hide Owners;
    assert v in mem.placeholders.Values;
  }

  lemma TakenValues(m: map<nat, VersionId>, w: nat)
    requires w in m && Injective(m)
    ensures m[w] !in (m - {w}).Values
    ensures m.Values == (m - {w}).Values + {m[w]}
  {
    var rest := m - {w};
    assert rest[w := m[w]] == m;
    forall j | j in rest ensures rest[j] != m[w] {
      assert m[j] != m[w];
    }
    ValuesAfterInsert(rest, w, m[w]);
  }

  lemma CreatedOwners(mem: Memory, mem': Memory)
    requires mem' == Create(mem)
    ensures mem'.heap.Keys == mem.heap.Keys + {NewId(mem)}
    ensures Owners(mem', Some(NewId(mem))) == Owners(mem, None) + {NewId(mem)}
  {
  }

  lemma CreatedHeap(mem: Memory, mem': Memory, baseId: VersionId, base: Tag)
    requires HeapOk(mem, None, baseId, base) && mem' == Create(mem)
    ensures HeapOk(mem', Some(NewId(mem)), baseId, base)
    ensures NewId(mem) !in mem.heap
  {
    hide Owners, Injective;
    CreatedOwners(mem, mem');
    OwnersAreLive(mem, None);
    assert NewId(mem) !in mem.heap.Keys;
  }

  /** The final writer holds a version of its own; nobody else's version has moved. */
  lemma FinalHolds(r: Row, w: nat, mem': Memory, v: VersionId)
    requires Inv(r) && r.phase.ExecPhase? && w in r.wpc && r.wpc[w].WFind? && FinalWriter(r.work) == Some(w)
    requires mem'.master == r.sh.mem.master && mem'.previous == r.sh.mem.previous && mem'.bits == r.sh.mem.bits
    requires mem'.placeholders == r.sh.mem.placeholders - {w}
    requires w in r.sh.mem.placeholders ==> v == r.sh.mem.placeholders[w]
    requires forall x :: x in r.sh.mem.heap ==> x in mem'.heap && mem'.heap[x] == r.sh.mem.heap[x]
    requires v in mem'.heap && mem'.heap[v] == Version(None, Pending)
    ensures VersionsStay(r.sh.mem, mem', r.work, WFind, WLoadRef(v))
    ensures PlaceholdersOk(mem', r.work, r.epoch, r.wpc[w := WLoadRef(v)])
    ensures MasterOk(mem', WLoadRef(v), r.sh.refCnt, r.baseId)
    ensures Drained(r.phase, r.sh.refCnt, mem', r.rpc, r.baseId)
  {
    hide LockOk, RefOk, BitsOk, HeapOk, ReadersOk, WritersOk, Writers, FinalWriter, Seen, CountedReaders;
    FinalPcAfter(r.work, r.wpc, w, WLoadRef(v));
  }

  lemma FinalHoldsWriters(r: Row, w: nat, mem': Memory, v: VersionId)
    requires WritersOk(r.sh.mem, r.work, r.epoch, r.wpc) && w in r.wpc && FinalWriter(r.work) == Some(w)
    requires mem'.master == r.sh.mem.master && mem'.placeholders == r.sh.mem.placeholders - {w}
    requires v in mem'.heap && mem'.heap[v] == Version(None, Pending)
    ensures WritersOk(mem', r.work, r.epoch, r.wpc[w := WLoadRef(v)])
  {
    hide FinalWriter, Seen;
    forall k | k in r.wpc
      ensures WriterOk(mem', r.work, r.epoch, k, r.wpc[w := WLoadRef(v)][k])
    {
      assert WriterOk(r.sh.mem, r.work, r.epoch, k, r.wpc[k]);
    }
  }

  lemma FindFinal(r: Row, w: nat)
    requires Inv(r) && Enabled(r, Writer(w)) && r.wpc[w].WFind? && FinalWriter(r.work) == Some(w)
    ensures Inv(Step(r, Writer(w)))
  {
    hide LockOk, RefOk, BitsOk, MasterOk, HeapOk, Drained, ReadersOk, WritersOk, Writers, FinalWriter, FinalPc, Seen,
      IsFinalState, WellFormed, Create, VersionsStay, GoodWork;
    FindDecides(r, w);
    var (sh', pc') := WriterStep(r.epoch, w, r.wpc[w], r.sh);
    FinalPcAfter(r.work, r.wpc, w, pc');
    if w in r.sh.mem.placeholders {
      TakenHeap(r.sh.mem, sh'.mem, w, r.baseId, r.base);
    } else {
      CreatedHeap(r.sh.mem, sh'.mem, r.baseId, r.base);
      CreateFields(r.sh.mem);
      assert r.sh.mem.placeholders - {w} == r.sh.mem.placeholders;
    }
    FinalHolds(r, w, sh'.mem, pc'.v);
    FinalHoldsWriters(r, w, sh'.mem, pc'.v);
    hide PlaceholdersOk;
    WriterAssembles(r, w, sh', pc');
  }

  lemma CreateFields(mem: Memory)
    ensures Create(mem).bits == mem.bits && Create(mem).master == mem.master
    ensures Create(mem).previous == mem.previous && Create(mem).placeholders == mem.placeholders
    ensures Create(mem).heap == mem.heap[NewId(mem) := Version(None, Pending)]
  {
  }

  lemma WFindStep(r: Row, w: nat)
    requires Inv(r) && Enabled(r, Writer(w)) && r.wpc[w].WFind?
    ensures Inv(Step(r, Writer(w)))
  {
    hide Inv, Step, FinalWriter;
    if FinalWriter(r.work) == Some(w) { FindFinal(r, w); } else { FindNotFinal(r, w); }
  }

  // ---------- the final writer takes over the master ----------

  /** A writer with a version of its own is the final writer, and its version is nobody else's. */
  lemma HolderIsFinal(r: Row, w: nat)
    requires Inv(r) && w in r.wpc && Local(r.wpc[w]).Some?
    ensures FinalWriter(r.work) == Some(w) && FinalPc(r.work, r.wpc) == r.wpc[w]
    ensures w !in r.sh.mem.placeholders
    ensures r.wpc[w].v in r.sh.mem.heap && r.sh.mem.heap[r.wpc[w].v] == Version(None, Pending)
  {
    hide LockOk, RefOk, BitsOk, MasterOk, HeapOk, Drained, ReadersOk, Writers, FinalWriter, Seen;
    FinalPcAfter(r.work, r.wpc, w, r.wpc[w]);
    assert WriterOk(r.sh.mem, r.work, r.epoch, w, r.wpc[w]);
  }

  lemma NobodyCountedAtZero(refCnt: int, rpc: map<nat, ReaderPc>)
    requires RefOk(refCnt, rpc) && refCnt == 0
    ensures CountedReaders(rpc) == {}
  {
    var counted := CountedReaders(rpc);
    assert counted == {} <==> |counted| == 0;
  }

  /** What the master hand-over leaves as it is: placeholders, and every live version but the old master. */
  lemma HandOver(r: Row, w: nat, mem': Memory, pc': WriterPc)
    requires Inv(r) && r.phase.ExecPhase? && w in r.wpc && Local(r.wpc[w]).Some?
    requires mem'.placeholders == r.sh.mem.placeholders
    requires forall x :: x in r.sh.mem.heap && (x != r.baseId || x in mem'.heap) ==>
      x in mem'.heap && mem'.heap[x] == r.sh.mem.heap[x]
    requires Local(pc') == Local(r.wpc[w]) || (pc' == WUnlock(Local(r.wpc[w])) && mem'.master == Local(r.wpc[w]))
    ensures PlaceholdersOk(mem', r.work, r.epoch, r.wpc[w := pc'])
    ensures WritersOk(mem', r.work, r.epoch, r.wpc[w := pc'])
    ensures VersionsStay(r.sh.mem, mem', r.work, r.wpc[w], pc')
  {
    hide LockOk, RefOk, BitsOk, MasterOk, Drained, ReadersOk, Writers, FinalWriter, Seen, Owners, Injective;
    HolderIsFinal(r, w);
    BaseIsNoPlaceholder(r.sh.mem, Local(r.wpc[w]), r.baseId, r.base);
    assert r.wpc[w].v != r.baseId;
    hide HeapOk;
    forall k | k in r.wpc
      ensures WriterOk(mem', r.work, r.epoch, k, r.wpc[w := pc'][k])
    {
      assert WriterOk(r.sh.mem, r.work, r.epoch, k, r.wpc[k]);
    }
  }

  lemma FreeMasterHeap(mem: Memory, mem': Memory, local: Option<VersionId>, baseId: VersionId, base: Tag)
    requires HeapOk(mem, local, baseId, base) && mem.master == Some(baseId) && mem.previous == None
    requires mem' == Free(mem, baseId).(master := None)
    ensures IsStable(mem, baseId) && HeapOk(mem', local, baseId, base)
  {
    hide Injective, Owners, Free;
    FreeMasterOwners(mem, mem', local, baseId);
    assert |mem'.heap.Keys| == |mem.heap.Keys| - 1;
  }

  lemma FreeMasterOwners(mem: Memory, mem': Memory, local: Option<VersionId>, baseId: VersionId)
    requires mem.master == Some(baseId) && mem.previous == None
    requires local != Some(baseId) && baseId !in mem.placeholders.Values
    requires mem' == Free(mem, baseId).(master := None)
    ensures baseId in Owners(mem, local) && Owners(mem', local) == Owners(mem, local) - {baseId}
    ensures mem'.placeholders == mem.placeholders && mem'.master == None && mem'.previous == None && mem'.bits == mem.bits
    ensures mem'.heap.Keys == mem.heap.Keys - {baseId} && (forall x :: x in mem'.heap ==> mem'.heap[x] == mem.heap[x])
    ensures mem'.created == mem.created && mem'.deleted == mem.deleted + 1
  {
  }

  lemma GcMasterRest(r: Row, w: nat)
    requires Inv(r) && r.phase.ExecPhase? && w in r.wpc && r.wpc[w].WGcMaster?
    ensures r.sh.refCnt == 0 && r.sh.mem.placeholders == map[] && CountedReaders(r.rpc) == {}
    ensures r.sh.mem.master == Some(r.baseId) && r.sh.mem.previous == None
    ensures r.baseId !in r.sh.mem.placeholders.Values && Local(r.wpc[w]) != Some(r.baseId)
  {
    hide LockOk, BitsOk, ReadersOk, WritersOk, PlaceholdersOk, Owners, Injective;
    HolderIsFinal(r, w);
    NobodyCountedAtZero(r.sh.refCnt, r.rpc);
  }

  lemma WGcMasterStep(r: Row, w: nat)
    requires Inv(r) && Enabled(r, Writer(w)) && r.wpc[w].WGcMaster?
    ensures Inv(Step(r, Writer(w)))
  {
    hide LockOk, RefOk, BitsOk, HeapOk, PlaceholdersOk, ReadersOk, WritersOk, Writers, FinalWriter, FinalPc, Free,
      IsStable, VersionsStay, GoodWork;
    GcMasterRest(r, w);
    HolderIsFinal(r, w);
    FinalPcAfter(r.work, r.wpc, w, WAssign(r.wpc[w].v));
    var freed := Free(r.sh.mem, r.baseId).(master := None);
    FreeMasterHeap(r.sh.mem, freed, Local(r.wpc[w]), r.baseId, r.base);
    FreeMasterOwners(r.sh.mem, freed, Local(r.wpc[w]), r.baseId);
    HandOver(r, w, freed, WAssign(r.wpc[w].v));
    var (sh', pc') := WriterStep(r.epoch, w, r.wpc[w], r.sh);
    WriterAssembles(r, w, sh', pc');
  }

  lemma StashHeap(mem: Memory, mem': Memory, local: Option<VersionId>, baseId: VersionId, base: Tag)
    requires HeapOk(mem, local, baseId, base) && mem.previous == None
    requires mem' == mem.(previous := mem.master)
    ensures HeapOk(mem', local, baseId, base)
  {
    hide Injective;
    assert Owners(mem', local) == Owners(mem, local);
    hide Owners;
  }

  /** While the final writer is inside the lock, no reader is giving anything back. */
  lemma StashRest(r: Row, w: nat, mem': Memory)
    requires Inv(r) && r.phase.ExecPhase? && w in r.wpc && r.wpc[w].WStash?
    requires mem' == r.sh.mem.(previous := r.sh.mem.master)
    ensures r.sh.refCnt > 0 && r.sh.mem.master == Some(r.baseId) && r.sh.mem.previous == None
    ensures Drained(r.phase, r.sh.refCnt, mem', r.rpc, r.baseId)
  {
    hide BitsOk, HeapOk, ReadersOk, WritersOk, PlaceholdersOk, RefOk, Writers, FinalWriter, FinalPc;
    HolderIsFinal(r, w);
  }

  lemma WStashStep(r: Row, w: nat)
    requires Inv(r) && Enabled(r, Writer(w)) && r.wpc[w].WStash?
    ensures Inv(Step(r, Writer(w)))
  {
    hide LockOk, RefOk, BitsOk, HeapOk, PlaceholdersOk, ReadersOk, WritersOk, Drained, Writers, FinalWriter, FinalPc,
      VersionsStay, GoodWork;
    var (sh', pc') := WriterStep(r.epoch, w, r.wpc[w], r.sh);
    StashRest(r, w, sh'.mem);
    HolderIsFinal(r, w);
    FinalPcAfter(r.work, r.wpc, w, pc');
    StashHeap(r.sh.mem, sh'.mem, Local(r.wpc[w]), r.baseId, r.base);
    HandOver(r, w, sh'.mem, pc');
    WriterAssembles(r, w, sh', pc');
  }

  lemma AssignedOwners(m: set<nat>, p: set<nat>, rest: set<nat>, v: nat)
    requires m == {} || m == p
    ensures {v} + p + rest + {} == m + p + rest + {v}
  {
  }

  lemma AssignHeap(mem: Memory, mem': Memory, v: VersionId, baseId: VersionId, base: Tag)
    requires HeapOk(mem, Some(v), baseId, base)
    requires mem.master == None || mem.master == mem.previous
    requires mem' == mem.(master := Some(v), bits := EMPTY)
    ensures HeapOk(mem', None, baseId, base)
  {
    hide Injective;
    AssignedOwners(Opt(mem.master), Opt(mem.previous), mem.placeholders.Values, v);
    assert Owners(mem', None) == Owners(mem, Some(v));
    hide Owners, Opt;
  }

  lemma AssignRest(r: Row, w: nat, mem': Memory)
    requires Inv(r) && r.phase.ExecPhase? && w in r.wpc && r.wpc[w].WAssign?
    requires mem' == r.sh.mem.(master := Local(r.wpc[w]), bits := EMPTY)
    ensures Drained(r.phase, r.sh.refCnt, mem', r.rpc, r.baseId)
    ensures MasterOk(mem', WUnlock(Local(r.wpc[w])), r.sh.refCnt, r.baseId)
    ensures r.sh.mem.master == None || r.sh.mem.master == r.sh.mem.previous
  {
    hide BitsOk, ReadersOk, WritersOk, PlaceholdersOk, RefOk, LockOk, Writers, FinalWriter, FinalPc, Owners, Injective;
    HolderIsFinal(r, w);
  }

  lemma EmptyIsWellFormed()
    ensures WellFormed(EMPTY)
  {
    CountBitsOfZeros(Zero());
  }

  lemma WAssignStep(r: Row, w: nat)
    requires Inv(r) && Enabled(r, Writer(w)) && r.wpc[w].WAssign?
    ensures Inv(Step(r, Writer(w)))
  {
    hide LockOk, RefOk, HeapOk, MasterOk, PlaceholdersOk, ReadersOk, WritersOk, Drained, Writers, FinalWriter, FinalPc,
      VersionsStay, GoodWork, WellFormed;
    var (sh', pc') := WriterStep(r.epoch, w, r.wpc[w], r.sh);
    AssignRest(r, w, sh'.mem);
    HolderIsFinal(r, w);
    FinalPcAfter(r.work, r.wpc, w, pc');
    AssignHeap(r.sh.mem, sh'.mem, r.wpc[w].v, r.baseId, r.base);
    HandOver(r, w, sh'.mem, pc');
    EmptyIsWellFormed();
    WriterAssembles(r, w, sh', pc');
  }

  // ---------- the write itself ----------

  /** The version a writer stores into is live, and it is not the master of the epoch's start. */
  lemma StoredVersion(r: Row, w: nat)
    requires Inv(r) && w in r.wpc && (r.wpc[w].WStoreRec? || r.wpc[w].WStoreStatus?)
    ensures var v := r.wpc[w].v;
      && v in r.sh.mem.heap && r.sh.mem.heap[v] == Content(r.epoch, w, r.wpc[w]) && v != r.baseId
      && (FinalWriter(r.work) != Some(w) ==> Local(FinalPc(r.work, r.wpc)) != Some(v) && r.sh.mem.master != Some(v))
      && (if FinalWriter(r.work) == Some(w) then r.sh.mem.master == Some(v)
          else w in r.sh.mem.placeholders && r.sh.mem.placeholders[w] == v)
      && (forall k :: k in r.sh.mem.placeholders && k != w ==> r.sh.mem.placeholders[k] != v)
      && (FinalWriter(r.work) == Some(w) ==> w !in r.sh.mem.placeholders)
  {
    hide LockOk, RefOk, BitsOk, Drained, ReadersOk, Writers, FinalWriter, Seen, Owners;
    FinalPcAfter(r.work, r.wpc, w, r.wpc[w]);
    assert WriterOk(r.sh.mem, r.work, r.epoch, w, r.wpc[w]);
    assert forall k :: k in r.sh.mem.placeholders ==> r.sh.mem.placeholders[k] in r.sh.mem.placeholders.Values;
  }

  lemma StoreHeap(mem: Memory, mem': Memory, local: Option<VersionId>, baseId: VersionId, base: Tag, v: VersionId,
                  x: Version)
    requires HeapOk(mem, local, baseId, base) && v in mem.heap && v != baseId
    requires mem' == mem.(heap := mem.heap[v := x])
    ensures HeapOk(mem', local, baseId, base)
  {
    hide Injective;
    assert Owners(mem', local) == Owners(mem, local);
    assert mem'.heap.Keys == mem.heap.Keys;
    hide Owners;
  }

  /** A store into a version changes the content of that version only. */
  lemma StoreVersions(r: Row, w: nat, mem': Memory, pc': WriterPc)
    requires Inv(r) && r.phase.ExecPhase? && w in r.wpc && (r.wpc[w].WStoreRec? || r.wpc[w].WStoreStatus?)
    requires pc' == (if r.wpc[w].WStoreRec? then WStoreStatus(r.wpc[w].v) else WDone(false))
    requires mem' == r.sh.mem.(heap := r.sh.mem.heap[r.wpc[w].v := Content(r.epoch, w, pc')])
    ensures PlaceholdersOk(mem', r.work, r.epoch, r.wpc[w := pc'])
    ensures WritersOk(mem', r.work, r.epoch, r.wpc[w := pc'])
  {
    hide LockOk, RefOk, BitsOk, MasterOk, HeapOk, Drained, ReadersOk, Writers, FinalWriter, Seen, FinalPc;
    StoredVersion(r, w);
    assert WriterOk(r.sh.mem, r.work, r.epoch, w, r.wpc[w]);
    StoringIsSeen(r, w);
    forall k | k in r.wpc
      ensures WriterOk(mem', r.work, r.epoch, k, r.wpc[w := pc'][k])
    {
      assert WriterOk(r.sh.mem, r.work, r.epoch, k, r.wpc[k]);
      if k != w { HolderOrMaster(r, k); }
    }
  }

  lemma StoringIsSeen(r: Row, w: nat)
    requires Inv(r) && w in r.wpc && (r.wpc[w].WStoreRec? || r.wpc[w].WStoreStatus?)
    ensures FinalWriter(r.work) == Some(w) || w in Seen(r.work)
  {
    hide LockOk, RefOk, BitsOk, MasterOk, HeapOk, Drained, ReadersOk, Writers, FinalWriter, Seen, FinalPc;
    assert WriterOk(r.sh.mem, r.work, r.epoch, w, r.wpc[w]);
  }

  lemma HolderOrMaster(r: Row, k: nat)
    requires k in r.wpc
    ensures FinalWriter(r.work) == Some(k) ==> FinalPc(r.work, r.wpc) == r.wpc[k]
  {
  }

  lemma StoreRest(r: Row, w: nat, mem': Memory, pc': WriterPc)
    requires Inv(r) && w in r.wpc && (r.wpc[w].WStoreRec? || r.wpc[w].WStoreStatus?)
    requires mem'.placeholders == r.sh.mem.placeholders && mem'.master == r.sh.mem.master
    requires mem'.previous == r.sh.mem.previous && mem'.heap.Keys == r.sh.mem.heap.Keys
    requires pc'.WStoreStatus? || pc'.WDone?
    ensures var f, f' := FinalPc(r.work, r.wpc), FinalPc(r.work, r.wpc[w := pc']);
      && MasterOk(mem', f', r.sh.refCnt, r.baseId)
      && Local(f') == Local(f) && Swapped(f') == Swapped(f)
      && VersionsStay(r.sh.mem, mem', r.work, f, f')
    ensures Drained(r.phase, r.sh.refCnt, mem', r.rpc, r.baseId)
  {
    hide LockOk, RefOk, BitsOk, HeapOk, ReadersOk, Writers, FinalWriter, Seen, PlaceholdersOk, WritersOk,
      CountedReaders, FinalPc;
    FinalPcAfter(r.work, r.wpc, w, pc');
  }

  lemma StoreStep(r: Row, w: nat)
    requires Inv(r) && Enabled(r, Writer(w)) && (r.wpc[w].WStoreRec? || r.wpc[w].WStoreStatus?)
    ensures Inv(Step(r, Writer(w)))
  {
    hide LockOk, RefOk, BitsOk, HeapOk, MasterOk, PlaceholdersOk, ReadersOk, WritersOk, Drained, Writers, FinalWriter,
      FinalPc, VersionsStay, GoodWork;
    var (sh', pc') := WriterStep(r.epoch, w, r.wpc[w], r.sh);
    StoredVersion(r, w);
    StoreHeap(r.sh.mem, sh'.mem, Local(FinalPc(r.work, r.wpc)), r.baseId, r.base, r.wpc[w].v, Content(r.epoch, w, pc'));
    StoreVersions(r, w, sh'.mem, pc');
    StoreRest(r, w, sh'.mem, pc');
    hide Local, Swapped;
    WriterAssembles(r, w, sh', pc');
  }

  lemma WriterStepKeeps(r: Row, w: nat)
    requires Inv(r) && Enabled(r, Writer(w))
    ensures Inv(Step(r, Writer(w)))
  {
    hide Inv, Step;
    match r.wpc[w]
    case WLock => WLockStep(r, w);
    case WFind => WFindStep(r, w);
    case WLoadRef(_) => WLoadRefStep(r, w);
    case WGcMaster(_) => WGcMasterStep(r, w);
    case WStash(_) => WStashStep(r, w);
    case WAssign(_) => WAssignStep(r, w);
    case WUnlock(_) => WUnlockStep(r, w);
    case WStoreRec(_) => StoreStep(r, w);
    case WStoreStatus(_) => StoreStep(r, w);
  }
}
