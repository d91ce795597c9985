/** Every step of the initialization phase of a Serval row keeps the invariant. */
module ServalSteps {
  import opened Bits
  import opened TwoLevelBitmap
  import opened Versions
  import opened SortedSlots
  import opened ServalRegion
  import opened ServalRow
  import opened ServalInvariant
  import opened ServalData

  // ---------- order and lock ----------

  lemma OrderAfterStep(apc: map<nat, AppendPc>, s: nat, pc: AppendPc)
    requires OrderOk(apc) && s in apc && !apc[s].ADone? && EarlierDone(apc, s)
    ensures OrderOk(apc[s := pc])
  {
    var apc' := apc[s := pc];
    forall t | t in apc' && !apc'[t].GLoad?
      ensures EarlierDone(apc', t)
    {
      if t != s { assert EarlierDone(apc, t); }
    }
  }

  /** Nobody else with the same core is in the middle of an append; nobody behind has a version. */
  lemma AloneOnCore(apc: map<nat, AppendPc>, s: nat)
    requires OrderOk(apc) && s in apc && !apc[s].ADone? && EarlierDone(apc, s)
    ensures forall t :: t in apc && t / WIDTH == s / WIDTH && t != s ==> apc[t].GLoad? || apc[t].ADone?
    ensures forall t :: t in apc && t / WIDTH == s / WIDTH && t > s ==> !HasVersion(apc[t])
  {
    forall t | t in apc && t / WIDTH == s / WIDTH && t != s && !apc[t].GLoad?
      ensures apc[t].ADone? && t < s
    {
      assert EarlierDone(apc, t);
    }
  }

  lemma LockAfterAppend(cnt: int, holder: Option<Actor>, apc: map<nat, AppendPc>, s: nat, pc: AppendPc, cnt': int,
                        holder': Option<Actor>)
    requires LockOk(cnt, holder, apc) && s in apc
    requires if InLock(apc[s]) then
               if InLock(pc) then cnt' == cnt && holder' == holder else cnt' == cnt + 1 && holder' == None
             else
               if InLock(pc) then cnt == 0 && cnt' == -1 && holder' == Some(Appender(s)) else cnt' == cnt && holder' == holder
    ensures LockOk(cnt', holder', apc[s := pc])
  {
  }

  lemma OnlyHolder(cnt: int, holder: Option<Actor>, apc: map<nat, AppendPc>, s: nat)
    requires LockOk(cnt, holder, apc) && s in apc && InLock(apc[s])
    ensures forall t :: t in apc && t != s ==> !InLock(apc[t])
  {
  }

  // ---------- the epoch guard ----------

  lemma GuardAfterQuiet(valEpoch: nat, inits: nat, epoch: nat, apc: map<nat, AppendPc>, s: nat, pc: AppendPc)
    requires GuardOk(valEpoch, inits, epoch, apc) && s in apc && !apc[s].GStore? && !pc.GStore?
    requires !AtGuard(pc) ==> valEpoch == epoch + 1
    requires pc.GInit? ==> valEpoch < epoch + 1
    ensures GuardOk(valEpoch, inits, epoch, apc[s := pc])
  {
    var apc' := apc[s := pc];
    assert s in apc'.Keys;
    if t :| t in apc && apc[t].GStore? {
      assert t in apc' && apc'[t].GStore?;
    }
  }

  /** The row is initialized for the first time in the epoch. */
  lemma GuardAfterInit(valEpoch: nat, inits: nat, epoch: nat, apc: map<nat, AppendPc>, s: nat)
    requires GuardOk(valEpoch, inits, epoch, apc) && s in apc && apc[s].GInit?
    ensures GuardOk(valEpoch, 1, epoch, apc[s := GStore])
  {
    assert apc[s := GStore][s].GStore?;
  }

  lemma GuardAfterStore(valEpoch: nat, inits: nat, epoch: nat, apc: map<nat, AppendPc>, s: nat)
    requires GuardOk(valEpoch, inits, epoch, apc) && s in apc && apc[s].GStore?
    requires forall t :: t in apc && t != s ==> !InLock(apc[t])
    ensures GuardOk(epoch + 1, inits, epoch, apc[s := GUnlock])
  {
    assert s in apc[s := GUnlock].Keys;
  }

  lemma NotYetInitialized(valEpoch: nat, inits: nat, epoch: nat, apc: map<nat, AppendPc>, s: nat)
    requires GuardOk(valEpoch, inits, epoch, apc) && s in apc && apc[s].GInit?
    requires forall t :: t in apc && t != s ==> !InLock(apc[t])
    ensures inits == 0 && forall t :: t in apc ==> AtGuard(apc[t])
  {
  }

  lemma PastGuard(valEpoch: nat, inits: nat, epoch: nat, apc: map<nat, AppendPc>, s: nat)
    requires GuardOk(valEpoch, inits, epoch, apc) && s in apc && !AtGuard(apc[s])
    ensures valEpoch == epoch + 1 && inits == 1
  {
  }

  // ---------- the region ----------

  lemma RegionPcAfterQuiet(region: Option<Region>, apc: map<nat, AppendPc>, s: nat, pc: AppendPc)
    requires RegionPcOk(region, apc) && s in apc && s < EPOCH_SIZE && !apc[s].RInsert? && !pc.ROr?
    requires pc.AInsert? || pc.WMove? ==> region.None?
    requires pc.WUnlock? || pc.RLoad? || pc.RGc? || pc.RInsert? ==> region.Some?
    requires pc.RGc? ==> !region.value.core[s / WIDTH]
    requires pc.RInsert? ==> region.value.core[s / WIDTH]
    ensures RegionPcOk(region, apc[s := pc])
  {
    var apc' := apc[s := pc];
    assert forall t :: t in apc && apc[t].RInsert? ==> t in apc' && apc'[t].RInsert?;
  }

  lemma RegionPcAfterInit(region: Option<Region>, apc: map<nat, AppendPc>)
    requires forall t :: t in apc ==> AtGuard(apc[t])
    requires region.Some? ==> |region.value.arrays| == WIDTH && region.value.core == Zero()
    ensures RegionPcOk(region, apc)
  {
  }

  lemma RegionPcAfterMove(g: Region, apc: map<nat, AppendPc>, s: nat)
    requires RegionPcOk(None, apc) && s in apc && |g.arrays| == WIDTH && Settled(g)
    requires forall t :: t in apc && t != s ==> !InLock(apc[t])
    ensures RegionPcOk(Some(g), apc[s := WUnlock])
  {
  }

  lemma RegionPcAfterGc(g: Region, apc: map<nat, AppendPc>, s: nat, locked: bool)
    requires RegionPcOk(Some(g), apc) && s in apc && s < EPOCH_SIZE && apc[s].RGc?
    ensures RegionPcOk(Some(g.(arrays := g.arrays[s / WIDTH := EmptyArray()])), apc[s := ROr(locked)])
  {
    var apc' := apc[s := ROr(locked)];
    assert forall t :: t in apc && apc[t].RInsert? ==> t in apc' && apc'[t].RInsert?;
  }

  lemma RegionPcAfterOr(g: Region, apc: map<nat, AppendPc>, s: nat, locked: bool)
    requires RegionPcOk(Some(g), apc) && s in apc && s < EPOCH_SIZE && apc[s].ROr?
    requires forall t :: t in apc && t / WIDTH == s / WIDTH && t != s ==> apc[t].GLoad? || apc[t].ADone?
    ensures RegionPcOk(Some(g.(core := g.core[s / WIDTH := true])), apc[s := RInsert(locked)])
  {
    var apc' := apc[s := RInsert(locked)];
    assert forall t :: t in apc && apc[t].RInsert? ==> t in apc' && apc'[t].RInsert?;
    assert s in apc' && apc'[s].RInsert?;
  }

  lemma RegionPcAfterInsert(g: Region, apc: map<nat, AppendPc>, s: nat, v: VersionId, pc: AppendPc)
    requires RegionPcOk(Some(g), apc) && s in apc && s < EPOCH_SIZE && apc[s].RInsert? && HasVersion(pc)
    requires |g.arrays| == WIDTH && CoreOk(g.arrays[s / WIDTH])
    requires forall t :: t in apc && t / WIDTH == s / WIDTH && t != s ==> apc[t].GLoad? || apc[t].ADone?
    ensures RegionPcOk(Some(WithAppended(g, s, v)), apc[s := pc])
  {
    hide CountBits, SetBit;
    var apc' := apc[s := pc];
    var c := s / WIDTH;
    var g' := WithAppended(g, s, v);
    AppendedBits(g.arrays[c], v, s % WIDTH);
    forall d: nat | d < WIDTH && g'.core[d] && g'.arrays[d].bits == Zero()
      ensures exists t :: t in apc' && t / WIDTH == d && apc'[t].RInsert?
    {
      assert d != c;
      var t :| t in apc && t / WIDTH == d && apc[t].RInsert?;
      assert t in apc' && apc'[t].RInsert?;
    }
  }

  lemma AppendedBits(a: PerCore, v: VersionId, t: nat)
    requires CoreOk(a) && t < WIDTH
    ensures Append(a, v, t).bits != Zero()
  {
    SetBitIsUpdate(a.bits, t);
    assert a.bits[t := true][t] && !Zero()[t];
  }

  // ---------- the route of an append ----------

  /** Only a failing try_lock makes an appender wait, and who waits goes on until its version is in the region. */
  lemma RouteOfStep(epoch: nat, s: nat, pc: AppendPc, sh: Shared)
    requires s < EPOCH_SIZE && (sh.region.Some? ==> |sh.region.value.arrays| == WIDTH) && !pc.ADone?
    requires pc.RLoad? || pc.RGc? || pc.ROr? || pc.RInsert? ==> sh.region.Some?
    requires !AppendStep(epoch, s, pc, sh).0.fault
    ensures var (sh', pc') := AppendStep(epoch, s, pc, sh);
      var fails := pc.ATry? && sh.cnt != 0;
      && (Waiting(pc') <==> fails || (Waiting(pc) && !pc'.ADone?))
      && (Waiting(pc) && pc'.ADone? ==> sh'.region.Some?)
      && sh'.failed == (if fails then sh.failed + {s} else sh.failed)
      && sh'.contended == (sh.contended || fails)
      && (sh'.region.Some? <==> sh.region.Some? || pc.WMove?)
  {
    hide Free, Initialize, InsertIntoRegion, Movable, ServalRegion.Move, IsBitSet, SetBit, Insert;
    match pc
    case GInit => InitializeRoute(sh);
    case RInsert(_) => InsertRoute(sh, epoch, s);
    case RGc(_) => FreeRoute(sh, sh.region.value.arrays[s / WIDTH].slots);
    case _ =>
  }

  lemma FreeRoute(sh: Shared, vs: seq<VersionId>)
    ensures var sh' := Free(sh, vs);
      sh' == sh.(heap := sh'.heap, deleted := sh'.deleted, fault := sh'.fault)
  {
    hide CanFree;
  }

  lemma InitializeRoute(sh: Shared)
    ensures var sh' := Initialize(sh);
      sh'.failed == sh.failed && sh'.contended == sh.contended && (sh'.region.Some? <==> sh.region.Some?)
  {
    hide CanFree, CountBits, FindLargest, Zero, EntryVersions;
  }

  lemma InsertRoute(sh: Shared, epoch: nat, s: nat)
    requires s < EPOCH_SIZE && sh.region.Some?
    ensures var sh' := InsertIntoRegion(sh, epoch, s);
      sh'.failed == sh.failed && sh'.contended == sh.contended && sh'.region.Some?
  {
    hide CoreOk, CountBits, IsBitSet, Append;
  }

  lemma RouteAfterStep(sh: Shared, sh': Shared, apc: map<nat, AppendPc>, s: nat, pc: AppendPc)
    requires RouteOk(sh, apc) && s in apc && !apc[s].ADone?
    requires var fails := apc[s].ATry? && sh.cnt != 0;
      && (Waiting(pc) <==> fails || (Waiting(apc[s]) && !pc.ADone?))
      && (Waiting(apc[s]) && pc.ADone? ==> sh'.region.Some?)
      && sh'.failed == (if fails then sh.failed + {s} else sh.failed)
      && sh'.contended == (sh.contended || fails)
      && (sh'.region.Some? <==> sh.region.Some? || apc[s].WMove?)
    ensures RouteOk(sh', apc[s := pc])
  {
    if apc[s].WMove? { assert s in sh.failed; }
  }

  // ---------- assembling ----------

  lemma IdleReaders(r: Row)
    requires forall s :: s in r.rpc ==> r.rpc[s].EpochLoad?
    ensures ReadersOk(r)
  {
  }

  lemma AssembleAppend(r: Row, s: nat, sh': Shared, pc: AppendPc)
    requires Inv(r) && Enabled(r, Appender(s)) && AppendStep(r.epoch, s, r.apc[s], r.sh) == (sh', pc)
    requires !sh'.fault
    requires LockOk(sh'.cnt, sh'.holder, r.apc[s := pc])
    requires GuardOk(sh'.epoch, sh'.inits, r.epoch, r.apc[s := pc])
    requires RegionPcOk(sh'.region, r.apc[s := pc])
    requires Data(sh', r.apc[s := pc], map[], r.epoch, r.base, r.before)
    ensures Inv(Step(r, Appender(s)))
  {
    hide LockOk, OrderOk, GuardOk, RegionPcOk, RouteOk, Data, ReadersOk, AppendStep, EarlierDone, Waiting;
    OrderAfterStep(r.apc, s, pc);
    RegionForPc(r.sh.region, r.apc, s);
    RouteOfStep(r.epoch, s, r.apc[s], r.sh);
    RouteAfterStep(r.sh, sh', r.apc, s, pc);
    IdleReaders(Step(r, Appender(s)));
  }

  lemma Parts(r: Row)
    requires Inv(r) && r.phase.InitPhase?
    ensures LockOk(r.sh.cnt, r.sh.holder, r.apc) && OrderOk(r.apc)
    ensures GuardOk(r.sh.epoch, r.sh.inits, r.epoch, r.apc) && RegionPcOk(r.sh.region, r.apc)
    ensures Data(r.sh, r.apc, map[], r.epoch, r.base, r.before)
    ensures !r.sh.fault && forall s :: s in r.apc ==> s < EPOCH_SIZE
  {
    hide LockOk, OrderOk, GuardOk, RegionPcOk, RouteOk, Data, ReadersOk;
  }

  // ---------- steps ----------

  predicate QuietPc(pc: AppendPc) {
    || pc.GLoad? || pc.GTry? || pc.GCheck? || pc.GUnlock? || pc.ATry? || pc.ALoadRegion?
    || pc.WLoad? || pc.WTry? || pc.WCheck? || pc.WUnlock? || pc.RLoad? || pc.AUnlock?
  }

  /** Loads, lock operations and decisions. */
  lemma QuietFacts(epoch: nat, s: nat, pc: AppendPc, sh: Shared)
    requires s < EPOCH_SIZE && QuietPc(pc) && (sh.region.Some? ==> |sh.region.value.arrays| == WIDTH)
    requires sh.epoch <= epoch + 1 && (!AtGuard(pc) ==> sh.epoch == epoch + 1)
    requires pc.WUnlock? || pc.RLoad? ==> sh.region.Some?
    ensures var (sh', pc') := AppendStep(epoch, s, pc, sh);
      && sh' == sh.(cnt := sh'.cnt, holder := sh'.holder, failed := sh'.failed, contended := sh'.contended)
      && HasVersion(pc) == HasVersion(pc') && (HasVersion(pc') ==> pc'.v == pc.v)
      && !pc'.GStore? && (!AtGuard(pc') ==> sh.epoch == epoch + 1) && (pc'.GInit? ==> sh.epoch < epoch + 1)
      && !pc'.ROr? && (pc'.AInsert? || pc'.WMove? ==> sh.region.None?)
      && (pc'.WUnlock? || pc'.RLoad? || pc'.RGc? || pc'.RInsert? ==> sh.region.Some?)
      && (pc'.RGc? ==> !sh.region.value.core[s / WIDTH]) && (pc'.RInsert? ==> sh.region.value.core[s / WIDTH])
  {
    hide IsBitSet, Initialize, InsertIntoRegion, Free, Movable, ServalRegion.Move, FreshRegion, Insert, Create, SetBit, EmptyArray;
    if sh.region.Some? { IsBitSetIsIndex(sh.region.value.core, s / WIDTH); }
  }

  lemma QuietLock(epoch: nat, s: nat, pc: AppendPc, sh: Shared)
    requires s < EPOCH_SIZE && QuietPc(pc) && (sh.region.Some? ==> |sh.region.value.arrays| == WIDTH)
    requires sh.epoch <= epoch + 1 && (pc.RLoad? ==> sh.region.Some?)
    ensures var (sh', pc') := AppendStep(epoch, s, pc, sh);
      if InLock(pc) then
        if InLock(pc') then sh'.cnt == sh.cnt && sh'.holder == sh.holder else sh'.cnt == sh.cnt + 1 && sh'.holder == None
      else
        if InLock(pc') then sh.cnt == 0 && sh'.cnt == -1 && sh'.holder == Some(Appender(s))
        else sh'.cnt == sh.cnt && sh'.holder == sh.holder
  {
    hide IsBitSet;
  }

  lemma QuietStep(r: Row, s: nat)
    requires Inv(r) && Enabled(r, Appender(s)) && QuietPc(r.apc[s])
    ensures Inv(Step(r, Appender(s)))
  {
    hide Inv, Data, LockOk, OrderOk, GuardOk, RegionPcOk, RouteOk, Waiting, EarlierDone, AppendStep;
    Parts(r);
    var (sh', pc) := AppendStep(r.epoch, s, r.apc[s], r.sh);
    EpochIsNotAhead(r.sh.epoch, r.sh.inits, r.epoch, r.apc);
    if !AtGuard(r.apc[s]) { PastGuard(r.sh.epoch, r.sh.inits, r.epoch, r.apc, s); }
    RegionForPc(r.sh.region, r.apc, s);
    QuietFacts(r.epoch, s, r.apc[s], r.sh);
    QuietLock(r.epoch, s, r.apc[s], r.sh);
    LockAfterAppend(r.sh.cnt, r.sh.holder, r.apc, s, pc, sh'.cnt, sh'.holder);
    GuardAfterQuiet(r.sh.epoch, r.sh.inits, r.epoch, r.apc, s, pc);
    RegionPcAfterQuiet(r.sh.region, r.apc, s, pc);
    QuietData(r.sh, sh', r.apc, r.epoch, r.base, r.before, s, pc);
    AssembleAppend(r, s, sh', pc);
  }

  lemma EpochIsNotAhead(valEpoch: nat, inits: nat, epoch: nat, apc: map<nat, AppendPc>)
    requires GuardOk(valEpoch, inits, epoch, apc)
    ensures valEpoch <= epoch + 1
  {
  }

  lemma RegionForPc(region: Option<Region>, apc: map<nat, AppendPc>, s: nat)
    requires RegionPcOk(region, apc) && s in apc
    ensures apc[s].AInsert? || apc[s].WMove? ==> region.None?
    ensures apc[s].WUnlock? || apc[s].RLoad? || apc[s].RGc? || apc[s].ROr? || apc[s].RInsert? ==> region.Some?
    ensures region.Some? ==> |region.value.arrays| == WIDTH
    ensures region.Some? && s < EPOCH_SIZE ==>
      && (apc[s].RGc? || apc[s].ROr? ==> !region.value.core[s / WIDTH])
      && (apc[s].ROr? ==> region.value.arrays[s / WIDTH] == EmptyArray())
      && (apc[s].RInsert? ==> region.value.core[s / WIDTH])
  {
  }

  lemma InitStep(r: Row, s: nat)
    requires Inv(r) && Enabled(r, Appender(s)) && r.apc[s].GInit?
    ensures Inv(Step(r, Appender(s)))
  {
    hide Inv, Data, LockOk, OrderOk, GuardOk, RegionPcOk, EarlierDone, Initialize, Zero;
    Parts(r);
    var (sh', pc) := AppendStep(r.epoch, s, r.apc[s], r.sh);
    OnlyHolder(r.sh.cnt, r.sh.holder, r.apc, s);
    NotYetInitialized(r.sh.epoch, r.sh.inits, r.epoch, r.apc, s);
    RegionForPc(r.sh.region, r.apc, s);
    InitializeData(r.sh, r.apc, r.epoch, r.base, r.before);
    ArraysOfRegion(sh', r.apc, r.epoch, r.base, r.before);
    QuietData(sh', sh', r.apc, r.epoch, r.base, r.before, s, pc);
    LockAfterAppend(r.sh.cnt, r.sh.holder, r.apc, s, pc, sh'.cnt, sh'.holder);
    GuardAfterInit(r.sh.epoch, r.sh.inits, r.epoch, r.apc, s);
    RegionPcAfterInit(sh'.region, r.apc[s := pc]);
    AssembleAppend(r, s, sh', pc);
  }

  lemma ArraysOfRegion(sh: Shared, apc: map<nat, AppendPc>, epoch: nat, base: Tag, before: Tag)
    requires Data(sh, apc, map[], epoch, base, before)
    ensures sh.region.Some? ==> |sh.region.value.arrays| == WIDTH
  {
    hide ContentOk, RestOk, MasterOk, PlaceOk, StaleOk, CellsOk, HeapOk, HandlesOk, CoreOk;
  }

  lemma StoreStep(r: Row, s: nat)
    requires Inv(r) && Enabled(r, Appender(s)) && r.apc[s].GStore?
    ensures Inv(Step(r, Appender(s)))
  {
    hide Inv, Data, LockOk, OrderOk, GuardOk, RegionPcOk, EarlierDone;
    Parts(r);
    var (sh', pc) := AppendStep(r.epoch, s, r.apc[s], r.sh);
    OnlyHolder(r.sh.cnt, r.sh.holder, r.apc, s);
    LockAfterAppend(r.sh.cnt, r.sh.holder, r.apc, s, pc, sh'.cnt, sh'.holder);
    GuardAfterStore(r.sh.epoch, r.sh.inits, r.epoch, r.apc, s);
    RegionPcAfterQuiet(r.sh.region, r.apc, s, pc);
    QuietData(r.sh, sh', r.apc, r.epoch, r.base, r.before, s, pc);
    AssembleAppend(r, s, sh', pc);
  }

  lemma InsertStep(r: Row, s: nat)
    requires Inv(r) && Enabled(r, Appender(s)) && r.apc[s].AInsert?
    ensures Inv(Step(r, Appender(s)))
  {
    hide Inv, Data, LockOk, OrderOk, GuardOk, RegionPcOk, EarlierDone, Create, Insert;
    Parts(r);
    var (sh', pc) := AppendStep(r.epoch, s, r.apc[s], r.sh);
    PastGuard(r.sh.epoch, r.sh.inits, r.epoch, r.apc, s);
    RegionForPc(r.sh.region, r.apc, s);
    CreateFields(r.sh, By(r.epoch, s));
    InsertData(r.sh, r.apc, r.epoch, r.base, r.before, s, pc);
    LockAfterAppend(r.sh.cnt, r.sh.holder, r.apc, s, pc, sh'.cnt, sh'.holder);
    GuardAfterQuiet(r.sh.epoch, r.sh.inits, r.epoch, r.apc, s, pc);
    RegionPcAfterQuiet(r.sh.region, r.apc, s, pc);
    AssembleAppend(r, s, sh', pc);
  }

  lemma MoveStep(r: Row, s: nat)
    requires Inv(r) && Enabled(r, Appender(s)) && r.apc[s].WMove?
    ensures Inv(Step(r, Appender(s)))
  {
    hide Inv, Data, LockOk, OrderOk, GuardOk, RegionPcOk, EarlierDone, Movable, Move, FreshRegion, Settled;
    Parts(r);
    var (sh', pc) := AppendStep(r.epoch, s, r.apc[s], r.sh);
    PastGuard(r.sh.epoch, r.sh.inits, r.epoch, r.apc, s);
    RegionForPc(r.sh.region, r.apc, s);
    OnlyHolder(r.sh.cnt, r.sh.holder, r.apc, s);
    MoveData(r.sh, r.apc, r.epoch, r.base, r.before);
    QuietData(sh', sh', r.apc, r.epoch, r.base, r.before, s, pc);
    LockAfterAppend(r.sh.cnt, r.sh.holder, r.apc, s, pc, sh'.cnt, sh'.holder);
    GuardAfterQuiet(r.sh.epoch, r.sh.inits, r.epoch, r.apc, s, pc);
    RegionPcAfterMove(sh'.region.value, r.apc, s);
    AssembleAppend(r, s, sh', pc);
  }

  lemma GcStep(r: Row, s: nat)
    requires Inv(r) && Enabled(r, Appender(s)) && r.apc[s].RGc?
    ensures Inv(Step(r, Appender(s)))
  {
    hide Inv, Data, LockOk, OrderOk, GuardOk, RegionPcOk, EarlierDone, Free;
    Parts(r);
    var (sh', pc) := AppendStep(r.epoch, s, r.apc[s], r.sh);
    PastGuard(r.sh.epoch, r.sh.inits, r.epoch, r.apc, s);
    RegionForPc(r.sh.region, r.apc, s);
    GcData(r.sh, r.apc, r.epoch, r.base, r.before, s / WIDTH);
    QuietData(sh', sh', r.apc, r.epoch, r.base, r.before, s, pc);
    LockAfterAppend(r.sh.cnt, r.sh.holder, r.apc, s, pc, sh'.cnt, sh'.holder);
    GuardAfterQuiet(r.sh.epoch, r.sh.inits, r.epoch, r.apc, s, pc);
    RegionPcAfterGc(r.sh.region.value, r.apc, s, r.apc[s].locked);
    AssembleAppend(r, s, sh', pc);
  }

  lemma OrStep(r: Row, s: nat)
    requires Inv(r) && Enabled(r, Appender(s)) && r.apc[s].ROr?
    ensures Inv(Step(r, Appender(s)))
  {
    hide Inv, Data, LockOk, OrderOk, GuardOk, RegionPcOk, EarlierDone, SetBit;
    Parts(r);
    var (sh', pc) := AppendStep(r.epoch, s, r.apc[s], r.sh);
    PastGuard(r.sh.epoch, r.sh.inits, r.epoch, r.apc, s);
    RegionForPc(r.sh.region, r.apc, s);
    AloneOnCore(r.apc, s);
    SetBitIsUpdate(r.sh.region.value.core, s / WIDTH);
    OrData(r.sh, r.apc, r.epoch, r.base, r.before, s / WIDTH);
    QuietData(sh', sh', r.apc, r.epoch, r.base, r.before, s, pc);
    LockAfterAppend(r.sh.cnt, r.sh.holder, r.apc, s, pc, sh'.cnt, sh'.holder);
    GuardAfterQuiet(r.sh.epoch, r.sh.inits, r.epoch, r.apc, s, pc);
    RegionPcAfterOr(r.sh.region.value, r.apc, s, r.apc[s].locked);
    AssembleAppend(r, s, sh', pc);
  }

  lemma RegionInsertStep(r: Row, s: nat)
    requires Inv(r) && Enabled(r, Appender(s)) && r.apc[s].RInsert?
    ensures Inv(Step(r, Appender(s)))
  {
    hide Inv, Data, LockOk, OrderOk, GuardOk, RegionPcOk, EarlierDone, InsertIntoRegion, Create, CoreOk;
    Parts(r);
    var (sh', pc) := AppendStep(r.epoch, s, r.apc[s], r.sh);
    PastGuard(r.sh.epoch, r.sh.inits, r.epoch, r.apc, s);
    RegionForPc(r.sh.region, r.apc, s);
    AloneOnCore(r.apc, s);
    CreateFields(r.sh, By(r.epoch, s));
    RegionInsertData(r.sh, r.apc, r.epoch, r.base, r.before, s, pc);
    LockAfterAppend(r.sh.cnt, r.sh.holder, r.apc, s, pc, sh'.cnt, sh'.holder);
    GuardAfterQuiet(r.sh.epoch, r.sh.inits, r.epoch, r.apc, s, pc);
    RegionPcAfterInsert(r.sh.region.value, r.apc, s, NewId(r.sh), pc);
    AssembleAppend(r, s, sh', pc);
  }

  lemma AppendStepKeeps(r: Row, s: nat)
    requires Inv(r) && Enabled(r, Appender(s))
    ensures Inv(Step(r, Appender(s)))
  {
    hide Inv, Step;
    match r.apc[s]
    case GInit => InitStep(r, s);
    case GStore => StoreStep(r, s);
    case AInsert => InsertStep(r, s);
    case WMove => MoveStep(r, s);
    case RGc(_) => GcStep(r, s);
    case ROr(_) => OrStep(r, s);
    case RInsert(_) => RegionInsertStep(r, s);
    case _ => QuietStep(r, s);
  }
}
