/**
  Which way a version goes on a row of Serval.

  `Alone` lets one appender take its next steps with nobody in between; the lemmas say how many steps it takes to
  the end of the append, or to where it spins, and what the row is then.  The last part speaks of whole runs: who
  finds the lock taken ends with its version in a region, and a region needs somebody who has found it taken.
 */
module ServalRoutes {
  import opened Bits
  import opened TwoLevelBitmap
  import opened Versions
  import opened SortedSlots
  import opened Workload
  import opened ServalRegion
  import opened ServalRow
  import opened ServalInvariant
  import opened ServalData
  import opened ServalSteps
  import opened ServalTheorems
  import opened ServalEquivalence

  /** The row after at most `n` steps of actor `a`. */
  function Alone(r: Row, a: Actor, n: nat): Row
    decreases n
  {
    if n == 0 || !Enabled(r, a) then r else Alone(Step(r, a), a, n - 1)
  }

  /** The row when appender `s` is at `pc`. */
  function At(r: Row, s: nat, sh: Shared, pc: AppendPc): Row {
    r.(sh := sh, apc := r.apc[s := pc])
  }

  predicate ArraysFit(sh: Shared) {
    sh.region.Some? ==> |sh.region.value.arrays| == WIDTH
  }

  lemma Once(r: Row, s: nat, n: nat, sh: Shared, pc: AppendPc, sh': Shared, pc': AppendPc)
    requires Enabled(r, Appender(s)) && s < EPOCH_SIZE && ArraysFit(sh) && !pc.ADone?
    requires AppendStep(r.epoch, s, pc, sh) == (sh', pc')
    ensures Alone(At(r, s, sh, pc), Appender(s), n + 1) == Alone(At(r, s, sh', pc'), Appender(s), n)
  {
    hide AppendStep;
    assert r.apc[s := pc][s := pc'] == r.apc[s := pc'];
  }

  lemma Here(r: Row, s: nat, sh: Shared, pc: AppendPc)
    ensures Alone(At(r, s, sh, pc), Appender(s), 0) == At(r, s, sh, pc)
    ensures s in r.apc ==> At(r, s, r.sh, r.apc[s]) == r
  {
    assert s in r.apc ==> r.apc[s := r.apc[s]] == r.apc;
  }

  /** The first `n` steps and then `m` more are `n + m` steps. */
  lemma {:induction false} Further(r: Row, a: Actor, n: nat, m: nat)
    ensures Alone(Alone(r, a, n), a, m) == Alone(r, a, n + m)
    decreases n
  {
    hide Enabled, Step;
    if n > 0 && Enabled(r, a) {
      Further(Step(r, a), a, n - 1, m);
    }
  }

  // ---------- what the routes do to the row ----------

  /** The row after initialize_the_row. */
  function Published(sh: Shared, epoch: nat): Shared {
    Initialize(sh).(epoch := epoch + 1)
  }

  function Fails(sh: Shared, s: nat): Shared {
    sh.(failed := sh.failed + {s}, contended := true)
  }

  /** A fresh version of writer `s`, in the global array. */
  function InArray(sh: Shared, epoch: nat, s: nat): Shared {
    sh.(slots := Insert(sh.slots, Slot(s, sh.created + 2)),
        heap := sh.heap[sh.created + 2 := Cell(None, Pending, By(epoch, s))],
        created := sh.created + 1)
  }

  /** A core's first write in the epoch: what its array has from earlier epochs is freed, and the core's bit is set. */
  function FirstWrite(core: nat, sh: Shared): Shared
    requires core < WIDTH && sh.region.Some? && |sh.region.value.arrays| == WIDTH
  {
    var g := sh.region.value;
    var g' := g.(arrays := g.arrays[core := EmptyArray()], core := SetBit(g.core, core));
    Free(sh, g.arrays[core].slots).(region := Some(g'))
  }

  /** The uninterrupted run of RowRegion::append. */
  function RegionAlone(epoch: nat, s: nat, sh: Shared): Shared
    requires s < EPOCH_SIZE && sh.region.Some? && |sh.region.value.arrays| == WIDTH
  {
    if IsBitSet(sh.region.value.core, s / WIDTH) then InsertIntoRegion(sh, epoch, s)
    else InsertIntoRegion(FirstWrite(s / WIDTH, sh), epoch, s)
  }

  /** The steps it takes. */
  function RegionSteps(s: nat, sh: Shared): nat
    requires s < EPOCH_SIZE && sh.region.Some?
  {
    if IsBitSet(sh.region.value.core, s / WIDTH) then 2 else 4
  }

  /** The region that a waiting thread installs, with the versions of the array. */
  function Moved(sh: Shared): Shared
    requires Movable(sh.slots, FreshRegion())
  {
    sh.(region := Some(ServalRegion.Move(sh.slots, FreshRegion())), slots := [])
  }

  /** It is what the steps of the transition system do when no other thread comes in between. */
  lemma RegionAloneIsSteps(epoch: nat, s: nat, sh: Shared)
    requires s < EPOCH_SIZE && sh.region.Some? && |sh.region.value.arrays| == WIDTH
    ensures var (sh0, pc0) := AppendStep(epoch, s, RLoad(false), sh);
      if pc0.RInsert? then RegionAlone(epoch, s, sh) == AppendStep(epoch, s, pc0, sh0).0
      else
        var (sh1, pc1) := AppendStep(epoch, s, pc0, sh0);
        && sh1.region.Some? && |sh1.region.value.arrays| == WIDTH
        && var (sh2, pc2) := AppendStep(epoch, s, pc1, sh1);
        && sh2.region.Some? && |sh2.region.value.arrays| == WIDTH
        && RegionAlone(epoch, s, sh) == AppendStep(epoch, s, pc2, sh2).0
  {
    hide InsertIntoRegion, IsBitSet, SetBit, CanFree;
  }

  // ---------- the routes from the guard on ----------

  /** A row that has been initialized in this epoch is passed without taking the lock. */
  lemma GuardPasses(r: Row, s: nat)
    requires Enabled(r, Appender(s)) && r.apc[s].GLoad? && r.sh.epoch == r.epoch + 1
    ensures Alone(r, Appender(s), 1) == At(r, s, r.sh, ATry)
  {
    hide At;
    Here(r, s, r.sh, GLoad);
    Here(r, s, r.sh, ATry);
    Once(r, s, 0, r.sh, GLoad, r.sh, ATry);
  }

  /** While somebody else has the lock of a row that is not initialized yet, the guard keeps coming back to its load. */
  lemma GuardSpins(r: Row, s: nat)
    requires Enabled(r, Appender(s)) && r.apc[s].GLoad? && r.sh.epoch < r.epoch + 1 && r.sh.cnt != 0
    ensures Alone(r, Appender(s), 2) == r
  {
    hide At;
    Here(r, s, r.sh, GLoad);
    Once(r, s, 1, r.sh, GLoad, r.sh, GTry);
    Once(r, s, 0, r.sh, GTry, r.sh, GLoad);
  }

  // holding the lock makes no difference to what is done under it

  function Held(sh: Shared, cnt: int, holder: Option<Actor>): Shared {
    sh.(cnt := cnt, holder := holder)
  }

  lemma FreeAt(sh: Shared, cnt: int, holder: Option<Actor>, vs: seq<VersionId>)
    ensures Free(Held(sh, cnt, holder), vs) == Held(Free(sh, vs), cnt, holder)
    ensures Free(sh, vs) == sh.(heap := Free(sh, vs).heap, deleted := Free(sh, vs).deleted, fault := Free(sh, vs).fault)
  {
  }

  /** What initialize_the_row frees. */
  function InitFrees(sh: Shared): seq<VersionId> {
    if sh.slots != [] then EntryVersions(sh.slots[..|sh.slots| - 1]) + [sh.master] else [sh.master]
  }

  lemma InitializeAt(sh: Shared, cnt: int, holder: Option<Actor>)
    ensures Initialize(Held(sh, cnt, holder)) == Held(Initialize(sh), cnt, holder)
    ensures Initialize(sh).cnt == sh.cnt && Initialize(sh).holder == sh.holder && Initialize(sh).epoch == sh.epoch
    ensures Initialize(sh).region.Some? <==> sh.region.Some?
    ensures ArraysFit(sh) ==> ArraysFit(Initialize(sh))
  {
    hide FindLargest, CountBits, Zero, EntryVersions, Free;
    var sh0 := Check(sh, !(sh.slots != [] && HasDirtyRegion(sh))).(inits := sh.inits + 1);
    FreeAt(sh0, cnt, holder, InitFrees(sh));
  }

  lemma InsertAt(epoch: nat, s: nat, sh: Shared, cnt: int, holder: Option<Actor>)
    requires s < EPOCH_SIZE
    ensures InsertIntoRegion(Held(sh, cnt, holder), epoch, s) == Held(InsertIntoRegion(sh, epoch, s), cnt, holder)
    ensures var sh' := InsertIntoRegion(sh, epoch, s);
      sh'.cnt == sh.cnt && sh'.holder == sh.holder && (ArraysFit(sh) ==> ArraysFit(sh'))
  {
    hide IsBitSet, CoreOk, CountBits, Append;
  }

  lemma RegionAloneAt(epoch: nat, s: nat, sh: Shared, cnt: int, holder: Option<Actor>)
    requires s < EPOCH_SIZE && sh.region.Some? && |sh.region.value.arrays| == WIDTH
    ensures RegionAlone(epoch, s, Held(sh, cnt, holder)) == Held(RegionAlone(epoch, s, sh), cnt, holder)
    ensures RegionAlone(epoch, s, sh).cnt == sh.cnt && RegionAlone(epoch, s, sh).holder == sh.holder
    ensures ArraysFit(RegionAlone(epoch, s, sh))
  {
    hide IsBitSet, SetBit, Free, InsertIntoRegion;
    FreeAt(sh, cnt, holder, sh.region.value.arrays[s / WIDTH].slots);
    InsertAt(epoch, s, sh, cnt, holder);
    InsertAt(epoch, s, FirstWrite(s / WIDTH, sh), cnt, holder);
  }

  /** The first to arrive on a free row initializes it and publishes the epoch. */
  lemma GuardInitializes(r: Row, s: nat)
    requires Enabled(r, Appender(s)) && r.apc[s].GLoad? && r.sh.epoch < r.epoch + 1 && r.sh.cnt == 0 && r.sh.holder == None
    ensures Alone(r, Appender(s), 6) == At(r, s, Published(r.sh, r.epoch), ATry)
  {
    hide At, Initialize, Enabled, Alone;
    var a := Appender(s);
    SmallSerial(r, s);
    Here(r, s, r.sh, GLoad);
    Here(r, s, Published(r.sh, r.epoch), ATry);
    GuardLocks(r, s, 3);
    InitRoute(r, s);
  }

  lemma SmallSerial(r: Row, s: nat)
    requires Enabled(r, Appender(s))
    ensures s < EPOCH_SIZE && s in r.apc && ArraysFit(r.sh)
  {
    hide EarlierDone;
  }

  lemma GuardLocks(r: Row, s: nat, n: nat)
    requires Enabled(r, Appender(s)) && s < EPOCH_SIZE && ArraysFit(r.sh) && r.sh.epoch < r.epoch + 1 && r.sh.cnt == 0
    ensures Alone(At(r, s, r.sh, GLoad), Appender(s), n + 3) == Alone(At(r, s, Acquire(r.sh, Appender(s)), GInit), Appender(s), n)
  {
    hide At, Initialize, Enabled, Alone;
    var a := Appender(s);
    var locked := Acquire(r.sh, a);
    Once(r, s, n + 2, r.sh, GLoad, r.sh, GTry);
    Once(r, s, n + 1, r.sh, GTry, locked, GCheck);
    Once(r, s, n, locked, GCheck, locked, GInit);
  }

  lemma InitRoute(r: Row, s: nat)
    requires Enabled(r, Appender(s)) && s < EPOCH_SIZE && ArraysFit(r.sh) && r.sh.cnt == 0 && r.sh.holder == None
    ensures Alone(At(r, s, Acquire(r.sh, Appender(s)), GInit), Appender(s), 3) ==
      Alone(At(r, s, Published(r.sh, r.epoch), ATry), Appender(s), 0)
  {
    hide At, Initialize, Enabled, Alone;
    var a := Appender(s);
    var locked, init, published := Acquire(r.sh, a), Initialize(r.sh), Published(r.sh, r.epoch);
    InitializeAt(r.sh, -1, Some(a));
    Once(r, s, 2, locked, GInit, Acquire(init, a), GStore);
    Once(r, s, 1, Acquire(init, a), GStore, Acquire(published, a), GUnlock);
    Once(r, s, 0, Acquire(published, a), GUnlock, published, ATry);
  }

  /** A free lock and no region: the version goes into the global array. */
  lemma ArrayRoute(r: Row, s: nat, sh: Shared)
    requires Enabled(r, Appender(s)) && s < EPOCH_SIZE && sh.epoch == r.epoch + 1
    requires sh.cnt == 0 && sh.holder == None && sh.region.None?
    ensures Alone(At(r, s, sh, ATry), Appender(s), 4) == At(r, s, InArray(sh, r.epoch, s), ADone(NewId(sh)))
  {
    hide At, Insert, Enabled, Alone;
    var a, v := Appender(s), NewId(sh);
    var sh' := InArray(sh, r.epoch, s);
    Here(r, s, sh', ADone(v));
    Once(r, s, 3, sh, ATry, Acquire(sh, a), ALoadRegion);
    Once(r, s, 2, Acquire(sh, a), ALoadRegion, Acquire(sh, a), AInsert);
    Once(r, s, 1, Acquire(sh, a), AInsert, Acquire(sh', a), AUnlock(v));
    Once(r, s, 0, Acquire(sh', a), AUnlock(v), sh', ADone(v));
  }

  /** RowRegion::append, from its load of the core bitmap on. */
  lemma RegionRoute(r: Row, s: nat, sh: Shared, locked: bool)
    requires Enabled(r, Appender(s)) && s < EPOCH_SIZE && sh.region.Some? && ArraysFit(sh)
    ensures Alone(At(r, s, sh, RLoad(locked)), Appender(s), RegionSteps(s, sh)) ==
      At(r, s, RegionAlone(r.epoch, s, sh), if locked then AUnlock(NewId(sh)) else ADone(NewId(sh)))
  {
    hide At, InsertIntoRegion, IsBitSet, Free, Enabled, Alone, SetBit;
    var end := if locked then AUnlock(NewId(sh)) else ADone(NewId(sh));
    var c := s / WIDTH;
    Here(r, s, RegionAlone(r.epoch, s, sh), end);
    if IsBitSet(sh.region.value.core, c) {
      Once(r, s, 1, sh, RLoad(locked), sh, RInsert(locked));
      Once(r, s, 0, sh, RInsert(locked), RegionAlone(r.epoch, s, sh), end);
    } else {
      var sh' := FirstWrite(c, sh);
      FreeAt(sh, -1, None, sh.region.value.arrays[c].slots);
      FirstWriteRoute(r, s, sh, locked, 1);
      Once(r, s, 0, sh', RInsert(locked), RegionAlone(r.epoch, s, sh), end);
    }
  }

  lemma FirstWriteRoute(r: Row, s: nat, sh: Shared, locked: bool, n: nat)
    requires Enabled(r, Appender(s)) && s < EPOCH_SIZE && sh.region.Some? && ArraysFit(sh)
    requires !IsBitSet(sh.region.value.core, s / WIDTH)
    ensures Alone(At(r, s, sh, RLoad(locked)), Appender(s), n + 3) ==
      Alone(At(r, s, FirstWrite(s / WIDTH, sh), RInsert(locked)), Appender(s), n)
  {
    hide At, InsertIntoRegion, IsBitSet, Free, Enabled, Alone, SetBit;
    var c, g := s / WIDTH, sh.region.value;
    FreeAt(sh, -1, None, g.arrays[c].slots);
    var sh1 := Free(sh, g.arrays[c].slots).(region := Some(g.(arrays := g.arrays[c := EmptyArray()])));
    Once(r, s, n + 2, sh, RLoad(locked), sh, RGc(locked));
    Once(r, s, n + 1, sh, RGc(locked), sh1, ROr(locked));
    Once(r, s, n, sh1, ROr(locked), FirstWrite(c, sh), RInsert(locked));
  }

  /** A free lock and a region: the version goes into the region, and the lock is held meanwhile. */
  lemma LockedRegionRoute(r: Row, s: nat, sh: Shared)
    requires Enabled(r, Appender(s)) && s < EPOCH_SIZE && sh.epoch == r.epoch + 1
    requires sh.cnt == 0 && sh.holder == None && sh.region.Some? && ArraysFit(sh)
    ensures Alone(At(r, s, sh, ATry), Appender(s), RegionSteps(s, sh) + 3) ==
      At(r, s, RegionAlone(r.epoch, s, sh), ADone(NewId(sh)))
  {
    hide At, RegionAlone, IsBitSet, Enabled, Alone;
    var a, v, n := Appender(s), NewId(sh), RegionSteps(s, sh);
    var locked, sh' := Acquire(sh, a), RegionAlone(r.epoch, s, sh);
    RegionAloneAt(r.epoch, s, sh, -1, Some(a));
    Once(r, s, n + 2, sh, ATry, locked, ALoadRegion);
    Once(r, s, n + 1, locked, ALoadRegion, locked, RLoad(true));
    RegionRoute(r, s, locked, true);
    Further(At(r, s, locked, RLoad(true)), a, n, 1);
    Once(r, s, 0, Acquire(sh', a), AUnlock(v), sh', ADone(v));
    Here(r, s, sh', ADone(v));
  }

  /** A taken lock and a region: the version goes into the region at once, without the lock. */
  lemma UnlockedRegionRoute(r: Row, s: nat, sh: Shared)
    requires Enabled(r, Appender(s)) && s < EPOCH_SIZE && sh.epoch == r.epoch + 1
    requires sh.cnt != 0 && sh.region.Some? && ArraysFit(sh)
    ensures Alone(At(r, s, sh, ATry), Appender(s), RegionSteps(s, sh) + 2) ==
      At(r, s, RegionAlone(r.epoch, s, Fails(sh, s)), ADone(NewId(sh)))
  {
    hide At, RegionAlone, IsBitSet, Enabled, Alone;
    var n := RegionSteps(s, sh);
    Once(r, s, n + 1, sh, ATry, Fails(sh, s), WLoad);
    Once(r, s, n, Fails(sh, s), WLoad, Fails(sh, s), RLoad(false));
    RegionRoute(r, s, Fails(sh, s), false);
  }

  /** A taken lock and no region: the append waits, for as long as the row stays like this. */
  lemma WaitingSpins(r: Row, s: nat, sh: Shared)
    requires Enabled(r, Appender(s)) && s < EPOCH_SIZE && sh.epoch == r.epoch + 1 && sh.cnt != 0 && sh.region.None?
    ensures Alone(At(r, s, sh, ATry), Appender(s), 1) == At(r, s, Fails(sh, s), WLoad)
    ensures Alone(At(r, s, sh, WLoad), Appender(s), 2) == At(r, s, sh, WLoad)
  {
    hide At;
    Once(r, s, 0, sh, ATry, Fails(sh, s), WLoad);
    Here(r, s, Fails(sh, s), WLoad);
    Once(r, s, 1, sh, WLoad, sh, WTry);
    Once(r, s, 0, sh, WTry, sh, WLoad);
    Here(r, s, sh, WLoad);
  }

  /** The lock becomes free: the waiting thread moves the array into a new region and then appends there. */
  lemma InstallRoute(r: Row, s: nat, sh: Shared)
    requires Enabled(r, Appender(s)) && s < EPOCH_SIZE
    requires sh.cnt == 0 && sh.holder == None && sh.region.None? && Movable(sh.slots, FreshRegion()) && ArraysFit(Moved(sh))
    ensures Alone(At(r, s, sh, WLoad), Appender(s), RegionSteps(s, Moved(sh)) + 5) ==
      At(r, s, RegionAlone(r.epoch, s, Moved(sh)), ADone(NewId(sh)))
  {
    hide At, RegionAlone, IsBitSet, Movable, ServalRegion.Move, FreshRegion, Enabled, Alone;
    var a, n := Appender(s), RegionSteps(s, Moved(sh));
    Once(r, s, n + 4, sh, WLoad, sh, WTry);
    Once(r, s, n + 3, sh, WTry, Acquire(sh, a), WCheck);
    Once(r, s, n + 2, Acquire(sh, a), WCheck, Acquire(sh, a), WMove);
    MoveRoute(r, s, sh, n);
    RegionRoute(r, s, Moved(sh), false);
  }

  lemma MoveRoute(r: Row, s: nat, sh: Shared, n: nat)
    requires Enabled(r, Appender(s)) && s < EPOCH_SIZE
    requires sh.cnt == 0 && sh.holder == None && sh.region.None? && Movable(sh.slots, FreshRegion()) && ArraysFit(Moved(sh))
    ensures Alone(At(r, s, Acquire(sh, Appender(s)), WMove), Appender(s), n + 2) ==
      Alone(At(r, s, Moved(sh), RLoad(false)), Appender(s), n)
  {
    hide At, Movable, ServalRegion.Move, FreshRegion, Enabled, Alone;
    var a := Appender(s);
    Once(r, s, n + 1, Acquire(sh, a), WMove, Acquire(Moved(sh), a), WUnlock);
    Once(r, s, n, Acquire(Moved(sh), a), WUnlock, Moved(sh), RLoad(false));
  }

  /** Somebody else has installed a region in the meantime: it is used, and not replaced. */
  lemma LateRoute(r: Row, s: nat, sh: Shared)
    requires Enabled(r, Appender(s)) && s < EPOCH_SIZE && sh.region.Some? && ArraysFit(sh)
    ensures Alone(At(r, s, sh, WLoad), Appender(s), RegionSteps(s, sh) + 1) ==
      At(r, s, RegionAlone(r.epoch, s, sh), ADone(NewId(sh)))
    ensures sh.cnt == 0 && sh.holder == None ==>
      Alone(At(r, s, sh, WTry), Appender(s), RegionSteps(s, sh) + 3) ==
        At(r, s, RegionAlone(r.epoch, s, sh), ADone(NewId(sh)))
  {
    hide At, RegionAlone, IsBitSet, Enabled, Alone;
    var a, n := Appender(s), RegionSteps(s, sh);
    RegionRoute(r, s, sh, false);
    Once(r, s, n, sh, WLoad, sh, RLoad(false));
    if sh.cnt == 0 && sh.holder == None {
      Once(r, s, n + 2, sh, WTry, Acquire(sh, a), WCheck);
      Once(r, s, n + 1, Acquire(sh, a), WCheck, Acquire(sh, a), WUnlock);
      Once(r, s, n, Acquire(sh, a), WUnlock, sh, RLoad(false));
    }
  }

  // ---------- the appends of reachable rows ----------

  /** The row as the guard leaves it to an appender that finds the lock free. */
  function Guarded(r: Row): Shared {
    if r.sh.epoch < r.epoch + 1 then Published(r.sh, r.epoch) else r.sh
  }

  function GuardSteps(r: Row): nat {
    if r.sh.epoch < r.epoch + 1 then 6 else 1
  }

  lemma GuardRoute(r: Row, s: nat)
    requires Inv(r) && Enabled(r, Appender(s)) && r.apc[s].GLoad? && r.sh.cnt == 0
    ensures s < EPOCH_SIZE && ArraysFit(Guarded(r)) && (Guarded(r).region.Some? <==> r.sh.region.Some?)
    ensures Guarded(r).cnt == 0 && Guarded(r).holder == None && Guarded(r).epoch == r.epoch + 1
    ensures Alone(r, Appender(s), GuardSteps(r)) == At(r, s, Guarded(r), ATry)
  {
    hide Inv, At, Initialize, LockOk, GuardOk, EarlierDone;
    InvParts(r);
    hide OrderOk, Shape, RegionPcOk, RouteOk, Data, ReadersOk;
    LockIsFree(r.sh.cnt, r.sh.holder, r.apc);
    EpochIsNotAhead(r.sh.epoch, r.sh.inits, r.epoch, r.apc);
    InitializeAt(r.sh, -1, None);
    if r.sh.epoch < r.epoch + 1 {
      GuardInitializes(r, s);
    } else {
      GuardPasses(r, s);
    }
  }

  lemma LockIsFree(cnt: int, holder: Option<Actor>, apc: map<nat, AppendPc>)
    requires LockOk(cnt, holder, apc)
    ensures cnt == 0 <==> holder == None
  {
  }

  /**
    An append alone on a free row without a region initializes the row if it is the first of the epoch, and
    leaves its version in the global array; the row has no region afterwards, either.
   */
  lemma UncontendedAppend(r: Row, s: nat)
    requires Inv(r) && Enabled(r, Appender(s)) && r.apc[s].GLoad? && r.sh.cnt == 0 && r.sh.region.None?
    ensures var sh := Guarded(r);
      && Alone(r, Appender(s), GuardSteps(r) + 4) == At(r, s, InArray(sh, r.epoch, s), ADone(sh.created + 2))
      && InArray(sh, r.epoch, s).region.None?
  {
    hide Inv, At, Guarded, Enabled, Alone, InArray;
    GuardRoute(r, s);
    Further(r, Appender(s), GuardSteps(r), 4);
    ArrayRoute(r, s, Guarded(r));
    InArrayRegion(Guarded(r), r.epoch, s);
  }

  lemma InArrayRegion(sh: Shared, epoch: nat, s: nat)
    ensures InArray(sh, epoch, s).region == sh.region
  {
  }

  /** On a free row with a region the version goes into its core's array there. */
  lemma ContendedAppend(r: Row, s: nat)
    requires Inv(r) && Enabled(r, Appender(s)) && r.apc[s].GLoad? && r.sh.cnt == 0 && r.sh.region.Some?
    ensures s < EPOCH_SIZE && ArraysFit(Guarded(r)) && Guarded(r).region.Some?
    ensures var sh := Guarded(r);
      Alone(r, Appender(s), GuardSteps(r) + RegionSteps(s, sh) + 3) == At(r, s, RegionAlone(r.epoch, s, sh), ADone(sh.created + 2))
  {
    hide Inv, At, Guarded, Enabled, Alone, RegionAlone, RegionSteps;
    GuardRoute(r, s);
    Further(r, Appender(s), GuardSteps(r), RegionSteps(s, Guarded(r)) + 3);
    LockedRegionRoute(r, s, Guarded(r));
  }

  lemma InstallParts(r: Row, s: nat)
    requires Inv(r) && Enabled(r, Appender(s)) && r.apc[s].WLoad? && r.sh.region.None?
    ensures Movable(r.sh.slots, FreshRegion()) && ArraysFit(Moved(r.sh))
  {
    hide Inv, GuardOk, Data, Movable, ServalRegion.Move, FreshRegion, Settled, LockOk, OrderOk, RegionPcOk;
    Parts(r);
    PastGuard(r.sh.epoch, r.sh.inits, r.epoch, r.apc, s);
    MoveData(r.sh, r.apc, r.epoch, r.base, r.before);
  }

  /** A waiting append that finds the lock free installs a region, if nobody has, and ends in its core's array there. */
  lemma WaitingAppend(r: Row, s: nat)
    requires Inv(r) && Enabled(r, Appender(s)) && r.apc[s].WLoad? && r.sh.cnt == 0 && r.sh.region.None?
    ensures s < EPOCH_SIZE && Movable(r.sh.slots, FreshRegion()) && ArraysFit(Moved(r.sh))
    ensures Alone(r, Appender(s), RegionSteps(s, Moved(r.sh)) + 5) ==
      At(r, s, RegionAlone(r.epoch, s, Moved(r.sh)), ADone(r.sh.created + 2))
  {
    hide Inv, At, Alone, RegionAlone, RegionSteps, Movable, ServalRegion.Move, FreshRegion, LockOk, Enabled;
    hide OrderOk, Shape, GuardOk, RegionPcOk, RouteOk, Data, ReadersOk;
    SmallSerial(r, s);
    InvParts(r);
    LockIsFree(r.sh.cnt, r.sh.holder, r.apc);
    InstallParts(r, s);
    Here(r, s, r.sh, WLoad);
    InstallRoute(r, s, r.sh);
  }

  // ---------- whole runs ----------

  /** Whose append has found the lock taken in this epoch ends with a region, and with its version in its core's array there. */
  lemma FailedEndsInRegion(r: Row, s: nat)
    requires Inv(r) && s in r.sh.failed && s in r.apc && r.apc[s].ADone?
    ensures r.sh.region.Some? && RegionHas(r.sh.region.value, s, r.apc[s].v)
  {
    hide Inv, RegionHas;
    InvParts(r);
    hide LockOk, OrderOk, GuardOk, RegionPcOk, Data, ReadersOk, Shape;
    DoneInRegion(r, s);
  }

  /** Once there is a region, it has the versions of all appends that are done. */
  lemma DoneInRegion(r: Row, s: nat)
    requires Inv(r) && r.sh.region.Some? && s in r.apc && r.apc[s].ADone?
    ensures r.sh.slots == [] && RegionHas(r.sh.region.value, s, r.apc[s].v)
  {
    hide Inv, RegionHas;
    InvParts(r);
    DataIn(r.sh, r.apc, r.wpc, r.epoch, r.base, r.before);
    hide LockOk, OrderOk, RegionPcOk, RouteOk, Data, ReadersOk, Shape, RestOk, MasterOk, PlaceOk, StaleOk, CellsOk, HeapOk, HandlesOk;
    PastGuard(r.sh.epoch, r.sh.inits, r.epoch, r.apc, s);
    StoredIsHanded(r.sh.slots, r.sh.region, r.apc, s, r.apc[s].v);
  }

  /** The move is an append, past the guard, that finds the lock taken. */
  predicate FindsLockTaken(r: Row, m: Move) {
    m.Act? && m.a.Appender? && m.a.serial in r.apc && r.apc[m.a.serial].ATry? && r.sh.cnt != 0
  }

  /** The history variables say what they are meant to say. */
  lemma HistoryOfMove(w: seq<seq<Tx>>, k: Key, r: Row, m: Move)
    requires Inv(r) && CanMove(w, r, m)
    ensures var r' := Make(w, k, r, m);
      && (r'.sh.contended <==> r.sh.contended || FindsLockTaken(r, m))
      && (r'.epoch == r.epoch ==> r'.sh.failed == if FindsLockTaken(r, m) then r.sh.failed + {m.a.serial} else r.sh.failed)
  {
    hide Inv, EarlierDone, AppendStep, Advance, PhaseDone, ReaderStep, WriterStep;
    match m
    case Act(Appender(s)) => AppendHistory(r, s);
    case Act(Reader(s)) => ReadHistory(r, s);
    case Act(Writer(s)) => WriteHistory(r.epoch, s, r.wpc[s], r.sh);
    case Barrier => BarrierHistory(r, WriterSet(TxsAt(w, r.epoch + 1), k), ReaderSet(TxsAt(w, r.epoch + 1), k));
  }

  lemma AppendHistory(r: Row, s: nat)
    requires Inv(r) && Enabled(r, Appender(s))
    ensures var sh' := Step(r, Appender(s)).sh; var fails := r.apc[s].ATry? && r.sh.cnt != 0;
      && sh'.failed == (if fails then r.sh.failed + {s} else r.sh.failed)
      && sh'.contended == (r.sh.contended || fails)
  {
    hide Inv, AppendStep, EarlierDone, Waiting, LockOk, OrderOk, GuardOk, RegionPcOk, RouteOk, Data, ReadersOk, Shape;
    InvParts(r);
    RegionForPc(r.sh.region, r.apc, s);
    AppendStepKeeps(r, s);
    NeverFaults(r.(sh := Step(r, Appender(s)).sh, apc := Step(r, Appender(s)).apc));
    RouteOfStep(r.epoch, s, r.apc[s], r.sh);
  }

  lemma NeverFaults(r: Row)
    requires Inv(r)
    ensures !r.sh.fault
  {
    hide LockOk, OrderOk, GuardOk, RegionPcOk, RouteOk, Data, ReadersOk;
  }

  lemma ReadHistory(r: Row, s: nat)
    requires Inv(r) && Enabled(r, Reader(s))
    ensures Step(r, Reader(s)).sh == r.sh
  {
    hide Inv, ReaderStep, ReaderOk, AnswersOk, Shape, LockOk, OrderOk, GuardOk, RegionPcOk, RouteOk, Data, ReadersOk;
    InvParts(r);
    OneReader(r, s);
    AnswersAreOk(r, s);
    ReadOk(r.sh, r.apc, r.epoch, r.base, r.before, s, r.rpc[s]);
  }

  lemma WriteHistory(epoch: nat, s: nat, pc: WriterPc, sh: Shared)
    ensures WriterStep(epoch, s, pc, sh).0.contended == sh.contended && WriterStep(epoch, s, pc, sh).0.failed == sh.failed
  {
  }

  /** The barriers leave the row's data alone; only the history of the epoch is forgotten. */
  lemma BarrierHistory(r: Row, writers: set<nat>, readers: set<nat>)
    requires PhaseDone(r)
    ensures var r' := Advance(r, writers, readers);
      if r.phase.InitPhase? then r'.epoch == r.epoch && r'.sh == r.sh
      else r'.epoch == r.epoch + 1 && r'.sh == r.sh.(inits := 0, failed := {})
  {
    hide AllAt, Outcome;
  }

  lemma {:induction false} EpochNeverFalls(w: seq<seq<Tx>>, k: Key, r: Row, moves: seq<Move>)
    requires IsRun(w, k, r, moves)
    ensures r.epoch <= After(w, k, r, moves).epoch
    decreases |moves|
  {
    hide CanMove, Make;
    if moves != [] {
      EpochOfMove(w, k, r, moves[0]);
      EpochNeverFalls(w, k, Make(w, k, r, moves[0]), moves[1..]);
    }
  }

  lemma EpochOfMove(w: seq<seq<Tx>>, k: Key, r: Row, m: Move)
    requires CanMove(w, r, m)
    ensures r.epoch <= Make(w, k, r, m).epoch
  {
    hide Step, Enabled, PhaseDone, Advance;
    match m
    case Act(a) => StepFrame(r, a);
    case Barrier => BarrierHistory(r, WriterSet(TxsAt(w, r.epoch + 1), k), ReaderSet(TxsAt(w, r.epoch + 1), k));
  }

  lemma {:induction false} FailedStays(w: seq<seq<Tx>>, db: set<Key>, k: Key, r: Row, moves: seq<Move>, s: nat)
    requires Good(w, db) && k in db && RunInv(w, db, k, r) && IsRun(w, k, r, moves)
    requires s in r.sh.failed && After(w, k, r, moves).epoch == r.epoch
    ensures s in After(w, k, r, moves).sh.failed
    decreases |moves|
  {
    hide Inv, Good, CanMove, Make, SerialStore, FindsLockTaken, LastWritten, StaleTag;
    if moves != [] {
      var r' := Make(w, k, r, moves[0]);
      HistoryOfMove(w, k, r, moves[0]);
      EpochOfMove(w, k, r, moves[0]);
      EpochNeverFalls(w, k, r', moves[1..]);
      MakeKeepsInv(w, db, k, r, moves[0]);
      FailedStays(w, db, k, r', moves[1..], s);
    }
  }

  /**
    In every run: once an append has found the lock taken, it ends - if the run lets it end in this epoch - in a region
    that somebody has installed, and not in the global array.
   */
  lemma ContentionInstallsRegion(w: seq<seq<Tx>>, db: set<Key>, k: Key, r: Row, moves: seq<Move>, s: nat)
    requires Good(w, db) && k in db && RunInv(w, db, k, r) && IsRun(w, k, r, moves)
    requires moves != [] && moves[0] == Act(Appender(s)) && FindsLockTaken(r, moves[0])
    requires After(w, k, r, moves).epoch == r.epoch
    requires s in After(w, k, r, moves).apc && After(w, k, r, moves).apc[s].ADone?
    ensures var r' := After(w, k, r, moves);
      r'.sh.region.Some? && RegionHas(r'.sh.region.value, s, r'.apc[s].v)
  {
    hide Inv, Good, CanMove, Make, SerialStore, LastWritten, StaleTag, RegionHas;
    var r1 := Make(w, k, r, moves[0]);
    EpochOfMove(w, k, r, moves[0]);
    EpochNeverFalls(w, k, r1, moves[1..]);
    HistoryOfMove(w, k, r, moves[0]);
    MakeKeepsInv(w, db, k, r, moves[0]);
    FailedStays(w, db, k, r1, moves[1..], s);
    RunKeepsInv(w, db, k, r, moves);
    FailedEndsInRegion(After(w, k, r, moves), s);
  }

  lemma {:induction false} Crowding(w: seq<seq<Tx>>, db: set<Key>, k: Key, r: Row, moves: seq<Move>) returns (n: nat)
    requires Good(w, db) && k in db && RunInv(w, db, k, r)
    requires IsRun(w, k, r, moves) && !r.sh.contended && After(w, k, r, moves).sh.contended
    ensures n < |moves| && IsRun(w, k, r, moves[..n]) && FindsLockTaken(After(w, k, r, moves[..n]), moves[n])
    decreases |moves|
  {
    hide Inv, Good, CanMove, Make, SerialStore, FindsLockTaken, LastWritten, StaleTag;
    HistoryOfMove(w, k, r, moves[0]);
    if FindsLockTaken(r, moves[0]) {
      n := 0;
    } else {
      MakeKeepsInv(w, db, k, r, moves[0]);
      var m := Crowding(w, db, k, Make(w, k, r, moves[0]), moves[1..]);
      n := m + 1;
      assert moves[..n][1..] == moves[1..][..m];
    }
  }

  /** In every run a row has a region only because some append has found the row's lock taken. */
  lemma RegionMeansContention(w: seq<seq<Tx>>, db: set<Key>, k: Key, moves: seq<Move>) returns (n: nat)
    requires Good(w, db) && k in db && IsRun(w, k, Start(w, k), moves)
    requires After(w, k, Start(w, k), moves).sh.region.Some?
    ensures n < |moves| && IsRun(w, k, Start(w, k), moves[..n])
    ensures FindsLockTaken(After(w, k, Start(w, k), moves[..n]), moves[n])
  {
    hide Inv, Good, Start, IsRun, After, FindsLockTaken, SerialStore, LastWritten, StaleTag;
    StartInv(w, db, k);
    RunKeepsInv(w, db, k, Start(w, k), moves);
    RegionIsContended(After(w, k, Start(w, k), moves));
    StartUncontended(w, k);
    n := Crowding(w, db, k, Start(w, k), moves);
  }

  lemma RegionIsContended(r: Row)
    requires Inv(r) && r.sh.region.Some?
    ensures r.sh.contended
  {
    hide Inv, LockOk, OrderOk, GuardOk, RegionPcOk, Data, ReadersOk, Shape;
    InvParts(r);
  }

  lemma StartUncontended(w: seq<seq<Tx>>, k: Key)
    ensures !Start(w, k).sh.contended
  {
  }
}
