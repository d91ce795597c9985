/**
  A concrete run of Serval whose read is not serial: the row is written in the first epoch and only read in
  the second, where the read returns what the row held before the first.
 */
module ServalStaleRead {
  import opened Bits
  import opened TwoLevelBitmap
  import opened Versions
  import opened SortedSlots
  import opened Workload
  import opened ServalRegion
  import opened ServalRow
  import opened ServalInvariant
  import opened ServalTheorems
  import opened ServalEquivalence

  /** Transaction 0 of the first epoch writes key 0; transaction 0 of the second reads it; all others are empty. */
  function OnlyFirst(op: Op): seq<Tx> {
    seq(EPOCH_SIZE, i => if i == 0 then [op] else [])
  }

  function WriteThenRead(): seq<seq<Tx>> {
    [OnlyFirst(Op(0, true)), OnlyFirst(Op(0, false))]
  }

  lemma TheWorkload()
    ensures Good(WriteThenRead(), {0})
    ensures WriterSet(WriteThenRead()[0], 0) == {0} && ReaderSet(WriteThenRead()[0], 0) == {}
    ensures WriterSet(WriteThenRead()[1], 0) == {} && ReaderSet(WriteThenRead()[1], 0) == {0}
    ensures WriterSet([], 0) == {} && ReaderSet([], 0) == {}
  {
    var w := WriteThenRead();
    assert w[0][0] == [Op(0, true)] && w[1][0] == [Op(0, false)];
    assert forall i :: 0 < i < EPOCH_SIZE ==> w[0][i] == [] && w[1][i] == [];
  }

  lemma Go(r: Row, m: Move, r': Row)
    requires Reachable(WriteThenRead(), 0, r) && CanMove(WriteThenRead(), r, m) && Make(WriteThenRead(), 0, r, m) == r'
    ensures Reachable(WriteThenRead(), 0, r')
  {
    hide Reachable, CanMove, Make;
    ReachNext(WriteThenRead(), 0, r, m);
  }

  /** A row at the program point `pc` of its only append. */
  function Appending(pc: AppendPc, sh: Shared): Row {
    Row(0, InitPhase, Loaded, Loaded, sh, map[0 := pc], map[], map[])
  }

  lemma AppendGo(pc: AppendPc, sh: Shared, pc': AppendPc, sh': Shared)
    requires Reachable(WriteThenRead(), 0, Appending(pc, sh)) && !pc.ADone? && sh.region.None?
    requires AppendStep(0, 0, pc, sh) == (sh', pc')
    ensures Reachable(WriteThenRead(), 0, Appending(pc', sh'))
  {
    hide Reachable, AppendStep;
    assert map[0 := pc][0 := pc'] == map[0 := pc'];
    Go(Appending(pc, sh), Act(Appender(0)), Appending(pc', sh'));
  }

  function Sh(cnt: int, holder: Option<Actor>): Shared {
    LoadedRow().(cnt := cnt, holder := holder)
  }

  /** The lock is taken and the row initialized: the loader's second version is the master version. */
  function Initialized(epoch: nat): Shared {
    LoadedRow().(cnt := -1, holder := Some(Appender(0)), epoch := epoch, inits := 1, slots := [], master := 1,
                 heap := map[1 := Cell(Some(Loaded), Stable, LoadedEntry)], deleted := 1)
  }

  function Appended(cell: Cell): Shared {
    Initialized(1).(slots := [Slot(0, 2)], heap := map[1 := Cell(Some(Loaded), Stable, LoadedEntry), 2 := cell], created := 1)
  }

  lemma StartsLoaded()
    ensures Start(WriteThenRead(), 0) == Appending(GLoad, LoadedRow())
    ensures Reachable(WriteThenRead(), 0, Appending(GLoad, LoadedRow()))
  {
    TheWorkload();
    var w := WriteThenRead();
    var r := Start(w, 0);
    hide AllAt;
    StartFields(0, Loaded, Loaded, LoadedRow(), {0}, {});
    assert r.apc == map[0 := GLoad] && r.rpc == map[];
    assert IsRun(w, 0, r, []) && After(w, 0, r, []) == r;
  }

  lemma GuardLocks()
    ensures Reachable(WriteThenRead(), 0, Appending(GInit, Sh(-1, Some(Appender(0)))))
  {
    hide Reachable, Start;
    StartsLoaded();
    AppendGo(GLoad, LoadedRow(), GTry, LoadedRow());
    AppendGo(GTry, LoadedRow(), GCheck, Sh(-1, Some(Appender(0))));
    AppendGo(GCheck, Sh(-1, Some(Appender(0))), GInit, Sh(-1, Some(Appender(0))));
  }

  lemma InitializeLoaded()
    ensures Initialize(Sh(-1, Some(Appender(0)))) == Initialized(0)
  {
    var sh := Sh(-1, Some(Appender(0)));
    assert EntryVersions(sh.slots[..0]) + [sh.master] == [0];
    assert AsSet([0]) == {0};
    assert sh.heap - {0} == map[1 := Cell(Some(Loaded), Stable, LoadedEntry)];
  }

  lemma GuardInitializes()
    ensures Reachable(WriteThenRead(), 0, Appending(GUnlock, Initialized(1)))
  {
    hide Reachable, Start, Initialize;
    GuardLocks();
    InitializeLoaded();
    AppendGo(GInit, Sh(-1, Some(Appender(0))), GStore, Initialized(0));
    AppendGo(GStore, Initialized(0), GUnlock, Initialized(1));
  }

  lemma LocksAgain()
    ensures Reachable(WriteThenRead(), 0, Appending(AInsert, Initialized(1)))
  {
    hide Reachable, Start;
    GuardInitializes();
    AppendGo(GUnlock, Initialized(1), ATry, Unlocked(Initialized(1)));
    AppendGo(ATry, Unlocked(Initialized(1)), ALoadRegion, Initialized(1));
    AppendGo(ALoadRegion, Initialized(1), AInsert, Initialized(1));
  }

  const PENDING := Cell(None, Pending, By(0, 0))

  function Unlocked(sh: Shared): Shared {
    sh.(cnt := 0, holder := None)
  }

  lemma CreatesVersion()
    ensures Create(Initialized(1), By(0, 0)) == Appended(PENDING).(slots := []) && NewId(Initialized(1)) == 2
    ensures Insert([], Slot(0, 2)) == [Slot(0, 2)]
  {
    var heap: map<VersionId, Cell> := map[1 := Cell(Some(Loaded), Stable, LoadedEntry)];
    assert heap[2 := PENDING] == map[1 := Cell(Some(Loaded), Stable, LoadedEntry), 2 := PENDING];
  }

  lemma Appends()
    ensures Reachable(WriteThenRead(), 0, Appending(ADone(2), Unlocked(Appended(PENDING))))
  {
    hide Reachable, Start, Create, Insert;
    LocksAgain();
    CreatesVersion();
    AppendGo(AInsert, Initialized(1), AUnlock(2), Appended(PENDING));
    AppendGo(AUnlock(2), Appended(PENDING), ADone(2), Unlocked(Appended(PENDING)));
  }

  /** The first epoch's execution phase, at the program point `pc` of the write. */
  function Writing(pc: WriterPc, cell: Cell): Row {
    Row(0, ExecPhase, Loaded, Loaded, Unlocked(Appended(cell)), map[0 := ADone(2)], map[], map[0 := pc])
  }

  lemma ExecStarts()
    ensures Reachable(WriteThenRead(), 0, Writing(WStoreRec(2), PENDING))
  {
    hide Reachable, Start;
    Appends();
    var r := Appending(ADone(2), Unlocked(Appended(PENDING)));
    assert WritersFrom(r.apc) == map[0 := WStoreRec(2)];
    Go(r, Barrier, Writing(WStoreRec(2), PENDING));
  }

  lemma WriteGo(pc: WriterPc, cell: Cell, pc': WriterPc, cell': Cell)
    requires Reachable(WriteThenRead(), 0, Writing(pc, cell)) && !pc.WDone?
    requires WriterStep(0, 0, pc, Unlocked(Appended(cell))) == (Unlocked(Appended(cell')), pc')
    ensures Reachable(WriteThenRead(), 0, Writing(pc', cell'))
  {
    hide Reachable, WriterStep;
    assert map[0 := pc][0 := pc'] == map[0 := pc'];
    Go(Writing(pc, cell), Act(Writer(0)), Writing(pc', cell'));
  }

  lemma Refill(cell: Cell, cell': Cell)
    ensures 2 in Appended(cell).heap && Appended(cell).heap[2] == cell
    ensures Appended(cell).heap[2 := cell'] == Appended(cell').heap
  {
  }

  lemma Writes()
    ensures Reachable(WriteThenRead(), 0, Writing(WDone(2), Cell(Some(Written(0, 0)), Stable, By(0, 0))))
  {
    hide Reachable, Start;
    ExecStarts();
    var half := Cell(Some(Written(0, 0)), Pending, By(0, 0));
    var full := Cell(Some(Written(0, 0)), Stable, By(0, 0));
    Refill(PENDING, half);
    WriteGo(WStoreRec(2), PENDING, WStoreStatus(2), half);
    Refill(half, full);
    WriteGo(WStoreStatus(2), half, WDone(2), full);
  }

  /** The second epoch, at the program point `pc` of the read; `val->epoch_` is still the first epoch's 1. */
  function Reading(phase: Phase, pc: ReaderPc): Row {
    Row(1, phase, Written(0, 0), Loaded, Unlocked(Appended(Cell(Some(Written(0, 0)), Stable, By(0, 0)))).(inits := 0, failed := {}),
        map[], map[0 := pc], map[])
  }

  lemma SecondEpochStarts()
    ensures Reachable(WriteThenRead(), 0, Reading(InitPhase, EpochLoad))
  {
    hide Reachable, Start, StartEpoch, Visible;
    Writes();
    TheWorkload();
    var r := Writing(WDone(2), Cell(Some(Written(0, 0)), Stable, By(0, 0)));
    assert r.apc.Keys == {0};
    VisibleIsUnique({0}, EPOCH_SIZE, 0);
    NextEpoch(r.sh);
    Go(r, Barrier, Reading(InitPhase, EpochLoad));
  }

  lemma NextEpoch(sh: Shared)
    requires sh == Writing(WDone(2), Cell(Some(Written(0, 0)), Stable, By(0, 0))).sh
    ensures StartEpoch(1, Written(0, 0), Loaded, sh, {}, {0}) == Reading(InitPhase, EpochLoad)
  {
    hide StartEpoch;
    StartFields(1, Written(0, 0), Loaded, sh, {}, {0});
    var r := StartEpoch(1, Written(0, 0), Loaded, sh, {}, {0});
    assert r.apc == map[] by { assert r.apc.Keys == {}; }
    assert r.rpc == map[0 := EpochLoad];
  }

  lemma NoWriters()
    ensures WritersFrom(map[]) == map[]
  {
    assert WritersFrom(map[]).Keys == {};
  }

  lemma ReadGo(pc: ReaderPc, pc': ReaderPc)
    requires Reachable(WriteThenRead(), 0, Reading(ExecPhase, pc)) && !pc.Done? && !pc.Wait?
    requires var sh := Reading(ExecPhase, pc).sh;
      ReaderStep(1, 0, pc, sh) == (sh, pc')
    ensures Reachable(WriteThenRead(), 0, Reading(ExecPhase, pc'))
  {
    hide Reachable, ReaderStep;
    assert map[0 := pc][0 := pc'] == map[0 := pc'];
    Go(Reading(ExecPhase, pc), Act(Reader(0)), Reading(ExecPhase, pc'));
  }

  lemma ReadsStale()
    ensures Reachable(WriteThenRead(), 0, Reading(ExecPhase, Done(Some(Loaded))))
  {
    hide Reachable, Start, WritersFrom;
    SecondEpochStarts();
    NoWriters();
    Go(Reading(InitPhase, EpochLoad), Barrier, Reading(ExecPhase, EpochLoad));
    ReadGo(EpochLoad, Load(1));
    ReadGo(Load(1), Done(Some(Loaded)));
  }

  lemma SerialAnswer()
    ensures SerialRead(WriteThenRead(), {0}, 1, 0, 0) == Some(Written(0, 0))
  {
    TheWorkload();
    var w := WriteThenRead();
    assert w[1][0] == [Op(0, false)];
    SerialReadIsStore(w, {0}, 1, 0, 0);
    OutcomeIsSerial(w, {0}, 0, 0, EPOCH_SIZE);
    NextEpochStore(w, {0}, 0);
    VisibleIsUnique({0}, EPOCH_SIZE, 0);
  }

  /** Serval is not serial across epochs: this read returns the loaded content, the serial execution the write of epoch 0. */
  lemma CrossEpochReadIsNotSerial()
    ensures Good(WriteThenRead(), {0}) && WriteThenRead()[1][0] == [Op(0, false)]
    ensures exists r: Row :: Reachable(WriteThenRead(), 0, r) && r.epoch == 1 && 0 in r.rpc && r.rpc[0] == Done(Some(Loaded))
    ensures SerialRead(WriteThenRead(), {0}, 1, 0, 0) == Some(Written(0, 0))
  {
    hide Reachable;
    TheWorkload();
    ReadsStale();
    SerialAnswer();
    assert Reading(ExecPhase, Done(Some(Loaded))).rpc[0] == Done(Some(Loaded));
  }
}
