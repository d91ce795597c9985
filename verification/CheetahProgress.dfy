/** A Cheetah run can always go on until it is complete, and no schedule goes on forever. */
module CheetahProgress {
  import opened Bits
  import opened TwoLevelBitmap
  import opened Versions
  import opened Sums
  import opened Workload
  import opened CheetahRow
  import opened CheetahInvariant
  import opened CheetahReaderSteps
  import opened CheetahRowTheorems
  import opened CheetahSystem
  import opened CheetahSystemProofs
  import opened CheetahEquivalence

  // ---------- deadlock freedom ----------

  /** The first unfinished operation in serial order, if there is one. */
  lemma FirstUnfinished(txs: seq<Tx>, phase: Phase, rows: map<Key, Row>) returns (found: bool, s: nat, j: nat)
    ensures !found ==> forall t: nat, i: nat :: IsOp(txs, t, i) ==> Finished(phase, rows, t, txs[t][i])
    ensures found ==> IsOp(txs, s, j) && !Finished(phase, rows, s, txs[s][j])
    ensures found ==> forall t: nat, i: nat :: IsOp(txs, t, i) && Earlier(t, i, s, j) ==> Finished(phase, rows, t, txs[t][i])
  {
    hide Finished;
    found, s, j := false, 0, 0;
    while s < |txs|
      invariant s <= |txs|
      invariant forall t: nat, i: nat :: IsOp(txs, t, i) && t < s ==> Finished(phase, rows, t, txs[t][i])
    {
      j := 0;
      while j < |txs[s]|
        invariant j <= |txs[s]|
        invariant forall i: nat :: i < j ==> Finished(phase, rows, s, txs[s][i])
      {
        if !Finished(phase, rows, s, txs[s][j]) {
          found := true;
          return;
        }
        j := j + 1;
      }
      s := s + 1;
    }
  }

  /** Whoever holds a row's lock is inside it. */
  lemma HolderInLock(r: Row)
    requires Inv(r) && r.sh.cnt != 0
    ensures match r.sh.holder
      case None => false
      case Some(Core(c)) => c in r.cpc && CoreInLock(r.cpc[c])
      case Some(Reader(s)) => s in r.rpc && ReaderInLock(r.rpc[s])
      case Some(Writer(s)) => s in r.wpc && WriterInLock(r.wpc[s])
  {
    hide RefOk, BitsOk, MasterOk, HeapOk, Drained, PlaceholdersOk, ReadersOk, WritersOk, Shape;
  }

  /** An actor inside the lock never waits. */
  lemma InLockIsEnabled(r: Row, a: Actor)
    requires Inv(r) && r.sh.cnt != 0 && r.sh.holder == Some(a)
    ensures Enabled(r, a)
    ensures a.Core? <==> r.phase.WritePhase?
    ensures a.Reader? ==> (if r.phase.ReadPhase? then !r.rpc[a.serial].RFetchAdd? else !r.rpc[a.serial].RReady?)
    ensures a.Writer? ==> !r.wpc[a.serial].WLock?
  {
    hide RefOk, BitsOk, MasterOk, HeapOk, Drained, PlaceholdersOk, ReadersOk, WritersOk, Writers, GoodWork, LockOk, IsStable;
    HolderInLock(r);
  }

  lemma WritePhaseMove(w: seq<seq<Tx>>, db: set<Key>, sys: Sys) returns (m: Move)
    requires Good(w, db) && SysInv(w, db, sys) && sys.epoch < |w| && sys.phase.WritePhase?
    ensures CanMove(w, sys, m)
  {
    hide Inv, WorkOf, OrderOk, LogOk, LogIsSerial, SerialStore, Good, Enabled, PhaseDone;
    if k :| k in sys.rows && sys.rows[k].sh.cnt != 0 {
      assert RowFits(w, db, sys.epoch, sys.phase, k, sys.rows[k]);
      HolderInLock(sys.rows[k]);
      InLockIsEnabled(sys.rows[k], sys.rows[k].sh.holder.value);
      var c := sys.rows[k].sh.holder.value.core;
      assert InLockOf(sys.rows, k, c);
      m := Register(c, k);
    } else if k :| k in sys.rows && !PhaseDone(sys.rows[k]) {
      assert RowFits(w, db, sys.epoch, sys.phase, k, sys.rows[k]);
      var c := WaitingCore(sys.rows[k]);
      forall k' ensures !InLockOf(sys.rows, k', c) {
        if k' in sys.rows {
          assert RowFits(w, db, sys.epoch, sys.phase, k', sys.rows[k']);
          LockFree(sys.rows[k']);
        }
      }
      m := Register(c, k);
    } else {
      forall k | k in sys.rows ensures sys.rows[k].phase == sys.phase {
        assert RowFits(w, db, sys.epoch, sys.phase, k, sys.rows[k]);
      }
      m := Barrier;
    }
  }

  lemma LockFree(r: Row)
    requires Inv(r) && r.sh.cnt == 0
    ensures forall c :: c in r.cpc ==> !CoreInLock(r.cpc[c])
  {
    hide RefOk, BitsOk, MasterOk, HeapOk, Drained, PlaceholdersOk, ReadersOk, WritersOk, Shape;
  }

  lemma WaitingCore(r: Row) returns (c: nat)
    requires Inv(r) && r.phase.WritePhase? && r.sh.cnt == 0 && !PhaseDone(r)
    ensures Enabled(r, Core(c))
  {
    LockFree(r);
    hide LockOk, RefOk, BitsOk, MasterOk, HeapOk, Drained, PlaceholdersOk, ReadersOk, WritersOk, GoodWork;
    c :| c in r.cpc && !r.cpc[c].CDone?;
  }

  lemma OpOfReader(txs: seq<Tx>, k: Key, s: nat, isWrite: bool) returns (j: nat)
    requires s < |txs| && Op(k, isWrite) in txs[s]
    ensures IsOp(txs, s, j) && txs[s][j] == Op(k, isWrite)
  {
    j :| 0 <= j < |txs[s]| && txs[s][j] == Op(k, isWrite);
  }

  /** The operation of an actor of the row. */
  lemma OpOfActor(txs: seq<Tx>, r: Row, k: Key, a: Actor) returns (j: nat)
    requires Inv(r) && r.work == WorkOf(txs, k) && |txs| <= EPOCH_SIZE
    requires (a.Reader? && a.serial in r.rpc) || (a.Writer? && a.serial in r.wpc)
    ensures IsOp(txs, a.serial, j) && txs[a.serial][j] == Op(k, a.Writer?)
  {
    hide LockOk, RefOk, BitsOk, MasterOk, HeapOk, Drained, PlaceholdersOk, ReadersOk, WritersOk, GoodWork, Writers;
    WorkIsFaithful(txs, k);
    j := OpOfReader(txs, k, a.serial, a.Writer?);
  }

  /** Somebody is inside a row's lock: that actor goes on. */
  lemma LockHolderMove(w: seq<seq<Tx>>, db: set<Key>, sys: Sys, k: Key) returns (m: Move)
    requires Good(w, db) && SysInv(w, db, sys) && sys.epoch < |w| && !sys.phase.WritePhase?
    requires k in sys.rows && sys.rows[k].sh.cnt != 0
    ensures CanMove(w, sys, m)
  {
    hide Inv, WorkOf, CoresOk, LogOk, LogIsSerial, SerialStore, Good, Enabled, PhaseDone, IsNext;
    var r := sys.rows[k];
    assert RowFits(w, db, sys.epoch, sys.phase, k, r);
    GoodAt(w, db, sys.epoch);
    HolderInLock(r);
    var a := r.sh.holder.value;
    InLockIsEnabled(r, a);
    var j := OpOfActor(w[sys.epoch], r, k, a);
    assert Started(sys.phase, sys.rows, a.serial, w[sys.epoch][a.serial][j]);
    m := Run(a.serial, j);
  }

  /** Nobody is inside the lock: an actor waits only for the version of an unfinished smaller writer. */
  lemma UnfinishedIsEnabled(r: Row, a: Actor)
    requires Inv(r) && r.sh.cnt == 0 && !r.phase.WritePhase?
    requires a.Reader? && a.serial in r.rpc && (if r.phase.ReadPhase? then !r.rpc[a.serial].RReady? else !r.rpc[a.serial].RDone?)
    requires r.phase.ExecPhase? && Visible(Writers(r.work), a.serial).Some? ==>
      var x := Visible(Writers(r.work), a.serial).value;
      x in r.wpc && r.wpc[x].WDone?
    ensures Enabled(r, a)
  {
    if r.rpc[a.serial].RReady? { HeldVersionsAreLive(r, a.serial); }
    hide LockOk, RefOk, BitsOk, MasterOk, HeapOk, Drained, PlaceholdersOk, ReadersOk, WritersOk, Writers, GoodWork, Visible;
  }

  /** The version a reader waits for belongs to an operation that comes earlier in serial order. */
  lemma VisibleWriterIsFinished(txs: seq<Tx>, phase: Phase, rows: map<Key, Row>, k: Key, s: nat, j: nat)
    requires |txs| <= EPOCH_SIZE && k in rows && Inv(rows[k]) && rows[k].work == WorkOf(txs, k) && phase.ExecPhase?
    requires forall t: nat, i: nat :: IsOp(txs, t, i) && Earlier(t, i, s, j) ==> Finished(phase, rows, t, txs[t][i])
    requires Visible(Writers(rows[k].work), s).Some?
    ensures var x := Visible(Writers(rows[k].work), s).value;
      x in rows[k].wpc && rows[k].wpc[x].WDone?
  {
    hide LockOk, RefOk, BitsOk, MasterOk, HeapOk, Drained, PlaceholdersOk, ReadersOk, WritersOk, GoodWork, Writers, Finished;
    var x := Visible(Writers(rows[k].work), s).value;
    WorkIsFaithful(txs, k);
    assert IsMaxBelow(x, Writers(rows[k].work), s);
    assert x in rows[k].wpc;
    var i := OpOfReader(txs, k, x, true);
    assert Finished(phase, rows, x, txs[x][i]);
    FinishedWrite(phase, rows, x, txs[x][i]);
  }

  lemma FinishedWrite(phase: Phase, rows: map<Key, Row>, x: nat, op: Op)
    requires Finished(phase, rows, x, op) && op.isWrite && phase.ExecPhase?
    ensures op.key in rows && x in rows[op.key].wpc && rows[op.key].wpc[x].WDone?
  {
  }

  lemma WriterIsEnabled(r: Row, s: nat)
    requires r.phase.ExecPhase? && r.sh.cnt == 0 && s in r.wpc && !r.wpc[s].WDone?
    ensures Enabled(r, Writer(s))
  {
  }

  lemma FirstOpMove(w: seq<seq<Tx>>, db: set<Key>, sys: Sys, s: nat, j: nat)
    requires Good(w, db) && SysInv(w, db, sys) && sys.epoch < |w| && !sys.phase.WritePhase?
    requires forall k :: k in sys.rows ==> sys.rows[k].sh.cnt == 0
    requires IsOp(w[sys.epoch], s, j) && !Finished(sys.phase, sys.rows, s, w[sys.epoch][s][j])
    requires forall t: nat, i: nat :: IsOp(w[sys.epoch], t, i) && Earlier(t, i, s, j) ==>
      Finished(sys.phase, sys.rows, t, w[sys.epoch][t][i])
    ensures CanMove(w, sys, Run(s, j))
  {
    hide Inv, WorkOf, CoresOk, LogOk, LogIsSerial, SerialStore, Good, Enabled, PhaseDone, OrderOk, Visible, Writers;
    var op: Op := w[sys.epoch][s][j];
    GoodAt(w, db, sys.epoch);
    assert op.key in db;
    var r := sys.rows[op.key];
    assert RowFits(w, db, sys.epoch, sys.phase, op.key, r);
    ReaderHasPc(r, w[sys.epoch], s, j);
    if op.isWrite {
      WriterIsEnabled(r, s);
    } else {
      if sys.phase.ExecPhase? && Visible(Writers(r.work), s).Some? {
        VisibleWriterIsFinished(w[sys.epoch], sys.phase, sys.rows, op.key, s, j);
      }
      UnfinishedIsEnabled(r, Reader(s));
    }
  }

  lemma AllFinishedMove(w: seq<seq<Tx>>, db: set<Key>, sys: Sys)
    requires Good(w, db) && SysInv(w, db, sys) && sys.epoch < |w| && !sys.phase.WritePhase?
    requires forall t: nat, i: nat :: IsOp(w[sys.epoch], t, i) ==> Finished(sys.phase, sys.rows, t, w[sys.epoch][t][i])
    ensures CanMove(w, sys, Barrier)
  {
    hide Inv, WorkOf, CoresOk, LogOk, LogIsSerial, SerialStore, Good, OrderOk, PhaseDone;
    forall k | k in sys.rows
      ensures sys.rows[k].phase == sys.phase && PhaseDone(sys.rows[k])
    {
      assert RowFits(w, db, sys.epoch, sys.phase, k, sys.rows[k]);
      GoodAt(w, db, sys.epoch);
      FinishedRow(w[sys.epoch], sys.phase, sys.rows, k);
    }
  }

  lemma FinishedRow(txs: seq<Tx>, phase: Phase, rows: map<Key, Row>, k: Key)
    requires k in rows && Inv(rows[k]) && rows[k].work == WorkOf(txs, k) && |txs| <= EPOCH_SIZE
    requires rows[k].phase == phase && !phase.WritePhase?
    requires forall t: nat, i: nat :: IsOp(txs, t, i) ==> Finished(phase, rows, t, txs[t][i])
    ensures PhaseDone(rows[k])
  {
    hide Inv, WorkOf;
    var r := rows[k];
    forall s | s in r.rpc
      ensures if phase.ReadPhase? then r.rpc[s].RReady? else r.rpc[s].RDone?
    {
      var j := OpOfActor(txs, r, k, Reader(s));
      assert Finished(phase, rows, s, txs[s][j]);
    }
    forall s | s in r.wpc && phase.ExecPhase?
      ensures r.wpc[s].WDone?
    {
      var j := OpOfActor(txs, r, k, Writer(s));
      assert Finished(phase, rows, s, txs[s][j]);
    }
  }

  /** Deadlock freedom: until the last epoch is over somebody can always take a step. */
  lemma Progress(w: seq<seq<Tx>>, db: set<Key>, sys: Sys) returns (m: Move)
    requires Good(w, db) && SysInv(w, db, sys) && sys.epoch < |w|
    ensures CanMove(w, sys, m)
  {
    hide SysInv, CanMove, Good, Finished;
    if sys.phase.WritePhase? {
      m := WritePhaseMove(w, db, sys);
    } else if k :| k in sys.rows && sys.rows[k].sh.cnt != 0 {
      m := LockHolderMove(w, db, sys, k);
    } else {
      var found, s, j := FirstUnfinished(w[sys.epoch], sys.phase, sys.rows);
      if found {
        FirstOpMove(w, db, sys, s, j);
        m := Run(s, j);
      } else {
        AllFinishedMove(w, db, sys);
        m := Barrier;
      }
    }
  }

  // ---------- every schedule is finite ----------

  function CoreRank(pc: CorePc): nat {
    match pc
    case CTryLock => 3
    case CUpdate => 2
    case CUnlock => 1
    case CDone => 0
  }

  function ReaderRank(pc: ReaderPc): nat {
    match pc
    case RFetchAdd => 14
    case RSecondAdd => 13
    case RLookup => 12
    case RLock(_) => 11
    case RPlace(_) => 10
    case RUnlock(_) => 9
    case RReady(_) => 8
    case RLoaded(_) => 7
    case RRead(_, _) => 6
    case RFinalLock(_) => 5
    case RFinalPrevious(_) => 4
    case RFinalPlaceholders(_) => 3
    case RFinalSub(_) => 2
    case RFinalUnlock(_) => 1
    case RDone(_) => 0
  }

  function WriterRank(pc: WriterPc): nat {
    match pc
    case WLock => 8
    case WFind => 7
    case WLoadRef(_) => 6
    case WGcMaster(_) => 5
    case WStash(_) => 5
    case WAssign(_) => 4
    case WUnlock(_) => 3
    case WStoreRec(_) => 2
    case WStoreStatus(_) => 1
    case WDone(_) => 0
  }

  /** How many steps the actors of a row can still take in this epoch, at most. */
  ghost function RowRank(r: Row): nat {
    Sum(r.cpc, CoreRank) + Sum(r.rpc, ReaderRank) + Sum(r.wpc, WriterRank)
  }

  ghost function RowsRank(rows: map<Key, Row>): nat {
    Sum(rows, (r: Row) => RowRank(r))
  }

  /** The steps that epoch `e` takes from its beginning, with its three barriers. */
  ghost function EpochRank(w: seq<seq<Tx>>, db: set<Key>, e: nat): nat {
    RowsRank(InitialRows(w, db, e)) + 3
  }

  ghost function LaterEpochs(w: seq<seq<Tx>>, db: set<Key>, e: nat): nat
    decreases |w| - e
  {
    if e < |w| then EpochRank(w, db, e) + LaterEpochs(w, db, e + 1) else 0
  }

  /** An upper bound on the number of moves still possible. */
  ghost function Bound(w: seq<seq<Tx>>, db: set<Key>, sys: Sys): nat {
    if sys.epoch < |w|
    then RowsRank(sys.rows)
         + (match sys.phase case WritePhase => 3 case ReadPhase => 2 case ExecPhase => 1)
         + LaterEpochs(w, db, sys.epoch + 1)
    else 0
  }

  lemma CoreStepDecreases(c: nat, bits: Word, pc: CorePc, sh: Shared)
    requires !pc.CDone?
    ensures CoreRank(CoreStep(c, bits, pc, sh).1) < CoreRank(pc)
  {
    hide CountPrefixSum, Update, IsBitSet;
  }

  lemma ReaderStepDecreases(s: nat, pc: ReaderPc, sh: Shared)
    requires !pc.RDone?
    ensures ReaderRank(ReaderStep(s, pc, sh).1) < ReaderRank(pc)
  {
    hide IdentifyVisible, WellFormed, CanFreePlaceholders, FreePlaceholders;
  }

  lemma WriterStepDecreases(e: nat, s: nat, pc: WriterPc, sh: Shared)
    requires !pc.WDone?
    ensures WriterRank(WriterStep(e, s, pc, sh).1) < WriterRank(pc)
  {
    hide IsFinalState, WellFormed;
  }

  lemma StepDecreases(r: Row, a: Actor)
    requires Enabled(r, a)
    ensures RowRank(Step(r, a)) < RowRank(r)
  {
    hide CoreStep, ReaderStep, WriterStep, CoreRank, ReaderRank, WriterRank;
    match a
    case Core(c) =>
      CoreStepDecreases(c, r.work.cores[c], r.cpc[c], r.sh);
      SumUpdate(r.cpc, CoreRank, c, CoreStep(c, r.work.cores[c], r.cpc[c], r.sh).1);
    case Reader(s) =>
      ReaderStepDecreases(s, r.rpc[s], r.sh);
      SumUpdate(r.rpc, ReaderRank, s, ReaderStep(s, r.rpc[s], r.sh).1);
    case Writer(s) =>
      WriterStepDecreases(r.epoch, s, r.wpc[s], r.sh);
      SumUpdate(r.wpc, WriterRank, s, WriterStep(r.epoch, s, r.wpc[s], r.sh).1);
  }

  lemma RowStepDecreases(rows: map<Key, Row>, k: Key, a: Actor)
    requires k in rows && Enabled(rows[k], a)
    ensures RowsRank(rows[k := Step(rows[k], a)]) < RowsRank(rows)
  {
    hide Step, Enabled, RowRank;
    StepDecreases(rows[k], a);
    SumUpdate(rows, (r: Row) => RowRank(r), k, Step(rows[k], a));
  }

  lemma {:induction false} SumSame<K(!new), T(!new)>(m: map<K, T>, m': map<K, T>, f: T -> nat)
    requires m.Keys == m'.Keys && (forall k :: k in m ==> f(m[k]) == f(m'[k]))
    ensures Sum(m, f) == Sum(m', f)
    decreases |m|
  {
    if m == map[] {
      assert m' == map[];
    } else {
      var k :| k in m;
      SumOf(m, f, k);
      SumOf(m', f, k);
      SumSame(m - {k}, m' - {k}, f);
    }
  }

  lemma RowsRankSame(rows: map<Key, Row>, rows': map<Key, Row>)
    requires rows.Keys == rows'.Keys
    requires forall k :: k in rows ==>
      rows[k].cpc == rows'[k].cpc && rows[k].rpc == rows'[k].rpc && rows[k].wpc == rows'[k].wpc
    ensures RowsRank(rows) == RowsRank(rows')
  {
    SumSame(rows, rows', (r: Row) => RowRank(r));
  }

  lemma SamePcs(r: Row, next: Work)
    requires PhaseDone(r)
    ensures var r' := Advance(r, next);
      if r.phase.ExecPhase?
      then r'.cpc == Initial(next).cpc && r'.rpc == Initial(next).rpc && r'.wpc == Initial(next).wpc
      else r'.cpc == r.cpc && r'.rpc == r.rpc && r'.wpc == r.wpc
  {
  }

  lemma BarrierDecreases(w: seq<seq<Tx>>, db: set<Key>, sys: Sys)
    requires SysInv(w, db, sys) && CanMove(w, sys, Barrier)
    ensures Bound(w, db, Make(w, sys, Barrier)) < Bound(w, db, sys)
  {
    hide Inv, WorkOf, Advance, PhaseDone, Initial, EpochLog, OrderOk, CoresOk, LogOk, LogIsSerial, RowsRank, RowFits;
    var sys' := Make(w, sys, Barrier);
    forall k | k in sys.rows
      ensures var r' := sys'.rows[k];
        if sys.phase.ExecPhase?
        then
          var i := Initial(WorkOf(TxsAt(w, sys.epoch + 1), k));
          r'.cpc == i.cpc && r'.rpc == i.rpc && r'.wpc == i.wpc
        else r'.cpc == sys.rows[k].cpc && r'.rpc == sys.rows[k].rpc && r'.wpc == sys.rows[k].wpc
    {
      SamePcs(sys.rows[k], WorkOf(TxsAt(w, sys.epoch + 1), k));
    }
    if sys.phase.ExecPhase? {
      RowsRankSame(InitialRows(w, db, sys.epoch + 1), sys'.rows);
    } else {
      RowsRankSame(sys.rows, sys'.rows);
    }
  }

  /** Every move brings the run closer to its end. */
  lemma MoveDecreases(w: seq<seq<Tx>>, db: set<Key>, sys: Sys, m: Move)
    requires SysInv(w, db, sys) && CanMove(w, sys, m)
    ensures Bound(w, db, Make(w, sys, m)) < Bound(w, db, sys)
  {
    hide SysInv, Step, RowsRank, Enabled, IsNext, AdvanceAll, LaterEpochs;
    match m
    case Register(c, k) => RowStepDecreases(sys.rows, k, Core(c));
    case Run(s, j) =>
      var txs: seq<Tx> := w[sys.epoch];
      RowStepDecreases(sys.rows, txs[s][j].key, ActorOf(txs, s, j));
    case Barrier => BarrierDecreases(w, db, sys);
  }

  /** No schedule goes on forever: the workload alone bounds the length of every run. */
  lemma {:induction false} RunsAreFinite(w: seq<seq<Tx>>, db: set<Key>, sys: Sys, moves: seq<Move>)
    requires Good(w, db) && SysInv(w, db, sys) && IsRun(w, sys, moves)
    ensures |moves| + Bound(w, db, After(w, sys, moves)) <= Bound(w, db, sys)
    decreases |moves|
  {
    hide SysInv, CanMove, Make, Good, Bound;
    if moves != [] {
      MoveDecreases(w, db, sys, moves[0]);
      MoveKeepsInv(w, db, sys, moves[0]);
      RunsAreFinite(w, db, Make(w, sys, moves[0]), moves[1..]);
    }
  }

  /** From every reachable state some schedule completes all epochs. */
  lemma {:induction false} CanComplete(w: seq<seq<Tx>>, db: set<Key>, sys: Sys) returns (moves: seq<Move>)
    requires Good(w, db) && SysInv(w, db, sys)
    ensures IsRun(w, sys, moves) && After(w, sys, moves).epoch == |w|
    decreases Bound(w, db, sys)
  {
    if sys.epoch == |w| {
      moves := [];
    } else {
      hide CanMove, Make, Good, Bound, OrderOk, CoresOk, LogOk, LogIsSerial, RowFits;
      var m := Progress(w, db, sys);
      MoveDecreases(w, db, sys, m);
      MoveKeepsInv(w, db, sys, m);
      var rest := CanComplete(w, db, Make(w, sys, m));
      moves := [m] + rest;
      assert moves[1..] == rest;
    }
  }

  // ---------- quiescence and conservation ----------

  ghost predicate RowAtRest(r: Row, content: Tag) {
    && r.sh.refCnt == 0 && r.sh.cnt == 0
    && r.sh.mem.bits == EMPTY && r.sh.mem.placeholders == map[] && r.sh.mem.previous == None
    && r.sh.mem.master.Some?
    && r.sh.mem.heap == map[r.sh.mem.master.value := Version(Some(content), Stable)]
  }

  /**
    When an execution phase is over, every row is at rest with one live version that holds the state of
    the serial execution, and over all rows as many versions have been deleted as were created.
   */
  lemma EpochBoundary(w: seq<seq<Tx>>, db: set<Key>, sys: Sys)
    requires Good(w, db) && SysInv(w, db, sys) && CanMove(w, sys, Barrier) && sys.phase.ExecPhase?
    ensures forall k :: k in sys.rows ==>
      k in SerialStore(w, db, sys.epoch + 1, 0) && RowAtRest(sys.rows[k], SerialStore(w, db, sys.epoch + 1, 0)[k])
    ensures Sum(sys.rows, (r: Row) => r.sh.mem.created) == Sum(sys.rows, (r: Row) => r.sh.mem.deleted)
  {
    hide Inv, WorkOf, PhaseDone, OrderOk, CoresOk, LogOk, LogIsSerial, Good, SerialStore, Expected;
    forall k | k in sys.rows
      ensures k in SerialStore(w, db, sys.epoch + 1, 0)
      ensures RowAtRest(sys.rows[k], SerialStore(w, db, sys.epoch + 1, 0)[k])
      ensures sys.rows[k].sh.mem.created == sys.rows[k].sh.mem.deleted
    {
      assert RowFits(w, db, sys.epoch, sys.phase, k, sys.rows[k]);
      Quiescence(sys.rows[k]);
      ExpectedIsSerial(w, db, sys, k, EPOCH_SIZE);
      NextEpochStore(w, db, sys.epoch);
    }
    SumSameFields(sys.rows);
  }

  lemma {:induction false} SumSameFields(rows: map<Key, Row>)
    requires forall k :: k in rows ==> rows[k].sh.mem.created == rows[k].sh.mem.deleted
    ensures Sum(rows, (r: Row) => r.sh.mem.created) == Sum(rows, (r: Row) => r.sh.mem.deleted)
    decreases |rows|
  {
    if rows != map[] {
      var k :| k in rows;
      SumOf(rows, (r: Row) => r.sh.mem.created, k);
      SumOf(rows, (r: Row) => r.sh.mem.deleted, k);
      SumSameFields(rows - {k});
    }
  }

  /** A completed run: every read is logged with its serial result, every row holds its serial final state. */
  lemma CompleteRun(w: seq<seq<Tx>>, db: set<Key>, moves: seq<Move>)
    requires Good(w, db) && IsRun(w, Start(w, db), moves) && After(w, Start(w, db), moves).epoch == |w|
    ensures var sys := After(w, Start(w, db), moves);
      && sys.rows.Keys == db
      && (forall e: nat, s: nat, j: nat :: e < |w| && IsOp(w[e], s, j) && !w[e][s][j].isWrite ==>
            (e, s, j) in sys.log && sys.log[(e, s, j)] == SerialRead(w, db, e, s, j))
      && (forall k :: k in db ==>
            var mem := sys.rows[k].sh.mem;
            && k in SerialStore(w, db, |w|, 0)
            && mem.master.Some? && mem.master.value in mem.heap
            && mem.heap[mem.master.value] == Version(Some(SerialStore(w, db, |w|, 0)[k]), Stable))
  {
    hide Inv, Good, Start, IsRun, After, OrderOk, CoresOk, SerialRead, WorkOf, SerialStore;
    StartKeepsInv(w, db);
    RunInv(w, db, Start(w, db), moves);
    var sys := After(w, Start(w, db), moves);
    forall k | k in db
      ensures var mem := sys.rows[k].sh.mem;
        && k in SerialStore(w, db, |w|, 0)
        && mem.master.Some? && mem.master.value in mem.heap
        && mem.heap[mem.master.value] == Version(Some(SerialStore(w, db, |w|, 0)[k]), Stable)
    {
      assert RowFits(w, db, sys.epoch, sys.phase, k, sys.rows[k]);
      BeforeExecution(sys.rows[k]);
    }
  }
}
