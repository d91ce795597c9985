/** The phase changes of a Cheetah run, and the equivalence of the whole run to the serial execution. */
module CheetahEquivalence {
  import opened Bits
  import opened TwoLevelBitmap
  import opened Versions
  import opened Workload
  import opened CheetahRow
  import opened CheetahInvariant
  import opened CheetahRowTheorems
  import opened CheetahSystem
  import opened CheetahSystemProofs

  /** What a row expects of its readers is what the serial execution gives them. */
  lemma ExpectedIsSerial(w: seq<seq<Tx>>, db: set<Key>, sys: Sys, k: Key, s: nat)
    requires Good(w, db) && SysInv(w, db, sys) && sys.epoch < |w| && k in sys.rows && s <= EPOCH_SIZE
    ensures |w[sys.epoch]| == EPOCH_SIZE && k in SerialStore(w, db, sys.epoch, s)
    ensures var r := sys.rows[k];
      Expected(r.work, r.epoch, r.base, s) == SerialStore(w, db, sys.epoch, s)[k]
  {
    hide Inv, WorkOf, OrderOk, CoresOk, LogOk, LogIsSerial, SerialStore, Visible, Good, GoodEpoch;
    GoodAt(w, db, sys.epoch);
    assert GoodEpoch(w[sys.epoch], db);
    EpochLength(w[sys.epoch], db);
    assert RowFits(w, db, sys.epoch, sys.phase, k, sys.rows[k]);
    WorkIsFaithful(w[sys.epoch], k);
    StoreIsVisible(w, db, sys.epoch, s, k);
  }

  lemma EpochLength(txs: seq<Tx>, db: set<Key>)
    requires GoodEpoch(txs, db)
    ensures |txs| == EPOCH_SIZE
  {
  }

  /** Every read that has returned, in every state of every run, returned what the serial execution returns. */
  lemma ReadIsSerial(w: seq<seq<Tx>>, db: set<Key>, sys: Sys, s: nat, j: nat)
    requires Good(w, db) && SysInv(w, db, sys) && sys.epoch < |w| && IsOp(w[sys.epoch], s, j)
    requires Returned(sys.rows, s, w[sys.epoch][s][j].key)
    ensures RecordOf(sys.rows, s, w[sys.epoch][s][j].key) == SerialRead(w, db, sys.epoch, s, j)
  {
    hide Inv, WorkOf, OrderOk, CoresOk, LogOk, LogIsSerial, SerialStore, SerialRead, Expected, Good, HasRecord;
    var k: Key := w[sys.epoch][s][j].key;
    assert RowFits(w, db, sys.epoch, sys.phase, k, sys.rows[k]);
    GoodAt(w, db, sys.epoch);
    EpochLength(w[sys.epoch], db);
    ExpectedIsSerial(w, db, sys, k, s);
    SerialReadIsStore(w, db, sys.epoch, s, j);
    ReadsExpected(sys.rows[k], s);
  }

  // ---------- the barrier ----------

  lemma AdvanceFields(r: Row, next: Work)
    requires PhaseDone(r)
    ensures var r' := Advance(r, next);
      if r.phase.ExecPhase?
      then r'.epoch == r.epoch + 1 && r'.phase.WritePhase? && r'.work == next && r'.sh == r.sh && (forall c :: c in r'.cpc ==> r'.cpc[c].CTryLock?)
      else r' == r.(phase := r'.phase) && r'.phase == (if r.phase.WritePhase? then ReadPhase else ExecPhase)
  {
  }

  /** Between the phases nobody has started anything. */
  lemma NothingStarted(r: Row, s: nat, op: Op, next: Work)
    requires Inv(r) && PhaseDone(r) && !r.phase.ExecPhase?
    ensures var r' := Advance(r, next);
      && (s in r'.rpc ==> r'.rpc[s].RReady? || (r'.phase.ReadPhase? && r'.rpc[s].RFetchAdd?))
      && (s in r'.rpc && r'.phase.ReadPhase? ==> r'.rpc[s].RFetchAdd?)
      && (s in r'.wpc ==> r'.wpc[s].WLock?)
      && (forall c :: c in r'.cpc ==> !CoreInLock(r'.cpc[c]))
  {
    hide LockOk, RefOk, BitsOk, MasterOk, HeapOk, Drained, PlaceholdersOk, ReadersOk, WritersOk, Writers, GoodWork;
    if r.phase.WritePhase? { NoCoreInLock(r); }
  }

  lemma NoCoreInLock(r: Row)
    requires PhaseDone(r) && r.phase.WritePhase?
    ensures forall c :: c in r.cpc ==> !CoreInLock(r.cpc[c])
  {
  }

  lemma RowAfterBarrier(w: seq<seq<Tx>>, db: set<Key>, sys: Sys, k: Key)
    requires Good(w, db) && SysInv(w, db, sys) && CanMove(w, sys, Barrier) && k in sys.rows
    ensures var sys' := Make(w, sys, Barrier);
      && k in sys'.rows && sys'.epoch <= |w|
      && RowFits(w, db, sys'.epoch, sys'.phase, k, sys'.rows[k])
      && (forall c :: !InLockOf(sys'.rows, k, c))
  {
    hide Inv, WorkOf, OrderOk, CoresOk, LogOk, LogIsSerial, Good, Advance, PhaseDone, GoodWork, EpochLog, SerialStore;
    var r := sys.rows[k];
    var next := WorkOf(TxsAt(w, sys.epoch + 1), k);
    assert RowFits(w, db, sys.epoch, sys.phase, k, r);
    GoodAt(w, db, sys.epoch + 1);
    WorkIsFaithful(TxsAt(w, sys.epoch + 1), k);
    AdvanceKeepsInv(r, next);
    AdvanceFields(r, next);
    if r.phase.ExecPhase? {
      ExpectedIsSerial(w, db, sys, k, EPOCH_SIZE);
      NextEpochStore(w, db, sys.epoch);
    } else {
      NothingStarted(r, 0, Op(k, false), next);
    }
  }

  /** All reads of the epoch are entered in the log with their serial results. */
  lemma LogAfterEpoch(w: seq<seq<Tx>>, db: set<Key>, sys: Sys)
    requires Good(w, db) && SysInv(w, db, sys) && CanMove(w, sys, Barrier) && sys.phase.ExecPhase?
    ensures LogOk(w, sys.epoch + 1, sys.log + EpochLog(w[sys.epoch], sys.epoch, sys.rows))
    ensures LogIsSerial(w, db, sys.log + EpochLog(w[sys.epoch], sys.epoch, sys.rows))
  {
    hide OrderOk, CoresOk, SerialRead, Inv, WorkOf, SerialStore, RowFits, Good;
    var log := EpochLog(w[sys.epoch], sys.epoch, sys.rows);
    forall s: nat, j: nat | IsOp(w[sys.epoch], s, j) && !w[sys.epoch][s][j].isWrite
      ensures log[(sys.epoch, s, j)] == SerialRead(w, db, sys.epoch, s, j)
    {
      var k: Key := w[sys.epoch][s][j].key;
      ReaderIsDone(w, db, sys, s, j);
      ReadIsSerial(w, db, sys, s, j);
    }
  }

  lemma ReaderIsDone(w: seq<seq<Tx>>, db: set<Key>, sys: Sys, s: nat, j: nat)
    requires Good(w, db) && SysInv(w, db, sys) && CanMove(w, sys, Barrier) && sys.phase.ExecPhase?
    requires IsOp(w[sys.epoch], s, j) && !w[sys.epoch][s][j].isWrite
    ensures var k := w[sys.epoch][s][j].key;
      k in sys.rows && s in sys.rows[k].rpc && sys.rows[k].rpc[s].RDone?
  {
    hide OrderOk, CoresOk, LogOk, LogIsSerial, SerialStore, Good, Inv, WorkOf;
    var k: Key := w[sys.epoch][s][j].key;
    GoodAt(w, db, sys.epoch);
    assert k in db;
    assert RowFits(w, db, sys.epoch, sys.phase, k, sys.rows[k]);
    ReaderHasPc(sys.rows[k], w[sys.epoch], s, j);
  }

  lemma ReaderHasPc(r: Row, txs: seq<Tx>, s: nat, j: nat)
    requires Inv(r) && IsOp(txs, s, j) && r.work == WorkOf(txs, txs[s][j].key)
    ensures !txs[s][j].isWrite ==> s in r.rpc
    ensures txs[s][j].isWrite && |txs| <= EPOCH_SIZE ==> s in r.wpc
  {
    hide LockOk, RefOk, BitsOk, MasterOk, HeapOk, Drained, PlaceholdersOk, ReadersOk, WritersOk, GoodWork;
    assert txs[s][j] in txs[s];
    assert txs[s][j] == Op(txs[s][j].key, txs[s][j].isWrite);
    if |txs| <= EPOCH_SIZE { WorkIsFaithful(txs, txs[s][j].key); }
  }

  lemma BarrierKeepsInv(w: seq<seq<Tx>>, db: set<Key>, sys: Sys)
    requires Good(w, db) && SysInv(w, db, sys) && CanMove(w, sys, Barrier)
    ensures SysInv(w, db, Make(w, sys, Barrier))
  {
    hide Inv, WorkOf, LogOk, LogIsSerial, Good, Advance, PhaseDone, RowFits, EpochLog;
    var sys' := Make(w, sys, Barrier);
    assert sys'.rows.Keys == sys.rows.Keys;
    forall k | k in sys'.rows
      ensures RowFits(w, db, sys'.epoch, sys'.phase, k, sys'.rows[k])
      ensures forall c :: !InLockOf(sys'.rows, k, c)
    {
      RowAfterBarrier(w, db, sys, k);
    }
    OrderAfterBarrier(w, db, sys);
    if sys.phase.ExecPhase? { LogAfterEpoch(w, db, sys); }
  }

  lemma OrderAfterBarrier(w: seq<seq<Tx>>, db: set<Key>, sys: Sys)
    requires Good(w, db) && SysInv(w, db, sys) && CanMove(w, sys, Barrier)
    ensures var sys' := Make(w, sys, Barrier);
      OrderOk(TxsAt(w, sys'.epoch), sys'.phase, sys'.rows)
  {
    hide Inv, WorkOf, LogOk, LogIsSerial, Good, Advance, PhaseDone, EpochLog, OrderOk, SerialStore, CoresOk;
    var sys' := Make(w, sys, Barrier);
    if !sys.phase.ExecPhase? {
      forall s: nat, op: Op
        ensures !Started(sys'.phase, sys'.rows, s, op)
      {
        if op.key in sys.rows {
          assert RowFits(w, db, sys.epoch, sys.phase, op.key, sys.rows[op.key]);
          var next := WorkOf(TxsAt(w, sys.epoch + 1), op.key);
          NothingStarted(sys.rows[op.key], s, op, next);
          AdvanceFields(sys.rows[op.key], next);
        }
      }
    }
    NothingToOrder(TxsAt(w, sys'.epoch), sys'.phase, sys'.rows);
  }

  lemma NothingToOrder(txs: seq<Tx>, phase: Phase, rows: map<Key, Row>)
    requires phase.WritePhase? || forall s: nat, op: Op :: !Started(phase, rows, s, op)
    ensures OrderOk(txs, phase, rows)
  {
  }

  lemma MoveKeepsInv(w: seq<seq<Tx>>, db: set<Key>, sys: Sys, m: Move)
    requires Good(w, db) && SysInv(w, db, sys) && CanMove(w, sys, m)
    ensures SysInv(w, db, Make(w, sys, m))
  {
    hide SysInv, CanMove, Make, Good;
    match m
    case Register(c, k) => RegisterKeepsInv(w, db, sys, c, k);
    case Run(s, j) => RunKeepsInv(w, db, sys, s, j);
    case Barrier => BarrierKeepsInv(w, db, sys);
  }

  /** Every schedule of every workload stays within the invariant. */
  lemma {:induction false} RunInv(w: seq<seq<Tx>>, db: set<Key>, sys: Sys, moves: seq<Move>)
    requires Good(w, db) && SysInv(w, db, sys) && IsRun(w, sys, moves)
    ensures SysInv(w, db, After(w, sys, moves))
    decreases |moves|
  {
    hide SysInv, CanMove, Make, Good;
    if moves != [] {
      MoveKeepsInv(w, db, sys, moves[0]);
      RunInv(w, db, Make(w, sys, moves[0]), moves[1..]);
    }
  }

  /**
    Serial equivalence and memory safety of every schedule: no assertion of the protocol fails and no
    deleted version is touched, and every read - of finished epochs and of the one in progress - has
    returned what it returns when the transactions run one after the other.
   */
  lemma SerialEquivalence(w: seq<seq<Tx>>, db: set<Key>, moves: seq<Move>)
    requires Good(w, db) && IsRun(w, Start(w, db), moves)
    ensures var sys := After(w, Start(w, db), moves);
      && (forall k :: k in sys.rows ==> !sys.rows[k].sh.fault)
      && (forall e: nat, s: nat, j: nat ::
            e < sys.epoch && e < |w| && IsOp(w[e], s, j) && !w[e][s][j].isWrite ==>
              (e, s, j) in sys.log && sys.log[(e, s, j)] == SerialRead(w, db, e, s, j))
      && (forall s: nat, j: nat ::
            sys.epoch < |w| && IsOp(w[sys.epoch], s, j) && Returned(sys.rows, s, w[sys.epoch][s][j].key) ==>
              RecordOf(sys.rows, s, w[sys.epoch][s][j].key) == SerialRead(w, db, sys.epoch, s, j))
  {
    hide Inv, Good, Start, IsRun, After, OrderOk, CoresOk, SerialRead, Returned, RecordOf;
    StartKeepsInv(w, db);
    RunInv(w, db, Start(w, db), moves);
    var sys := After(w, Start(w, db), moves);
    forall k | k in sys.rows
      ensures !sys.rows[k].sh.fault
    {
      NoFault(sys.rows[k]);
    }
    hide RowFits;
    forall s: nat, j: nat |
      sys.epoch < |w| && IsOp(w[sys.epoch], s, j) && Returned(sys.rows, s, w[sys.epoch][s][j].key)
      ensures RecordOf(sys.rows, s, w[sys.epoch][s][j].key) == SerialRead(w, db, sys.epoch, s, j)
    {
      ReadIsSerial(w, db, sys, s, j);
    }
  }
}
