/** Every move of a Cheetah run keeps the invariant of the run. */
module CheetahSystemProofs {
  import opened Bits
  import opened TwoLevelBitmap
  import opened Versions
  import opened Workload
  import opened CheetahRow
  import opened CheetahInvariant
  import opened CheetahRowTheorems
  import opened CheetahSystem

  /** The bitmaps that the cores collect represent exactly the writers of the key. */
  lemma WorkIsFaithful(txs: seq<Tx>, k: Key)
    requires |txs| <= EPOCH_SIZE
    ensures GoodWork(WorkOf(txs, k))
    ensures Writers(WorkOf(txs, k)) == WriterSet(txs, k)
  {
    var work := WorkOf(txs, k);
    forall s: nat
      ensures s in Writers(work) <==> s in WriterSet(txs, k)
    {
      if s < EPOCH_SIZE {
        var bits := TxBits(txs, s / WIDTH, k);
        assert bits[s % WIDTH] == (s < |txs| && Op(k, true) in txs[s]);
        if bits[s % WIDTH] { NonZeroHasPosition(bits); }
      }
    }
  }

  lemma GoodAt(w: seq<seq<Tx>>, db: set<Key>, e: nat)
    requires Good(w, db)
    ensures |TxsAt(w, e)| <= EPOCH_SIZE
    ensures e < |w| ==> GoodEpoch(w[e], db)
  {
  }

  lemma StartKeepsInv(w: seq<seq<Tx>>, db: set<Key>)
    requires Good(w, db)
    ensures SysInv(w, db, Start(w, db))
  {
    hide Inv, WorkOf, GoodWork, Initial, Good;
    var sys := Start(w, db);
    GoodAt(w, db, 0);
    forall k | k in sys.rows
      ensures RowFits(w, db, 0, WritePhase, k, sys.rows[k])
      ensures forall c :: !InLockOf(sys.rows, k, c)
    {
      WorkIsFaithful(TxsAt(w, 0), k);
      InitialInv(WorkOf(TxsAt(w, 0), k));
      InitialFields(WorkOf(TxsAt(w, 0), k));
    }
    assert forall k :: k in db <==> k in sys.rows;
  }

  lemma InitialFields(work: Work)
    ensures var r := Initial(work);
      && r.epoch == 0 && r.phase.WritePhase? && r.work == work && r.base == Loaded
      && (forall c :: c in r.cpc ==> r.cpc[c].CTryLock?)
  {
  }

  // ---------- a step of one row ----------

  lemma StepFields(r: Row, a: Actor)
    requires Enabled(r, a)
    ensures var r' := Step(r, a);
      && r'.epoch == r.epoch && r'.phase == r.phase && r'.work == r.work && r'.base == r.base
      && r'.cpc.Keys == r.cpc.Keys && r'.rpc.Keys == r.rpc.Keys && r'.wpc.Keys == r.wpc.Keys
      && (forall c :: c in r.cpc && a != Core(c) ==> r'.cpc[c] == r.cpc[c])
      && (forall s :: s in r.rpc && a != Reader(s) ==> r'.rpc[s] == r.rpc[s])
      && (forall s :: s in r.wpc && a != Writer(s) ==> r'.wpc[s] == r.wpc[s])
  {
    hide CoreStep, ReaderStep, WriterStep;
  }

  /** A step never undoes what an actor has finished. */
  lemma FinishedStays(phase: Phase, rows: map<Key, Row>, k: Key, a: Actor, s: nat, op: Op)
    requires k in rows && rows[k].phase == phase && Enabled(rows[k], a)
    requires Finished(phase, rows, s, op)
    ensures Finished(phase, rows[k := Step(rows[k], a)], s, op)
  {
    hide CoreStep, ReaderStep, WriterStep, Step;
    StepFields(rows[k], a);
  }

  lemma StartedIsMover(phase: Phase, rows: map<Key, Row>, k: Key, a: Actor, s: nat, op: Op)
    requires k in rows && Enabled(rows[k], a)
    requires Started(phase, rows[k := Step(rows[k], a)], s, op) && !Started(phase, rows, s, op)
    ensures op.key == k && a == (if op.isWrite then Writer(s) else Reader(s))
  {
    hide CoreStep, ReaderStep, WriterStep, Step;
    StepFields(rows[k], a);
  }

  lemma RowFitsAfterStep(w: seq<seq<Tx>>, db: set<Key>, sys: Sys, k: Key, a: Actor)
    requires SysInv(w, db, sys) && k in sys.rows && Enabled(sys.rows[k], a)
    ensures RowFits(w, db, sys.epoch, sys.phase, k, Step(sys.rows[k], a))
  {
    hide Inv, Step, Enabled, WorkOf, OrderOk, CoresOk, LogOk, LogIsSerial;
    StepKeepsInv(sys.rows[k], a);
    StepFields(sys.rows[k], a);
  }

  lemma NextStays(txs: seq<Tx>, phase: Phase, rows: map<Key, Row>, k: Key, a: Actor, s: nat, j: nat)
    requires k in rows && rows[k].phase == phase && Enabled(rows[k], a)
    requires IsNext(txs, phase, rows, s, j)
    ensures IsNext(txs, phase, rows[k := Step(rows[k], a)], s, j)
  {
    hide Step, Enabled, Finished;
    var rows' := rows[k := Step(rows[k], a)];
    forall t: nat, i: nat | IsOp(txs, t, i) && SameWorker(phase, t, s) && Earlier(t, i, s, j)
      ensures Finished(phase, rows', t, txs[t][i])
    {
      FinishedStays(phase, rows, k, a, t, txs[t][i]);
    }
  }

  lemma RunKeepsOrder(txs: seq<Tx>, phase: Phase, rows: map<Key, Row>, s: nat, j: nat)
    requires OrderOk(txs, phase, rows) && IsOp(txs, s, j) && txs[s][j].key in rows && DistinctKeys(txs[s])
    requires rows[txs[s][j].key].phase == phase && Enabled(rows[txs[s][j].key], ActorOf(txs, s, j))
    requires IsNext(txs, phase, rows, s, j)
    ensures OrderOk(txs, phase, rows[txs[s][j].key := Step(rows[txs[s][j].key], ActorOf(txs, s, j))])
  {
    hide Step, Enabled, IsNext, Started;
    var k, a := txs[s][j].key, ActorOf(txs, s, j);
    var rows' := rows[k := Step(rows[k], a)];
    forall t: nat, i: nat | IsOp(txs, t, i) && !phase.WritePhase? && Started(phase, rows', t, txs[t][i])
      ensures IsNext(txs, phase, rows', t, i)
    {
      if !Started(phase, rows, t, txs[t][i]) {
        StartedIsMover(phase, rows, k, a, t, txs[t][i]);
        assert t == s && i == j;
      }
      NextStays(txs, phase, rows, k, a, t, i);
    }
  }

  lemma OtherCores(rows: map<Key, Row>, k: Key, a: Actor)
    requires k in rows && Enabled(rows[k], a) && CoresOk(rows)
    requires a.Core? ==> forall k' :: k' != k ==> !InLockOf(rows, k', a.core)
    ensures CoresOk(rows[k := Step(rows[k], a)])
  {
    hide Step, Enabled;
    StepFields(rows[k], a);
    var rows' := rows[k := Step(rows[k], a)];
    forall x, c | InLockOf(rows', x, c) && !(x == k && a == Core(c))
      ensures InLockOf(rows, x, c)
    {
    }
  }

  lemma StepMoveKeepsInv(w: seq<seq<Tx>>, db: set<Key>, sys: Sys, k: Key, a: Actor)
    requires SysInv(w, db, sys) && k in sys.rows && Enabled(sys.rows[k], a)
    requires OrderOk(TxsAt(w, sys.epoch), sys.phase, sys.rows[k := Step(sys.rows[k], a)])
    requires CoresOk(sys.rows[k := Step(sys.rows[k], a)])
    ensures SysInv(w, db, sys.(rows := sys.rows[k := Step(sys.rows[k], a)]))
  {
    hide Inv, Step, Enabled, WorkOf, OrderOk, CoresOk, LogOk, LogIsSerial, RowFits;
    RowFitsAfterStep(w, db, sys, k, a);
    var rows': map<Key, Row> := sys.rows[k := Step(sys.rows[k], a)];
    assert rows'.Keys == sys.rows.Keys;
  }

  lemma RegisterKeepsInv(w: seq<seq<Tx>>, db: set<Key>, sys: Sys, c: nat, k: Key)
    requires SysInv(w, db, sys) && CanMove(w, sys, Register(c, k))
    ensures SysInv(w, db, Make(w, sys, Register(c, k)))
  {
    hide Inv, Step, Enabled, RowFits, LogOk, LogIsSerial, CoresOk;
    OtherCores(sys.rows, k, Core(c));
    assert OrderOk(TxsAt(w, sys.epoch), sys.phase, sys.rows[k := Step(sys.rows[k], Core(c))]);
    hide OrderOk;
    StepMoveKeepsInv(w, db, sys, k, Core(c));
  }

  lemma RunKeepsInv(w: seq<seq<Tx>>, db: set<Key>, sys: Sys, s: nat, j: nat)
    requires Good(w, db) && SysInv(w, db, sys) && CanMove(w, sys, Run(s, j))
    ensures SysInv(w, db, Make(w, sys, Run(s, j)))
  {
    hide Inv, Step, Enabled, LogOk, LogIsSerial, CoresOk, OrderOk, IsNext, WorkOf;
    var txs: seq<Tx> := w[sys.epoch];
    var k, a := txs[s][j].key, ActorOf(txs, s, j);
    assert RowFits(w, db, sys.epoch, sys.phase, k, sys.rows[k]);
    hide RowFits;
    OtherCores(sys.rows, k, a);
    RunKeepsOrder(txs, sys.phase, sys.rows, s, j);
    StepMoveKeepsInv(w, db, sys, k, a);
  }
}
