/**
  The order in which the 64 workers do their work, as their loops over the transactions give it.

  The transition systems say with arithmetic on serial ids who has to wait for whom on the same worker.
  Here this is tied to the visits of the workers' loops: sequential assignment in the read phase of Cheetah
  and the initialization phase of Serval, round-robin assignment in every execution phase and in the
  initialization phase of Caracal (executables/ycsb_caracal.cpp).
 */
module WorkerOrder {
  import opened Bits
  import opened TwoLevelBitmap
  import opened Workload
  import opened Assignment
  import opened CheetahRow
  import opened CheetahSystem
  import CheetahSystemProofs
  import CheetahEquivalence
  import C = CaracalRow
  import S = ServalRow

  /** Going through `visits`, and through each transaction's operations, (t, i) comes before (s, j). */
  ghost predicate ComesFirst(visits: seq<Visit>, t: nat, i: nat, s: nat, j: nat) {
    exists a: nat, b: nat :: a < |visits| && b < |visits| && visits[a].serial == t && visits[b].serial == s
                             && (a < b || (a == b && i < j))
  }

  /** `t` is visited, and `s` after it. */
  ghost predicate VisitedBefore(visits: seq<Visit>, t: nat, s: nat) {
    ComesFirst(visits, t, 0, s, 0)
  }

  lemma RoundRobinOrder(w: nat, t: nat, i: nat, s: nat, j: nat)
    requires w < 64 && t < EPOCH_SIZE && s < EPOCH_SIZE
    ensures ComesFirst(RoundRobinVisits(w, 64), t, i, s, j) <==> t % 64 == w && s % 64 == w && Earlier(t, i, s, j)
  {
    var visits := RoundRobinVisits(w, 64);
    if t % 64 == w && s % 64 == w && Earlier(t, i, s, j) {
      assert visits[t / 64].serial == t && visits[s / 64].serial == s;
    }
  }

  lemma SequentialOrder(w: nat, t: nat, i: nat, s: nat, j: nat)
    requires w < 64 && t < EPOCH_SIZE && s < EPOCH_SIZE
    ensures ComesFirst(SequentialVisits(w, 64), t, i, s, j) <==> t / 64 == w && s / 64 == w && Earlier(t, i, s, j)
  {
    var visits := SequentialVisits(w, 64);
    if t / 64 == w && s / 64 == w && Earlier(t, i, s, j) {
      assert visits[t % 64].serial == t && visits[s % 64].serial == s;
    }
  }

  // ---------- Cheetah ----------

  /** Two transactions are on the same worker in a phase exactly if some worker's loop for that phase visits both. */
  lemma SameWorkerIsSameVisits(s: nat, t: nat)
    requires s < EPOCH_SIZE && t < EPOCH_SIZE
    ensures SameWorker(ExecPhase, s, t) <==>
      exists w: nat :: w < 64 && Visited(RoundRobinVisits(w, 64), s) && Visited(RoundRobinVisits(w, 64), t)
    ensures SameWorker(ReadPhase, s, t) <==>
      exists w: nat :: w < 64 && Visited(SequentialVisits(w, 64), s) && Visited(SequentialVisits(w, 64), t)
  {
    hide Visited, RoundRobinVisits, SequentialVisits;
    forall w: nat | w < 64
      ensures Visited(RoundRobinVisits(w, 64), s) <==> s % 64 == w
      ensures Visited(RoundRobinVisits(w, 64), t) <==> t % 64 == w
      ensures Visited(SequentialVisits(w, 64), s) <==> s / 64 == w
      ensures Visited(SequentialVisits(w, 64), t) <==> t / 64 == w
    {
      FullEpochOrder(w, s);
      FullEpochOrder(w, t);
    }
    assert Visited(RoundRobinVisits(s % 64, 64), s) && Visited(SequentialVisits(s / 64, 64), s);
  }

  /** In the execution phase an operation is its worker's next one exactly if all that the loop comes to before it is finished. */
  lemma NextInExecution(txs: seq<Tx>, rows: map<Key, Row>, w: nat, s: nat, j: nat)
    requires w < 64 && |txs| == EPOCH_SIZE && IsOp(txs, s, j) && Visited(RoundRobinVisits(w, 64), s)
    ensures IsNext(txs, ExecPhase, rows, s, j) <==>
      forall t: nat, i: nat :: IsOp(txs, t, i) && ComesFirst(RoundRobinVisits(w, 64), t, i, s, j) ==>
        Finished(ExecPhase, rows, t, txs[t][i])
  {
    hide ComesFirst, RoundRobinVisits, Visited, Finished;
    FullEpochOrder(w, s);
    forall t: nat, i: nat | IsOp(txs, t, i)
      ensures ComesFirst(RoundRobinVisits(w, 64), t, i, s, j) <==> SameWorker(ExecPhase, t, s) && Earlier(t, i, s, j)
    {
      RoundRobinOrder(w, t, i, s, j);
    }
  }

  /** The same in the read phase, with the sequential loop. */
  lemma NextInReadPhase(txs: seq<Tx>, rows: map<Key, Row>, w: nat, s: nat, j: nat)
    requires w < 64 && |txs| == EPOCH_SIZE && IsOp(txs, s, j) && Visited(SequentialVisits(w, 64), s)
    ensures IsNext(txs, ReadPhase, rows, s, j) <==>
      forall t: nat, i: nat :: IsOp(txs, t, i) && ComesFirst(SequentialVisits(w, 64), t, i, s, j) ==>
        Finished(ReadPhase, rows, t, txs[t][i])
  {
    hide ComesFirst, SequentialVisits, Visited, Finished;
    FullEpochOrder(w, s);
    forall t: nat, i: nat | IsOp(txs, t, i)
      ensures ComesFirst(SequentialVisits(w, 64), t, i, s, j) <==> SameWorker(ReadPhase, t, s) && Earlier(t, i, s, j)
    {
      SequentialOrder(w, t, i, s, j);
    }
  }

  /**
    In every state of every run a worker has finished everything that its loop comes to before an
    operation that it has started.
   */
  lemma WorkersFollowTheirLoops(w: seq<seq<Tx>>, db: set<Key>, moves: seq<Move>, worker: nat, t: nat, i: nat, s: nat, j: nat)
    requires Good(w, db) && IsRun(w, Start(w, db), moves) && worker < 64
    requires var sys := After(w, Start(w, db), moves);
      && sys.epoch < |w| && IsOp(w[sys.epoch], t, i) && IsOp(w[sys.epoch], s, j)
      && Started(sys.phase, sys.rows, s, w[sys.epoch][s][j])
    ensures var sys := After(w, Start(w, db), moves);
      && (sys.phase.ReadPhase? && ComesFirst(SequentialVisits(worker, 64), t, i, s, j) ==>
            Finished(ReadPhase, sys.rows, t, w[sys.epoch][t][i]))
      && (sys.phase.ExecPhase? && ComesFirst(RoundRobinVisits(worker, 64), t, i, s, j) ==>
            Finished(ExecPhase, sys.rows, t, w[sys.epoch][t][i]))
  {
    hide Good, GoodEpoch, Start, IsRun, After, RowFits, CoresOk, LogOk, LogIsSerial, ComesFirst, RoundRobinVisits,
         SequentialVisits, Started, Finished;
    CheetahSystemProofs.StartKeepsInv(w, db);
    CheetahEquivalence.RunInv(w, db, Start(w, db), moves);
    var sys := After(w, Start(w, db), moves);
    CheetahSystemProofs.GoodAt(w, db, sys.epoch);
    CheetahEquivalence.EpochLength(w[sys.epoch], db);
    SequentialOrder(worker, t, i, s, j);
    RoundRobinOrder(worker, t, i, s, j);
  }

  /** Nobody but the row and the worker's own loop holds an operation back: execution phase. */
  lemma HeldBackInExecution(w: seq<seq<Tx>>, sys: Sys, worker: nat, s: nat, j: nat)
    requires worker < 64 && sys.epoch < |w| && |w[sys.epoch]| == EPOCH_SIZE && sys.phase.ExecPhase?
    requires IsOp(w[sys.epoch], s, j) && w[sys.epoch][s][j].key in sys.rows && Visited(RoundRobinVisits(worker, 64), s)
    ensures CanMove(w, sys, Run(s, j)) <==>
      && Enabled(sys.rows[w[sys.epoch][s][j].key], ActorOf(w[sys.epoch], s, j))
      && forall t: nat, i: nat :: IsOp(w[sys.epoch], t, i) && ComesFirst(RoundRobinVisits(worker, 64), t, i, s, j) ==>
           Finished(ExecPhase, sys.rows, t, w[sys.epoch][t][i])
  {
    hide ComesFirst, RoundRobinVisits, Visited, Finished, Enabled, IsNext;
    NextInExecution(w[sys.epoch], sys.rows, worker, s, j);
  }

  /** Nobody but the row and the worker's own loop holds an operation back: read phase. */
  lemma HeldBackInReadPhase(w: seq<seq<Tx>>, sys: Sys, worker: nat, s: nat, j: nat)
    requires worker < 64 && sys.epoch < |w| && |w[sys.epoch]| == EPOCH_SIZE && sys.phase.ReadPhase?
    requires IsOp(w[sys.epoch], s, j) && w[sys.epoch][s][j].key in sys.rows && Visited(SequentialVisits(worker, 64), s)
    ensures CanMove(w, sys, Run(s, j)) <==>
      && Enabled(sys.rows[w[sys.epoch][s][j].key], ActorOf(w[sys.epoch], s, j))
      && forall t: nat, i: nat :: IsOp(w[sys.epoch], t, i) && ComesFirst(SequentialVisits(worker, 64), t, i, s, j) ==>
           Finished(ReadPhase, sys.rows, t, w[sys.epoch][t][i])
  {
    hide ComesFirst, SequentialVisits, Visited, Finished, Enabled, IsNext;
    NextInReadPhase(w[sys.epoch], sys.rows, worker, s, j);
  }

  /** The first operation of a worker's loop can run as soon as its row lets it, whatever the others do. */
  lemma FirstIsNeverHeldBack(w: seq<seq<Tx>>, sys: Sys, worker: nat, s: nat)
    requires worker < 64 && sys.epoch < |w| && |w[sys.epoch]| == EPOCH_SIZE && !sys.phase.WritePhase?
    requires s == (if sys.phase.ExecPhase? then RoundRobinVisits(worker, 64) else SequentialVisits(worker, 64))[0].serial
    requires IsOp(w[sys.epoch], s, 0) && w[sys.epoch][s][0].key in sys.rows
    ensures CanMove(w, sys, Run(s, 0)) <==> Enabled(sys.rows[w[sys.epoch][s][0].key], ActorOf(w[sys.epoch], s, 0))
  {
    hide Finished, Enabled;
    assert forall t: nat, i: nat :: !(SameWorker(sys.phase, t, s) && Earlier(t, i, s, 0));
  }

  // ---------- Caracal and Serval, initialization ----------

  /** On a row of Caracal a worker appends in the order of its round-robin loop, and flushes when all its appends are done. */
  lemma CaracalFollowsTheLoop(apc: map<nat, C.AppendPc>, worker: nat, s: nat)
    requires worker < 64 && s < EPOCH_SIZE && (forall t :: t in apc ==> t < EPOCH_SIZE)
    ensures Visited(RoundRobinVisits(worker, 64), s) ==>
      (C.EarlierDone(apc, s) <==>
       forall t :: t in apc && VisitedBefore(RoundRobinVisits(worker, 64), t, s) ==> apc[t].ADone?)
    ensures C.CoreDone(apc, worker) <==>
      forall t :: t in apc && Visited(RoundRobinVisits(worker, 64), t) ==> apc[t].ADone?
  {
    hide ComesFirst, RoundRobinVisits, Visited;
    FullEpochOrder(worker, s);
    forall t | t in apc
      ensures VisitedBefore(RoundRobinVisits(worker, 64), t, s) <==> t % 64 == worker && s % 64 == worker && t < s
      ensures Visited(RoundRobinVisits(worker, 64), t) <==> t % 64 == worker
    {
      RoundRobinOrder(worker, t, 0, s, 0);
      FullEpochOrder(worker, t);
    }
  }

  /** On a row of Serval a worker appends in the order of its sequential loop. */
  lemma ServalFollowsTheLoop(apc: map<nat, S.AppendPc>, worker: nat, s: nat)
    requires worker < 64 && s < EPOCH_SIZE && (forall t :: t in apc ==> t < EPOCH_SIZE)
    requires Visited(SequentialVisits(worker, 64), s)
    ensures S.EarlierDone(apc, s) <==>
      forall t :: t in apc && VisitedBefore(SequentialVisits(worker, 64), t, s) ==> apc[t].ADone?
  {
    hide ComesFirst, SequentialVisits, Visited;
    FullEpochOrder(worker, s);
    forall t | t in apc
      ensures VisitedBefore(SequentialVisits(worker, 64), t, s) <==> t / 64 == worker && s / 64 == worker && t < s
    {
      SequentialOrder(worker, t, 0, s, 0);
    }
  }

  /** Only its own worker's loop, and a taken lock that it needs, keep an actor of a Caracal row from its next step. */
  lemma CaracalHeldBack(r: C.Row, worker: nat, s: nat)
    requires worker < 64 && (forall t :: t in r.apc ==> t < EPOCH_SIZE) && |r.sh.buffers| == WIDTH && r.phase.InitPhase?
    ensures s in r.apc && !r.apc[s].ADone? && Visited(RoundRobinVisits(worker, 64), s) ==>
      (C.Enabled(r, C.Appender(s)) <==>
       && (forall t :: t in r.apc && VisitedBefore(RoundRobinVisits(worker, 64), t, s) ==> r.apc[t].ADone?)
       && (r.apc[s].AFullLock? ==> r.sh.cnt == 0))
    ensures worker in r.fpc && !r.fpc[worker].FDone? ==>
      (C.Enabled(r, C.Flusher(worker)) <==>
       && (forall t :: t in r.apc && Visited(RoundRobinVisits(worker, 64), t) ==> r.apc[t].ADone?)
       && (r.fpc[worker].FLock? ==> r.sh.cnt == 0))
  {
    hide ComesFirst, RoundRobinVisits, Visited, VisitedBefore, C.EarlierDone, C.CoreDone;
    CaracalFollowsTheLoop(r.apc, worker, if s in r.apc then s else 0);
  }

  /** Only its own worker's loop keeps an appender of a Serval row from its next step; to wait for the lock, it tries it. */
  lemma ServalHeldBack(r: S.Row, worker: nat, s: nat)
    requires worker < 64 && (forall t :: t in r.apc ==> t < EPOCH_SIZE) && r.phase.InitPhase?
    requires r.sh.region.Some? ==> |r.sh.region.value.arrays| == WIDTH
    requires s in r.apc && !r.apc[s].ADone? && Visited(SequentialVisits(worker, 64), s)
    ensures S.Enabled(r, S.Appender(s)) <==>
      forall t :: t in r.apc && VisitedBefore(SequentialVisits(worker, 64), t, s) ==> r.apc[t].ADone?
  {
    hide ComesFirst, SequentialVisits, Visited, VisitedBefore, S.EarlierDone;
    ServalFollowsTheLoop(r.apc, worker, s);
  }
}
