/**
  A concrete run of Serval in which two writers contend and the row gets a region: transaction 0 holds the lock
  when transaction 64, on the next core, tries it.
 */
module ServalContention {
  import opened Bits
  import opened TwoLevelBitmap
  import opened Versions
  import opened SortedSlots
  import opened Workload
  import opened ServalRegion
  import opened ServalRow
  import opened ServalInvariant
  import opened ServalTheorems
  import opened ServalEquivalence
  import opened ServalRoutes
  import opened ServalProgress

  /** Transactions 0 and 64 of the only epoch write key 0; all others are empty. */
  function TwoWriters(): seq<seq<Tx>> {
    [seq(EPOCH_SIZE, i => if i == 0 || i == 64 then [Op(0, true)] else [])]
  }

  lemma TheWorkload()
    ensures Good(TwoWriters(), {0})
    ensures WriterSet(TwoWriters()[0], 0) == {0, 64} && ReaderSet(TwoWriters()[0], 0) == {}
  {
    var w := TwoWriters();
    assert w[0][0] == [Op(0, true)] && w[0][64] == [Op(0, true)];
    assert forall i :: 0 <= i < EPOCH_SIZE && i != 0 && i != 64 ==> w[0][i] == [];
  }

  /** A reachable row, in the initialization phase of the only epoch. */
  ghost predicate Reached(r: Row) {
    && Reachable(TwoWriters(), 0, r) && RunInv(TwoWriters(), {0}, 0, r)
    && r.epoch == 0 && r.phase.InitPhase? && r.apc.Keys == {0, 64}
  }

  lemma StartReached()
    ensures Reached(Start(TwoWriters(), 0))
    ensures var r := Start(TwoWriters(), 0);
      r.apc[0] == GLoad && r.apc[64] == GLoad && r.sh == LoadedRow()
  {
    TheWorkload();
    var w := TwoWriters();
    var r := Start(w, 0);
    StartInv(w, {0}, 0);
    hide AllAt, RunInv, StartEpoch;
    StartFields(0, Loaded, Loaded, LoadedRow(), {0, 64}, {});
    assert IsRun(w, 0, r, []) && After(w, 0, r, []) == r;
  }

  lemma ReachStep(r: Row, s: nat)
    requires Reached(r) && Enabled(r, Appender(s))
    ensures Reached(Step(r, Appender(s)))
  {
    hide RunInv, Step, Enabled, Reachable;
    TheWorkload();
    StepStays(r, Appender(s));
    StepFrame(r, Appender(s));
    ReachNext(TwoWriters(), 0, r, Act(Appender(s)));
    MakeKeepsInv(TwoWriters(), {0}, 0, r, Act(Appender(s)));
  }

  lemma {:induction false} ReachAlone(r: Row, s: nat, n: nat)
    requires Reached(r)
    ensures Reached(Alone(r, Appender(s), n))
    decreases n
  {
    hide Reached, Step, Enabled;
    if n > 0 && Enabled(r, Appender(s)) {
      ReachStep(r, s);
      ReachAlone(Step(r, Appender(s)), s, n - 1);
    }
  }

  /** Transaction 0 has initialized the row. */
  lemma FirstInitializes() returns (r: Row)
    ensures Reached(r) && r.apc[0] == ATry && r.apc[64] == GLoad
    ensures r.sh.cnt == 0 && r.sh.region.None? && r.sh.epoch == 1
  {
    hide Reached, Start, Alone, Guarded;
    StartReached();
    var r0 := Start(TwoWriters(), 0);
    ReachedFits(r0);
    GuardRoute(r0, 0);
    ReachAlone(r0, 0, GuardSteps(r0));
    r := Alone(r0, Appender(0), GuardSteps(r0));
  }

  lemma ReachedFits(r: Row)
    requires Reached(r)
    ensures Inv(r) && 0 in r.apc && 64 in r.apc && r.epoch == 0 && r.phase.InitPhase? && ArraysFit(r.sh)
    ensures !r.apc[0].ADone? ==> Enabled(r, Appender(0))
    ensures !r.apc[64].ADone? ==> Enabled(r, Appender(64))
  {
    hide Inv, Reachable;
    ArraysFitAlways(r);
    assert forall t :: t in r.apc ==> t in r.apc.Keys;
  }

  /** Transaction 0 holds the lock, and transaction 64 is about to try it. */
  lemma SecondArrives() returns (r: Row)
    ensures Reached(r) && r.apc[0] == ALoadRegion && r.apc[64] == ATry && r.sh.cnt == -1 && r.sh.region.None?
  {
    hide Reached, Start, Alone, Guarded;
    var r1 := FirstInitializes();
    ReachedFits(r1);
    ReachStep(r1, 0);
    var r2 := Step(r1, Appender(0));
    ReachedFits(r2);
    ReachStep(r2, 64);
    r := Step(r2, Appender(64));
  }

  /** However the two go on, and they can: the row ends with a region that holds both versions, and the array is empty. */
  lemma TwoContendersGetARegion()
    ensures exists r: Row ::
      && Reachable(TwoWriters(), 0, r) && r.epoch == 0 && r.phase.InitPhase? && PhaseDone(r)
      && r.sh.slots == [] && r.sh.region.Some? && 0 in r.apc && 64 in r.apc && HasVersion(r.apc[0]) && HasVersion(r.apc[64])
      && RegionHas(r.sh.region.value, 0, r.apc[0].v) && RegionHas(r.sh.region.value, 64, r.apc[64].v)
  {
    hide Reached, Step, Enabled, RunInv, Inv, RegionHas, PhaseDone, Reachable;
    TheWorkload();
    var w := TwoWriters();
    var r3 := SecondArrives();
    ReachedFits(r3);
    ReachStep(r3, 64);
    var r4 := Step(r3, Appender(64));
    FailsAt(r3, 64);
    var moves := Finish(r4);
    var r := After(w, 0, r4, moves);
    BothInRegion(r);
    ReachedParts(r);
  }

  lemma ReachedParts(r: Row)
    requires Reached(r)
    ensures Reachable(TwoWriters(), 0, r) && r.epoch == 0 && r.phase.InitPhase?
  {
  }

  lemma FailsAt(r: Row, s: nat)
    requires Inv(r) && Enabled(r, Appender(s)) && r.apc[s].ATry? && r.sh.cnt != 0
    ensures s in Step(r, Appender(s)).sh.failed
  {
    hide Inv, Enabled, Step;
    AppendHistory(r, s);
  }

  lemma Finish(r: Row) returns (moves: seq<Move>)
    requires Reached(r) && 64 in r.sh.failed
    ensures IsRun(TwoWriters(), 0, r, moves)
    ensures var r' := After(TwoWriters(), 0, r, moves);
      Reached(r') && PhaseDone(r') && 64 in r'.sh.failed
  {
    hide RunInv, PhaseDone, IsRun, After, Start;
    TheWorkload();
    var w := TwoWriters();
    moves := CanFinishPhase(w, {0}, 0, r);
    var before: seq<Move> :| IsRun(w, 0, Start(w, 0), before) && After(w, 0, Start(w, 0), before) == r;
    RunAppends(w, 0, Start(w, 0), before, moves);
    RunKeepsInv(w, {0}, 0, r, moves);
    FailedStays(w, {0}, 0, r, moves, 64);
    SameWriters(After(w, 0, r, moves));
  }

  lemma SameWriters(r: Row)
    requires RunInv(TwoWriters(), {0}, 0, r) && r.epoch == 0
    ensures r.apc.Keys == {0, 64}
  {
    hide Inv;
    TheWorkload();
  }

  lemma BothInRegion(r: Row)
    requires Reached(r) && PhaseDone(r) && 64 in r.sh.failed
    ensures 0 in r.apc && 64 in r.apc && r.apc[0].ADone? && r.apc[64].ADone?
    ensures r.sh.slots == [] && r.sh.region.Some?
    ensures RegionHas(r.sh.region.value, 0, r.apc[0].v) && RegionHas(r.sh.region.value, 64, r.apc[64].v)
  {
    hide Inv, RegionHas, Reachable;
    ReachedFits(r);
    FailedEndsInRegion(r, 64);
    DoneInRegion(r, 0);
    DoneInRegion(r, 64);
  }
}
