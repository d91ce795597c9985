/** The actors of a Caracal row never block each other for good, and every schedule of a phase ends. */
module CaracalProgress {
  import opened Bits
  import opened TwoLevelBitmap
  import opened Versions
  import opened Sums
  import opened SortedSlots
  import opened Workload
  import opened CaracalRow
  import opened CaracalInvariant
  import opened CaracalSteps
  import opened CaracalTheorems
  import opened CaracalEquivalence

  // ---------- somebody can always go on ----------

  /** Whoever holds the lock is inside it, and does not wait. */
  lemma HolderIsEnabled(r: Row)
    requires Inv(r) && r.phase.InitPhase? && r.sh.cnt != 0
    ensures r.sh.holder.Some? && Enabled(r, r.sh.holder.value)
  {
    hide OldOk, ContentOk, HandlesOk, HeapOk, BuffersOk, ReadersOk, EarlierDone, CoreDone;
    match r.sh.holder
    case Some(Flusher(c)) => assert c in Cores();
    case _ =>
  }

  lemma {:induction false} FirstUnfinished(apc: map<nat, AppendPc>, s: nat) returns (t: nat)
    requires s in apc && !apc[s].ADone?
    ensures t in apc && !apc[t].ADone? && EarlierDone(apc, t)
    decreases s
  {
    if u: nat :| u in apc && u < s && u % WIDTH == s % WIDTH && !apc[u].ADone? {
      t := FirstUnfinished(apc, u);
    } else {
      t := s;
    }
  }

  lemma UnlockedMove(r: Row) returns (a: Actor)
    requires Inv(r) && r.phase.InitPhase? && r.sh.cnt == 0 && !PhaseDone(r)
    ensures Enabled(r, a)
  {
    hide LockOk, OrderOk, OldOk, ContentOk, HandlesOk, HeapOk, BuffersOk, ReadersOk, EarlierDone;
    if s :| s in r.apc && !r.apc[s].ADone? {
      var t := FirstUnfinished(r.apc, s);
      a := Appender(t);
    } else {
      var c :| c in r.fpc && !r.fpc[c].FDone?;
      assert c in Cores();
      a := Flusher(c);
    }
  }

  /** With all writes done, the version that a read waits for is STABLE. */
  lemma NothingPending(r: Row, s: nat)
    requires Inv(r) && r.phase.ExecPhase? && s in r.rpc && !r.rpc[s].RDone?
    requires forall t :: t in r.wpc ==> r.wpc[t].WDone?
    ensures Enabled(r, Reader(s))
  {
    hide Inv, LowerBound, OldOk, ContentOk, HandlesOk, HeapOk, ReadersOk, TagOf, Base;
    ExecParts(r);
    SearchSucceeds(r, s);
    OneReader(r, s);
    if Found(r, s).id >= Base(r.epoch) {
      FoundNew(r, s);
    } else {
      FoundOld(r, s);
    }
  }

  /** In the execution phase a write never waits, and a read only for the version that its search has found. */
  lemma WaitsOnlyForVersion(r: Row, s: nat)
    requires Inv(r) && r.phase.ExecPhase?
    ensures s in r.wpc && !r.wpc[s].WDone? ==> Enabled(r, Writer(s))
    ensures s in r.rpc && !r.rpc[s].RDone? ==> LowerBound(r.sh.slots, Base(r.epoch) + s) > 0 && Found(r, s).v in r.sh.heap
    ensures s in r.rpc && !r.rpc[s].RDone? ==>
      (Enabled(r, Reader(s)) <==> (r.rpc[s].RWait? ==> r.sh.heap[Found(r, s).v].status == Stable))
  {
    hide Inv, OldOk, ContentOk, HandlesOk, HeapOk, ReadersOk, LowerBound, TagOf, Base;
    SearchSucceeds(r, s);
    FoundContent(r, s);
    ExecParts(r);
    if s in r.rpc { OneReader(r, s); }
  }

  /** Deadlock freedom: until the phase is over some actor of the row can take a step. */
  lemma Progress(r: Row) returns (a: Actor)
    requires Inv(r) && !PhaseDone(r)
    ensures Enabled(r, a)
  {
    hide Inv, Enabled, PhaseDone;
    if r.phase.InitPhase? {
      if r.sh.cnt != 0 {
        HolderIsEnabled(r);
        a := r.sh.holder.value;
      } else {
        a := UnlockedMove(r);
      }
    } else {
      a := ExecMove(r);
    }
  }

  lemma ExecMove(r: Row) returns (a: Actor)
    requires Inv(r) && r.phase.ExecPhase? && !PhaseDone(r)
    ensures Enabled(r, a)
  {
    hide Inv, Enabled;
    if s :| s in r.wpc && !r.wpc[s].WDone? {
      WriterIsEnabled(r, s);
      a := Writer(s);
    } else {
      var s :| s in r.rpc && !r.rpc[s].RDone?;
      NothingPending(r, s);
      a := Reader(s);
    }
  }

  lemma WriterIsEnabled(r: Row, s: nat)
    requires Inv(r) && r.phase.ExecPhase? && s in r.wpc && !r.wpc[s].WDone?
    ensures Enabled(r, Writer(s))
  {
    hide LockOk, OrderOk, OldOk, ContentOk, HandlesOk, HeapOk, BuffersOk, ReadersOk;
  }

  // ---------- every schedule is finite ----------

  function AppendRank(pc: AppendPc): nat {
    match pc
    case ALoad => 7
    case ATryLock => 6
    case AInstall => 5
    case ABuffer => 4
    case AFullLock(_) => 3
    case AFullBatch(_) => 2
    case AFullUnlock(_) => 1
    case AInsert => 2
    case AUnlock(_) => 1
    case ADone(_) => 0
  }

  function FlushRank(pc: FlushPc): nat {
    match pc
    case FCheck => 4
    case FLock => 3
    case FBatch => 2
    case FUnlock => 1
    case FDone => 0
  }

  function ReaderRank(pc: ReaderPc): nat {
    match pc
    case RSearch => 3
    case RWait(_) => 2
    case RLoad(_) => 1
    case RDone(_) => 0
  }

  function WriterRank(pc: WriterPc): nat {
    match pc
    case WStoreRec(_) => 2
    case WStoreStatus(_) => 1
    case WDone(_) => 0
  }

  /** How many steps the actors can still take in this phase, at most. */
  ghost function Rank(r: Row): nat {
    Sum(r.apc, AppendRank) + Sum(r.fpc, FlushRank) + Sum(r.rpc, ReaderRank) + Sum(r.wpc, WriterRank)
  }

  lemma StepDecreases(r: Row, a: Actor)
    requires Enabled(r, a)
    ensures Rank(Step(r, a)) < Rank(r)
  {
    hide EarlierDone, CoreDone, AppendStep, FlushStep, ReaderStep, WriterStep, AppendRank, FlushRank, ReaderRank, WriterRank;
    match a
    case Appender(s) =>
      AppendStepDecreases(r.epoch, r.cap, s, r.apc[s], r.sh);
      SumUpdate(r.apc, AppendRank, s, AppendStep(r.epoch, r.cap, s, r.apc[s], r.sh).1);
    case Flusher(c) =>
      FlushStepDecreases(r.epoch, c, r.fpc[c], r.sh);
      SumUpdate(r.fpc, FlushRank, c, FlushStep(r.epoch, c, r.fpc[c], r.sh).1);
    case Reader(s) =>
      ReaderStepDecreases(r.epoch, s, r.rpc[s], r.sh);
      SumUpdate(r.rpc, ReaderRank, s, ReaderStep(r.epoch, s, r.rpc[s], r.sh).1);
    case Writer(s) =>
      WriterStepDecreases(r.epoch, s, r.wpc[s], r.sh);
      SumUpdate(r.wpc, WriterRank, s, WriterStep(r.epoch, s, r.wpc[s], r.sh).1);
  }

  lemma AppendStepDecreases(epoch: nat, cap: nat, s: nat, pc: AppendPc, sh: Shared)
    requires |sh.buffers| == WIDTH && s < EPOCH_SIZE && !pc.ADone?
    ensures AppendRank(AppendStep(epoch, cap, s, pc, sh).1) < AppendRank(pc)
  {
    hide GcOk, MinorGc, Dropped, InsertAll, Insert;
  }

  lemma FlushStepDecreases(epoch: nat, core: nat, pc: FlushPc, sh: Shared)
    requires |sh.buffers| == WIDTH && core < WIDTH && !pc.FDone?
    ensures FlushRank(FlushStep(epoch, core, pc, sh).1) < FlushRank(pc)
  {
    hide GcOk, MinorGc, Dropped, InsertAll;
  }

  lemma ReaderStepDecreases(epoch: nat, s: nat, pc: ReaderPc, sh: Shared)
    requires s < EPOCH_SIZE && !pc.RDone?
    ensures ReaderRank(ReaderStep(epoch, s, pc, sh).1) < ReaderRank(pc)
  {
    hide LowerBound, HasOlder;
  }

  lemma WriterStepDecreases(epoch: nat, s: nat, pc: WriterPc, sh: Shared)
    requires !pc.WDone?
    ensures WriterRank(WriterStep(epoch, s, pc, sh).1) < WriterRank(pc)
  {
  }

  /** Nobody spins: whatever the schedule, a phase ends after at most `Rank` steps of the row. */
  lemma {:induction false} PhaseIsFinite(w: seq<seq<Tx>>, k: Key, r: Row, moves: seq<Move>)
    requires IsRun(w, k, r, moves) && Barrier !in moves
    ensures |moves| + Rank(After(w, k, r, moves)) <= Rank(r)
    decreases |moves|
  {
    hide Rank, Enabled, Step;
    if moves != [] {
      StepDecreases(r, moves[0].a);
      PhaseIsFinite(w, k, Make(w, k, r, moves[0]), moves[1..]);
    }
  }

  /** From every reachable state some schedule takes the row through all the epochs that are left. */
  lemma {:induction false} CanComplete(w: seq<seq<Tx>>, db: set<Key>, k: Key, r: Row) returns (moves: seq<Move>)
    requires Good(w, db) && k in db && |w| + 1 < LOW && RunInv(w, db, k, r)
    ensures IsRun(w, k, r, moves) && After(w, k, r, moves).epoch == |w|
    decreases |w| - r.epoch, if r.phase.InitPhase? then 1 else 0, Rank(r)
  {
    if r.epoch == |w| {
      moves := [];
    } else {
      var m: Move;
      hide Inv, Good, Enabled, PhaseDone, Advance, Step, SerialStore, Rank, TagOf;
      if PhaseDone(r) {
        m := Barrier;
        NextPhase(w, k, r);
      } else {
        var a := Progress(r);
        m := Act(a);
        StepDecreases(r, a);
        StepStays(r, a);
      }
      MakeKeepsInv(w, db, k, r, m);
      var rest := CanComplete(w, db, k, Make(w, k, r, m));
      moves := [m] + rest;
      assert moves[1..] == rest;
    }
  }

  lemma StepStays(r: Row, a: Actor)
    requires Enabled(r, a)
    ensures Step(r, a).epoch == r.epoch && Step(r, a).phase == r.phase
  {
    hide AppendStep, FlushStep, ReaderStep, WriterStep, EarlierDone, CoreDone;
  }

  lemma NextPhase(w: seq<seq<Tx>>, k: Key, r: Row)
    requires r.epoch < |w| && PhaseDone(r)
    ensures var r' := Make(w, k, r, Barrier);
      if r.phase.InitPhase? then r'.epoch == r.epoch && r'.phase.ExecPhase? else r'.epoch == r.epoch + 1
  {
    hide AllAt;
  }
}
