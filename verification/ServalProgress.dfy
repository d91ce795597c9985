/**
  The actors of a Serval row never block each other for good.  The guard and the wait for a region spin while
  somebody else holds the lock, so not every schedule ends; but in every state some actor has a step that
  brings the phase closer to its end, and taking those steps completes the run.
 */
module ServalProgress {
  import opened Bits
  import opened TwoLevelBitmap
  import opened Versions
  import opened Sums
  import opened SortedSlots
  import opened Workload
  import opened ServalRegion
  import opened ServalRow
  import opened ServalInvariant
  import opened ServalData
  import opened ServalSteps
  import opened ServalTheorems
  import opened ServalEquivalence
  import opened ServalRoutes

  function AppendRank(pc: AppendPc): nat {
    match pc
    case GLoad => 17
    case GTry => 16
    case GCheck => 15
    case GInit => 14
    case GStore => 13
    case GUnlock => 12
    case ATry => 11
    case ALoadRegion => 10
    case AInsert => 9
    case WLoad => 10
    case WTry => 9
    case WCheck => 8
    case WMove => 7
    case WUnlock => 6
    case RLoad(_) => 5
    case RGc(_) => 4
    case ROr(_) => 3
    case RInsert(_) => 2
    case AUnlock(_) => 1
    case ADone(_) => 0
  }

  function ReaderRank(pc: ReaderPc): nat {
    match pc
    case EpochLoad => 4
    case Search => 3
    case Wait(_) => 2
    case Load(_) => 1
    case Done(_) => 0
  }

  function WriterRank(pc: WriterPc): nat {
    match pc
    case WStoreRec(_) => 2
    case WStoreStatus(_) => 1
    case WDone(_) => 0
  }

  ghost function Rank(r: Row): nat {
    Sum(r.apc, AppendRank) + Sum(r.rpc, ReaderRank) + Sum(r.wpc, WriterRank)
  }

  /** Every step of an append leads on, but for the two loops that try the lock while somebody else has it. */
  lemma AppendStepLeadsOn(epoch: nat, s: nat, pc: AppendPc, sh: Shared)
    requires s < EPOCH_SIZE && ArraysFit(sh) && !pc.ADone?
    ensures var pc' := AppendStep(epoch, s, pc, sh).1;
      if (pc.GTry? || pc.WTry?) && sh.cnt != 0 then pc' == (if pc.GTry? then GLoad else WLoad)
      else AppendRank(pc') < AppendRank(pc)
  {
    hide Initialize, InsertIntoRegion, Free, Movable, ServalRegion.Move, IsBitSet, Insert, SetBit;
  }

  lemma ReaderStepLeadsOn(epoch: nat, s: nat, pc: ReaderPc, sh: Shared)
    requires s < EPOCH_SIZE && !pc.Done?
    ensures ReaderRank(ReaderStep(epoch, s, pc, sh).1) < ReaderRank(pc)
  {
    hide Lookup;
  }

  lemma WriterStepLeadsOn(epoch: nat, s: nat, pc: WriterPc, sh: Shared)
    requires !pc.WDone?
    ensures WriterRank(WriterStep(epoch, s, pc, sh).1) < WriterRank(pc)
  {
  }

  /** The actor is not about to try a lock that is taken. */
  predicate Effective(r: Row, a: Actor) {
    a.Appender? && a.serial in r.apc && (r.apc[a.serial].GTry? || r.apc[a.serial].WTry?) ==> r.sh.cnt == 0
  }

  lemma StepDecreases(r: Row, a: Actor)
    requires Enabled(r, a) && Effective(r, a)
    ensures Rank(Step(r, a)) < Rank(r)
  {
    hide EarlierDone, AppendStep, ReaderStep, WriterStep, AppendRank, ReaderRank, WriterRank;
    match a
    case Appender(s) =>
      AppendStepLeadsOn(r.epoch, s, r.apc[s], r.sh);
      SumUpdate(r.apc, AppendRank, s, AppendStep(r.epoch, s, r.apc[s], r.sh).1);
    case Reader(s) =>
      ReaderStepLeadsOn(r.epoch, s, r.rpc[s], r.sh);
      SumUpdate(r.rpc, ReaderRank, s, ReaderStep(r.epoch, s, r.rpc[s], r.sh).1);
    case Writer(s) =>
      WriterStepLeadsOn(r.epoch, s, r.wpc[s], r.sh);
      SumUpdate(r.wpc, WriterRank, s, WriterStep(r.epoch, s, r.wpc[s], r.sh).1);
  }

  // ---------- somebody can always go on ----------

  lemma {:induction false} FirstUnfinished(apc: map<nat, AppendPc>, s: nat) returns (t: nat)
    requires s in apc && !apc[s].ADone?
    ensures t in apc && !apc[t].ADone? && EarlierDone(apc, t)
    decreases s
  {
    if u: nat :| u in apc && u < s && u / WIDTH == s / WIDTH && !apc[u].ADone? {
      t := FirstUnfinished(apc, u);
    } else {
      t := s;
    }
  }

  lemma Holder(cnt: int, holder: Option<Actor>, apc: map<nat, AppendPc>) returns (s: nat)
    requires LockOk(cnt, holder, apc) && OrderOk(apc) && cnt != 0
    ensures s in apc && InLock(apc[s]) && EarlierDone(apc, s)
  {
    hide EarlierDone;
    s := holder.value.serial;
  }

  lemma ArraysFitAlways(r: Row)
    requires Inv(r)
    ensures ArraysFit(r.sh)
  {
    hide Shape, LockOk, OrderOk, GuardOk, RouteOk, Data, ReadersOk;
  }

  lemma AppendMove(r: Row) returns (a: Actor)
    requires Inv(r) && r.phase.InitPhase? && !PhaseDone(r)
    ensures Enabled(r, a) && Effective(r, a)
  {
    hide Inv, LockOk, OrderOk, GuardOk, RegionPcOk, Data, EarlierDone;
    Parts(r);
    ArraysFitAlways(r);
    var s: nat;
    if r.sh.cnt != 0 {
      s := Holder(r.sh.cnt, r.sh.holder, r.apc);
    } else {
      var u :| u in r.apc && !r.apc[u].ADone?;
      s := FirstUnfinished(r.apc, u);
    }
    a := Appender(s);
  }

  /** With all writes done, the version that a read waits for is STABLE. */
  lemma NothingPending(r: Row, s: nat)
    requires Inv(r) && r.phase.ExecPhase? && s in r.rpc && r.rpc[s].Wait? && r.rpc[s].v in r.sh.heap
    requires forall t :: t in r.wpc ==> r.wpc[t].WDone?
    ensures r.sh.heap[r.rpc[s].v].status == Stable
  {
    hide Inv, Visible;
    InvParts(r);
    DataIn(r.sh, r.apc, r.wpc, r.epoch, r.base, r.before);
    OneReader(r, s);
    hide LockOk, OrderOk, GuardOk, RegionPcOk, RouteOk, Data, ReadersOk, StoreOk, ContentOk, RestOk, PlaceOk, StaleOk, CellsOk, HeapOk, HandlesOk;
    if t :| Visible(r.apc.Keys, s) == Some(t) {
      HandedContent(r.sh.heap, r.apc, r.wpc, r.epoch, t, r.rpc[s].v);
    }
  }

  lemma ExecMove(r: Row) returns (a: Actor)
    requires Inv(r) && r.phase.ExecPhase? && !PhaseDone(r)
    ensures Enabled(r, a) && Effective(r, a)
  {
    ArraysFitAlways(r);
    hide LockOk, OrderOk, GuardOk, RegionPcOk, RouteOk, Data, ReadersOk, EarlierDone;
    if s :| s in r.wpc && !r.wpc[s].WDone? {
      a := Writer(s);
    } else {
      var s :| s in r.rpc && !r.rpc[s].Done?;
      if r.rpc[s].Wait? && r.rpc[s].v in r.sh.heap { NothingPending(r, s); }
      a := Reader(s);
    }
  }

  /** In the execution phase a write never waits, and a read only for the writer of the version that it has found. */
  lemma WaitsOnlyForVersion(r: Row, s: nat)
    requires Inv(r) && r.phase.ExecPhase?
    ensures s in r.wpc && !r.wpc[s].WDone? ==> Enabled(r, Writer(s))
    ensures s in r.rpc && !r.rpc[s].Done? && !r.rpc[s].Wait? ==> Enabled(r, Reader(s))
    ensures s in r.rpc && r.rpc[s].Wait? ==>
      (Enabled(r, Reader(s)) <==> forall t :: Visible(r.apc.Keys, s) == Some(t) && t in r.wpc ==> r.wpc[t].WDone?)
  {
    ArraysFitAlways(r);
    hide LockOk, OrderOk, GuardOk, RegionPcOk, RouteOk, Data, ReadersOk, EarlierDone;
    if s in r.rpc && r.rpc[s].Wait? { WaitIsForWriter(r, s); }
  }

  lemma WaitIsForWriter(r: Row, s: nat)
    requires Inv(r) && r.phase.ExecPhase? && s in r.rpc && r.rpc[s].Wait?
    ensures r.rpc[s].v in r.sh.heap
    ensures r.sh.heap[r.rpc[s].v].status == Stable <==>
      forall t :: Visible(r.apc.Keys, s) == Some(t) && t in r.wpc ==> r.wpc[t].WDone?
  {
    hide Inv, Visible;
    InvParts(r);
    DataIn(r.sh, r.apc, r.wpc, r.epoch, r.base, r.before);
    OneReader(r, s);
    hide LockOk, OrderOk, GuardOk, RegionPcOk, RouteOk, Data, ReadersOk, StoreOk, ContentOk, RestOk, PlaceOk, StaleOk, CellsOk, HeapOk, HandlesOk;
    if t :| Visible(r.apc.Keys, s) == Some(t) {
      HandedContent(r.sh.heap, r.apc, r.wpc, r.epoch, t, r.rpc[s].v);
      assert t in r.wpc.Keys;
    }
  }

  /** Until the phase is over some actor of the row has a step that brings its end closer. */
  lemma Progress(r: Row) returns (a: Actor)
    requires Inv(r) && !PhaseDone(r)
    ensures Enabled(r, a) && Effective(r, a) && Rank(Step(r, a)) < Rank(r)
  {
    hide Inv, Enabled, Effective, PhaseDone, Rank, Step;
    if r.phase.InitPhase? {
      a := AppendMove(r);
    } else {
      a := ExecMove(r);
    }
    StepDecreases(r, a);
  }

  /** From every reachable state some schedule completes the phase. */
  lemma {:induction false} CanFinishPhase(w: seq<seq<Tx>>, db: set<Key>, k: Key, r: Row) returns (moves: seq<Move>)
    requires Good(w, db) && k in db && RunInv(w, db, k, r) && r.epoch < |w|
    ensures IsRun(w, k, r, moves) && PhaseDone(After(w, k, r, moves))
    ensures After(w, k, r, moves).epoch == r.epoch && After(w, k, r, moves).phase == r.phase
    decreases Rank(r)
  {
    hide Inv, Good, Enabled, PhaseDone, Step, SerialStore, Rank, LastWritten, StaleTag, Effective;
    if PhaseDone(r) {
      moves := [];
    } else {
      var a := Progress(r);
      StepFrame(r, a);
      StepStays(r, a);
      MakeKeepsInv(w, db, k, r, Act(a));
      var rest := CanFinishPhase(w, db, k, Step(r, a));
      moves := [Act(a)] + rest;
      assert moves[1..] == rest;
    }
  }

  lemma StepStays(r: Row, a: Actor)
    requires Enabled(r, a)
    ensures Step(r, a).phase == r.phase
  {
    hide AppendStep, ReaderStep, WriterStep, EarlierDone;
  }

  lemma {:induction false} RunAppends(w: seq<seq<Tx>>, k: Key, r: Row, first: seq<Move>, next: seq<Move>)
    requires IsRun(w, k, r, first) && IsRun(w, k, After(w, k, r, first), next)
    ensures IsRun(w, k, r, first + next) && After(w, k, r, first + next) == After(w, k, After(w, k, r, first), next)
    decreases |first|
  {
    hide CanMove, Make;
    if first == [] {
      assert first + next == next;
    } else {
      RunAppends(w, k, Make(w, k, r, first[0]), first[1..], next);
      assert (first + next)[1..] == first[1..] + next;
    }
  }

  /** From every reachable state some schedule takes the row through all the epochs that are left. */
  lemma {:induction false} CanComplete(w: seq<seq<Tx>>, db: set<Key>, k: Key, r: Row) returns (moves: seq<Move>)
    requires Good(w, db) && k in db && RunInv(w, db, k, r)
    ensures IsRun(w, k, r, moves) && After(w, k, r, moves).epoch == |w|
    decreases |w| - r.epoch, if r.phase.InitPhase? then 1 else 0
  {
    if r.epoch == |w| {
      moves := [];
    } else {
      hide Inv, Good, PhaseDone, Advance, SerialStore, LastWritten, StaleTag;
      var acts := CanFinishPhase(w, db, k, r);
      RunKeepsInv(w, db, k, r, acts);
      var r1 := After(w, k, r, acts);
      MakeKeepsInv(w, db, k, r1, Barrier);
      NextPhase(w, k, r1);
      var rest := CanComplete(w, db, k, Make(w, k, r1, Barrier));
      assert ([Barrier] + rest)[1..] == rest;
      RunAppends(w, k, r, acts, [Barrier] + rest);
      moves := acts + ([Barrier] + rest);
    }
  }

  lemma NextPhase(w: seq<seq<Tx>>, k: Key, r: Row)
    requires r.epoch < |w| && PhaseDone(r)
    ensures var r' := Make(w, k, r, Barrier);
      if r.phase.InitPhase? then r'.epoch == r.epoch && r'.phase.ExecPhase? else r'.epoch == r.epoch + 1
  {
    hide AllAt, Outcome;
  }
}
