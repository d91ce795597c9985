/**
  A Caracal row through all epochs of a workload (executables/ycsb_caracal.cpp).

  Rows share no data, so a run of the whole system is, seen from one row, one of the runs below: the
  workers' order of operations and the barriers, which wait for all rows, only exclude interleavings.
 */
module CaracalEquivalence {
  import opened Bits
  import opened TwoLevelBitmap
  import opened Versions
  import opened SortedSlots
  import opened Workload
  import opened CaracalRow
  import opened CaracalInvariant
  import opened CaracalSteps
  import opened CaracalTheorems

  datatype Move = Act(a: Actor) | Barrier

  ghost predicate CanMove(w: seq<seq<Tx>>, r: Row, m: Move) {
    && r.epoch < |w|
    && match m
       case Act(a) => Enabled(r, a)
       case Barrier => PhaseDone(r)
  }

  ghost function Make(w: seq<seq<Tx>>, k: Key, r: Row, m: Move): Row
    requires CanMove(w, r, m)
  {
    match m
    case Act(a) => Step(r, a)
    case Barrier => Advance(r, WriterSet(TxsAt(w, r.epoch + 1), k), ReaderSet(TxsAt(w, r.epoch + 1), k))
  }

  ghost function Start(w: seq<seq<Tx>>, k: Key, cap: nat): Row {
    Initial(cap, WriterSet(TxsAt(w, 0), k), ReaderSet(TxsAt(w, 0), k))
  }

  ghost predicate IsRun(w: seq<seq<Tx>>, k: Key, r: Row, moves: seq<Move>)
    decreases |moves|
  {
    moves == [] || (CanMove(w, r, moves[0]) && IsRun(w, k, Make(w, k, r, moves[0]), moves[1..]))
  }

  ghost function After(w: seq<seq<Tx>>, k: Key, r: Row, moves: seq<Move>): Row
    requires IsRun(w, k, r, moves)
    decreases |moves|
  {
    if moves == [] then r else After(w, k, Make(w, k, r, moves[0]), moves[1..])
  }

  /** The invariant of the row, and the serial execution up to the current epoch. */
  ghost predicate RunInv(w: seq<seq<Tx>>, db: set<Key>, k: Key, r: Row) {
    && Inv(r)
    && r.epoch <= |w|
    && r.apc.Keys == WriterSet(TxsAt(w, r.epoch), k)
    && r.rpc.Keys == ReaderSet(TxsAt(w, r.epoch), k)
    && k in SerialStore(w, db, r.epoch, 0)
    && TagOf(r.base.id) == SerialStore(w, db, r.epoch, 0)[k]
  }

  lemma StepFrame(r: Row, a: Actor)
    requires Enabled(r, a)
    ensures var r' := Step(r, a);
      r'.epoch == r.epoch && r'.base == r.base && r'.apc.Keys == r.apc.Keys && r'.rpc.Keys == r.rpc.Keys
  {
    hide AppendStep, FlushStep, ReaderStep, WriterStep, EarlierDone, CoreDone;
  }

  /** What a read with serial id `s` has to return is what the serial execution has in store. */
  lemma OutcomeIsSerial(w: seq<seq<Tx>>, db: set<Key>, k: Key, r: Row, s: nat)
    requires Good(w, db) && k in db && RunInv(w, db, k, r) && r.epoch < |w| && s <= EPOCH_SIZE
    ensures |w[r.epoch]| == EPOCH_SIZE && k in SerialStore(w, db, r.epoch, s)
    ensures Outcome(r.apc.Keys, r.epoch, TagOf(r.base.id), s) == SerialStore(w, db, r.epoch, s)[k]
  {
    hide Inv, Good, SerialStore, TagOf, Visible;
    EpochSerials(w, db, r.epoch, k);
    StoreIsVisible(w, db, r.epoch, s, k);
  }

  lemma MakeKeepsInv(w: seq<seq<Tx>>, db: set<Key>, k: Key, r: Row, m: Move)
    requires Good(w, db) && k in db && |w| + 1 < LOW && RunInv(w, db, k, r) && CanMove(w, r, m)
    ensures RunInv(w, db, k, Make(w, k, r, m))
  {
    hide Inv, Enabled, Step, Good, SerialStore, Advance, TagOf, PhaseDone, Outcome;
    match m
    case Act(a) =>
      StepKeepsInv(r, a);
      StepFrame(r, a);
    case Barrier =>
      var writers, readers := WriterSet(TxsAt(w, r.epoch + 1), k), ReaderSet(TxsAt(w, r.epoch + 1), k);
      EpochSerials(w, db, r.epoch + 1, k);
      if r.phase.InitPhase? {
        ToExec(r, writers, readers);
      } else {
        ToNextEpoch(r, writers, readers);
        LastIsOutcome(r);
        OutcomeIsSerial(w, db, k, r, EPOCH_SIZE);
        AdvanceIsStart(r, writers, readers);
        StartFields(r.epoch + 1, r.cap, Last(r.sh.slots), r.sh, writers, readers);
        NextEpochStore(w, db, r.epoch);
      }
  }

  lemma {:induction false} RunKeepsInv(w: seq<seq<Tx>>, db: set<Key>, k: Key, r: Row, moves: seq<Move>)
    requires Good(w, db) && k in db && |w| + 1 < LOW && RunInv(w, db, k, r) && IsRun(w, k, r, moves)
    ensures RunInv(w, db, k, After(w, k, r, moves))
    decreases |moves|
  {
    hide RunInv, Good, CanMove, Make;
    if moves != [] {
      MakeKeepsInv(w, db, k, r, moves[0]);
      RunKeepsInv(w, db, k, Make(w, k, r, moves[0]), moves[1..]);
    }
  }

  lemma StartInv(w: seq<seq<Tx>>, db: set<Key>, k: Key, cap: nat)
    requires Good(w, db) && k in db && cap >= 1
    ensures RunInv(w, db, k, Start(w, k, cap))
  {
    hide Inv, Good, TagOf, Initial;
    EpochSerials(w, db, 0, k);
    InitialInv(cap, WriterSet(TxsAt(w, 0), k), ReaderSet(TxsAt(w, 0), k));
    InitialFields(cap, WriterSet(TxsAt(w, 0), k), ReaderSet(TxsAt(w, 0), k));
  }

  lemma InitialFields(cap: nat, writers: set<nat>, readers: set<nat>)
    ensures var r := Initial(cap, writers, readers);
      r.epoch == 0 && r.apc.Keys == writers && r.rpc.Keys == readers
  {
    hide AllAt;
  }

  /**
    Serial equivalence: in every interleaving of every run of epochs, with any number of earlier garbage
    collections, a read that has returned returned what the serial execution returns; and no assertion
    of the source has failed and no deleted version has been touched.
   */
  lemma SerialEquivalence(w: seq<seq<Tx>>, db: set<Key>, k: Key, cap: nat, moves: seq<Move>)
    requires Good(w, db) && k in db && |w| + 1 < LOW && cap >= 1 && IsRun(w, k, Start(w, k, cap), moves)
    ensures var r := After(w, k, Start(w, k, cap), moves);
      && !r.sh.fault
      && r.epoch <= |w|
      && (r.epoch < |w| ==>
            forall s: nat, j: nat :: s < |w[r.epoch]| && j < |w[r.epoch][s]| && w[r.epoch][s][j] == Op(k, false) ==>
              s in r.rpc && (r.rpc[s].RDone? ==> r.rpc[s].rec == SerialRead(w, db, r.epoch, s, j)))
  {
    hide Inv, Good, SerialStore, SerialRead, TagOf, Start, IsRun, After;
    StartInv(w, db, k, cap);
    RunKeepsInv(w, db, k, Start(w, k, cap), moves);
    var r := After(w, k, Start(w, k, cap), moves);
    NeverFaults(r);
    if r.epoch < |w| {
      forall s: nat, j: nat | s < |w[r.epoch]| && j < |w[r.epoch][s]| && w[r.epoch][s][j] == Op(k, false)
        ensures s in r.rpc && (r.rpc[s].RDone? ==> r.rpc[s].rec == SerialRead(w, db, r.epoch, s, j))
      {
        EpochSerials(w, db, r.epoch, k);
        assert s in ReaderSet(w[r.epoch], k);
        if r.rpc[s].RDone? {
          ReadIsOutcome(r, s);
          OutcomeIsSerial(w, db, k, r, s);
          SerialReadIsStore(w, db, r.epoch, s, j);
        }
      }
    }
  }

  lemma NeverFaults(r: Row)
    requires Inv(r)
    ensures !r.sh.fault
  {
    hide LockOk, OrderOk, OldOk, ContentOk, HandlesOk, HeapOk, BuffersOk, ReadersOk;
  }

  lemma ReadIsOutcome(r: Row, s: nat)
    requires Inv(r) && s in r.rpc && r.rpc[s].RDone?
    ensures r.rpc[s].rec == Some(Outcome(r.apc.Keys, r.epoch, TagOf(r.base.id), s))
  {
    hide LockOk, OrderOk, OldOk, ContentOk, HandlesOk, HeapOk, BuffersOk, Shape;
    OneReader(r, s);
  }

  // ---------- the end of the initialization phase ----------

  /** The ids that the array has to hold: the row's last older entry, and one for each writer of the epoch. */
  ghost predicate RightIds(a: seq<Slot>, base: int, x: int, writers: set<nat>) {
    && Sorted(a)
    && forall id: int :: HasId(a, id) <==> id == base || (id >= x && id - x in writers)
  }

  /** The version was put where its writer's id says. */
  ghost predicate RightVersions(a: seq<Slot>, x: int, apc: map<nat, AppendPc>) {
    forall s :: s in apc ==> apc[s].ADone? && Has(a, x + s, apc[s].v)
  }

  /**
    Flush completeness: when all cores have finished, every buffer is empty and recorded nowhere, and
    the array of a written row holds the row's last older version and every version of the epoch once each.
   */
  lemma FlushIsComplete(r: Row)
    requires Inv(r) && r.phase.InitPhase? && PhaseDone(r)
    ensures forall c: nat :: c < |r.sh.buffers| ==> r.sh.buffers[c] == [] && c !in r.sh.recorded
    ensures RightVersions(r.sh.slots, Base(r.epoch), r.apc)
    ensures r.apc.Keys != {} ==> RightIds(r.sh.slots, r.base.id, Base(r.epoch), r.apc.Keys)
  {
    hide Inv, Has, HasId, Base, Sorted, PhaseDone;
    BuffersAreEmpty(r);
    NothingRecorded(r);
    forall s | s in r.apc
      ensures r.apc[s].ADone? && Has(r.sh.slots, Base(r.epoch) + s, r.apc[s].v)
    {
      AllInArray(r, s);
    }
    if r.apc.Keys != {} {
      SearchSucceeds(r, 0);
      forall id: int
        ensures HasId(r.sh.slots, id) <==> id == r.base.id || (id >= Base(r.epoch) && id - Base(r.epoch) in r.apc.Keys)
      {
        IdIsRight(r, id);
      }
    }
  }

  lemma NothingRecorded(r: Row)
    requires Inv(r) && r.phase.InitPhase? && PhaseDone(r)
    ensures forall c: nat :: c < |r.sh.buffers| ==> c !in r.sh.recorded
  {
    hide LockOk, OrderOk, OldOk, ContentOk, HandlesOk, HeapOk, ReadersOk;
    forall c: nat | c < |r.sh.buffers|
      ensures c !in r.sh.recorded
    {
      assert IsCore(c);
      assert c in r.fpc;
    }
  }

  lemma IdIsRight(r: Row, id: int)
    requires Inv(r) && r.phase.InitPhase? && PhaseDone(r) && r.apc.Keys != {}
    ensures HasId(r.sh.slots, id) <==> id == r.base.id || (id >= Base(r.epoch) && id - Base(r.epoch) in r.apc.Keys)
  {
    hide Inv, Has, HasId, Base, LowerBound, Sorted, PhaseDone;
    var x := Base(r.epoch);
    InitParts(r);
    hide OldOk;
    var s :| s in r.apc.Keys;
    AllInArray(r, s);
    BaseIsOnlyOld(r.sh.slots, r.sh.heap, x, r.base, x + s, r.apc[s].v, id);
    HasIdIsHas(r.sh.slots, id);
    if id >= x {
      if HasId(r.sh.slots, id) {
        var v: VersionId :| Has(r.sh.slots, id, v);
        SlotEntry(r.sh.slots, r.sh.buffers, r.apc, x, id, v);
      }
      if id - x in r.apc.Keys { AllInArrayById(r, id - x); }
    }
  }

  lemma InitParts(r: Row)
    requires Inv(r)
    ensures OldOk(r.sh.slots, r.sh.heap, Base(r.epoch), r.base)
    ensures ContentOk(r.sh.slots, r.sh.buffers, r.apc, Base(r.epoch))
  {
    hide Shape, LockOk, OrderOk, OldOk, ContentOk, HandlesOk, HeapOk, BuffersOk, ReadersOk;
  }

  /** Once a version of the epoch is in the array, only the last older entry is left. */
  lemma BaseIsOnlyOld(a: seq<Slot>, heap: map<VersionId, Cell>, x: int, base: Slot, newId: int, v: VersionId, id: int)
    requires OldOk(a, heap, x, base) && Has(a, newId, v) && newId >= x
    ensures base.id < x
    ensures id < x ==> (HasId(a, id) <==> id == base.id)
  {
    hide LowerBound, TagOf;
    var i :| 0 <= i < |a| && a[i] == Slot(newId, v);
    assert LowerBound(a, x) <= i;
    LastIsOld(a, x);
    assert a[0] == base;
    if HasId(a, id) && id < x {
      HasIdIsHas(a, id);
      var u: VersionId :| Has(a, id, u);
      OldIsFirst(a, x, id, u);
    }
  }

  lemma {:induction false} SameIdsSameVector(a: seq<Slot>, b: seq<Slot>)
    requires Sorted(a) && Sorted(b) && forall id: int :: HasId(a, id) <==> HasId(b, id)
    ensures |a| == |b| && forall i :: 0 <= i < |a| ==> a[i].id == b[i].id
    decreases |a|
  {
    if a == [] {
      HeadId(b);
    } else {
      assert HasId(a, a[0].id);
      assert b != [] && HasId(b, b[0].id);
      assert a[0].id == b[0].id;
      forall id: int
        ensures HasId(a[1..], id) <==> HasId(b[1..], id)
      {
        IdTail(a, id);
        IdTail(b, id);
        assert HasId(a, id) <==> HasId(b, id);
      }
      SameIdsSameVector(a[1..], b[1..]);
      assert forall i :: 0 < i < |a| ==> a[i] == a[1..][i - 1] && b[i] == b[1..][i - 1];
    }
  }

  lemma HeadId(a: seq<Slot>)
    ensures a != [] ==> HasId(a, a[0].id)
  {
  }

  lemma IdTail(a: seq<Slot>, id: int)
    requires Sorted(a) && a != []
    ensures HasId(a[1..], id) <==> HasId(a, id) && id != a[0].id
  {
    if HasId(a[1..], id) {
      var i :| 0 <= i < |a[1..]| && a[1..][i].id == id;
      assert a[i + 1].id == id;
    }
    if HasId(a, id) && id != a[0].id {
      var i :| 0 <= i < |a| && a[i].id == id;
      assert a[1..][i - 1].id == id;
    }
  }

  /**
    Order independence: however the appends and flushes of the epoch interleave, and whether a flush
    waits for the row's lock or skips the row and comes back, the array ends up the same.
   */
  lemma FlushIsOrderIndependent(r1: Row, r2: Row)
    requires Inv(r1) && r1.phase.InitPhase? && PhaseDone(r1)
    requires Inv(r2) && r2.phase.InitPhase? && PhaseDone(r2)
    requires r1.epoch == r2.epoch && r1.base.id == r2.base.id && r1.apc.Keys == r2.apc.Keys != {}
    ensures |r1.sh.slots| == |r2.sh.slots|
    ensures forall i :: 0 <= i < |r1.sh.slots| ==> r1.sh.slots[i].id == r2.sh.slots[i].id
  {
    hide Inv, HasId, Sorted, Base, RightVersions, PhaseDone;
    FlushIsComplete(r1);
    FlushIsComplete(r2);
    SameIdsSameVector(r1.sh.slots, r2.sh.slots);
  }

  // ---------- conservation ----------

  /**
    At the end of an epoch the live versions are exactly the entries of the array, each once, so that
    creations and deletions differ by the entries beyond the loader's one: nothing is leaked, nothing
    is deleted twice.
   */
  lemma Conservation(r: Row)
    requires Inv(r) && r.phase.ExecPhase?
    ensures forall v :: v in r.sh.heap <==> exists i :: 0 <= i < |r.sh.slots| && r.sh.slots[i].v == v
    ensures forall i, j :: 0 <= i < j < |r.sh.slots| ==> r.sh.slots[i].v != r.sh.slots[j].v
    ensures r.sh.created + 1 - r.sh.deleted == |r.sh.slots|
  {
    hide Inv, LowerBound, Has, Sorted;
    EndHeap(r);
    forall i | 0 <= i < |r.sh.slots|
      ensures r.sh.slots[i].v in r.sh.heap && r.sh.heap[r.sh.slots[i].v].owner == r.sh.slots[i].id
    {
      EntryIsLive(r, r.sh.slots[i].id, r.sh.slots[i].v);
    }
    SearchSucceeds(r, 0);
    DistinctVersions(r.sh.slots, r.sh.heap);
    LiveVersions(r.sh.slots, r.sh.heap);
  }

  lemma DistinctVersions(a: seq<Slot>, heap: map<VersionId, Cell>)
    requires Sorted(a)
    requires forall i :: 0 <= i < |a| ==> a[i].v in heap && heap[a[i].v].owner == a[i].id
    ensures forall i, j :: 0 <= i < j < |a| ==> a[i].v != a[j].v
  {
  }

  lemma LiveVersions(a: seq<Slot>, heap: map<VersionId, Cell>)
    requires forall i :: 0 <= i < |a| ==> a[i].v in heap
    requires forall v :: v in heap ==> Has(a, heap[v].owner, v)
    requires forall i, j :: 0 <= i < j < |a| ==> a[i].v != a[j].v
    ensures forall v :: v in heap <==> exists i :: 0 <= i < |a| && a[i].v == v
    ensures |heap| == |a|
  {
    var vs := EntryVersions(a);
    DistinctCount(vs);
    forall v
      ensures v in AsSet(vs) <==> v in heap
    {
      if v in heap {
        var i :| 0 <= i < |a| && a[i] == Slot(heap[v].owner, v);
        assert vs[i] == v;
      }
    }
    assert AsSet(vs) == heap.Keys;
    forall v | v in heap
      ensures exists i :: 0 <= i < |a| && a[i].v == v
    {
      assert v in vs;
    }
  }

  lemma EntryIsLive(r: Row, id: int, v: VersionId)
    requires Inv(r) && r.phase.ExecPhase? && exists i :: 0 <= i < |r.sh.slots| && r.sh.slots[i] == Slot(id, v)
    ensures v in r.sh.heap && r.sh.heap[v].owner == id
  {
    hide Inv, LowerBound, TagOf, ContentOk, HandlesOk, HeapOk, ReadersOk, Shape, Sorted, Base;
    ExecParts(r);
    assert Has(r.sh.slots, id, v);
    hide Has;
    if id >= Base(r.epoch) {
      SlotEntry(r.sh.slots, r.sh.buffers, r.apc, Base(r.epoch), id, v);
      OwnVersion(r.sh.heap, r.apc, r.wpc, r.epoch, Base(r.epoch), id - Base(r.epoch));
    }
  }
}
