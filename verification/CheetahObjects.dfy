/**
  The objects of the Cheetah protocol with their fields updated in place: `RWLock`, `WriteBitmap` and
  the write-set bookkeeping of a worker.  Each method is proved equal to the uninterrupted run of the
  steps that the transition system of `CheetahRow` takes for it.
 */
module CheetahObjects {
  import opened Bits
  import opened TwoLevelBitmap
  import opened Versions
  import opened Workload
  import opened CheetahRow
  import opened CheetahInvariant
  import opened CheetahSystem

  /** protocols/common/readwritelock.hpp, exclusive mode. */
  class RWLock {
    var cnt: int

    constructor ()
      ensures cnt == 0
    {
      cnt := 0;
    }

    method TryLock() returns (ok: bool)
      modifies this
      ensures ok <==> old(cnt) == 0
      ensures cnt == if ok then -1 else old(cnt)
    {
      var expected := cnt;
      if expected == 0 {
        cnt := -1;
        return true;
      } else {
        return false;
      }
    }

    /** The retry loop ends at once when the lock is free; it is what waiting looks like otherwise. */
    method Lock()
      requires cnt == 0
      modifies this
      ensures cnt == -1
    {
      cnt := -1;
    }

    method Unlock()
      modifies this
      ensures cnt == old(cnt) + 1
    {
      cnt := cnt + 1;
    }
  }

  // ---------- uninterrupted runs ----------

  /** append_pending_version, first part: the reader counts itself. */
  function CountAlone(s: nat, sh: Shared): Shared {
    var (sh0, pc0) := ReaderStep(s, RFetchAdd, sh);
    if pc0.RSecondAdd? then ReaderStep(s, pc0, sh0).0 else sh0
  }

  /** append_pending_version, second part: from the lookup to the step that hands out the version. */
  function LookupAlone(s: nat, sh: Shared): (Shared, ReaderPc) {
    var (sh2, pc2) := ReaderStep(s, RLookup, sh);
    if pc2.RLock? then PlaceAlone(s, pc2.id, sh2) else (sh2, pc2)
  }

  /** The part of append_pending_version that is atomic under the lock. */
  function PlaceAlone(s: nat, id: nat, sh: Shared): (Shared, ReaderPc) {
    var (sh3, pc3) := ReaderStep(s, RLock(id), sh);
    var (sh4, pc4) := ReaderStep(s, pc3, sh3);
    ReaderStep(s, pc4, sh4)
  }

  /** decrement_ref_cnt. */
  function DecrementAlone(s: nat, sh: Shared): Shared {
    var (sh0, pc0) := ReaderStep(s, RRead(0, None), sh);
    if pc0.RFinalLock? then
      var (sh1, pc1) := ReaderStep(s, pc0, sh0);
      var (sh2, pc2) := ReaderStep(s, pc1, sh1);
      var (sh3, pc3) := ReaderStep(s, pc2, sh2);
      var (sh4, pc4) := ReaderStep(s, pc3, sh3);
      ReaderStep(s, pc4, sh4).0
    else sh0
  }

  /** identify_write_version. */
  function IdentifyAlone(s: nat, sh: Shared): (Shared, Option<VersionId>) {
    var (sh0, pc0) := WriterStep(0, s, WLock, sh);
    var (sh1, pc1) := WriterStep(0, s, pc0, sh0);
    if pc1.WLoadRef? then
      var (sh2, pc2) := WriterStep(0, s, pc1, sh1);
      var (sh3, pc3) := WriterStep(0, s, pc2, sh2);
      var (sh4, pc4) := WriterStep(0, s, pc3, sh3);
      (WriterStep(0, s, pc4, sh4).0, Local(pc1))
    else (WriterStep(0, s, pc1, sh1).0, if pc1.WUnlock? then pc1.res else None)
  }

  /**
    What append_pending_version does to the memory of the row and what it hands out: the placeholder
    of the greatest smaller write, created PENDING when nobody has asked for it yet, or else the master version.
   */
  ghost predicate HandsOut(was: Memory, s: nat, now: Memory, v: VersionId)
    requires WellFormed(was.bits)
  {
    match Visible(Serials(ToMap(was.bits)), s)
    case None => was.master == Some(v) && now == was
    case Some(k) =>
      if k in was.placeholders then v == was.placeholders[k] && now == was
      else
        && v == was.created + 1
        && now == was.(placeholders := was.placeholders[k := v],
                       heap := was.heap[v := Version(None, Pending)],
                       created := was.created + 1)
  }

  /**
    What identify_write_version does and returns: the epoch's greatest write installs its version and frees
    the old master version, or leaves it to the last reader while somebody is counted; every other
    write leaves the row alone and gets a version only when somebody has asked for it.
   */
  ghost predicate Identifies(was: Memory, refCnt: int, s: nat, now: Memory, v: Option<VersionId>)
    requires WellFormed(was.bits)
  {
    var asked := s in was.placeholders;
    if IsMaxBelow(s, Serials(ToMap(was.bits)), EPOCH_SIZE) then
      var id := if asked then was.placeholders[s] else was.created + 1;
      var heap := if asked then was.heap else was.heap[id := Version(None, Pending)];
      && (refCnt == 0 ==> was.master.Some?)
      && v == Some(id)
      && now == Memory(
           EMPTY,
           was.placeholders - {s},
           Some(id),
           if refCnt == 0 then was.previous else was.master,
           if refCnt == 0 then heap - {was.master.value} else heap,
           if asked then was.created else was.created + 1,
           if refCnt == 0 then was.deleted + 1 else was.deleted)
    else
      now == was && v == if asked then Some(was.placeholders[s]) else None
  }

  /** What the last reader leaves: neither placeholders nor the previous master version, all of them freed. */
  ghost predicate LeavesClean(was: Memory, now: Memory) {
    now == was.(
      placeholders := map[],
      previous := None,
      heap := (if was.previous.Some? then was.heap - {was.previous.value} else was.heap) - was.placeholders.Values,
      deleted := was.deleted + (if was.previous.Some? then 1 else 0) + |was.placeholders|)
  }

  /** protocols/cheetah/include/rw_bitmaps.hpp, with the heap of versions and the Create/Delete counters. */
  class WriteBitmap {
    var refCnt: int
    const lock: RWLock
    var coreBitmap: Word
    var txBitmaps: seq<Word>
    var placeholders: map<nat, VersionId>
    var master: Option<VersionId>
    var previousMaster: Option<VersionId>
    var heap: map<VersionId, Version>
    var created: nat
    var deleted: nat

    function Mem(): Memory
      reads this
    {
      Memory(TwoLevel(coreBitmap, txBitmaps), placeholders, master, previousMaster, heap, created, deleted)
    }

    function State(): Shared
      reads this, lock
    {
      Shared(refCnt, lock.cnt, Mem(), false, None)
    }

    /** The row as the loader creates it. */
    constructor ()
      ensures fresh(lock) && State() == Initial(Work(map[], {})).sh
    {
      refCnt := 0;
      lock := new RWLock();
      coreBitmap, txBitmaps := Zero(), [];
      placeholders := map[];
      master, previousMaster := Some(0), None;
      heap := map[0 := Version(Some(Loaded), Stable)];
      created, deleted := 0, 0;
    }

    /** write phase: called with the lock held */
    method UpdateBitmap(core: nat, txBitmap: Word)
      requires core < WIDTH && !IsBitSet(coreBitmap, core) && txBitmap != Zero() && WellFormed(Mem().bits)
      modifies this
      ensures WellFormed(Mem().bits) && WellFormed(old(Mem()).bits)
      ensures ToMap(Mem().bits) == ToMap(old(Mem()).bits)[core := txBitmap]
      ensures (State(), CUnlock) == CoreStep(core, txBitmap, CUpdate, old(State()))
    {
      InsertionPointInBounds(Mem().bits, core);
      UpdateRefinesMapUpdate(Mem().bits, core, txBitmap);
      var insertPos := CountPrefixSum(TwoLevel(coreBitmap, txBitmaps), core);
      txBitmaps := txBitmaps[..insertPos] + [txBitmap] + txBitmaps[insertPos..];
      coreBitmap := SetBit(coreBitmap, core);
    }

    method CreatePendingVersion() returns (v: VersionId)
      modifies this
      ensures Mem() == Create(old(Mem())) && v == NewId(old(Mem())) && refCnt == old(refCnt)
    {
      v := created + 1;
      heap := heap[v := Version(None, Pending)];
      created := created + 1;
    }

    /** gc: the version must be there and STABLE */
    method Gc(v: VersionId)
      requires IsStable(Mem(), v)
      modifies this
      ensures Mem() == Free(old(Mem()), v) && refCnt == old(refCnt)
    {
      heap := heap - {v};
      deleted := deleted + 1;
    }

    /** read phase */
    method AppendPendingVersion(core: nat, tx: nat) returns (v: VersionId)
      requires core < WIDTH && tx < WIDTH && lock.cnt == 0 && WellFormed(Mem().bits)
      requires !LookupAlone(core * WIDTH + tx, State()).0.fault
      modifies this, lock
      ensures refCnt == (if old(refCnt) == 0 then 2 else old(refCnt) + 1) && lock.cnt == 0
      ensures WellFormed(old(Mem()).bits) && HandsOut(old(Mem()), core * WIDTH + tx, Mem(), v)
      ensures (State(), RReady(v)) == LookupAlone(core * WIDTH + tx, CountAlone(core * WIDTH + tx, old(State())))
    {
      hide LookupAlone, CountAlone, HandsOut, WellFormed;
      CountIgnoresMemory(core * WIDTH + tx, State());
      CountReader(core * WIDTH + tx);
      v := LookUp(core, tx);
    }

    method CountReader(ghost s: nat)
      modifies this`refCnt
      ensures refCnt == if old(refCnt) == 0 then 2 else old(refCnt) + 1
      ensures State() == CountAlone(s, old(State()))
    {
      var oldRefCnt := refCnt;
      refCnt := refCnt + 1;
      if oldRefCnt == 0 {
        refCnt := refCnt + 1;
      }
    }

    method LookUp(core: nat, tx: nat) returns (v: VersionId)
      requires core < WIDTH && tx < WIDTH && lock.cnt == 0 && WellFormed(Mem().bits)
      requires !LookupAlone(core * WIDTH + tx, State()).0.fault
      modifies this, lock
      ensures refCnt == old(refCnt) && lock.cnt == 0
      ensures WellFormed(old(Mem()).bits) && HandsOut(old(Mem()), core * WIDTH + tx, Mem(), v)
      ensures (State(), RReady(v)) == LookupAlone(core * WIDTH + tx, old(State()))
    {
      hide WellFormed, IdentifyVisible, PlaceAlone, LookupAlone, Visible, Serials, ToMap;
      SerialAddress(core, tx);
      VisibleIsFound(Mem().bits, core, tx);
      LookupResult(core * WIDTH + tx, State());
      if coreBitmap != Zero() {
        var (isFound, visibleCore, visibleTx) := IdentifyVisible(TwoLevel(coreBitmap, txBitmaps), core, tx);
        if isFound {
          v := TakePlaceholder(visibleCore * WIDTH + visibleTx, core * WIDTH + tx);
          return;
        }
      }
      v := master.value;
    }

    /** The atomic part of append_pending_version: find the placeholder or create it, under the lock. */
    method TakePlaceholder(visibleId: nat, ghost s: nat) returns (v: VersionId)
      requires lock.cnt == 0
      modifies this, lock
      ensures refCnt == old(refCnt) && lock.cnt == 0
      ensures visibleId in old(placeholders) ==> Mem() == old(Mem()) && v == old(placeholders)[visibleId]
      ensures visibleId !in old(placeholders) ==>
        && v == old(created) + 1
        && Mem() == old(Mem()).(placeholders := old(placeholders)[visibleId := v],
                                heap := old(heap)[v := Version(None, Pending)],
                                created := old(created) + 1)
      ensures (State(), RReady(v)) == PlaceAlone(s, visibleId, old(State()))
    {
      lock.Lock();
      if visibleId in placeholders {
        v := placeholders[visibleId];
      } else {
        v := CreatePendingVersion();
        placeholders := placeholders[visibleId := v];
      }
      lock.Unlock();
    }

    /** Frees every placeholder, one after the other, and clears the map. */
    method GcPlaceholders()
      requires CanFreePlaceholders(Mem())
      modifies this
      ensures Mem() == FreePlaceholders(old(Mem())) && refCnt == old(refCnt)
    {
      hide CanFreePlaceholders, FreePlaceholders, IsStable, Free, Freeing, Freed;
      var todo := placeholders;
      ghost var was := Mem();
      ghost var gone: set<VersionId> := {};
      FreeingStarts(was);
      while todo != map[]
        invariant Freeing(was, gone, todo)
        invariant refCnt == old(refCnt) && Mem() == Freed(was, gone)
        decreases |todo|
      {
        var id :| id in todo;
        FreedOne(was, gone, todo, id);
        Gc(todo[id]);
        gone := gone + {todo[id]};
        todo := todo - {id};
      }
      FreedAll(was, gone);
      placeholders := map[];
    }

    /** execution phase, reader: the last one out frees what the writer has left behind */
    method DecrementRefCnt(ghost s: nat)
      requires lock.cnt == 0 && !DecrementAlone(s, State()).fault
      modifies this, lock
      ensures refCnt == (if old(refCnt) == 2 then 0 else old(refCnt) - 1) && lock.cnt == 0
      ensures if old(refCnt) == 2 then LeavesClean(old(Mem()), Mem()) else Mem() == old(Mem())
      ensures State() == DecrementAlone(s, old(State()))
    {
      hide CanFreePlaceholders, FreePlaceholders, IsStable, Free, DecrementAlone, LeavesClean;
      DecrementNeeds(s, State());
      FreeLastLeavesClean(Mem());
      refCnt := refCnt - 1;
      if refCnt == 1 {
        lock.Lock();
        FreeLastVersions();
        refCnt := refCnt - 1;
        lock.Unlock();
      }
    }

    /** The part of decrement_ref_cnt under the lock, up to the second subtraction. */
    method FreeLastVersions()
      requires CanFreeLast(Mem())
      modifies this
      ensures Mem() == FreeLast(old(Mem())) && refCnt == old(refCnt)
    {
      hide CanFreePlaceholders, FreePlaceholders, IsStable, Free;
      if previousMaster.Some? {
        Gc(previousMaster.value);
        previousMaster := None;
      }
      GcPlaceholders();
    }

    /** execution phase, writer: who it writes for, if anybody; the final writer installs the new master version */
    method IdentifyWriteVersion(core: nat, tx: nat) returns (v: Option<VersionId>)
      requires core < WIDTH && tx < WIDTH && lock.cnt == 0 && WellFormed(Mem().bits)
      requires !IdentifyAlone(core * WIDTH + tx, State()).0.fault
      modifies this, lock
      ensures refCnt == old(refCnt) && lock.cnt == 0
      ensures WellFormed(old(Mem()).bits) && Identifies(old(Mem()), old(refCnt), core * WIDTH + tx, Mem(), v)
      ensures (State(), v) == IdentifyAlone(core * WIDTH + tx, old(State()))
    {
      hide WellFormed, IsFinalState, IdentifyAlone, IsStable, Free, Identifies;
      var id := core * WIDTH + tx;
      SerialAddress(core, tx);
      IdentifyNeeds(id, State());
      IdentifyAloneIdentifies(id, State());
      lock.Lock();
      if IsFinalState(TwoLevel(coreBitmap, txBitmaps), core, tx) {
        var version: VersionId;
        if id in placeholders {
          version := placeholders[id];
          placeholders := placeholders - {id};
        } else {
          version := CreatePendingVersion();
        }
        if refCnt == 0 {
          Gc(master.value);
          master := None;
        } else {
          previousMaster := master;
        }
        master := Some(version);
        coreBitmap, txBitmaps := Zero(), [];
        v := Some(version);
      } else {
        v := if id in placeholders then Some(placeholders[id]) else None;
      }
      lock.Unlock();
    }

    /** upsert, the two stores into the version that was identified */
    method Store(epoch: nat, serial: nat, v: VersionId)
      requires v in heap
      modifies this`heap
      ensures var (sh, pc) := WriterStep(epoch, serial, WStoreRec(v), old(State()));
        State() == WriterStep(epoch, serial, pc, sh).0
    {
      heap := heap[v := heap[v].(rec := Some(Written(epoch, serial)))];
      heap := heap[v := heap[v].(status := Stable)];
    }
  }

  predicate CanFreeLast(mem: Memory) {
    && (mem.previous.Some? ==> IsStable(mem, mem.previous.value) && mem.master.Some?)
    && CanFreePlaceholders(if mem.previous.Some? then Free(mem, mem.previous.value).(previous := None) else mem)
  }

  function FreeLast(mem: Memory): Memory {
    FreePlaceholders(if mem.previous.Some? then Free(mem, mem.previous.value).(previous := None) else mem)
  }

  /** What decrement_ref_cnt does when none of its assertions fails. */
  lemma DecrementNeeds(s: nat, sh: Shared)
    requires !DecrementAlone(s, sh).fault && sh.cnt == 0 && !sh.fault
    ensures 0 < sh.refCnt
    ensures sh.refCnt - 1 != 1 ==> DecrementAlone(s, sh) == sh.(refCnt := sh.refCnt - 1)
    ensures sh.refCnt - 1 == 1 ==> CanFreeLast(sh.mem) && FreeLast(sh.mem).placeholders == map[]
    ensures sh.refCnt - 1 == 1 ==> DecrementAlone(s, sh) == sh.(refCnt := 0, mem := FreeLast(sh.mem), holder := None)
  {
    hide CanFreePlaceholders, IsStable, Free;
  }

  lemma FreeLastLeavesClean(mem: Memory)
    ensures LeavesClean(mem, FreeLast(mem))
  {
  }

  lemma IdentifyAloneIdentifies(s: nat, sh: Shared)
    requires !IdentifyAlone(s, sh).0.fault && sh.cnt == 0 && s < EPOCH_SIZE && WellFormed(sh.mem.bits) && !sh.fault
    ensures Identifies(sh.mem, sh.refCnt, s, IdentifyAlone(s, sh).0.mem, IdentifyAlone(s, sh).1)
  {
    hide WellFormed, IsFinalState, IsStable, IdentifyAlone, Serials, ToMap;
    IdentifyNeeds(s, sh);
    IsFinalStateIsGreatest(sh.mem.bits, s / WIDTH, s % WIDTH);
    assert s !in sh.mem.placeholders ==> sh.mem.placeholders - {s} == sh.mem.placeholders;
  }

  /** What identify_write_version does when none of its assertions fails. */
  lemma IdentifyNeeds(s: nat, sh: Shared)
    requires !IdentifyAlone(s, sh).0.fault && sh.cnt == 0 && s < EPOCH_SIZE && WellFormed(sh.mem.bits) && !sh.fault
    ensures var mem := sh.mem;
      if IsFinalState(mem.bits, s / WIDTH, s % WIDTH) then
        var v := if s in mem.placeholders then mem.placeholders[s] else NewId(mem);
        var mem1 := if s in mem.placeholders then mem.(placeholders := mem.placeholders - {s}) else Create(mem);
        && (sh.refCnt == 0 ==> mem1.master.Some? && IsStable(mem1, mem1.master.value))
        && var mem2 := if sh.refCnt == 0 then Free(mem1, mem1.master.value).(master := None) else mem1.(previous := mem1.master);
        IdentifyAlone(s, sh) == (sh.(mem := mem2.(master := Some(v), bits := EMPTY), holder := None), Some(v))
      else
        IdentifyAlone(s, sh) == (sh.(holder := None), if s in mem.placeholders then Some(mem.placeholders[s]) else None)
  {
    hide WellFormed, IsFinalState, IsStable, Free;
  }

  /** `gone` has been freed and `todo` is still to be freed. */
  ghost predicate Freeing(was: Memory, gone: set<VersionId>, todo: map<nat, VersionId>) {
    && CanFreePlaceholders(was)
    && |todo.Values| == |todo|
    && todo.Values == was.placeholders.Values - gone
    && gone <= was.placeholders.Values
    && |gone| == |was.placeholders| - |todo|
  }

  ghost function Freed(was: Memory, gone: set<VersionId>): Memory {
    was.(heap := was.heap - gone, deleted := was.deleted + |gone|)
  }

  lemma FreeingStarts(was: Memory)
    requires CanFreePlaceholders(was)
    ensures Freeing(was, {}, was.placeholders) && Freed(was, {}) == was
  {
    assert was.heap - {} == was.heap;
    assert was.placeholders.Values - {} == was.placeholders.Values;
  }

  /** One more placeholder is freed: it is still live and STABLE. */
  lemma FreedOne(was: Memory, gone: set<VersionId>, todo: map<nat, VersionId>, id: nat)
    requires Freeing(was, gone, todo) && id in todo
    ensures IsStable(Freed(was, gone), todo[id])
    ensures Freeing(was, gone + {todo[id]}, todo - {id}) && |todo - {id}| < |todo|
    ensures Free(Freed(was, gone), todo[id]) == Freed(was, gone + {todo[id]})
  {
    RemoveOne(todo, id);
    assert todo[id] in todo.Values;
    StableValue(was, todo[id]);
    assert was.heap - gone - {todo[id]} == was.heap - (gone + {todo[id]});
  }

  lemma FreedAll(was: Memory, gone: set<VersionId>)
    requires Freeing(was, gone, map[])
    ensures Freed(was, gone).(placeholders := map[]) == FreePlaceholders(was)
  {
    var none: map<nat, VersionId> := map[];
    assert none.Values == {};
    forall v | v in was.placeholders.Values ensures v in gone {
      assert v !in was.placeholders.Values - gone;
    }
    assert gone == was.placeholders.Values;
  }

  lemma StableValue(mem: Memory, v: VersionId)
    requires CanFreePlaceholders(mem) && v in mem.placeholders.Values
    ensures IsStable(mem, v)
  {
  }

  /** The search of the bitmaps finds what the read must see, or nothing when it must see the master version. */
  lemma VisibleIsFound(b: TwoLevel, core: nat, tx: nat)
    requires WellFormed(b) && core < WIDTH && tx < WIDTH
    ensures Visible(Serials(ToMap(b)), core * WIDTH + tx) ==
      if b.core != Zero() && IdentifyVisible(b, core, tx).0
      then Some(IdentifyVisible(b, core, tx).1 * WIDTH + IdentifyVisible(b, core, tx).2)
      else None
  {
    hide WellFormed, IdentifyVisible, Serials;
    if b.core == Zero() {
      NoCoreNoSerial(b);
    } else {
      IdentifyVisibleIsMaxBelow(b, core, tx);
      var (found, c, t) := IdentifyVisible(b, core, tx);
      if found {
        VisibleIsUnique(Serials(ToMap(b)), core * WIDTH + tx, c * WIDTH + t);
      }
    }
  }

  lemma NoCoreNoSerial(b: TwoLevel)
    requires WellFormed(b) && b.core == Zero()
    ensures Serials(ToMap(b)) == {}
  {
    hide WellFormed;
    NonZeroHasPosition(b.core);
    assert ToMap(b).Keys == {};
  }

  /** The first reader counts for two, so that the counter falls to one and not to zero when all have left. */
  lemma CountIgnoresMemory(s: nat, sh: Shared)
    ensures CountAlone(s, sh) == sh.(refCnt := if sh.refCnt == 0 then 2 else sh.refCnt + 1)
    ensures LookupAlone(s, CountAlone(s, sh)).0.fault == LookupAlone(s, sh).0.fault
  {
    hide IdentifyVisible, WellFormed, IsStable;
  }

  /** What the lookup leads to when no assertion of the source fails. */
  lemma LookupResult(s: nat, sh: Shared)
    requires WellFormed(sh.mem.bits) && s < EPOCH_SIZE && !LookupAlone(s, sh).0.fault
    ensures
      if sh.mem.bits.core != Zero() && IdentifyVisible(sh.mem.bits, s / WIDTH, s % WIDTH).0 then
        var (_, c, t) := IdentifyVisible(sh.mem.bits, s / WIDTH, s % WIDTH);
        LookupAlone(s, sh) == PlaceAlone(s, c * WIDTH + t, sh)
      else sh.mem.master.Some? && LookupAlone(s, sh) == (sh, RReady(sh.mem.master.value))
  {
    hide WellFormed, IdentifyVisible, PlaceAlone;
  }

  lemma RemoveOne(m: map<nat, VersionId>, id: nat)
    requires id in m && |m.Values| == |m|
    ensures var rest := m - {id};
      m[id] !in rest.Values && m.Values == rest.Values + {m[id]} && |rest| == |m| - 1 && |rest.Values| == |rest|
  {
    var rest := m - {id};
    assert m.Keys == rest.Keys + {id};
    forall x | x in m.Values ensures x in rest.Values + {m[id]} {
      var j :| j in m && m[j] == x;
      assert j != id ==> j in rest && rest[j] == x;
    }
    forall x | x in rest.Values ensures x in m.Values {
      var j :| j in rest && rest[j] == x;
      assert m[j] == x;
    }
    ValuesAtMost(rest);
    assert m.Values == rest.Values + {m[id]};
  }

  lemma {:induction false} ValuesAtMost<K, V>(m: map<K, V>)
    ensures |m.Values| <= |m|
    decreases |m|
  {
    if m == map[] {
      assert m.Values == {};
    } else {
      var k :| k in m;
      var rest := m - {k};
      ValuesAtMost(rest);
      assert m.Keys == rest.Keys + {k};
      assert m.Values <= rest.Values + {m[k]} by {
        forall x | x in m.Values ensures x in rest.Values + {m[k]} {
          var j :| j in m && m[j] == x;
          assert j != k ==> j in rest && rest[j] == x;
        }
      }
      SubsetCard(m.Values, rest.Values + {m[k]});
    }
  }

  lemma {:induction false} SubsetCard<T>(a: set<T>, b: set<T>)
    requires a <= b
    ensures |a| <= |b|
  {
    if a != {} {
      var x :| x in a;
      SubsetCard(a - {x}, b - {x});
    }
  }
}
