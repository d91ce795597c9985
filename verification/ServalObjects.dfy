/**
  The objects of the Serval protocol with their fields updated in place: a row with its global array, its
  region and its master version.  Each method is proved equal to the functions that the transition system
  of `ServalRow` uses for it.
 */
module ServalObjects {
  import opened Bits
  import opened TwoLevelBitmap
  import opened Versions
  import opened SortedSlots
  import opened ServalRegion
  import opened ServalRow
  import opened ServalInvariant
  import opened ServalRoutes

  /** protocols/serval/include/value.hpp and protocols/serval/include/row_region.hpp, with the heap of versions. */
  class Value {
    var cnt: int
    var epoch: nat
    var master: VersionId
    var idsSlots: seq<Slot>
    var region: Option<Region>
    var heap: map<VersionId, Cell>
    var created: nat
    var deleted: nat

    /** The row as the transition system has it, but for the history variables. */
    function State(): Shared
      reads this
    {
      Shared(cnt, epoch, master, idsSlots, region, heap, created, deleted, false, None, 0, {}, false)
    }

    /** The row as the loader creates it. */
    constructor ()
      ensures State() == LoadedRow()
    {
      cnt, epoch, master, idsSlots, region := 0, 0, 0, [Slot(-1, 1)], None;
      heap := map[0 := Cell(Some(Loaded), Stable, LoadedMaster), 1 := Cell(Some(Loaded), Stable, LoadedEntry)];
      created, deleted := 0, 0;
    }

    method CreatePendingVersion(owner: Owner) returns (v: VersionId)
      modifies this`heap, this`created
      ensures State() == Create(old(State()), owner) && v == NewId(old(State()))
    {
      v := created + 2;
      heap := heap[v := Cell(None, Pending, owner)];
      created := created + 1;
    }

    /** minor_gc of either array: deletes the versions one after the other. */
    method MinorGc(vs: seq<VersionId>)
      requires CanFree(State(), vs)
      modifies this`heap, this`deleted
      ensures State() == Free(old(State()), vs)
    {
      var i := 0;
      assert AsSet(vs[..0]) == {};
      while i < |vs|
        invariant 0 <= i <= |vs|
        invariant heap == old(heap) - AsSet(vs[..i]) && deleted == old(deleted) + i
      {
        assert vs[i] in vs && vs[i] in heap;
        assert AsSet(vs[..i + 1]) == AsSet(vs[..i]) + {vs[i]};
        assert old(heap) - AsSet(vs[..i]) - {vs[i]} == old(heap) - AsSet(vs[..i + 1]);
        heap := heap - {vs[i]};
        deleted := deleted + 1;
        i := i + 1;
      }
      assert vs[..i] == vs;
    }

    /** gc_master_version */
    method GcMasterVersion(latest: VersionId)
      requires CanFree(State(), [master])
      modifies this`heap, this`deleted, this`master
      ensures State() == Free(old(State()), [old(master)]).(master := latest)
    {
      MinorGc([master]);
      master := latest;
    }

    /** initialize_the_row */
    method InitializeTheRow(newEpoch: nat)
      requires !Initialize(State()).fault
      modifies this
      ensures State() == Initialize(old(State())).(epoch := newEpoch, inits := 0)
    {
      if idsSlots != [] {
        var latest := idsSlots[|idsSlots| - 1];
        var rest := idsSlots[..|idsSlots| - 1];
        var vs := EntryVersions(rest);
        SplitFree(State(), vs, master);
        MinorGc(vs);
        idsSlots := [];
        GcMasterVersion(latest.v);
      } else if region.Some? && region.value.core != Zero() {
        var g := region.value;
        LargestIsMax(g.core);
        var core := FindLargest(g.core);
        var a := g.arrays[core];
        var latest := a.slots[|a.slots| - 1];
        SplitFree(State(), [], master);
        region := Some(Region(Zero(), g.arrays[core := PerCore(a.bits, a.slots[..|a.slots| - 1])]));
        GcMasterVersion(latest);
      }
      epoch := newEpoch;
    }

    /** GlobalVersionArray::append */
    method AppendToGlobalArray(v: VersionId, serial: int)
      modifies this`idsSlots
      ensures idsSlots == Insert(old(idsSlots), Slot(serial, v))
    {
      var it := LowerBound(idsSlots, serial + 1);
      idsSlots := idsSlots[..it] + [Slot(serial, v)] + idsSlots[it..];
    }

    /** GlobalVersionArray::search_visible_version */
    method SearchVisibleVersion(serial: int) returns (found: bool, id: int, v: VersionId)
      requires Sorted(idsSlots)
      ensures found ==> IsVisible(idsSlots, serial, id, v)
      ensures !found ==> forall id: int :: HasId(idsSlots, id) ==> serial <= id
    {
      SearchFindsVisible(idsSlots, serial);
      if idsSlots == [] || serial <= idsSlots[0].id {
        if idsSlots != [] { FirstIsVisible(idsSlots, serial); }
        return false, 0, 0;
      }
      FirstIsVisible(idsSlots, serial);
      var it := LowerBound(idsSlots, serial) - 1;
      return true, idsSlots[it].id, idsSlots[it].v;
    }

    /** move_global_array_to_row_region, into a fresh region */
    method MoveGlobalArrayToRowRegion()
      requires region.None? && Movable(idsSlots, FreshRegion())
      modifies this`idsSlots, this`region
      ensures State() == old(State()).(region := Some(Move(old(idsSlots), FreshRegion())), slots := [])
    {
      hide Move, Movable;
      var g := FreshRegion();
      var todo := idsSlots;
      ghost var all := idsSlots;
      while todo != []
        invariant Movable(todo, g) && Movable(all, FreshRegion()) && Move(todo, g) == Move(all, FreshRegion())
        decreases |todo|
      {
        MoveOne(todo, g);
        MovableArrays(todo, g);
        MoveUnfolds(todo, g);
        g := RegionAppend(g, todo[0].id / WIDTH, todo[0].v, todo[0].id % WIDTH);
        todo := todo[1..];
      }
      MoveEnds(g);
      idsSlots := [];
      region := Some(g);
    }

    /** RowRegion::append, the part for a core's first write in the epoch */
    method EmptyArrayAndSetCoreBit(core: nat)
      requires core < WIDTH && region.Some? && |region.value.arrays| == WIDTH
      requires CanFree(State(), region.value.arrays[core].slots)
      modifies this`heap, this`deleted, this`region
      ensures State() == FirstWrite(core, old(State()))
    {
      var g := region.value;
      MinorGc(g.arrays[core].slots);
      g := g.(arrays := g.arrays[core := EmptyArray()]);
      region := Some(g.(core := SetBit(g.core, core)));
    }

    /** RowRegion::append, the part on the core's own array, with the fresh version */
    method InsertVersion(epoch: nat, serial: nat) returns (v: VersionId)
      requires serial < EPOCH_SIZE && !InsertIntoRegion(State(), epoch, serial).fault
      modifies this`heap, this`created, this`region
      ensures State() == InsertIntoRegion(old(State()), epoch, serial) && v == NewId(old(State()))
    {
      hide Append, CountBits, IsBitSet;
      var core, tx := serial / WIDTH, serial % WIDTH;
      v := CreatePendingVersion(By(epoch, serial));
      var g := region.value;
      region := Some(g.(arrays := g.arrays[core := Append(g.arrays[core], v, tx)]));
    }

    /** RowRegion::append of a fresh version by the core's own thread, from the load of the core bitmap on */
    method AppendToRegion(epoch: nat, serial: nat) returns (v: VersionId)
      requires serial < EPOCH_SIZE && region.Some? && |region.value.arrays| == WIDTH
      requires !RegionAlone(epoch, serial, State()).fault
      modifies this
      ensures State() == RegionAlone(epoch, serial, old(State())) && v == NewId(old(State()))
    {
      hide FirstWrite, InsertIntoRegion, IsBitSet, CanFree;
      var core := serial / WIDTH;
      if !IsBitSet(region.value.core, core) {
        FirstWriteFrees(State(), epoch, serial);
        EmptyArrayAndSetCoreBit(core);
      }
      v := InsertVersion(epoch, serial);
    }

    /**
      do_append_pending_version of source epoch `e + 1`, on a row whose lock is free or which has a region: the first
      append of the epoch initializes the row; then the version goes to the global array when the lock is free and the
      row has no region, and else to the core's own array in the region.
     */
    method DoAppendPendingVersion(e: nat, serial: nat) returns (v: VersionId)
      requires serial < EPOCH_SIZE && ArraysFit(State()) && epoch <= e + 1
      requires cnt != 0 ==> epoch == e + 1 && region.Some?
      requires epoch < e + 1 ==> !Initialize(State()).fault
      requires var g := Ready(State(), e);
        ArraysFit(g) && (g.region.Some? ==> !RegionAlone(e, serial, g).fault)
      modifies this
      ensures ArraysFit(Ready(old(State()), e))
      ensures var g := Ready(old(State()), e);
        && v == g.created + 2
        && State() == if old(cnt) == 0 && g.region.None? then InArray(g, e, serial) else RegionAlone(e, serial, g)
    {
      hide Initialize, RegionAlone, Insert;
      ghost var was := State();
      if epoch < e + 1 {
        cnt := -1;
        InitializeAt(was, -1, None);
        InitializeTheRow(e + 1);
        cnt := cnt + 1;
      }
      ghost var g := Ready(was, e);
      assert State() == g;
      if cnt == 0 {
        cnt := -1;
        if region.Some? {
          RegionAloneAt(e, serial, g, -1, None);
          v := AppendToRegion(e, serial);
        } else {
          v := CreatePendingVersion(By(e, serial));
          AppendToGlobalArray(v, serial);
        }
        cnt := cnt + 1;
      } else {
        v := AppendToRegion(e, serial);
      }
    }

    /** wait_region_installation, when the lock is free or somebody else has installed a region */
    method WaitRegionInstallation()
      requires region.Some? || (cnt == 0 && Movable(idsSlots, FreshRegion()))
      modifies this
      ensures region.Some?
      ensures old(region).None? ==> Movable(old(idsSlots), FreshRegion())
      ensures State() == if old(region).Some? then old(State()) else Moved(old(State()))
    {
      hide ServalRegion.Move, Movable;
      if region.None? {
        cnt := -1;
        MoveGlobalArrayToRowRegion();
        cnt := cnt + 1;
      }
    }
  }

  /** The row as the epoch guard leaves it: initialized and published, whoever has done it. */
  function Ready(sh: Shared, e: nat): Shared {
    if sh.epoch < e + 1 then Published(sh, e).(inits := 0) else sh
  }

  lemma FirstWriteFrees(sh: Shared, epoch: nat, s: nat)
    requires s < EPOCH_SIZE && sh.region.Some? && |sh.region.value.arrays| == WIDTH
    requires !IsBitSet(sh.region.value.core, s / WIDTH) && !RegionAlone(epoch, s, sh).fault
    ensures CanFree(sh, sh.region.value.arrays[s / WIDTH].slots)
    ensures var sh' := FirstWrite(s / WIDTH, sh);
      !InsertIntoRegion(sh', epoch, s).fault && NewId(sh') == NewId(sh)
  {
    hide IsBitSet, SetBit, CountBits, CanFree, Append;
  }

  /** Freeing the entries and then the master version is freeing them all. */
  lemma SplitFree(sh: Shared, vs: seq<VersionId>, master: VersionId)
    requires CanFree(sh, vs + [master])
    ensures CanFree(sh, vs) && CanFree(Free(sh, vs), [master])
    ensures Free(Free(sh, vs), [master]) == Free(sh, vs + [master])
  {
    var all := vs + [master];
    assert all[|vs|] == master;
    assert forall i :: 0 <= i < |vs| ==> all[i] == vs[i];
    assert forall v :: v in vs ==> v in all;
    assert master !in vs;
    assert AsSet(all) == AsSet(vs) + {master} && AsSet([master]) == {master};
    assert sh.heap - AsSet(vs) - {master} == sh.heap - AsSet(all);
  }

  lemma MoveUnfolds(a: seq<Slot>, g: Region)
    requires Movable(a, g) && a != []
    ensures |g.arrays| == WIDTH && 0 <= a[0].id < EPOCH_SIZE && a[0].id / WIDTH < WIDTH
    ensures IsBitSet(g.core, a[0].id / WIDTH) ==> CountBits(g.arrays[a[0].id / WIDTH].bits) <= |g.arrays[a[0].id / WIDTH].slots|
    ensures Movable(a[1..], RegionAppend(g, a[0].id / WIDTH, a[0].v, a[0].id % WIDTH))
    ensures Move(a, g) == Move(a[1..], RegionAppend(g, a[0].id / WIDTH, a[0].v, a[0].id % WIDTH))
  {
    MoveOne(a, g);
    MovableArrays(a, g);
  }

  lemma MoveEnds(g: Region)
    requires Movable([], g)
    ensures Move([], g) == g
  {
  }
}
