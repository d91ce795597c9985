/** What every step of a Serval row does to the stored versions. */
module ServalData {
  import opened Bits
  import opened TwoLevelBitmap
  import opened Versions
  import opened SortedSlots
  import opened ServalRegion
  import opened ServalRow
  import opened ServalInvariant

  // ---------- who has a version ----------

  lemma HandedSame(apc: map<nat, AppendPc>, s: nat, pc: AppendPc)
    requires s in apc && HasVersion(apc[s]) == HasVersion(pc) && (HasVersion(pc) ==> pc.v == apc[s].v)
    ensures forall id: int, v: VersionId :: Handed(apc[s := pc], id, v) <==> Handed(apc, id, v)
  {
  }

  lemma HandedOneMore(apc: map<nat, AppendPc>, s: nat, pc: AppendPc)
    requires s in apc && !HasVersion(apc[s]) && HasVersion(pc)
    ensures forall id: int, v: VersionId :: Handed(apc[s := pc], id, v) <==> Handed(apc, id, v) || (id == s && v == pc.v)
    ensures Handed(apc[s := pc], s, pc.v)
  {
    forall id: int, v: VersionId
      ensures Handed(apc[s := pc], id, v) <==> Handed(apc, id, v) || (id == s && v == pc.v)
    {
      if id >= 0 && id in apc && id != s { assert apc[s := pc][id] == apc[id]; }
    }
  }

  lemma NoneHanded(apc: map<nat, AppendPc>, s: nat)
    requires s in apc && !HasVersion(apc[s])
    ensures forall v: VersionId :: !Handed(apc, s, v)
  {
  }

  /** Steps that touch no version. */
  lemma QuietData(sh: Shared, sh': Shared, apc: map<nat, AppendPc>, epoch: nat, base: Tag, before: Tag, s: nat, pc: AppendPc)
    requires Data(sh, apc, map[], epoch, base, before) && s in apc
    requires sh' == sh.(cnt := sh'.cnt, holder := sh'.holder, epoch := sh'.epoch, failed := sh'.failed, contended := sh'.contended)
    requires HasVersion(apc[s]) == HasVersion(pc) && (HasVersion(pc) ==> pc.v == apc[s].v)
    ensures Data(sh', apc[s := pc], map[], epoch, base, before)
  {
    hide StoreOk, RestOk, MasterOk, PlaceOk, StaleOk, HeapOk, Stored, Handed;
    HandedSame(apc, s, pc);
  }

  // ---------- regions ----------

  /** Every entry of a consistent array stands at the rank of a set bit. */
  lemma EntryHasBit(a: PerCore, i: nat) returns (t: nat)
    requires CoreOk(a) && i < |a.slots|
    ensures CoreHas(a, t, a.slots[i]) && CountBits(a.bits[..t]) == i
  {
    t := SelectByRank(a.bits, i);
  }

  lemma BitHasEntry(a: PerCore, t: nat) returns (v: VersionId)
    requires CoreOk(a) && t < WIDTH && a.bits[t]
    ensures CoreHas(a, t, v)
  {
    RankInArray(a, t);
    v := a.slots[CountBits(a.bits[..t])];
  }

  lemma RanksAscend(a: PerCore, t: nat, u: nat)
    requires t < WIDTH && u < WIDTH && a.bits[t] && a.bits[u] && CountBits(a.bits[..t]) < CountBits(a.bits[..u])
    ensures t < u
  {
    if u <= t { CountBitsMonotone(a.bits, u, t); }
  }

  lemma RegionHasCore(g: Region, c: nat, t: nat, v: VersionId)
    requires |g.arrays| == WIDTH && c < WIDTH && t < WIDTH
    ensures RegionHas(g, c * WIDTH + t, v) <==> g.core[c] && CoreHas(g.arrays[c], t, v)
  {
    hide CoreHas;
    SerialAddress(c, t);
  }

  lemma HasInArray(g: Region, id: int, v: VersionId)
    requires RegionHas(g, id, v)
    ensures 0 <= id < EPOCH_SIZE && |g.arrays| == WIDTH && v in g.arrays[id / WIDTH].slots && g.core[id / WIDTH]
  {
  }

  lemma MakeData(sh: Shared, apc: map<nat, AppendPc>, epoch: nat, base: Tag, before: Tag)
    requires sh.inits == 1
    requires StoreOk(sh.slots, sh.region) && ContentOk(sh.slots, sh.region, apc)
    requires MasterOk(sh.heap, sh.master, base, epoch)
    requires PlaceOk(sh.slots, sh.region, sh.heap, sh.master) && StaleOk(sh.region, sh.heap, epoch)
    requires CellsOk(sh.heap, apc, epoch)
    requires HeapOk(sh.slots, sh.region, sh.heap, sh.master, sh.created, sh.deleted)
    requires HandlesOk(sh.heap, apc, map[], epoch)
    ensures Data(sh, apc, map[], epoch, base, before)
  {
    hide StoreOk, ContentOk, MasterOk, PlaceOk, StaleOk, CellsOk, HeapOk, HandlesOk;
  }

  lemma DataParts(sh: Shared, apc: map<nat, AppendPc>, epoch: nat, base: Tag, before: Tag)
    requires Data(sh, apc, map[], epoch, base, before)
    ensures StoreOk(sh.slots, sh.region)
    ensures sh.inits == 1 ==> ContentOk(sh.slots, sh.region, apc)
    ensures sh.inits != 1 ==> RestOk(sh.slots, sh.region, sh.heap, base)
    ensures MasterOk(sh.heap, sh.master, if sh.inits == 1 then base else before, epoch)
    ensures PlaceOk(sh.slots, sh.region, sh.heap, sh.master) && StaleOk(sh.region, sh.heap, epoch)
    ensures CellsOk(sh.heap, apc, epoch)
    ensures HeapOk(sh.slots, sh.region, sh.heap, sh.master, sh.created, sh.deleted)
    ensures HandlesOk(sh.heap, apc, map[], epoch)
  {
    hide StoreOk, ContentOk, RestOk, MasterOk, PlaceOk, StaleOk, CellsOk, HeapOk, HandlesOk;
  }

  // ---------- AInsert ----------

  lemma CreateFresh(sh: Shared)
    requires HeapOk(sh.slots, sh.region, sh.heap, sh.master, sh.created, sh.deleted)
    ensures NewId(sh) !in sh.heap
  {
    hide Located;
  }

  /** Everything that speaks of the heap only survives a new cell. */
  lemma CreateKeeps(sh: Shared, apc: map<nat, AppendPc>, epoch: nat, tag: Tag, s: nat, pc: AppendPc)
    requires NewId(sh) !in sh.heap && s in apc && !HasVersion(apc[s]) && HasVersion(pc) && pc.v == NewId(sh)
    requires MasterOk(sh.heap, sh.master, tag, epoch) && CellsOk(sh.heap, apc, epoch) && HandlesOk(sh.heap, apc, map[], epoch)
    ensures var heap' := Create(sh, By(epoch, s)).heap;
      && MasterOk(heap', sh.master, tag, epoch) && CellsOk(heap', apc[s := pc], epoch)
      && HandlesOk(heap', apc[s := pc], map[], epoch)
  {
    HandedOneMore(apc, s, pc);
    hide Handed;
  }

  lemma CreateCounts(sh: Shared, owner: Owner)
    requires NewId(sh) !in sh.heap && sh.created + 2 == |sh.heap| + sh.deleted
    ensures Create(sh, owner).created + 2 == |Create(sh, owner).heap| + sh.deleted
  {
    assert Create(sh, owner).heap.Keys == sh.heap.Keys + {NewId(sh)};
  }

  lemma InsertData(sh: Shared, apc: map<nat, AppendPc>, epoch: nat, base: Tag, before: Tag, s: nat, pc: AppendPc)
    requires Data(sh, apc, map[], epoch, base, before) && sh.inits == 1 && sh.region.None?
    requires s in apc && !HasVersion(apc[s]) && HasVersion(pc) && pc.v == NewId(sh)
    ensures Data(Create(sh, By(epoch, s)).(slots := Insert(sh.slots, Slot(s, NewId(sh)))), apc[s := pc], map[], epoch, base, before)
  {
    hide Data, StoreOk, ContentOk, MasterOk, PlaceOk, StaleOk, CellsOk, HeapOk, HandlesOk, Has, HasId, Sorted, Handed,
      Insert, Create;
    DataParts(sh, apc, epoch, base, before);
    var sh1 := Create(sh, By(epoch, s));
    var slots' := Insert(sh.slots, Slot(s, NewId(sh)));
    CreateFresh(sh);
    CreateKeeps(sh, apc, epoch, base, s, pc);
    MasterIsLive(sh.heap, sh.master, base, epoch);
    NoneHanded(apc, s);
    NotInVector(sh.slots, apc, s);
    VectorIsSorted(sh.slots, sh.region);
    InsertKeepsOrder(sh.slots, Slot(s, NewId(sh)));
    forall id: int, v: VersionId
      ensures Has(slots', id, v) <==> Has(sh.slots, id, v) || (id == s && v == pc.v)
    {
      InsertAdds(sh.slots, Slot(s, NewId(sh)), id, v);
    }
    InsertAdds(sh.slots, Slot(s, NewId(sh)), s, pc.v);
    InsertPlace(sh, sh1, slots', epoch, s);
    CreateFields(sh, By(epoch, s));
    NoRegionNoStale(sh1.region, sh1.heap, epoch);
    InsertContent(sh.slots, slots', apc, s, pc);
    MakeData(sh1.(slots := slots'), apc[s := pc], epoch, base, before);
  }

  lemma VectorIsSorted(slots: seq<Slot>, region: Option<Region>)
    requires StoreOk(slots, region)
    ensures Sorted(slots)
  {
  }

  lemma InsertContent(slots: seq<Slot>, slots': seq<Slot>, apc: map<nat, AppendPc>, s: nat, pc: AppendPc)
    requires ContentOk(slots, None, apc) && Sorted(slots')
    requires s in apc && !HasVersion(apc[s]) && HasVersion(pc)
    requires forall id: int, v: VersionId :: Has(slots', id, v) <==> Has(slots, id, v) || (id == s && v == pc.v)
    ensures ContentOk(slots', None, apc[s := pc]) && StoreOk(slots', None)
  {
    hide Has, Handed, Sorted;
    HandedOneMore(apc, s, pc);
    forall id: int, v: VersionId
      ensures Stored(slots', None, id, v) <==> Handed(apc[s := pc], id, v)
    {
      StoredIsHanded(slots, None, apc, id, v);
    }
  }

  lemma NoRegionNoStale(region: Option<Region>, heap: map<VersionId, Cell>, epoch: nat)
    requires region.None?
    ensures StaleOk(region, heap, epoch)
  {
  }

  lemma CreateFields(sh: Shared, owner: Owner)
    ensures var sh' := Create(sh, owner);
      sh' == sh.(heap := sh'.heap, created := sh'.created)
  {
  }

  lemma StoredIsHanded(slots: seq<Slot>, region: Option<Region>, apc: map<nat, AppendPc>, id: int, v: VersionId)
    requires ContentOk(slots, region, apc)
    ensures Stored(slots, region, id, v) <==> Handed(apc, id, v)
  {
    hide Stored, Handed;
  }

  lemma MasterIsLive(heap: map<VersionId, Cell>, master: VersionId, tag: Tag, epoch: nat)
    requires MasterOk(heap, master, tag, epoch)
    ensures master in heap
  {
  }

  lemma NotInVector(slots: seq<Slot>, apc: map<nat, AppendPc>, s: nat)
    requires ContentOk(slots, None, apc) && forall v: VersionId :: !Handed(apc, s, v)
    ensures !HasId(slots, s)
  {
    hide Has, HasId, Handed;
    HasIdIsHas(slots, s);
    if HasId(slots, s) {
      var v: VersionId :| Has(slots, s, v);
      StoredIsHanded(slots, None, apc, s, v);
    }
  }

  lemma InsertPlace(sh: Shared, sh1: Shared, slots': seq<Slot>, epoch: nat, s: nat)
    requires PlaceOk(sh.slots, sh.region, sh.heap, sh.master) && sh.region.None? && NewId(sh) !in sh.heap && sh.master in sh.heap
    requires HeapOk(sh.slots, sh.region, sh.heap, sh.master, sh.created, sh.deleted)
    requires sh1 == Create(sh, By(epoch, s))
    requires forall id: int, v: VersionId :: Has(slots', id, v) <==> Has(sh.slots, id, v) || (id == s && v == NewId(sh))
    requires Has(slots', s, NewId(sh))
    ensures PlaceOk(slots', sh.region, sh1.heap, sh.master)
    ensures HeapOk(slots', sh.region, sh1.heap, sh.master, sh1.created, sh1.deleted)
  {
    hide Has;
    CreateCounts(sh, By(epoch, s));
  }

  // ---------- WMove ----------

  /** A core that is not in the moved region's bitmap has the array it had before. */
  lemma {:induction false} MovedOthers(a: seq<Slot>, g: Region, c: nat)
    requires Movable(a, g) && c < WIDTH
    ensures |g.arrays| == WIDTH && |Move(a, g).arrays| == WIDTH
    ensures g.core[c] ==> Move(a, g).core[c]
    ensures !Move(a, g).core[c] ==> Move(a, g).arrays[c] == g.arrays[c]
    decreases |a|
  {
    hide RegionOk, CountBits, IsBitSet, RegionHasId, Movable;
    MovableArrays(a, g);
    RegionArrays(g);
    if a != [] {
      MoveOne(a, g);
      SetBitIsUpdate(g.core, a[0].id / WIDTH);
      MovedOthers(a[1..], RegionAppend(g, a[0].id / WIDTH, a[0].v, a[0].id % WIDTH), c);
    }
  }

  /** The array of one core of a region that stores live versions under their serial ids. */
  lemma CoreArrayOk(g: Region, c: nat, heap: map<VersionId, Cell>, master: VersionId)
    requires RegionOk(g) && c < WIDTH && g.core[c]
    requires forall id: int, v: VersionId :: RegionHas(g, id, v) ==>
      EntryOk(heap, master, v) && heap[v].owner.By? && heap[v].owner.serial == id
    ensures ArrayOk(heap, master, g.arrays[c].slots, c)
  {
    hide RegionHas, CoreHas, CountBits;
    var a := g.arrays[c];
    forall v | v in a.slots
      ensures EntryOk(heap, master, v) && heap[v].owner.By? && heap[v].owner.serial / WIDTH == c
    {
      var i :| 0 <= i < |a.slots| && a.slots[i] == v;
      var t := EntryHasBit(a, i);
      CoreHasBit(a, t, v);
      RegionHasCore(g, c, t, v);
      SerialAddress(c, t);
    }
    forall i, j | 0 <= i < j < |a.slots|
      ensures SmallerSerial(heap, a.slots[i], a.slots[j])
    {
      var t := EntryHasBit(a, i);
      var u := EntryHasBit(a, j);
      CoreHasBit(a, t, a.slots[i]);
      CoreHasBit(a, u, a.slots[j]);
      RanksAscend(a, t, u);
      RegionHasCore(g, c, t, a.slots[i]);
      RegionHasCore(g, c, u, a.slots[j]);
    }
  }

  lemma CoreHasBit(a: PerCore, t: nat, v: VersionId)
    requires CoreHas(a, t, v)
    ensures t < WIDTH && a.bits[t]
  {
  }

  lemma EmptyArrayOk(heap: map<VersionId, Cell>, master: VersionId, c: nat, epoch: nat)
    ensures ArrayOk(heap, master, [], c) && NoneCurrent(heap, [], epoch)
  {
  }

  lemma MoveData(sh: Shared, apc: map<nat, AppendPc>, epoch: nat, base: Tag, before: Tag)
    requires Data(sh, apc, map[], epoch, base, before) && sh.inits == 1 && sh.region.None?
    requires forall s :: s in apc ==> s < EPOCH_SIZE
    ensures Movable(sh.slots, FreshRegion())
    ensures Data(sh.(region := Some(Move(sh.slots, FreshRegion())), slots := []), apc, map[], epoch, base, before)
    ensures var g := Move(sh.slots, FreshRegion());
      |g.arrays| == WIDTH && Settled(g)
  {
    hide Data, StoreOk, ContentOk, MasterOk, PlaceOk, StaleOk, CellsOk, HeapOk, HandlesOk, Has, HasId, Sorted, Handed;
    hide RegionOk, RegionHas, RegionHasId, FreshRegion, Move, Movable, Settled;
    DataParts(sh, apc, epoch, base, before);
    VectorIsSorted(sh.slots, sh.region);
    forall i | 0 <= i < |sh.slots|
      ensures 0 <= sh.slots[i].id < EPOCH_SIZE
    {
      EntryId(sh.slots, apc, i);
    }
    MoveKeepsContent(sh.slots);
    FreshHasNothing();
    MovedIsSettled(sh.slots, FreshRegion());
    var g := Move(sh.slots, FreshRegion());
    EmptyIsSorted();
    MovedStore(sh.slots, g, apc);
    MovedPlace(sh.slots, g, sh.heap, sh.master, epoch);
    MovedHeap(sh.slots, g, sh.heap, sh.master, sh.created, sh.deleted);
    MakeData(sh.(region := Some(g), slots := []), apc, epoch, base, before);
  }

  lemma EmptyIsSorted()
    ensures Sorted([])
    ensures forall id: int, v: VersionId :: !Has([], id, v)
  {
  }

  lemma EntryId(slots: seq<Slot>, apc: map<nat, AppendPc>, i: nat)
    requires ContentOk(slots, None, apc) && i < |slots| && forall s :: s in apc ==> s < EPOCH_SIZE
    ensures 0 <= slots[i].id < EPOCH_SIZE
  {
    assert slots[i] == Slot(slots[i].id, slots[i].v);
    assert Has(slots, slots[i].id, slots[i].v);
    hide Has;
    StoredIsHanded(slots, None, apc, slots[i].id, slots[i].v);
  }

  lemma MovedStore(slots: seq<Slot>, g: Region, apc: map<nat, AppendPc>)
    requires ContentOk(slots, None, apc) && RegionOk(g)
    requires forall id: int, v: VersionId :: RegionHas(g, id, v) <==> Has(slots, id, v)
    ensures StoreOk([], Some(g)) && ContentOk([], Some(g), apc)
  {
    hide Has, Handed, RegionHas, RegionOk;
    EmptyIsSorted();
    forall id: int, v: VersionId
      ensures Stored([], Some(g), id, v) <==> Handed(apc, id, v)
    {
      StoredIsHanded(slots, None, apc, id, v);
    }
  }

  lemma MovedPlace(slots: seq<Slot>, g: Region, heap: map<VersionId, Cell>, master: VersionId, epoch: nat)
    requires PlaceOk(slots, None, heap, master) && RegionOk(g)
    requires Sorted(slots) && Movable(slots, FreshRegion()) && g == Move(slots, FreshRegion())
    requires forall id: int, v: VersionId :: RegionHas(g, id, v) <==> Has(slots, id, v)
    ensures PlaceOk([], Some(g), heap, master) && StaleOk(Some(g), heap, epoch)
  {
    hide Has, RegionHas, RegionOk, Move, Movable, Sorted, EntryOk, NoneCurrent, ArrayOk;
    EmptyIsSorted();
    RegionArrays(g);
    forall c: nat | c < WIDTH
      ensures ArrayOk(heap, master, g.arrays[c].slots, c)
      ensures !g.core[c] ==> NoneCurrent(heap, g.arrays[c].slots, epoch)
    {
      if g.core[c] {
        MovedOwners(slots, g, heap, master);
        CoreArrayOk(g, c, heap, master);
      } else {
        MovedOthers(slots, FreshRegion(), c);
        EmptyArrayOk(heap, master, c, epoch);
      }
    }
  }

  lemma MovedOwners(slots: seq<Slot>, g: Region, heap: map<VersionId, Cell>, master: VersionId)
    requires PlaceOk(slots, None, heap, master)
    requires forall id: int, v: VersionId :: RegionHas(g, id, v) <==> Has(slots, id, v)
    ensures forall id: int, v: VersionId :: RegionHas(g, id, v) ==>
      EntryOk(heap, master, v) && heap[v].owner.By? && heap[v].owner.serial == id
  {
    hide Has, RegionHas;
    forall id: int, v: VersionId | RegionHas(g, id, v)
      ensures EntryOk(heap, master, v) && heap[v].owner.By? && heap[v].owner.serial == id
    {
      HasInArray(g, id, v);
    }
  }

  lemma MovedHeap(slots: seq<Slot>, g: Region, heap: map<VersionId, Cell>, master: VersionId, created: nat, deleted: nat)
    requires HeapOk(slots, None, heap, master, created, deleted)
    requires forall id: int, v: VersionId :: RegionHas(g, id, v) <==> Has(slots, id, v)
    ensures HeapOk([], Some(g), heap, master, created, deleted)
  {
    hide Has, RegionHas;
    forall v | v in heap
      ensures Located([], Some(g), master, heap[v].owner, v)
    {
      if v != master {
        assert RegionHas(g, SerialOf(heap[v].owner), v);
        HasInArray(g, SerialOf(heap[v].owner), v);
      }
    }
  }

  // ---------- freeing ----------

  lemma FreeCounts(sh: Shared, vs: seq<VersionId>)
    requires CanFree(sh, vs)
    ensures var sh' := Free(sh, vs);
      && sh' == sh.(heap := sh'.heap, deleted := sh'.deleted)
      && |sh'.heap| + sh'.deleted == |sh.heap| + sh.deleted
      && (forall v :: v in sh'.heap <==> v in sh.heap && v !in vs)
      && (forall v :: v in sh'.heap ==> sh'.heap[v] == sh.heap[v])
  {
    DistinctCount(vs);
    assert AsSet(vs) <= sh.heap.Keys;
    assert (sh.heap - AsSet(vs)).Keys == sh.heap.Keys - AsSet(vs);
  }

  /** `heap'` is `heap` without some versions. */
  ghost predicate Fewer(heap: map<VersionId, Cell>, heap': map<VersionId, Cell>, gone: seq<VersionId>) {
    && (forall v :: v in heap' <==> v in heap && v !in gone)
    && (forall v :: v in heap' ==> heap'[v] == heap[v])
  }

  lemma FewerMaster(heap: map<VersionId, Cell>, heap': map<VersionId, Cell>, gone: seq<VersionId>, master: VersionId,
                    tag: Tag, epoch: nat)
    requires MasterOk(heap, master, tag, epoch) && Fewer(heap, heap', gone) && master !in gone
    ensures MasterOk(heap', master, tag, epoch)
  {
  }

  lemma FewerCells(heap: map<VersionId, Cell>, heap': map<VersionId, Cell>, gone: seq<VersionId>,
                   apc: map<nat, AppendPc>, epoch: nat)
    requires CellsOk(heap, apc, epoch) && Fewer(heap, heap', gone)
    ensures CellsOk(heap', apc, epoch)
  {
    hide Handed;
  }

  lemma FewerHandles(heap: map<VersionId, Cell>, heap': map<VersionId, Cell>, gone: seq<VersionId>,
                     apc: map<nat, AppendPc>, epoch: nat)
    requires HandlesOk(heap, apc, map[], epoch) && Fewer(heap, heap', gone) && NoneCurrent(heap, gone, epoch)
    ensures HandlesOk(heap', apc, map[], epoch)
  {
  }

  lemma FewerArray(heap: map<VersionId, Cell>, heap': map<VersionId, Cell>, gone: seq<VersionId>, master: VersionId,
                   vs: seq<VersionId>, c: nat)
    requires ArrayOk(heap, master, vs, c) && Fewer(heap, heap', gone)
    requires forall v :: v in vs ==> v !in gone
    ensures ArrayOk(heap', master, vs, c)
  {
  }

  lemma FewerCurrent(heap: map<VersionId, Cell>, heap': map<VersionId, Cell>, gone: seq<VersionId>, vs: seq<VersionId>,
                     epoch: nat)
    requires NoneCurrent(heap, vs, epoch) && Fewer(heap, heap', gone)
    ensures NoneCurrent(heap', vs, epoch)
  {
  }

  // ---------- RGc ----------

  /** The core's stale versions are all there, STABLE and distinct; the master version is not among them. */
  lemma StaleCanBeFreed(sh: Shared, apc: map<nat, AppendPc>, epoch: nat, vs: seq<VersionId>, c: nat)
    requires ArrayOk(sh.heap, sh.master, vs, c) && NoneCurrent(sh.heap, vs, epoch) && CellsOk(sh.heap, apc, epoch)
    ensures CanFree(sh, vs) && sh.master !in vs
  {
    forall i, j | 0 <= i < j < |vs|
      ensures vs[i] != vs[j]
    {
      assert SmallerSerial(sh.heap, vs[i], vs[j]);
    }
  }

  /** Arrays of different cores share no version. */
  lemma CoresAreApart(heap: map<VersionId, Cell>, master: VersionId, arrays: seq<PerCore>, c: nat, d: nat)
    requires ArraysOk(heap, master, arrays) && c < WIDTH && d < WIDTH && c != d
    ensures forall v :: v in arrays[d].slots ==> v !in arrays[c].slots
  {
    assert ArrayOk(heap, master, arrays[c].slots, c) && ArrayOk(heap, master, arrays[d].slots, d);
  }

  lemma GcPlace(g: Region, heap: map<VersionId, Cell>, heap': map<VersionId, Cell>, master: VersionId, c: nat, epoch: nat)
    requires PlaceOk([], Some(g), heap, master) && StaleOk(Some(g), heap, epoch)
    requires c < WIDTH && Fewer(heap, heap', g.arrays[c].slots)
    ensures var g' := g.(arrays := g.arrays[c := EmptyArray()]);
      PlaceOk([], Some(g'), heap', master) && StaleOk(Some(g'), heap', epoch)
  {
    hide Fewer, ArrayOk, NoneCurrent, EntryOk, Has;
    EmptyIsSorted();
    var gone := g.arrays[c].slots;
    var arrays := g.arrays[c := EmptyArray()];
    forall d: nat | d < WIDTH
      ensures ArrayOk(heap', master, arrays[d].slots, d)
      ensures !g.core[d] ==> NoneCurrent(heap', arrays[d].slots, epoch)
    {
      if d == c {
        EmptyArrayOk(heap', master, d, epoch);
      } else {
        CoresAreApart(heap, master, g.arrays, c, d);
        FewerArray(heap, heap', gone, master, g.arrays[d].slots, d);
        if !g.core[d] { FewerCurrent(heap, heap', gone, g.arrays[d].slots, epoch); }
      }
    }
  }

  lemma GcHeap(g: Region, sh: Shared, sh': Shared, c: nat)
    requires HeapOk([], Some(g), sh.heap, sh.master, sh.created, sh.deleted) && |g.arrays| == WIDTH && c < WIDTH
    requires Fewer(sh.heap, sh'.heap, g.arrays[c].slots)
    requires |sh'.heap| + sh'.deleted == |sh.heap| + sh.deleted
    ensures HeapOk([], Some(g.(arrays := g.arrays[c := EmptyArray()])), sh'.heap, sh.master, sh.created, sh'.deleted)
  {
    EmptyIsSorted();
    hide Has;
  }

  lemma GcContent(g: Region, apc: map<nat, AppendPc>, c: nat)
    requires StoreOk([], Some(g)) && ContentOk([], Some(g), apc) && c < WIDTH && !g.core[c]
    ensures var g' := g.(arrays := g.arrays[c := EmptyArray()]);
      StoreOk([], Some(g')) && ContentOk([], Some(g'), apc)
  {
    hide CoreHas, CoreOk, Handed, Sorted;
    var g' := g.(arrays := g.arrays[c := EmptyArray()]);
    forall id: int, v: VersionId
      ensures Stored([], Some(g'), id, v) <==> Handed(apc, id, v)
    {
      StoredIsHanded([], Some(g), apc, id, v);
    }
  }

  lemma GcData(sh: Shared, apc: map<nat, AppendPc>, epoch: nat, base: Tag, before: Tag, c: nat)
    requires Data(sh, apc, map[], epoch, base, before) && sh.inits == 1
    requires sh.region.Some? && |sh.region.value.arrays| == WIDTH && c < WIDTH && !sh.region.value.core[c]
    ensures var g := sh.region.value; var sh' := Free(sh, g.arrays[c].slots);
      && sh' == sh.(heap := sh'.heap, deleted := sh'.deleted)
      && Data(sh'.(region := Some(g.(arrays := g.arrays[c := EmptyArray()]))), apc, map[], epoch, base, before)
  {
    hide Data, StoreOk, ContentOk, MasterOk, PlaceOk, StaleOk, CellsOk, HeapOk, HandlesOk, Handed, ArrayOk,
      NoneCurrent, CanFree, Free;
    DataParts(sh, apc, epoch, base, before);
    var g := sh.region.value;
    var gone := g.arrays[c].slots;
    NoSlots(sh.slots, g);
    ArrayAt([], g, sh.heap, sh.master, c);
    StaleAt(g, sh.heap, epoch, c);
    StaleCanBeFreed(sh, apc, epoch, gone, c);
    FreeCounts(sh, gone);
    var sh' := Free(sh, gone);
    FewerMaster(sh.heap, sh'.heap, gone, sh.master, base, epoch);
    FewerCells(sh.heap, sh'.heap, gone, apc, epoch);
    FewerHandles(sh.heap, sh'.heap, gone, apc, epoch);
    GcPlace(g, sh.heap, sh'.heap, sh.master, c, epoch);
    GcHeap(g, sh, sh', c);
    GcContent(g, apc, c);
    MakeData(sh'.(region := Some(g.(arrays := g.arrays[c := EmptyArray()]))), apc, epoch, base, before);
  }

  lemma NoSlots(slots: seq<Slot>, g: Region)
    requires StoreOk(slots, Some(g))
    ensures slots == [] && RegionOk(g)
  {
  }

  lemma ArrayAt(slots: seq<Slot>, g: Region, heap: map<VersionId, Cell>, master: VersionId, c: nat)
    requires PlaceOk(slots, Some(g), heap, master) && c < WIDTH
    ensures |g.arrays| == WIDTH && ArrayOk(heap, master, g.arrays[c].slots, c)
  {
    hide ArrayOk;
  }

  lemma StaleAt(g: Region, heap: map<VersionId, Cell>, epoch: nat, c: nat)
    requires StaleOk(Some(g), heap, epoch) && c < WIDTH && !g.core[c]
    ensures |g.arrays| == WIDTH && NoneCurrent(heap, g.arrays[c].slots, epoch)
  {
    hide NoneCurrent;
  }

  // ---------- ROr ----------

  lemma OrData(sh: Shared, apc: map<nat, AppendPc>, epoch: nat, base: Tag, before: Tag, c: nat)
    requires Data(sh, apc, map[], epoch, base, before) && sh.inits == 1
    requires sh.region.Some? && |sh.region.value.arrays| == WIDTH && c < WIDTH
    requires !sh.region.value.core[c] && sh.region.value.arrays[c] == EmptyArray()
    ensures var g := sh.region.value;
      Data(sh.(region := Some(g.(core := SetBit(g.core, c)))), apc, map[], epoch, base, before)
  {
    hide Data, StoreOk, ContentOk, MasterOk, PlaceOk, StaleOk, CellsOk, HeapOk, HandlesOk, Handed, SetBit;
    DataParts(sh, apc, epoch, base, before);
    var g := sh.region.value;
    var g' := g.(core := SetBit(g.core, c));
    SetBitIsUpdate(g.core, c);
    NoSlots(sh.slots, g);
    OrContent(g, g', apc, c);
    OrPlace(g, g', sh, epoch);
    MakeData(sh.(region := Some(g')), apc, epoch, base, before);
  }

  lemma OrContent(g: Region, g': Region, apc: map<nat, AppendPc>, c: nat)
    requires StoreOk([], Some(g)) && ContentOk([], Some(g), apc)
    requires c < WIDTH && !g.core[c] && g.arrays[c] == EmptyArray() && g' == g.(core := g.core[c := true])
    ensures StoreOk([], Some(g')) && ContentOk([], Some(g'), apc)
  {
    hide CoreHas, CoreOk, Handed, Sorted, EmptyArray;
    EmptyIsOk();
    forall id: int, v: VersionId
      ensures Stored([], Some(g'), id, v) <==> Handed(apc, id, v)
    {
      EmptyHasNone(id % WIDTH, v);
      StoredIsHanded([], Some(g), apc, id, v);
    }
  }

  lemma OrPlace(g: Region, g': Region, sh: Shared, epoch: nat)
    requires PlaceOk([], Some(g), sh.heap, sh.master) && StaleOk(Some(g), sh.heap, epoch)
    requires HeapOk([], Some(g), sh.heap, sh.master, sh.created, sh.deleted)
    requires g' == g.(core := g'.core) && forall d: nat :: d < WIDTH && !g'.core[d] ==> !g.core[d]
    ensures PlaceOk([], Some(g'), sh.heap, sh.master) && StaleOk(Some(g'), sh.heap, epoch)
    ensures HeapOk([], Some(g'), sh.heap, sh.master, sh.created, sh.deleted)
  {
    hide ArraysOk, NoneCurrent, EntryOk, Has;
  }

  // ---------- RInsert ----------

  /** Everything the core has stored is of a smaller serial id. */
  lemma CoreIsBehind(g: Region, apc: map<nat, AppendPc>, s: nat)
    requires StoreOk([], Some(g)) && ContentOk([], Some(g), apc) && s < EPOCH_SIZE && g.core[s / WIDTH]
    requires forall t :: t in apc && t / WIDTH == s / WIDTH && t >= s ==> !HasVersion(apc[t])
    ensures |g.arrays| == WIDTH && CoreOk(g.arrays[s / WIDTH]) && NoneAbove(g.arrays[s / WIDTH].bits, s % WIDTH)
  {
    hide CountBits, CoreHas;
    var c := s / WIDTH;
    RegionArrays(g);
    forall u: nat | u < WIDTH && g.arrays[c].bits[u]
      ensures u < s % WIDTH
    {
      var v := BitHasEntry(g.arrays[c], u);
      RegionHasCore(g, c, u, v);
      StoredIsHanded([], Some(g), apc, c * WIDTH + u, v);
      SerialAddress(c, u);
    }
  }

  lemma CountBelowWidth(w: Word, t: nat)
    requires t < WIDTH && !w[t]
    ensures CountBits(w) < WIDTH
  {
    CountBitsConcat(w[..t], w[t..]);
    assert w == w[..t] + w[t..];
    CountBitsConcat([w[t]], w[t + 1..]);
    assert w[t..] == [w[t]] + w[t + 1..];
    CountAtMost(w[..t]);
    CountAtMost(w[t + 1..]);
    CountBitsOfZeros([w[t]]);
  }

  lemma {:induction false} CountAtMost(w: seq<bool>)
    ensures CountBits(w) <= |w|
  {
    if w != [] { CountAtMost(w[..|w| - 1]); }
  }

  lemma {:induction false} CountOfAll(w: seq<bool>)
    requires forall i :: 0 <= i < |w| ==> w[i]
    ensures CountBits(w) == |w|
  {
    if w != [] { CountOfAll(w[..|w| - 1]); }
  }

  /**
    The source also asserts that a core's array has fewer than 64 slots after the append
    (protocols/serval/include/row_region.hpp:209).  That fails exactly when all other transactions of the core
    have written the row already, which the check before the append allows.
   */
  lemma SizeAssertionFailsForFullCore(a: PerCore, v: VersionId, tx: nat)
    requires CoreOk(a) && tx < WIDTH && !a.bits[tx]
    ensures CountBits(a.bits) < WIDTH
    ensures |Append(a, v, tx).slots| < WIDTH <==> exists t: nat :: t < WIDTH && t != tx && !a.bits[t]
  {
    CountBelowWidth(a.bits, tx);
    var w: Word := a.bits[tx := true];
    SetBitIsUpdate(a.bits, tx);
    AppendCount(a, v, tx);
    if t: nat :| t < WIDTH && t != tx && !a.bits[t] {
      CountBelowWidth(w, t);
    } else {
      CountOfAll(w);
    }
  }

  /** The assertions of the append hold. */
  lemma InsertPossible(g: Region, apc: map<nat, AppendPc>, s: nat)
    requires StoreOk([], Some(g)) && ContentOk([], Some(g), apc) && s < EPOCH_SIZE && g.core[s / WIDTH]
    requires forall t :: t in apc && t / WIDTH == s / WIDTH && t >= s ==> !HasVersion(apc[t])
    ensures |g.arrays| == WIDTH && CoreOk(g.arrays[s / WIDTH]) && IsBitSet(g.core, s / WIDTH)
    ensures CountBits(g.arrays[s / WIDTH].bits) < WIDTH && !IsBitSet(g.arrays[s / WIDTH].bits, s % WIDTH)
  {
    CoreIsBehind(g, apc, s);
    hide CountBits, IsBitSet, StoreOk, ContentOk;
    IsBitSetIsIndex(g.core, s / WIDTH);
    IsBitSetIsIndex(g.arrays[s / WIDTH].bits, s % WIDTH);
    CountBelowWidth(g.arrays[s / WIDTH].bits, s % WIDTH);
  }

  function WithAppended(g: Region, s: nat, v: VersionId): Region
    requires s < EPOCH_SIZE && |g.arrays| == WIDTH && CoreOk(g.arrays[s / WIDTH])
  {
    g.(arrays := g.arrays[s / WIDTH := Append(g.arrays[s / WIDTH], v, s % WIDTH)])
  }

  lemma AppendedContent(g: Region, apc: map<nat, AppendPc>, s: nat, pc: AppendPc)
    requires StoreOk([], Some(g)) && ContentOk([], Some(g), apc) && s < EPOCH_SIZE && g.core[s / WIDTH]
    requires |g.arrays| == WIDTH && CoreOk(g.arrays[s / WIDTH]) && NoneAbove(g.arrays[s / WIDTH].bits, s % WIDTH)
    requires s in apc && !HasVersion(apc[s]) && HasVersion(pc)
    ensures StoreOk([], Some(WithAppended(g, s, pc.v))) && ContentOk([], Some(WithAppended(g, s, pc.v)), apc[s := pc])
  {
    hide CoreHas, Handed, Sorted, Append, NoneAbove, CountBits;
    var c, t := s / WIDTH, s % WIDTH;
    var g' := WithAppended(g, s, pc.v);
    AppendAdds(g.arrays[c], pc.v, t, t, pc.v);
    HandedOneMore(apc, s, pc);
    forall id: int, v: VersionId
      ensures Stored([], Some(g'), id, v) <==> Handed(apc[s := pc], id, v)
    {
      AppendAdds(g.arrays[c], pc.v, t, id % WIDTH, v);
      StoredIsHanded([], Some(g), apc, id, v);
    }
  }

  /** The core's array stays in ascending order. */
  lemma AppendedArray(g: Region, apc: map<nat, AppendPc>, heap: map<VersionId, Cell>, heap': map<VersionId, Cell>,
                      master: VersionId, s: nat, v: VersionId, epoch: nat)
    requires StoreOk([], Some(g)) && ContentOk([], Some(g), apc) && HandlesOk(heap, apc, map[], epoch)
    requires s < EPOCH_SIZE && |g.arrays| == WIDTH && CoreOk(g.arrays[s / WIDTH]) && g.core[s / WIDTH]
    requires NoneAbove(g.arrays[s / WIDTH].bits, s % WIDTH)
    requires ArrayOk(heap, master, g.arrays[s / WIDTH].slots, s / WIDTH)
    requires v !in heap && heap' == heap[v := Cell(None, Pending, By(epoch, s))] && v != master
    ensures ArrayOk(heap', master, WithAppended(g, s, v).arrays[s / WIDTH].slots, s / WIDTH)
  {
    hide StoreOk, ContentOk, HandlesOk, NoneAbove, CoreHas;
    var c := s / WIDTH;
    var a := g.arrays[c];
    assert WithAppended(g, s, v).arrays[c].slots == a.slots + [v];
    forall i | 0 <= i < |a.slots|
      ensures SmallerSerial(heap', a.slots[i], v)
    {
      BehindNew(g, apc, heap, s, epoch, i);
    }
    ExtendArray(heap, heap', master, a.slots, v, c);
  }

  lemma BehindNew(g: Region, apc: map<nat, AppendPc>, heap: map<VersionId, Cell>, s: nat, epoch: nat, i: nat)
    requires StoreOk([], Some(g)) && ContentOk([], Some(g), apc) && HandlesOk(heap, apc, map[], epoch)
    requires s < EPOCH_SIZE && |g.arrays| == WIDTH && CoreOk(g.arrays[s / WIDTH]) && g.core[s / WIDTH]
    requires NoneAbove(g.arrays[s / WIDTH].bits, s % WIDTH) && i < |g.arrays[s / WIDTH].slots|
    ensures g.arrays[s / WIDTH].slots[i] in heap && SerialOf(heap[g.arrays[s / WIDTH].slots[i]].owner) < s
  {
    hide CoreHas, CountBits, StoreOk, ContentOk;
    var c := s / WIDTH;
    var a := g.arrays[c];
    var t := EntryHasBit(a, i);
    CoreHasBit(a, t, a.slots[i]);
    RegionHasCore(g, c, t, a.slots[i]);
    StoredIsHanded([], Some(g), apc, c * WIDTH + t, a.slots[i]);
  }

  lemma ExtendArray(heap: map<VersionId, Cell>, heap': map<VersionId, Cell>, master: VersionId, vs: seq<VersionId>,
                    v: VersionId, c: nat)
    requires ArrayOk(heap, master, vs, c) && v !in heap && v in heap' && v != master
    requires heap' == heap[v := heap'[v]] && heap'[v].owner.By? && heap'[v].owner.serial / WIDTH == c
    requires forall i :: 0 <= i < |vs| ==> SmallerSerial(heap', vs[i], v)
    ensures ArrayOk(heap', master, vs + [v], c)
  {
    forall i, j | 0 <= i < j < |vs + [v]|
      ensures SmallerSerial(heap', (vs + [v])[i], (vs + [v])[j])
    {
      if j < |vs| { assert SmallerSerial(heap, vs[i], vs[j]); }
    }
  }

  lemma MoreHeapArray(heap: map<VersionId, Cell>, heap': map<VersionId, Cell>, master: VersionId, vs: seq<VersionId>,
                      v: VersionId, c: nat, epoch: nat)
    requires v !in heap && v in heap' && heap' == heap[v := heap'[v]]
    ensures ArrayOk(heap, master, vs, c) ==> ArrayOk(heap', master, vs, c)
    ensures ArrayOk(heap, master, vs, c) && NoneCurrent(heap, vs, epoch) ==> NoneCurrent(heap', vs, epoch)
  {
    if ArrayOk(heap, master, vs, c) {
      forall i, j | 0 <= i < j < |vs|
        ensures SmallerSerial(heap', vs[i], vs[j])
      {
        assert SmallerSerial(heap, vs[i], vs[j]);
      }
    }
  }

  lemma AppendedPlace(g: Region, heap: map<VersionId, Cell>, heap': map<VersionId, Cell>, master: VersionId, s: nat,
                      v: VersionId, epoch: nat)
    requires PlaceOk([], Some(g), heap, master) && StaleOk(Some(g), heap, epoch)
    requires s < EPOCH_SIZE && |g.arrays| == WIDTH && CoreOk(g.arrays[s / WIDTH]) && g.core[s / WIDTH]
    requires v !in heap && v in heap' && heap' == heap[v := heap'[v]]
    requires ArrayOk(heap', master, WithAppended(g, s, v).arrays[s / WIDTH].slots, s / WIDTH)
    ensures PlaceOk([], Some(WithAppended(g, s, v)), heap', master) && StaleOk(Some(WithAppended(g, s, v)), heap', epoch)
  {
    hide ArrayOk, NoneCurrent, EntryOk, Has, Append;
    EmptyIsSorted();
    var arrays := WithAppended(g, s, v).arrays;
    forall d: nat | d < WIDTH
      ensures ArrayOk(heap', master, arrays[d].slots, d)
      ensures !g.core[d] ==> NoneCurrent(heap', arrays[d].slots, epoch)
    {
      if d != s / WIDTH {
        assert ArrayOk(heap, master, g.arrays[d].slots, d);
        MoreHeapArray(heap, heap', master, g.arrays[d].slots, v, d, epoch);
      }
    }
  }

  lemma AppendedHeap(g: Region, sh: Shared, epoch: nat, s: nat)
    requires HeapOk([], Some(g), sh.heap, sh.master, sh.created, sh.deleted) && NewId(sh) !in sh.heap
    requires s < EPOCH_SIZE && |g.arrays| == WIDTH && CoreOk(g.arrays[s / WIDTH])
    ensures var sh' := Create(sh, By(epoch, s));
      HeapOk([], Some(WithAppended(g, s, NewId(sh))), sh'.heap, sh.master, sh'.created, sh.deleted)
  {
    hide Has;
    CreateCounts(sh, By(epoch, s));
    var g' := WithAppended(g, s, NewId(sh));
    var sh' := Create(sh, By(epoch, s));
    assert g'.arrays[s / WIDTH].slots == g.arrays[s / WIDTH].slots + [NewId(sh)];
    forall v | v in sh'.heap
      ensures Located([], Some(g'), sh.master, sh'.heap[v].owner, v)
    {
      if v != NewId(sh) { assert Located([], Some(g), sh.master, sh.heap[v].owner, v); }
    }
  }

  lemma RegionInsertData(sh: Shared, apc: map<nat, AppendPc>, epoch: nat, base: Tag, before: Tag, s: nat, pc: AppendPc)
    requires Data(sh, apc, map[], epoch, base, before) && sh.inits == 1
    requires sh.region.Some? && s < EPOCH_SIZE && sh.region.value.core[s / WIDTH]
    requires s in apc && !HasVersion(apc[s]) && HasVersion(pc) && pc.v == NewId(sh)
    requires forall t :: t in apc && t / WIDTH == s / WIDTH && t >= s ==> !HasVersion(apc[t])
    ensures |sh.region.value.arrays| == WIDTH && CoreOk(sh.region.value.arrays[s / WIDTH])
    ensures InsertIntoRegion(sh, epoch, s)
         == Create(sh, By(epoch, s)).(region := Some(WithAppended(sh.region.value, s, NewId(sh))))
    ensures Data(InsertIntoRegion(sh, epoch, s), apc[s := pc], map[], epoch, base, before)
  {
    hide Data, StoreOk, ContentOk, MasterOk, PlaceOk, StaleOk, CellsOk, HeapOk, HandlesOk, Handed, ArrayOk, NoneCurrent,
      CountBits, Append, IsBitSet, CoreOk, NoneAbove;
    DataParts(sh, apc, epoch, base, before);
    var g := sh.region.value;
    NoSlots(sh.slots, g);
    InsertPossible(g, apc, s);
    CoreIsBehind(g, apc, s);
    var sh' := Create(sh, By(epoch, s));
    CreateFresh(sh);
    CreateKeeps(sh, apc, epoch, base, s, pc);
    MasterIsLive(sh.heap, sh.master, base, epoch);
    AppendedContent(g, apc, s, pc);
    ArrayAt([], g, sh.heap, sh.master, s / WIDTH);
    AppendedArray(g, apc, sh.heap, sh'.heap, sh.master, s, pc.v, epoch);
    AppendedPlace(g, sh.heap, sh'.heap, sh.master, s, pc.v, epoch);
    AppendedHeap(g, sh, epoch, s);
    MakeData(sh'.(region := Some(WithAppended(g, s, pc.v))), apc[s := pc], epoch, base, before);
  }

  // ---------- initialize_the_row ----------

  /** No version of this epoch exists yet. */
  lemma NothingCurrent(heap: map<VersionId, Cell>, apc: map<nat, AppendPc>, epoch: nat, v: VersionId)
    requires CellsOk(heap, apc, epoch) && v in heap && forall s :: s in apc ==> !HasVersion(apc[s])
    ensures !Current(heap[v].owner, epoch) && heap[v].status == Stable && heap[v].rec.Some?
  {
  }

  /** The entries of a global array that is at rest: live, STABLE, distinct, and none is the master version. */
  lemma EntriesCanBeFreed(sh: Shared, apc: map<nat, AppendPc>, epoch: nat, before: Tag, n: nat)
    requires StoreOk(sh.slots, sh.region) && PlaceOk(sh.slots, sh.region, sh.heap, sh.master) && n < |sh.slots|
    requires MasterOk(sh.heap, sh.master, before, epoch)
    requires CellsOk(sh.heap, apc, epoch) && forall s :: s in apc ==> !HasVersion(apc[s])
    ensures var vs := EntryVersions(sh.slots[..n]) + [sh.master];
      && CanFree(sh, vs) && |vs| == n + 1
      && sh.slots[n].v in sh.heap && sh.slots[n].v !in vs
  {
    hide CellsOk, ArraysOk, RegionOk;
    var vs := EntryVersions(sh.slots[..n]) + [sh.master];
    forall i | 0 <= i <= n
      ensures sh.slots[i].v in sh.heap && sh.slots[i].v != sh.master && SerialOf(sh.heap[sh.slots[i].v].owner) == sh.slots[i].id
    {
      assert sh.slots[i] == Slot(sh.slots[i].id, sh.slots[i].v) && Has(sh.slots, sh.slots[i].id, sh.slots[i].v);
    }
    forall v | v in vs
      ensures v in sh.heap && sh.heap[v].rec.Some? && sh.heap[v].status == Stable
    {
      NothingCurrent(sh.heap, apc, epoch, v);
    }
    forall i, j | 0 <= i < j < |vs|
      ensures vs[i] != vs[j]
    {
      if j < n { assert sh.slots[i].id < sh.slots[j].id; }
    }
  }

  lemma TopOfVector(slots: seq<Slot>, heap: map<VersionId, Cell>, base: Tag)
    requires Sorted(slots) && slots != [] && RestOk(slots, None, heap, base)
    ensures slots[|slots| - 1].v in heap && heap[slots[|slots| - 1].v].rec == Some(base)
  {
    var id: int, v: VersionId :| IsTop(slots, None, id, v) && v in heap && heap[v].rec == Some(base);
    var last := slots[|slots| - 1];
    assert slots[|slots| - 1] == Slot(last.id, last.v) && Has(slots, last.id, last.v);
    assert Stored(slots, None, last.id, last.v);
    var i :| 0 <= i < |slots| && slots[i] == Slot(id, v);
  }

  lemma EmptyRowOk(master: VersionId, heap: map<VersionId, Cell>, apc: map<nat, AppendPc>, epoch: nat)
    requires forall s :: s in apc ==> !HasVersion(apc[s])
    ensures StoreOk([], None) && ContentOk([], None, apc) && PlaceOk([], None, heap, master) && StaleOk(None, heap, epoch)
    ensures HandlesOk(heap, apc, map[], epoch)
  {
    EmptyIsSorted();
    hide Has;
  }

  /** Everything but the last entry is gone, and that one is the master version. */
  lemma OnlyLastIsLeft(sh: Shared, heap': map<VersionId, Cell>, deleted': nat, n: nat)
    requires HeapOk(sh.slots, None, sh.heap, sh.master, sh.created, sh.deleted) && |sh.slots| == n + 1
    requires Fewer(sh.heap, heap', EntryVersions(sh.slots[..n]) + [sh.master])
    requires |heap'| + deleted' == |sh.heap| + sh.deleted
    ensures HeapOk([], None, heap', sh.slots[n].v, sh.created, deleted')
  {
    var vs := EntryVersions(sh.slots[..n]) + [sh.master];
    forall v | v in heap'
      ensures v == sh.slots[n].v
    {
      assert sh.master == vs[n];
      assert Has(sh.slots, SerialOf(sh.heap[v].owner), v);
      var i :| 0 <= i < |sh.slots| && sh.slots[i].v == v;
      if i < n { InVersions(sh.slots[..n], i); }
    }
  }

  lemma InVersions(a: seq<Slot>, i: nat)
    requires i < |a|
    ensures a[i].v in EntryVersions(a)
  {
    assert EntryVersions(a)[i] == a[i].v;
  }

  lemma InitializeArray(sh: Shared, apc: map<nat, AppendPc>, epoch: nat, base: Tag, before: Tag)
    requires Data(sh, apc, map[], epoch, base, before) && sh.inits == 0 && sh.slots != []
    requires forall s :: s in apc ==> !HasVersion(apc[s])
    ensures sh.region.None?
    ensures var n := |sh.slots| - 1; var vs := EntryVersions(sh.slots[..n]) + [sh.master]; var sh' := Free(sh, vs);
      && sh' == sh.(heap := sh'.heap, deleted := sh'.deleted)
      && Data(sh'.(slots := [], master := sh.slots[n].v, inits := 1), apc, map[], epoch, base, before)
  {
    hide Data, ContentOk, RestOk, MasterOk, PlaceOk, StaleOk, CellsOk, HeapOk, HandlesOk, Handed, Sorted, RegionOk,
      Free, CanFree;
    DataParts(sh, apc, epoch, base, before);
    var n: nat := |sh.slots| - 1;
    var vs := EntryVersions(sh.slots[..n]) + [sh.master];
    hide StoreOk, EntryVersions;
    EntriesCanBeFreed(sh, apc, epoch, before, n);
    FreeCounts(sh, vs);
    var sh' := Free(sh, vs);
    FewerCells(sh.heap, sh'.heap, vs, apc, epoch);
    TopOfVector(sh.slots, sh.heap, base);
    NothingCurrent(sh.heap, apc, epoch, sh.slots[n].v);
    NewMaster(sh.heap, sh'.heap, vs, sh.slots[n].v, base, epoch);
    EmptyRowOk(sh.slots[n].v, sh'.heap, apc, epoch);
    OnlyLastIsLeft(sh, sh'.heap, sh'.deleted, n);
    MakeData(sh'.(slots := [], master := sh.slots[n].v, inits := 1), apc, epoch, base, before);
  }

  lemma NewMaster(heap: map<VersionId, Cell>, heap': map<VersionId, Cell>, gone: seq<VersionId>, v: VersionId,
                  base: Tag, epoch: nat)
    requires Fewer(heap, heap', gone) && v in heap && v !in gone
    requires heap[v].rec == Some(base) && heap[v].status == Stable && !Current(heap[v].owner, epoch)
    ensures MasterOk(heap', v, base, epoch)
  {
  }

  // with a region

  /** The final state of a region at rest: the last version of the greatest core. */
  lemma TopOfRegion(g: Region, heap: map<VersionId, Cell>, base: Tag)
    requires StoreOk([], Some(g)) && RestOk([], Some(g), heap, base)
    ensures g.core != Zero() && 0 <= FindLargest(g.core) < WIDTH && g.core[FindLargest(g.core)]
    ensures |g.arrays| == WIDTH && |g.arrays[FindLargest(g.core)].slots| == CountBits(g.arrays[FindLargest(g.core)].bits) > 0
    ensures var a := g.arrays[FindLargest(g.core)];
      a.slots[|a.slots| - 1] in heap && heap[a.slots[|a.slots| - 1]].rec == Some(base)
  {
    hide CountBits, CoreHas, RegionHas, FindLargest, Zero;
    var id: int, v: VersionId :| IsTop([], Some(g), id, v) && v in heap && heap[v].rec == Some(base);
    HasInArray(g, id, v);
    NonZeroHasPosition(g.core);
    LargestIsMax(g.core);
    var c := FindLargest(g.core);
    var a := g.arrays[c];
    LargestIsMax(a.bits);
    var t := FindLargest(a.bits);
    LastAtLargest(a, t);
    RegionHasCore(g, c, t, a.slots[|a.slots| - 1]);
    SerialAddress(c, t);
    assert Stored([], Some(g), c * WIDTH + t, a.slots[|a.slots| - 1]);
    TopIsThis(g, id, v, c, t, a.slots[|a.slots| - 1]);
  }

  /** The version of the greatest set bit is the last one. */
  lemma LastAtLargest(a: PerCore, t: nat)
    requires CoreOk(a) && IsMaxBelow(t, Positions(a.bits), WIDTH)
    ensures |a.slots| > 0 && CoreHas(a, t, a.slots[|a.slots| - 1])
  {
    RankInArray(a, t);
    var rest := a.bits[t + 1..];
    forall i | 0 <= i < |rest| ensures !rest[i] {
      assert rest[i] ==> t + 1 + i in Positions(a.bits);
    }
    CountBitsOfZeros(rest);
    CountBitsConcat(a.bits[..t + 1], rest);
    assert a.bits == a.bits[..t + 1] + rest;
    assert a.bits[..t + 1][..t] == a.bits[..t];
  }

  /** Two greatest entries are the same one. */
  lemma TopIsThis(g: Region, id: int, v: VersionId, c: nat, t: nat, u: VersionId)
    requires RegionOk(g) && c < WIDTH && t < WIDTH
    requires IsMaxBelow(c, Positions(g.core), WIDTH) && IsMaxBelow(t, Positions(g.arrays[c].bits), WIDTH)
    requires IsTop([], Some(g), id, v)
    requires RegionHas(g, c * WIDTH + t, u)
    ensures RegionHas(g, c * WIDTH + t, v) && g.arrays[c].slots != [] && v == g.arrays[c].slots[|g.arrays[c].slots| - 1]
  {
    hide CountBits, CoreHas;
    assert Stored([], Some(g), c * WIDTH + t, u);
    HasInArray(g, id, v);
    CoreHasBit(g.arrays[id / WIDTH], id % WIDTH, v);
    assert id / WIDTH in Positions(g.core) && id % WIDTH in Positions(g.arrays[id / WIDTH].bits);
    SerialAddress(c, t);
    assert id == c * WIDTH + t;
    LastAtLargest(g.arrays[c], t);
    RegionHasCore(g, c, t, v);
    CoreHasUnique(g.arrays[c], t, v, g.arrays[c].slots[|g.arrays[c].slots| - 1]);
  }

  lemma CoreHasUnique(a: PerCore, t: nat, v: VersionId, u: VersionId)
    requires CoreHas(a, t, v) && CoreHas(a, t, u)
    ensures v == u
  {
  }

  /** The popped version is in no array any more, and the old master version never was. */
  lemma PoppedPlace(g: Region, g': Region, heap: map<VersionId, Cell>, heap': map<VersionId, Cell>, master: VersionId,
                    c: nat, epoch: nat, apc: map<nat, AppendPc>)
    requires PlaceOk([], Some(g), heap, master) && c < WIDTH && g.arrays[c].slots != [] && Fewer(heap, heap', [master])
    requires CellsOk(heap, apc, epoch) && forall s :: s in apc ==> !HasVersion(apc[s])
    requires var a := g.arrays[c];
      g' == Region(Zero(), g.arrays[c := PerCore(a.bits, a.slots[..|a.slots| - 1])])
    ensures var a := g.arrays[c];
      PlaceOk([], Some(g'), heap', a.slots[|a.slots| - 1]) && StaleOk(Some(g'), heap', epoch)
  {
    hide ArrayOk, CellsOk, Has, NoneCurrent;
    EmptyIsSorted();
    var a := g.arrays[c];
    var v := a.slots[|a.slots| - 1];
    forall d: nat | d < WIDTH
      ensures ArrayOk(heap', v, g'.arrays[d].slots, d)
      ensures NoneCurrent(heap', g'.arrays[d].slots, epoch)
    {
      assert ArrayOk(heap, master, g.arrays[d].slots, d);
      if d == c {
        PoppedArray(heap, heap', master, a.slots, c);
      } else {
        CoresAreApart(heap, master, g.arrays, c, d);
        assert v in a.slots;
        OtherMaster(heap, heap', master, v, g.arrays[d].slots, d);
      }
      NoneIsCurrent(heap, heap', [master], apc, epoch, g'.arrays[d].slots);
    }
  }

  lemma NoneIsCurrent(heap: map<VersionId, Cell>, heap': map<VersionId, Cell>, gone: seq<VersionId>,
                      apc: map<nat, AppendPc>, epoch: nat, vs: seq<VersionId>)
    requires CellsOk(heap, apc, epoch) && Fewer(heap, heap', gone) && forall s :: s in apc ==> !HasVersion(apc[s])
    ensures NoneCurrent(heap', vs, epoch)
  {
  }

  lemma PoppedArray(heap: map<VersionId, Cell>, heap': map<VersionId, Cell>, master: VersionId, vs: seq<VersionId>, c: nat)
    requires ArrayOk(heap, master, vs, c) && vs != [] && Fewer(heap, heap', [master])
    ensures ArrayOk(heap', vs[|vs| - 1], vs[..|vs| - 1], c)
  {
    var n := |vs| - 1;
    forall v | v in vs[..n]
      ensures EntryOk(heap', vs[n], v) && heap'[v].owner.By? && heap'[v].owner.serial / WIDTH == c
    {
      var i :| 0 <= i < n && vs[i] == v;
      assert SmallerSerial(heap, vs[i], vs[n]);
    }
    forall i, j | 0 <= i < j < n
      ensures SmallerSerial(heap', vs[i], vs[j])
    {
      assert SmallerSerial(heap, vs[i], vs[j]);
      assert vs[i] in vs && vs[j] in vs;
    }
  }

  lemma OtherMaster(heap: map<VersionId, Cell>, heap': map<VersionId, Cell>, master: VersionId, master': VersionId,
                    vs: seq<VersionId>, c: nat)
    requires ArrayOk(heap, master, vs, c) && Fewer(heap, heap', [master]) && master' !in vs
    ensures ArrayOk(heap', master', vs, c)
  {
    forall i, j | 0 <= i < j < |vs|
      ensures SmallerSerial(heap', vs[i], vs[j])
    {
      assert SmallerSerial(heap, vs[i], vs[j]);
    }
  }

  lemma PoppedHeap(g: Region, g': Region, sh: Shared, heap': map<VersionId, Cell>, deleted': nat, c: nat)
    requires HeapOk([], Some(g), sh.heap, sh.master, sh.created, sh.deleted) && |g.arrays| == WIDTH
    requires c < WIDTH && g.arrays[c].slots != [] && Fewer(sh.heap, heap', [sh.master])
    requires |heap'| + deleted' == |sh.heap| + sh.deleted
    requires var a := g.arrays[c];
      g' == Region(Zero(), g.arrays[c := PerCore(a.bits, a.slots[..|a.slots| - 1])])
    ensures var a := g.arrays[c];
      HeapOk([], Some(g'), heap', a.slots[|a.slots| - 1], sh.created, deleted')
  {
    EmptyIsSorted();
    hide Has, Zero;
    var a := g.arrays[c];
    var n := |a.slots| - 1;
    forall v | v in heap'
      ensures Located([], Some(g'), a.slots[n], heap'[v].owner, v)
    {
      assert Located([], Some(g), sh.master, sh.heap[v].owner, v);
      if v != a.slots[n] && sh.heap[v].owner.serial / WIDTH == c {
        var i :| 0 <= i < |a.slots| && a.slots[i] == v;
        assert a.slots[..n][i] == v;
      }
    }
  }

  lemma PoppedStore(g': Region, apc: map<nat, AppendPc>)
    requires |g'.arrays| == WIDTH && g'.core == Zero() && forall s :: s in apc ==> !HasVersion(apc[s])
    ensures StoreOk([], Some(g')) && ContentOk([], Some(g'), apc)
  {
    EmptyIsSorted();
    hide CoreHas;
  }

  lemma NoHandles(heap: map<VersionId, Cell>, apc: map<nat, AppendPc>, epoch: nat)
    requires forall s :: s in apc ==> !HasVersion(apc[s])
    ensures HandlesOk(heap, apc, map[], epoch)
  {
  }

  lemma InitializeRegion(sh: Shared, apc: map<nat, AppendPc>, epoch: nat, base: Tag, before: Tag)
    requires Data(sh, apc, map[], epoch, base, before) && sh.inits == 0 && sh.slots == [] && sh.region.Some?
    requires forall s :: s in apc ==> !HasVersion(apc[s])
    ensures var g := sh.region.value; var c := FindLargest(g.core);
      && g.core != Zero() && |g.arrays| == WIDTH && 0 <= c < WIDTH
      && |g.arrays[c].slots| == CountBits(g.arrays[c].bits) > 0
      && var a := g.arrays[c]; var n := |a.slots| - 1; var sh' := Free(sh, [sh.master]);
      && sh' == sh.(heap := sh'.heap, deleted := sh'.deleted)
      && Data(sh'.(master := a.slots[n], region := Some(Region(Zero(), g.arrays[c := PerCore(a.bits, a.slots[..n])])), inits := 1),
              apc, map[], epoch, base, before)
  {
    hide Data, StoreOk, ContentOk, RestOk, MasterOk, PlaceOk, StaleOk, CellsOk, HeapOk, HandlesOk, Handed, Free,
      CanFree, FindLargest, CountBits, Zero;
    DataParts(sh, apc, epoch, base, before);
    var g := sh.region.value;
    TopOfRegion(g, sh.heap, base);
    var c: nat := FindLargest(g.core);
    var a := g.arrays[c];
    var v := a.slots[|a.slots| - 1];
    MasterIsLive(sh.heap, sh.master, before, epoch);
    MasterCanBeFreed(sh, before, epoch);
    FreeCounts(sh, [sh.master]);
    var sh' := Free(sh, [sh.master]);
    var g' := Region(Zero(), g.arrays[c := PerCore(a.bits, a.slots[..|a.slots| - 1])]);
    FewerCells(sh.heap, sh'.heap, [sh.master], apc, epoch);
    NothingCurrent(sh.heap, apc, epoch, v);
    ArrayAt([], g, sh.heap, sh.master, c);
    NotMaster(sh.heap, sh.master, a.slots, c);
    NewMaster(sh.heap, sh'.heap, [sh.master], v, base, epoch);
    PoppedPlace(g, g', sh.heap, sh'.heap, sh.master, c, epoch, apc);
    PoppedHeap(g, g', sh, sh'.heap, sh'.deleted, c);
    PoppedStore(g', apc);
    NoHandles(sh'.heap, apc, epoch);
    MakeData(sh'.(master := v, region := Some(g'), inits := 1), apc, epoch, base, before);
  }

  lemma MasterCanBeFreed(sh: Shared, tag: Tag, epoch: nat)
    requires MasterOk(sh.heap, sh.master, tag, epoch)
    ensures CanFree(sh, [sh.master])
  {
  }

  lemma NotMaster(heap: map<VersionId, Cell>, master: VersionId, vs: seq<VersionId>, c: nat)
    requires ArrayOk(heap, master, vs, c) && vs != []
    ensures vs[|vs| - 1] != master
  {
    assert vs[|vs| - 1] in vs;
  }

  /** A row that is at rest holds something. */
  lemma RestIsDirty(slots: seq<Slot>, region: Option<Region>, heap: map<VersionId, Cell>, base: Tag)
    requires StoreOk(slots, region) && RestOk(slots, region, heap, base)
    ensures slots != [] || region.Some?
  {
    var id: int, v: VersionId :| IsTop(slots, region, id, v) && v in heap && heap[v].rec == Some(base);
  }

  /** initialize_the_row: no assertion fails, and the row's content becomes the master version. */
  lemma InitializeData(sh: Shared, apc: map<nat, AppendPc>, epoch: nat, base: Tag, before: Tag)
    requires Data(sh, apc, map[], epoch, base, before) && sh.inits == 0
    requires forall s :: s in apc ==> !HasVersion(apc[s])
    ensures var sh' := Initialize(sh);
      && Data(sh', apc, map[], epoch, base, before)
      && sh' == sh.(heap := sh'.heap, deleted := sh'.deleted, master := sh'.master, slots := sh'.slots, region := sh'.region, inits := 1)
      && (sh'.region.Some? <==> sh.region.Some?)
      && (sh'.region.Some? ==> sh'.region.value.core == Zero())
  {
    hide Data, StoreOk, RestOk, Free, FindLargest, CountBits, Zero;
    DataParts(sh, apc, epoch, base, before);
    RestIsDirty(sh.slots, sh.region, sh.heap, base);
    if sh.slots != [] {
      InitializeArray(sh, apc, epoch, base, before);
      FreeIgnoresInits(sh, EntryVersions(sh.slots[..|sh.slots| - 1]) + [sh.master]);
    } else {
      InitializeRegion(sh, apc, epoch, base, before);
      FreeIgnoresInits(sh, [sh.master]);
    }
  }

  lemma FreeIgnoresInits(sh: Shared, vs: seq<VersionId>)
    ensures Free(sh.(inits := sh.inits + 1), vs) == Free(sh, vs).(inits := sh.inits + 1)
  {
  }
}
