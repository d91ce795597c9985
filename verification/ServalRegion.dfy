/**
  Serval's two ways of keeping the versions of a row (protocols/serval/include/row_region.hpp): the
  sorted global array, and the row region with one version array per core, in which a transaction
  bitmap says whose version stands at which rank.
 */
module ServalRegion {
  import opened Bits
  import opened TwoLevelBitmap
  import opened Versions
  import opened SortedSlots

  datatype PerCore = PerCore(bits: Word, slots: seq<VersionId>)

  datatype Region = Region(core: Word, arrays: seq<PerCore>)

  // ---------- the operations ----------

  /** PerCoreVersionArray::append; the version goes behind as many entries as bits are set. */
  function Append(a: PerCore, v: VersionId, tx: nat): PerCore
    requires tx < WIDTH && CountBits(a.bits) <= |a.slots|
  {
    var len := CountBits(a.bits);
    PerCore(SetBit(a.bits, tx), a.slots[..len] + [v] + a.slots[len..])
  }

  /** PerCoreVersionArray::get, the position it looks at. */
  function IndexOf(a: PerCore, tx: nat): int
    requires tx < WIDTH
  {
    CountBits(And(a.bits, FillLeftUntil(tx))) - 1
  }

  function EmptyArray(): PerCore {
    PerCore(Zero(), [])
  }

  function FreshRegion(): Region {
    Region(Zero(), seq(WIDTH, _ => EmptyArray()))
  }

  /** RowRegion::append on a region that no other thread sees; a core's first write empties its array. */
  function RegionAppend(g: Region, core: nat, v: VersionId, tx: nat): Region
    requires core < WIDTH && tx < WIDTH && |g.arrays| == WIDTH
    requires IsBitSet(g.core, core) ==> CountBits(g.arrays[core].bits) <= |g.arrays[core].slots|
  {
    var a := if IsBitSet(g.core, core) then g.arrays[core] else EmptyArray();
    CountBitsOfZeros(Zero());
    Region(SetBit(g.core, core), g.arrays[core := Append(a, v, tx)])
  }

  /** The vector can be moved: serial ids of one epoch, none of them in the region yet. */
  predicate Movable(a: seq<Slot>, g: Region) {
    && RegionOk(g) && Sorted(a)
    && forall i :: 0 <= i < |a| ==> 0 <= a[i].id < EPOCH_SIZE && !RegionHasId(g, a[i].id)
  }

  /** move_global_array_to_row_region */
  function Move(a: seq<Slot>, g: Region): Region
    requires Movable(a, g)
    decreases |a|
  {
    if a == [] then g
    else
      MoveOne(a, g);
      Move(a[1..], RegionAppend(g, a[0].id / WIDTH, a[0].v, a[0].id % WIDTH))
  }

  /** identify_visible_version: {found, core, tx} */
  function IdentifyVisible(g: Region, core: nat, tx: nat): (bool, nat, nat)
    requires core < WIDTH && tx < WIDTH && RegionOk(g) && Settled(g)
  {
    var (second, first) := FindTwoLargestAmongOrLessThan(g.core, core);
    TwoLargestAreTheMaxima(g.core, core);
    if first == -1 then (false, 0, 0)
    else if first == core then
      SearchLessThan(g.arrays[first].bits, tx);
      var firstTx := FindLargestLessThan(g.arrays[first].bits, tx);
      if firstTx != -1 then (true, first, firstTx)
      else if second != -1 then
        LargestIsMax(g.arrays[second].bits);
        (true, second, FindLargest(g.arrays[second].bits))
      else (false, 0, 0)
    else
      LargestIsMax(g.arrays[first].bits);
      (true, first, FindLargest(g.arrays[first].bits))
  }

  // ---------- what the structure represents ----------

  /** As many versions as set bits. A popped or stale array does not satisfy this. */
  predicate CoreOk(a: PerCore) {
    |a.slots| == CountBits(a.bits)
  }

  predicate RegionOk(g: Region) {
    && |g.arrays| == WIDTH
    && forall c: nat :: c < WIDTH && g.core[c] ==> CoreOk(g.arrays[c])
  }

  /** Every core in the core bitmap has written: no append is in the middle. */
  predicate Settled(g: Region)
    requires |g.arrays| == WIDTH
  {
    forall c: nat :: c < WIDTH && g.core[c] ==> g.arrays[c].bits != Zero()
  }

  predicate CoreHas(a: PerCore, tx: nat, v: VersionId) {
    tx < WIDTH && a.bits[tx] && CountBits(a.bits[..tx]) < |a.slots| && a.slots[CountBits(a.bits[..tx])] == v
  }

  /** Transaction `id % 64` of core `id / 64` has version `v`. */
  predicate RegionHas(g: Region, id: int, v: VersionId) {
    && 0 <= id < EPOCH_SIZE && |g.arrays| == WIDTH
    && g.core[id / WIDTH] && CoreHas(g.arrays[id / WIDTH], id % WIDTH, v)
  }

  predicate RegionHasId(g: Region, id: int) {
    0 <= id < EPOCH_SIZE && |g.arrays| == WIDTH && g.core[id / WIDTH] && g.arrays[id / WIDTH].bits[id % WIDTH]
  }

  lemma RankInArray(a: PerCore, tx: nat)
    requires CoreOk(a) && tx < WIDTH && a.bits[tx]
    ensures CountBits(a.bits[..tx]) < |a.slots|
  {
    CountBitsMonotone(a.bits, tx, WIDTH);
    assert a.bits[..WIDTH] == a.bits;
  }

  lemma RegionHasIdIsHas(g: Region, id: int)
    requires RegionOk(g)
    ensures RegionHasId(g, id) <==> exists v: VersionId :: RegionHas(g, id, v)
  {
    if RegionHasId(g, id) {
      RankInArray(g.arrays[id / WIDTH], id % WIDTH);
      var v := g.arrays[id / WIDTH].slots[CountBits(g.arrays[id / WIDTH].bits[..id % WIDTH])];
      assert RegionHas(g, id, v);
    }
  }

  /** get returns the version that stands at the transaction's rank. */
  lemma GetIsRank(a: PerCore, tx: nat, v: VersionId)
    requires CoreHas(a, tx, v)
    ensures 0 <= IndexOf(a, tx) < |a.slots| && a.slots[IndexOf(a, tx)] == v
  {
    MaskedCountUntilIsRank(a.bits, tx);
    assert a.bits[..tx + 1][..tx] == a.bits[..tx] && a.bits[..tx + 1][tx];
  }

  /** Appending behind everything the core has: nothing moves, and exactly the new version is added. */
  lemma AppendAdds(a: PerCore, v: VersionId, tx: nat, t: nat, u: VersionId)
    requires CoreOk(a) && tx < WIDTH && NoneAbove(a.bits, tx) && t < WIDTH
    ensures CoreOk(Append(a, v, tx))
    ensures CoreHas(Append(a, v, tx), t, u) <==> CoreHas(a, t, u) || (t == tx && u == v)
  {
    SetBitIsUpdate(a.bits, tx);
    CountAfterSet(a.bits, tx, WIDTH);
    CountAfterSet(a.bits, tx, t);
    CountAfterSet(a.bits, tx, tx);
    assert a.bits[..WIDTH] == a.bits && a.bits[tx := true][..WIDTH] == a.bits[tx := true];
    RankOfNext(a.bits, tx);
    if a.bits[t] { RankInArray(a, t); }
  }

  /** All set positions lie to the left of `tx`. */
  predicate NoneAbove(w: Word, tx: nat) {
    forall t: nat :: t < WIDTH && w[t] ==> t < tx
  }

  lemma RankOfNext(w: Word, tx: nat)
    requires tx < WIDTH && NoneAbove(w, tx)
    ensures CountBits(w[..tx]) == CountBits(w)
  {
    CountBitsConcat(w[..tx], w[tx..]);
    CountBitsOfZeros(w[tx..]);
    assert w == w[..tx] + w[tx..];
  }

  lemma AppendIsOk(g: Region, core: nat, v: VersionId, tx: nat)
    requires RegionOk(g) && core < WIDTH && tx < WIDTH
    ensures IsBitSet(g.core, core) ==> CountBits(g.arrays[core].bits) <= |g.arrays[core].slots|
    ensures !IsBitSet(g.core, core) || !g.arrays[core].bits[tx] ==> RegionOk(RegionAppend(g, core, v, tx))
  {
    hide CountBits, IsBitSet, And, BitAt, Zero;
    IsBitSetIsIndex(g.core, core);
    SetBitIsUpdate(g.core, core);
    if !IsBitSet(g.core, core) || !g.arrays[core].bits[tx] {
      var a := if IsBitSet(g.core, core) then g.arrays[core] else EmptyArray();
      EmptyIsOk();
      AppendCount(a, v, tx);
    }
  }

  lemma EmptyIsOk()
    ensures CoreOk(EmptyArray()) && forall t: nat :: t < WIDTH ==> !EmptyArray().bits[t]
  {
    CountBitsOfZeros(Zero());
  }

  lemma AppendCount(a: PerCore, v: VersionId, tx: nat)
    requires CoreOk(a) && tx < WIDTH && !a.bits[tx]
    ensures CoreOk(Append(a, v, tx))
  {
    SetBitIsUpdate(a.bits, tx);
    CountAfterSet(a.bits, tx, WIDTH);
    assert a.bits[..WIDTH] == a.bits && a.bits[tx := true][..WIDTH] == a.bits[tx := true];
  }

  // ---------- moving ----------

  /** The whole append on a region: its core's array, emptied first if this is the core's first write. */
  lemma RegionAppendIds(g: Region, core: nat, v: VersionId, tx: nat, id: int)
    requires RegionOk(g) && core < WIDTH && tx < WIDTH
    requires IsBitSet(g.core, core) ==> CountBits(g.arrays[core].bits) <= |g.arrays[core].slots|
    ensures RegionHasId(RegionAppend(g, core, v, tx), id) <==> RegionHasId(g, id) || id == core * WIDTH + tx
  {
    hide CountBits, And, BitAt, Zero, IsBitSet, CoreOk;
    IsBitSetIsIndex(g.core, core);
    SetBitIsUpdate(g.core, core);
    EmptyIsOk();
    SerialAddress(core, tx);
    var a := if IsBitSet(g.core, core) then g.arrays[core] else EmptyArray();
    SetBitIsUpdate(a.bits, tx);
  }

  lemma MoveOne(a: seq<Slot>, g: Region)
    requires Movable(a, g) && a != []
    ensures 0 <= a[0].id < EPOCH_SIZE && a[0].id / WIDTH < WIDTH
    ensures var c, t := a[0].id / WIDTH, a[0].id % WIDTH;
      && (IsBitSet(g.core, c) ==> CountBits(g.arrays[c].bits) <= |g.arrays[c].slots|)
      && Movable(a[1..], RegionAppend(g, c, a[0].v, t))
  {
    hide CountBits, IsBitSet, RegionAppend, RegionHasId, Sorted, RegionOk;
    var c, t := a[0].id / WIDTH, a[0].id % WIDTH;
    RegionArrays(g);
    FreeBit(g, a[0].id);
    AppendIsOk(g, c, a[0].v, t);
    assert Sorted(a[1..]) by { SortedTail(a); }
    forall i | 0 <= i < |a[1..]|
      ensures 0 <= a[1..][i].id < EPOCH_SIZE && !RegionHasId(RegionAppend(g, c, a[0].v, t), a[1..][i].id)
    {
      SortedTail(a);
      assert a[1..][i] == a[i + 1];
      RegionAppendIds(g, c, a[0].v, t, a[i + 1].id);
    }
  }

  lemma FreeBit(g: Region, id: nat)
    requires RegionOk(g) && id < EPOCH_SIZE && !RegionHasId(g, id)
    ensures !IsBitSet(g.core, id / WIDTH) || !g.arrays[id / WIDTH].bits[id % WIDTH]
  {
    hide CountBits, IsBitSet;
    IsBitSetIsIndex(g.core, id / WIDTH);
  }

  lemma SortedTail(a: seq<Slot>)
    requires Sorted(a) && a != []
    ensures Sorted(a[1..]) && forall i :: 0 < i < |a| ==> a[0].id < a[i].id
  {
  }

  /** The append puts exactly the new version into the region, if it is behind what its core has. */
  lemma RegionAppendAdds(g: Region, core: nat, v: VersionId, tx: nat, id: int, u: VersionId)
    requires RegionOk(g) && core < WIDTH && tx < WIDTH
    requires g.core[core] ==> NoneAbove(g.arrays[core].bits, tx)
    requires IsBitSet(g.core, core) ==> CountBits(g.arrays[core].bits) <= |g.arrays[core].slots|
    ensures RegionHas(RegionAppend(g, core, v, tx), id, u) <==> RegionHas(g, id, u) || (id == core * WIDTH + tx && u == v)
  {
    hide CountBits, And, BitAt, Zero, IsBitSet, CoreHas, CoreOk;
    IsBitSetIsIndex(g.core, core);
    SetBitIsUpdate(g.core, core);
    SerialAddress(core, tx);
    EmptyIsOk();
    var a := if IsBitSet(g.core, core) then g.arrays[core] else EmptyArray();
    if 0 <= id < EPOCH_SIZE && id / WIDTH == core {
      AppendAdds(a, v, tx, id % WIDTH, u);
      EmptyHasNone(id % WIDTH, u);
    }
  }

  lemma EmptyHasNone(t: nat, u: VersionId)
    ensures !CoreHas(EmptyArray(), t, u)
  {
  }

  /** Everything in the region has a smaller serial id than everything in the vector. */
  ghost predicate Below(g: Region, a: seq<Slot>) {
    forall id: int, i: nat :: i < |a| && RegionHasId(g, id) ==> id < a[i].id
  }

  /** Moving a sorted vector behind what the region has: the region then has both. */
  lemma {:induction false} MoveIsUnion(a: seq<Slot>, g: Region, id: int, v: VersionId)
    requires Movable(a, g) && Below(g, a)
    ensures RegionOk(Move(a, g))
    ensures RegionHas(Move(a, g), id, v) <==> RegionHas(g, id, v) || Has(a, id, v)
    decreases |a|
  {
    hide RegionOk, RegionAppend, RegionHas, RegionHasId, CountBits, IsBitSet, Has;
    if a == [] {
      EmptyVector(id, v);
      assert RegionOk(g);
    } else {
      var c, t := a[0].id / WIDTH, a[0].id % WIDTH;
      MoveOne(a, g);
      MovableArrays(a, g);
      RegionArrays(g);
      var g' := RegionAppend(g, c, a[0].v, t);
      BelowAfterOne(a, g);
      MoveIsUnion(a[1..], g', id, v);
      BitsBelow(a, g);
      RegionAppendAdds(g, c, a[0].v, t, id, v);
      HasTail(a, id, v);
    }
  }

  lemma EmptyVector(id: int, v: VersionId)
    ensures !Has([], id, v)
  {
  }

  lemma BitsBelow(a: seq<Slot>, g: Region)
    requires RegionOk(g) && Below(g, a) && a != [] && 0 <= a[0].id < EPOCH_SIZE
    ensures var c, t := a[0].id / WIDTH, a[0].id % WIDTH;
      g.core[c] ==> NoneAbove(g.arrays[c].bits, t)
  {
    var c, t := a[0].id / WIDTH, a[0].id % WIDTH;
    if g.core[c] {
      forall u: nat | u < WIDTH && g.arrays[c].bits[u]
        ensures u < t
      {
        SerialAddress(c, u);
        assert RegionHasId(g, c * WIDTH + u);
      }
    }
  }

  lemma BelowAfterOne(a: seq<Slot>, g: Region)
    requires Movable(a, g) && Below(g, a) && a != []
    ensures var c, t := a[0].id / WIDTH, a[0].id % WIDTH;
      && (IsBitSet(g.core, c) ==> CountBits(g.arrays[c].bits) <= |g.arrays[c].slots|)
      && Below(RegionAppend(g, c, a[0].v, t), a[1..])
  {
    hide RegionOk, RegionAppend, RegionHasId, CountBits, IsBitSet;
    var c, t := a[0].id / WIDTH, a[0].id % WIDTH;
    MoveOne(a, g);
    MovableArrays(a, g);
    RegionArrays(g);
    SortedTail(a);
    forall id: int, i: nat | i < |a[1..]| && RegionHasId(RegionAppend(g, c, a[0].v, t), id)
      ensures id < a[1..][i].id
    {
      RegionAppendIds(g, c, a[0].v, t, id);
      assert a[1..][i] == a[i + 1];
    }
  }

  lemma FreshHasNothing()
    ensures RegionOk(FreshRegion()) && Settled(FreshRegion())
    ensures forall id: int :: !RegionHasId(FreshRegion(), id)
    ensures forall id: int, v: VersionId :: !RegionHas(FreshRegion(), id, v)
  {
  }

  /** The region that the move produces has exactly what the global array had. */
  lemma MoveKeepsContent(a: seq<Slot>)
    requires Sorted(a) && forall i :: 0 <= i < |a| ==> 0 <= a[i].id < EPOCH_SIZE
    ensures Movable(a, FreshRegion()) && RegionOk(Move(a, FreshRegion()))
    ensures forall id: int, v: VersionId :: RegionHas(Move(a, FreshRegion()), id, v) <==> Has(a, id, v)
  {
    hide RegionOk, RegionHas, RegionHasId, FreshRegion, Sorted, Move, Has;
    FreshHasNothing();
    MoveIsUnion(a, FreshRegion(), 0, 0);
    forall id: int, v: VersionId
      ensures RegionHas(Move(a, FreshRegion()), id, v) <==> Has(a, id, v)
    {
      MoveIsUnion(a, FreshRegion(), id, v);
    }
  }

  // ---------- lookups ----------

  ghost function BitsOfCores(g: Region): (m: map<nat, Word>)
    requires |g.arrays| == WIDTH
    ensures m.Keys == Positions(g.core) && forall c :: c in m.Keys ==> m[c] == g.arrays[c].bits
  {
    BitsExist(g);
    var m: map<nat, Word> :| m.Keys == Positions(g.core) && forall c :: c in m.Keys ==> m[c] == g.arrays[c].bits;
    m
  }

  lemma BitsExist(g: Region)
    requires |g.arrays| == WIDTH
    ensures exists m: map<nat, Word> :: m.Keys == Positions(g.core) && forall c :: c in m.Keys ==> m[c] == g.arrays[c].bits
  {
    var m := map c | c in Positions(g.core) :: g.arrays[c].bits;
    assert m.Keys == Positions(g.core);
  }

  /** `id` is the greatest serial id below the limit that has a version in the region. */
  ghost predicate IsVisibleId(g: Region, limit: int, id: int) {
    RegionHasId(g, id) && id < limit && forall id': int :: RegionHasId(g, id') && id' < limit ==> id' <= id
  }

  lemma SerialsAreIds(g: Region, id: int)
    requires |g.arrays| == WIDTH
    ensures (id >= 0 && id in Serials(BitsOfCores(g))) <==> RegionHasId(g, id)
  {
  }

  /** identify_visible_version returns the greatest serial id below the reader's. */
  lemma IdentifyVisibleIsMaxBelow(g: Region, core: nat, tx: nat)
    requires core < WIDTH && tx < WIDTH && RegionOk(g) && Settled(g)
    ensures var (found, c, t) := IdentifyVisible(g, core, tx);
      if found then c < WIDTH && t < WIDTH && IsVisibleId(g, core * WIDTH + tx, c * WIDTH + t)
      else forall id: int :: RegionHasId(g, id) ==> core * WIDTH + tx <= id
  {
    hide FindTwoLargestAmongOrLessThan, FindLargestLessThan, FindLargest, CountBits, Serials, Zero, RegionHasId, CoreOk;
    var (second, first) := FindTwoLargestAmongOrLessThan(g.core, core);
    TwoLargestAreTheMaxima(g.core, core);
    var m := BitsOfCores(g);
    var (found, c, t) := IdentifyVisible(g, core, tx);
    if first != -1 {
      SearchLessThan(g.arrays[first].bits, tx);
      LargestIsMax(g.arrays[first].bits);
      if first == core && second != -1 {
        LargestIsMax(g.arrays[second].bits);
      }
    }
    if found {
      GreatestCoreGreatestTx(m, c, t, core, tx);
      VisibleFromSerials(g, core * WIDTH + tx, c * WIDTH + t);
    } else {
      NothingRelevant(m, core, tx);
      forall id: int | RegionHasId(g, id)
        ensures core * WIDTH + tx <= id
      {
        SerialsAreIds(g, id);
      }
    }
  }

  lemma VisibleFromSerials(g: Region, limit: nat, id: nat)
    requires |g.arrays| == WIDTH && IsMaxBelow(id, Serials(BitsOfCores(g)), limit)
    ensures IsVisibleId(g, limit, id)
  {
    hide Serials, RegionHasId, BitsOfCores;
    SerialsAreIds(g, id);
    forall id': int | RegionHasId(g, id') && id' < limit
      ensures id' <= id
    {
      SerialsAreIds(g, id');
    }
  }

  /** Lookup in the region: identify, then get. */
  function RegionLookup(g: Region, s: nat): Option<VersionId>
    requires s < EPOCH_SIZE && RegionOk(g) && Settled(g)
  {
    var (found, c, t) := IdentifyVisible(g, s / WIDTH, s % WIDTH);
    if found && c < WIDTH && t < WIDTH && 0 <= IndexOf(g.arrays[c], t) < |g.arrays[c].slots|
    then Some(g.arrays[c].slots[IndexOf(g.arrays[c], t)])
    else None
  }

  /** Lookup in the global array: search_visible_version. */
  function ArrayLookup(a: seq<Slot>, s: int): Option<VersionId> {
    if a == [] || s <= a[0].id then None
    else if LowerBound(a, s) > 0 then Some(a[LowerBound(a, s) - 1].v) else None
  }

  /** Lookup in the region returns the version with the greatest serial id below the reader's. */
  lemma RegionLookupFindsVisible(g: Region, s: nat)
    requires s < EPOCH_SIZE && RegionOk(g) && Settled(g)
    ensures match RegionLookup(g, s)
      case Some(v) => exists id: int :: RegionHas(g, id, v) && IsVisibleId(g, s, id)
      case None => forall id: int :: RegionHasId(g, id) ==> s <= id
  {
    hide IdentifyVisible, IsVisibleId, RegionHas, RegionHasId, RegionOk, Settled, IndexOf;
    IdentifyVisibleIsMaxBelow(g, s / WIDTH, s % WIDTH);
    var (found, c, t) := IdentifyVisible(g, s / WIDTH, s % WIDTH);
    if found {
      var id := c * WIDTH + t;
      VisibleIdHas(g, s, id);
      RegionHasIdIsHas(g, id);
      RegionArrays(g);
      var v: VersionId :| RegionHas(g, id, v);
      RegionArrays(g);
      GetFinds(g, c, t, v);
    }
  }

  lemma RegionArrays(g: Region)
    requires RegionOk(g)
    ensures |g.arrays| == WIDTH
  {
  }

  lemma VisibleIdHas(g: Region, limit: int, id: int)
    requires IsVisibleId(g, limit, id)
    ensures RegionHasId(g, id) && id < limit
  {
  }

  lemma VisibleIdIsMax(g: Region, limit: int, id: int, id': int)
    requires IsVisibleId(g, limit, id) && RegionHasId(g, id') && id' < limit
    ensures id' <= id
  {
  }

  lemma GetFinds(g: Region, c: nat, t: nat, v: VersionId)
    requires |g.arrays| == WIDTH && c < WIDTH && t < WIDTH && RegionHas(g, c * WIDTH + t, v)
    ensures 0 <= IndexOf(g.arrays[c], t) < |g.arrays[c].slots| && g.arrays[c].slots[IndexOf(g.arrays[c], t)] == v
  {
    hide IndexOf, CoreHas;
    SerialAddress(c, t);
    GetIsRank(g.arrays[c], t, v);
  }

  /** Lookup in the global array returns the version with the greatest serial id below the reader's. */
  lemma ArrayLookupFindsVisible(a: seq<Slot>, s: int)
    requires Sorted(a)
    ensures match ArrayLookup(a, s)
      case Some(v) => exists id: int :: IsVisible(a, s, id, v)
      case None => forall id: int :: HasId(a, id) ==> s <= id
  {
    hide LowerBound, IsVisible;
    SearchFindsVisible(a, s);
    if a != [] { FirstIsVisible(a, s); }
  }

  lemma FirstIsVisible(a: seq<Slot>, s: int)
    requires Sorted(a) && a != []
    ensures LowerBound(a, s) == 0 <==> s <= a[0].id
  {
  }

  lemma {:induction false} MovedIsSettled(a: seq<Slot>, g: Region)
    requires Movable(a, g) && Settled(g)
    ensures |Move(a, g).arrays| == WIDTH && Settled(Move(a, g))
    decreases |a|
  {
    hide RegionOk, CountBits, IsBitSet, RegionHasId, Movable;
    assert |g.arrays| == WIDTH by { MovableArrays(a, g); }
    if a != [] {
      MoveOne(a, g);
      var c, t := a[0].id / WIDTH, a[0].id % WIDTH;
      AppendSettles(g, c, a[0].v, t);
      MovableArrays(a[1..], RegionAppend(g, c, a[0].v, t));
      hide RegionAppend, Settled;
      MovedIsSettled(a[1..], RegionAppend(g, c, a[0].v, t));
    }
  }

  lemma MovableArrays(a: seq<Slot>, g: Region)
    requires Movable(a, g)
    ensures |g.arrays| == WIDTH && RegionOk(g)
  {
  }

  lemma AppendSettles(g: Region, c: nat, v: VersionId, t: nat)
    requires |g.arrays| == WIDTH && Settled(g) && c < WIDTH && t < WIDTH
    requires IsBitSet(g.core, c) ==> CountBits(g.arrays[c].bits) <= |g.arrays[c].slots|
    ensures Settled(RegionAppend(g, c, v, t))
  {
    hide CountBits, And, BitAt, IsBitSet;
    SetBitIsUpdate(g.core, c);
    var a := if IsBitSet(g.core, c) then g.arrays[c] else EmptyArray();
    SetBitIsUpdate(a.bits, t);
    assert a.bits[t := true][t] && !Zero()[t];
  }

  /** Moving the global array into a fresh region changes the answer of no lookup. */
  lemma MovePreservesLookup(a: seq<Slot>, s: nat)
    requires Sorted(a) && s < EPOCH_SIZE && forall i :: 0 <= i < |a| ==> 0 <= a[i].id < EPOCH_SIZE
    ensures Movable(a, FreshRegion())
    ensures var g := Move(a, FreshRegion());
      && RegionOk(g) && Settled(g)
      && RegionLookup(g, s) == ArrayLookup(a, s)
  {
    hide RegionOk, RegionHas, RegionHasId, FreshRegion, Sorted, Move, Has, HasId, ArrayLookup, RegionLookup, IsVisible,
      IsVisibleId, Settled;
    MoveKeepsContent(a);
    FreshHasNothing();
    MovedIsSettled(a, FreshRegion());
    var g := Move(a, FreshRegion());
    RegionArrays(g);
    SameIds(a, g);
    ArrayLookupFindsVisible(a, s);
    RegionLookupFindsVisible(g, s);
    if ArrayLookup(a, s).Some? {
      var v := ArrayLookup(a, s).value;
      var id: int :| IsVisible(a, s, id, v);
      VisibleInVector(a, s, id, v);
      if RegionLookup(g, s).Some? {
        var u := RegionLookup(g, s).value;
        var id': int :| RegionHas(g, id', u) && IsVisibleId(g, s, id');
        VisibleIdHas(g, s, id');
        VisibleIdIsMax(g, s, id', id);
        VisibleInVectorIsMax(a, s, id, v, id');
        HasIsUnique(a, id, v, u);
      }
    } else if RegionLookup(g, s).Some? {
      var u := RegionLookup(g, s).value;
      var id': int :| RegionHas(g, id', u) && IsVisibleId(g, s, id');
      VisibleIdHas(g, s, id');
    }
  }

  lemma VisibleInVector(a: seq<Slot>, limit: int, id: int, v: VersionId)
    requires IsVisible(a, limit, id, v)
    ensures Has(a, id, v) && HasId(a, id) && id < limit
  {
    HasIdIsHas(a, id);
  }

  lemma VisibleInVectorIsMax(a: seq<Slot>, limit: int, id: int, v: VersionId, id': int)
    requires IsVisible(a, limit, id, v) && HasId(a, id') && id' < limit
    ensures id' <= id
  {
  }

  lemma SameIds(a: seq<Slot>, g: Region)
    requires RegionOk(g) && forall id: int, v: VersionId :: RegionHas(g, id, v) <==> Has(a, id, v)
    ensures forall id: int :: RegionHasId(g, id) <==> HasId(a, id)
  {
    hide RegionOk, RegionHas, RegionHasId, Has, HasId;
    forall id: int
      ensures RegionHasId(g, id) <==> HasId(a, id)
    {
      RegionHasIdIsHas(g, id);
      HasIdIsHas(a, id);
    }
  }
}
