/** Every step of a Caracal row keeps the invariant. */
module CaracalSteps {
  import opened Bits
  import opened TwoLevelBitmap
  import opened Versions
  import opened SortedSlots
  import opened CaracalRow
  import opened CaracalInvariant

  // ---------- what moving one appender changes ----------

  lemma HandedSame(apc: map<nat, AppendPc>, s: nat, pc: AppendPc, x: int)
    requires s in apc && HasVersion(apc[s]) == HasVersion(pc) && (HasVersion(pc) ==> pc.v == apc[s].v)
    ensures forall id: int, v: VersionId :: Handed(apc[s := pc], x, id, v) <==> Handed(apc, x, id, v)
  {
  }

  lemma HandedOneMore(apc: map<nat, AppendPc>, s: nat, pc: AppendPc, x: int)
    requires s in apc && !HasVersion(apc[s]) && HasVersion(pc)
    ensures forall id: int, v: VersionId :: Handed(apc[s := pc], x, id, v) <==> Handed(apc, x, id, v) || (id == x + s && v == pc.v)
    ensures Handed(apc[s := pc], x, x + s, pc.v)
  {
  }

  lemma OrderAfterStep(apc: map<nat, AppendPc>, fpc: map<nat, FlushPc>, s: nat, pc: AppendPc)
    requires OrderOk(apc, fpc) && s in apc && !apc[s].ADone? && EarlierDone(apc, s)
    ensures OrderOk(apc[s := pc], fpc)
  {
    var apc' := apc[s := pc];
    forall t | t in apc' && !apc'[t].ALoad?
      ensures EarlierDone(apc', t)
    {
      if t != s { assert EarlierDone(apc, t); }
    }
    forall c | c in fpc && !fpc[c].FCheck?
      ensures CoreDone(apc', c)
    {
      assert CoreDone(apc, c);
    }
  }

  /** Nobody else on the same worker is in the middle of an append. */
  lemma AloneOnCore(apc: map<nat, AppendPc>, fpc: map<nat, FlushPc>, s: nat)
    requires OrderOk(apc, fpc) && s in apc && !apc[s].ADone? && EarlierDone(apc, s)
    ensures forall t :: t in apc && t % WIDTH == s % WIDTH && t != s ==> apc[t].ALoad? || apc[t].ADone?
    ensures s % WIDTH in fpc ==> fpc[s % WIDTH].FCheck?
  {
    forall t | t in apc && t % WIDTH == s % WIDTH && t != s && !apc[t].ALoad?
      ensures apc[t].ADone?
    {
      assert EarlierDone(apc, t);
    }
  }

  // ---------- the version array grows ----------

  lemma GrowKeepsOld(slots: seq<Slot>, slots': seq<Slot>, heap: map<VersionId, Cell>, x: int, base: Slot)
    requires OldOk(slots, heap, x, base) && Sorted(slots') && LowerBound(slots, x) == 1
    requires forall id: int, v: VersionId :: Has(slots, id, v) ==> Has(slots', id, v)
    requires forall id: int, v: VersionId :: Has(slots', id, v) && id < x ==> Has(slots, id, v)
    ensures OldOk(slots', heap, x, base)
    ensures LowerBound(slots', x) == 1
  {
    hide LowerBound, TagOf;
    var last := slots[LowerBound(slots, x) - 1];
    SearchFindsVisible(slots, x);
    forall id: int | HasId(slots', id) && id < x
      ensures id <= last.id
    {
      HasIdIsHas(slots', id);
      HasIdIsHas(slots, id);
    }
    VisibleIsUniqueSlot(slots', x, last.id, last.v);
    OnlyOneOld(slots, slots', x);
  }

  lemma OnlyOneOld(slots: seq<Slot>, slots': seq<Slot>, x: int)
    requires Sorted(slots) && Sorted(slots') && LowerBound(slots, x) == 1 && LowerBound(slots', x) > 0
    requires forall id: int, v: VersionId :: Has(slots', id, v) && id < x ==> Has(slots, id, v)
    ensures LowerBound(slots', x) == 1
  {
    hide LowerBound;
    var p := LowerBound(slots', x);
    if p > 1 {
      assert slots'[0] == Slot(slots'[0].id, slots'[0].v) && Has(slots', slots'[0].id, slots'[0].v);
      assert slots'[1] == Slot(slots'[1].id, slots'[1].v) && Has(slots', slots'[1].id, slots'[1].v);
      OldIsFirst(slots, x, slots'[0].id, slots'[0].v);
      OldIsFirst(slots, x, slots'[1].id, slots'[1].v);
    }
  }

  lemma OldIsFirst(slots: seq<Slot>, x: int, id: int, v: VersionId)
    requires Sorted(slots) && LowerBound(slots, x) == 1 && Has(slots, id, v) && id < x
    ensures id == slots[0].id
  {
    hide LowerBound;
    var i :| 0 <= i < |slots| && slots[i] == Slot(id, v);
    assert |slots| > 1 ==> x <= slots[1].id;
  }

  lemma OldWithMoreHeap(slots: seq<Slot>, heap: map<VersionId, Cell>, heap': map<VersionId, Cell>, x: int, base: Slot)
    requires OldOk(slots, heap, x, base)
    requires forall v: VersionId :: v in heap && heap[v].owner < x ==> v in heap' && heap'[v] == heap[v]
    ensures OldOk(slots, heap', x, base)
  {
    hide LowerBound, TagOf;
  }

  lemma HeapWithMoreSlots(slots: seq<Slot>, slots': seq<Slot>, heap: map<VersionId, Cell>, created: nat, deleted: nat,
                          apc: map<nat, AppendPc>, x: int)
    requires HeapOk(slots, heap, created, deleted, apc, x)
    requires forall id: int, v: VersionId :: Has(slots, id, v) ==> Has(slots', id, v)
    ensures HeapOk(slots', heap, created, deleted, apc, x)
  {
  }

  lemma HeapWithMoreHanded(slots: seq<Slot>, heap: map<VersionId, Cell>, created: nat, deleted: nat,
                           apc: map<nat, AppendPc>, apc': map<nat, AppendPc>, x: int)
    requires HeapOk(slots, heap, created, deleted, apc, x)
    requires forall id: int, v: VersionId :: Handed(apc, x, id, v) ==> Handed(apc', x, id, v)
    ensures HeapOk(slots, heap, created, deleted, apc', x)
  {
    hide Handed;
  }

  // ---------- creating a version ----------

  /** A new version that writer `s` is about to hold: everything but its own entry stays as it was. */
  lemma CreateKeeps(sh: Shared, x: int, base: Slot, s: nat, apc: map<nat, AppendPc>, epoch: nat)
    requires OldOk(sh.slots, sh.heap, x, base)
    requires HeapOk(sh.slots, sh.heap, sh.created, sh.deleted, apc, x)
    requires HandlesOk(sh.heap, apc, map[], epoch, x)
    ensures var sh' := Create(sh, x + s);
      && OldOk(sh'.slots, sh'.heap, x, base)
      && HandlesOk(sh'.heap, apc, map[], epoch, x)
      && (forall v: VersionId :: v in sh'.heap && v != NewId(sh) ==> v in sh.heap && sh'.heap[v] == sh.heap[v])
      && NewId(sh) in sh'.heap && sh'.heap[NewId(sh)] == Cell(None, Pending, x + s)
      && sh'.created + 1 == |sh'.heap| + sh'.deleted
      && NewId(sh) !in sh.heap
  {
    hide LowerBound, TagOf, Has;
    var sh' := Create(sh, x + s);
    assert NewId(sh) !in sh.heap;
    OldWithMoreHeap(sh.slots, sh.heap, sh'.heap, x, base);
    assert sh'.heap.Keys == sh.heap.Keys + {NewId(sh)};
  }

  lemma CreatedHeap(sh: Shared, x: int, s: nat, apc: map<nat, AppendPc>, pc: AppendPc)
    requires HeapOk(sh.slots, sh.heap, sh.created, sh.deleted, apc, x)
    requires s in apc && !HasVersion(apc[s]) && HasVersion(pc) && pc.v == NewId(sh)
    ensures var sh' := Create(sh, x + s);
      HeapOk(sh'.slots, sh'.heap, sh'.created, sh'.deleted, apc[s := pc], x)
  {
    hide Has;
    var sh' := Create(sh, x + s);
    assert NewId(sh) !in sh.heap;
    assert sh'.heap.Keys == sh.heap.Keys + {NewId(sh)};
    assert |sh'.heap.Keys| == |sh.heap.Keys| + 1;
    HandedOneMore(apc, s, pc, x);
    hide Handed;
  }

  lemma CreatedHandles(sh: Shared, x: int, s: nat, apc: map<nat, AppendPc>, pc: AppendPc, epoch: nat)
    requires HandlesOk(sh.heap, apc, map[], epoch, x) && NewId(sh) !in sh.heap
    requires s in apc && !HasVersion(apc[s]) && HasVersion(pc) && pc.v == NewId(sh)
    ensures HandlesOk(Create(sh, x + s).heap, apc[s := pc], map[], epoch, x)
  {
  }

  // ---------- collecting ----------

  lemma CollectedHandles(sh: Shared, sh': Shared, x: int, base: Slot, apc: map<nat, AppendPc>, epoch: nat)
    requires OldOk(sh.slots, sh.heap, x, base) && Collected(sh, sh', x) && HandlesOk(sh.heap, apc, map[], epoch, x)
    ensures HandlesOk(sh'.heap, apc, map[], epoch, x)
  {
    hide LowerBound, TagOf;
    LastIsOld(sh.slots, x);
  }

  lemma CollectedHeap(sh: Shared, sh': Shared, x: int, base: Slot, apc: map<nat, AppendPc>)
    requires OldOk(sh.slots, sh.heap, x, base) && Collected(sh, sh', x)
    requires HeapOk(sh.slots, sh.heap, sh.created, sh.deleted, apc, x)
    ensures HeapOk(sh'.slots, sh'.heap, sh'.created, sh'.deleted, apc, x)
  {
    hide LowerBound, TagOf, Handed, Sorted;
    LastIsOld(sh.slots, x);
    hide OldOk;
  }

  lemma CollectedContent(sh: Shared, sh': Shared, x: int, base: Slot, apc: map<nat, AppendPc>)
    requires OldOk(sh.slots, sh.heap, x, base) && Collected(sh, sh', x)
    requires ContentOk(sh.slots, sh.buffers, apc, x)
    ensures ContentOk(sh'.slots, sh'.buffers, apc, x)
  {
    hide LowerBound, TagOf, Handed, Sorted, Has, HasId;
    LastIsOld(sh.slots, x);
    forall id: int
      ensures HasId(sh'.slots, id) ==> HasId(sh.slots, id)
    {
      HasIdIsHas(sh'.slots, id);
      HasIdIsHas(sh.slots, id);
    }
    FewerSlots(sh.slots, sh'.slots, sh.buffers, apc, x, sh.slots[LowerBound(sh.slots, x) - 1].id);
  }

  lemma FewerSlots(slots: seq<Slot>, slots': seq<Slot>, buffers: seq<seq<Slot>>, apc: map<nat, AppendPc>, x: int, last: int)
    requires ContentOk(slots, buffers, apc, x) && last < x
    requires forall id: int, v: VersionId :: Has(slots', id, v) <==> Has(slots, id, v) && last <= id
    requires forall id: int :: HasId(slots', id) ==> HasId(slots, id)
    ensures ContentOk(slots', buffers, apc, x)
  {
    hide Has, HasId, Handed, Sorted, ContentOk;
    forall c: nat, id: int, v: VersionId | InBuffer(buffers, c, id, v)
      ensures Rightful(slots', apc, x, c, id, v)
    {
      BufferEntry(slots, buffers, apc, x, c, id, v);
    }
    forall t | t in apc && HasVersion(apc[t])
      ensures Placed(slots', buffers, x, t, apc[t].v)
    {
      WriterEntry(slots, buffers, apc, x, t);
    }
    forall c: nat | c < |buffers|
      ensures Sorted(buffers[c])
    {
      BufferSorted(slots, buffers, apc, x, c);
    }
    forall id: int, v: VersionId | Has(slots', id, v) && id >= x
      ensures Handed(apc, x, id, v)
    {
      SlotEntry(slots, buffers, apc, x, id, v);
    }
    MakeContent(slots', buffers, apc, x);
  }

  // ---------- placing versions ----------

  lemma BufferEntry(slots: seq<Slot>, buffers: seq<seq<Slot>>, apc: map<nat, AppendPc>, x: int, c: nat, id: int,
                    v: VersionId)
    requires ContentOk(slots, buffers, apc, x) && InBuffer(buffers, c, id, v)
    ensures Rightful(slots, apc, x, c, id, v)
  {
    hide Has, HasId, Handed, Sorted, InBuffer, Rightful, Placed;
  }

  lemma SlotEntry(slots: seq<Slot>, buffers: seq<seq<Slot>>, apc: map<nat, AppendPc>, x: int, id: int, v: VersionId)
    requires ContentOk(slots, buffers, apc, x) && Has(slots, id, v) && id >= x
    ensures Handed(apc, x, id, v)
  {
    hide Has, HasId, Handed, Sorted, InBuffer, Rightful, Placed;
  }

  lemma WriterEntry(slots: seq<Slot>, buffers: seq<seq<Slot>>, apc: map<nat, AppendPc>, x: int, t: nat)
    requires ContentOk(slots, buffers, apc, x) && t in apc && HasVersion(apc[t])
    ensures Placed(slots, buffers, x, t, apc[t].v)
  {
    hide Has, HasId, Handed, Sorted, InBuffer, Rightful, Placed;
  }

  lemma BufferSorted(slots: seq<Slot>, buffers: seq<seq<Slot>>, apc: map<nat, AppendPc>, x: int, c: nat)
    requires ContentOk(slots, buffers, apc, x) && c < |buffers|
    ensures Sorted(buffers[c])
  {
    hide Has, HasId, Handed, Sorted, InBuffer, Rightful, Placed;
  }

  /** A writer that holds no version has no entry anywhere. */
  lemma NoEntryYet(slots: seq<Slot>, buffers: seq<seq<Slot>>, apc: map<nat, AppendPc>, x: int, s: nat)
    requires ContentOk(slots, buffers, apc, x) && s in apc && !HasVersion(apc[s])
    ensures !HasId(slots, x + s)
    ensures forall c: nat :: c < |buffers| ==> !HasId(buffers[c], x + s)
  {
    hide Sorted, Has, HasId;
    HasIdIsHas(slots, x + s);
    forall c: nat | c < |buffers|
      ensures !HasId(buffers[c], x + s)
    {
      HasIdIsHas(buffers[c], x + s);
      if HasId(buffers[c], x + s) {
        var v: VersionId :| Has(buffers[c], x + s, v);
        BufferEntry(slots, buffers, apc, x, c, x + s, v);
      }
    }
  }

  lemma HasIdOneMore(a: seq<Slot>, b: seq<Slot>, id: int, v: VersionId)
    requires forall i: int, w: VersionId :: Has(b, i, w) <==> Has(a, i, w) || (i == id && w == v)
    ensures forall i: int :: HasId(b, i) <==> HasId(a, i) || i == id
  {
    hide Has, HasId;
    forall i: int
      ensures HasId(b, i) <==> HasId(a, i) || i == id
    {
      HasIdIsHas(b, i);
      HasIdIsHas(a, i);
      assert i == id ==> Has(b, i, v);
    }
  }

  lemma HasIdUnion(a: seq<Slot>, b: seq<Slot>, c: seq<Slot>)
    requires forall i: int, w: VersionId :: Has(c, i, w) <==> Has(a, i, w) || Has(b, i, w)
    ensures forall i: int :: HasId(c, i) <==> HasId(a, i) || HasId(b, i)
  {
    hide Has, HasId;
    forall i: int
      ensures HasId(c, i) <==> HasId(a, i) || HasId(b, i)
    {
      HasIdIsHas(a, i);
      HasIdIsHas(b, i);
      HasIdIsHas(c, i);
    }
  }

  /** The new version goes into the array. */
  lemma PlacedInSlots(slots: seq<Slot>, slots': seq<Slot>, buffers: seq<seq<Slot>>, apc: map<nat, AppendPc>, x: int,
                      s: nat, pc: AppendPc)
    requires ContentOk(slots, buffers, apc, x) && s in apc && !HasVersion(apc[s]) && HasVersion(pc)
    requires forall id: int, v: VersionId :: Has(slots', id, v) <==> Has(slots, id, v) || (id == x + s && v == pc.v)
    ensures ContentOk(slots', buffers, apc[s := pc], x)
  {
    hide Sorted, Has, HasId, Handed, ContentOk;
    HandedOneMore(apc, s, pc, x);
    NoEntryYet(slots, buffers, apc, x, s);
    HasIdOneMore(slots, slots', x + s, pc.v);
    BuffersLackId(buffers, x + s);
    var apc' := apc[s := pc];
    forall c: nat, id: int, v: VersionId | InBuffer(buffers, c, id, v)
      ensures Rightful(slots', apc', x, c, id, v)
    {
      BufferEntry(slots, buffers, apc, x, c, id, v);
    }
    forall t | t in apc' && HasVersion(apc'[t])
      ensures Placed(slots', buffers, x, t, apc'[t].v)
    {
      if t != s { WriterEntry(slots, buffers, apc, x, t); }
    }
    forall c: nat | c < |buffers|
      ensures Sorted(buffers[c])
    {
      BufferSorted(slots, buffers, apc, x, c);
    }
    forall id: int, v: VersionId | Has(slots', id, v) && id >= x
      ensures Handed(apc', x, id, v)
    {
      if Has(slots, id, v) { SlotEntry(slots, buffers, apc, x, id, v); }
    }
    MakeContent(slots', buffers, apc', x);
  }

  lemma BuffersLackId(buffers: seq<seq<Slot>>, id: int)
    requires forall c: nat :: c < |buffers| ==> !HasId(buffers[c], id)
    ensures forall c: nat, v: VersionId :: c < |buffers| ==> !Has(buffers[c], id, v)
  {
    hide Has, HasId;
    forall c: nat, v: VersionId | c < |buffers|
      ensures !Has(buffers[c], id, v)
    {
      HasIdIsHas(buffers[c], id);
    }
  }

  lemma PlacedEntry(slots: seq<Slot>, buffers: seq<seq<Slot>>, buffer: seq<Slot>, apc: map<nat, AppendPc>, x: int,
                    s: nat, pc: AppendPc,
                    c: nat, id: int, v: VersionId)
    requires ContentOk(slots, buffers, apc, x) && s in apc && !HasVersion(apc[s]) && HasVersion(pc)
    requires s % WIDTH < |buffers|
    requires Has(buffer, id, v) <==> Has(buffers[s % WIDTH], id, v) || (id == x + s && v == pc.v)
    requires InBuffer(buffers[s % WIDTH := buffer], c, id, v)
    ensures Rightful(slots, apc[s := pc], x, c, id, v)
  {
    hide Sorted, Has, HasId, Handed, ContentOk;
    HandedOneMore(apc, s, pc, x);
    NoEntryYet(slots, buffers, apc, x, s);
    if !(c == s % WIDTH && id == x + s && v == pc.v) {
      assert InBuffer(buffers, c, id, v);
      BufferEntry(slots, buffers, apc, x, c, id, v);
    }
  }

  /** The new version goes into the worker's own buffer. */
  lemma PlacedInBuffer(slots: seq<Slot>, buffers: seq<seq<Slot>>, buffer: seq<Slot>, apc: map<nat, AppendPc>, x: int,
                       s: nat, pc: AppendPc)
    requires ContentOk(slots, buffers, apc, x) && s in apc && !HasVersion(apc[s]) && HasVersion(pc)
    requires s % WIDTH < |buffers| && Sorted(buffer)
    requires forall id: int, v: VersionId :: Has(buffer, id, v) <==> Has(buffers[s % WIDTH], id, v) || (id == x + s && v == pc.v)
    requires Has(buffer, x + s, pc.v)
    ensures ContentOk(slots, buffers[s % WIDTH := buffer], apc[s := pc], x)
  {
    hide Sorted, Has, HasId, Handed, ContentOk;
    var core := s % WIDTH;
    var buffers', apc' := buffers[core := buffer], apc[s := pc];
    forall c: nat, id: int, v: VersionId | InBuffer(buffers', c, id, v)
      ensures Rightful(slots, apc', x, c, id, v)
    {
      PlacedEntry(slots, buffers, buffer, apc, x, s, pc, c, id, v);
    }
    forall t | t in apc' && HasVersion(apc'[t])
      ensures Placed(slots, buffers', x, t, apc'[t].v)
    {
      if t != s {
        WriterEntry(slots, buffers, apc, x, t);
        assert t % WIDTH == core && Has(buffers[core], x + t, apc[t].v) ==> Has(buffer, x + t, apc[t].v);
      }
    }
    forall c: nat | c < |buffers'|
      ensures Sorted(buffers'[c])
    {
      if c != core { BufferSorted(slots, buffers, apc, x, c); }
    }
    HandedOneMore(apc, s, pc, x);
    forall id: int, v: VersionId | Has(slots, id, v) && id >= x
      ensures Handed(apc', x, id, v)
    {
      SlotEntry(slots, buffers, apc, x, id, v);
    }
    MakeContent(slots, buffers', apc', x);
  }

  lemma MakeContent(slots: seq<Slot>, buffers: seq<seq<Slot>>, apc: map<nat, AppendPc>, x: int)
    requires forall id: int, v: VersionId :: Has(slots, id, v) && id >= x ==> Handed(apc, x, id, v)
    requires forall c: nat :: c < |buffers| ==> Sorted(buffers[c])
    requires forall c: nat, id: int, v: VersionId :: InBuffer(buffers, c, id, v) ==> Rightful(slots, apc, x, c, id, v)
    requires forall s :: s in apc && HasVersion(apc[s]) ==> Placed(slots, buffers, x, s, apc[s].v)
    ensures ContentOk(slots, buffers, apc, x)
  {
    hide Has, HasId, Handed, Sorted, InBuffer, Rightful, Placed;
  }

  /** A worker's buffer is emptied into the array. */
  lemma FlushedContent(slots: seq<Slot>, slots': seq<Slot>, buffers: seq<seq<Slot>>, apc: map<nat, AppendPc>, x: int,
                       core: nat)
    requires ContentOk(slots, buffers, apc, x) && core < |buffers|
    requires forall id: int, v: VersionId :: Has(slots', id, v) <==> Has(slots, id, v) || Has(buffers[core], id, v)
    ensures ContentOk(slots', buffers[core := []], apc, x)
  {
    hide Sorted, Handed, Has, HasId, ContentOk;
    var buffers' := buffers[core := []];
    EmptyHasNothing();
    HasIdUnion(slots, buffers[core], slots');
    forall c: nat, id: int, v: VersionId | InBuffer(buffers', c, id, v)
      ensures Rightful(slots', apc, x, c, id, v)
    {
      BufferEntry(slots, buffers, apc, x, c, id, v);
      OtherCore(slots, buffers, apc, x, core, id, c);
    }
    forall t | t in apc && HasVersion(apc[t])
      ensures Placed(slots', buffers', x, t, apc[t].v)
    {
      WriterEntry(slots, buffers, apc, x, t);
    }
    forall c: nat | c < |buffers'|
      ensures Sorted(buffers'[c])
    {
      if c != core { BufferSorted(slots, buffers, apc, x, c); }
    }
    forall id: int, v: VersionId | Has(slots', id, v) && id >= x
      ensures Handed(apc, x, id, v)
    {
      if Has(slots, id, v) {
        SlotEntry(slots, buffers, apc, x, id, v);
      } else {
        BufferEntry(slots, buffers, apc, x, core, id, v);
      }
    }
    MakeContent(slots', buffers', apc, x);
  }

  /** An id is in the buffer of its own worker only. */
  lemma OtherCore(slots: seq<Slot>, buffers: seq<seq<Slot>>, apc: map<nat, AppendPc>, x: int, core: nat, id: int, c: nat)
    requires ContentOk(slots, buffers, apc, x) && core < |buffers| && (id - x) % WIDTH == c && c != core
    ensures !HasId(buffers[core], id)
  {
    hide Sorted, Handed, Has, HasId, ContentOk;
    HasIdIsHas(buffers[core], id);
    if HasId(buffers[core], id) {
      var v: VersionId :| Has(buffers[core], id, v);
      BufferEntry(slots, buffers, apc, x, core, id, v);
    }
  }

  lemma EmptyHasNothing()
    ensures Sorted([])
    ensures forall id: int, v: VersionId :: !Has([], id, v)
  {
  }

  // ---------- the steps of the source ----------

  /** The parts of the invariant that do not speak of locks and buffers. */
  ghost predicate DataOk(sh: Shared, apc: map<nat, AppendPc>, epoch: nat, base: Slot) {
    var x := Base(epoch);
    && OldOk(sh.slots, sh.heap, x, base)
    && ContentOk(sh.slots, sh.buffers, apc, x)
    && HandlesOk(sh.heap, apc, map[], epoch, x)
    && HeapOk(sh.slots, sh.heap, sh.created, sh.deleted, apc, x)
  }

  /** Steps that hand out no version leave the data alone. */
  lemma QuietData(sh: Shared, sh': Shared, apc: map<nat, AppendPc>, epoch: nat, base: Slot, s: nat, pc: AppendPc)
    requires DataOk(sh, apc, epoch, base) && s in apc
    requires sh' == sh.(cnt := sh'.cnt, holder := sh'.holder, installed := sh'.installed, contended := sh'.contended)
    requires HasVersion(apc[s]) == HasVersion(pc) && (HasVersion(pc) ==> pc.v == apc[s].v)
    ensures DataOk(sh', apc[s := pc], epoch, base)
  {
    hide OldOk, Has, HasId, Handed, Sorted, HeapOk, ContentOk;
    var x := Base(epoch);
    HandedSame(apc, s, pc, x);
    HeapWithMoreHanded(sh.slots, sh.heap, sh.created, sh.deleted, apc, apc[s := pc], x);
    QuietContent(sh.slots, sh.buffers, apc, x, s, pc);
  }

  lemma QuietContent(slots: seq<Slot>, buffers: seq<seq<Slot>>, apc: map<nat, AppendPc>, x: int, s: nat, pc: AppendPc)
    requires ContentOk(slots, buffers, apc, x) && s in apc
    requires HasVersion(apc[s]) == HasVersion(pc) && (HasVersion(pc) ==> pc.v == apc[s].v)
    ensures ContentOk(slots, buffers, apc[s := pc], x)
  {
    hide Has, HasId, Handed, Sorted, ContentOk;
    HandedSame(apc, s, pc, x);
    var apc' := apc[s := pc];
    forall c: nat, id: int, v: VersionId | InBuffer(buffers, c, id, v)
      ensures Rightful(slots, apc', x, c, id, v)
    {
      BufferEntry(slots, buffers, apc, x, c, id, v);
    }
    forall t | t in apc' && HasVersion(apc'[t])
      ensures Placed(slots, buffers, x, t, apc'[t].v)
    {
      WriterEntry(slots, buffers, apc, x, t);
    }
    forall c: nat | c < |buffers|
      ensures Sorted(buffers[c])
    {
      BufferSorted(slots, buffers, apc, x, c);
    }
    forall id: int, v: VersionId | Has(slots, id, v) && id >= x
      ensures Handed(apc', x, id, v)
    {
      SlotEntry(slots, buffers, apc, x, id, v);
    }
    MakeContent(slots, buffers, apc', x);
  }

  /** minor_gc in the initialization phase. */
  lemma CollectData(sh: Shared, apc: map<nat, AppendPc>, epoch: nat, base: Slot)
    requires DataOk(sh, apc, epoch, base)
    ensures DataOk(Collect(sh, Base(epoch)), apc, epoch, base) && LowerBound(Collect(sh, Base(epoch)).slots, Base(epoch)) == 1
    ensures Collect(sh, Base(epoch)).fault == sh.fault && GcOk(sh, Base(epoch))
    ensures Collected(sh, Collect(sh, Base(epoch)), Base(epoch))
  {
    hide OldOk, ContentOk, HandlesOk, HeapOk, Collect, GcOk, Collected;
    var x := Base(epoch);
    var sh' := Collect(sh, x);
    CollectSucceeds(sh, x, base);
    CollectKeeps(sh, x, base);
    CollectedHandles(sh, sh', x, base, apc, epoch);
    CollectedHeap(sh, sh', x, base, apc);
    CollectedContent(sh, sh', x, base, apc);
    CollectFields(sh, x);
  }

  lemma CollectFields(sh: Shared, x: int)
    requires GcOk(sh, x)
    ensures Collect(sh, x).fault == sh.fault
  {
    hide GcOk;
  }

  /** batch_append in the initialization phase. */
  lemma BatchData(sh: Shared, apc: map<nat, AppendPc>, epoch: nat, base: Slot, core: nat)
    requires DataOk(sh, apc, epoch, base) && core < |sh.buffers|
    ensures var sh' := BatchAppend(sh, core, Base(epoch));
      && DataOk(sh', apc, epoch, base)
      && sh'.buffers == sh.buffers[core := []]
      && sh' == sh.(slots := sh'.slots, heap := sh'.heap, deleted := sh'.deleted, buffers := sh'.buffers)
  {
    hide Collect, GcOk, Collected, InsertAll;
    var x := Base(epoch);
    CollectData(sh, apc, epoch, base);
    CollectFrame(sh, x);
    var sh1 := Collect(sh, x);
    FlushData(sh1, apc, epoch, base, core);
  }

  lemma CollectFrame(sh: Shared, x: int)
    requires Collected(sh, Collect(sh, x), x)
    ensures var sh' := Collect(sh, x);
      sh' == sh.(slots := sh'.slots, heap := sh'.heap, deleted := sh'.deleted)
  {
    hide Collect;
  }

  lemma FlushData(sh: Shared, apc: map<nat, AppendPc>, epoch: nat, base: Slot, core: nat)
    requires DataOk(sh, apc, epoch, base) && core < |sh.buffers| && LowerBound(sh.slots, Base(epoch)) == 1
    ensures DataOk(sh.(slots := InsertAll(sh.slots, sh.buffers[core]), buffers := sh.buffers[core := []]), apc, epoch, base)
  {
    hide OldOk, ContentOk, HandlesOk, HeapOk, InsertAll, Has, HasId, Sorted, Handed;
    var x := Base(epoch);
    var slots' := InsertAll(sh.slots, sh.buffers[core]);
    OldIsSorted(sh.slots, sh.heap, x, base);
    BufferSorted(sh.slots, sh.buffers, apc, x, core);
    forall id: int | HasId(sh.buffers[core], id)
      ensures !HasId(sh.slots, id)
    {
      HasIdIsHas(sh.buffers[core], id);
      var v: VersionId :| Has(sh.buffers[core], id, v);
      BufferEntry(sh.slots, sh.buffers, apc, x, core, id, v);
    }
    InsertAllIsUnion(sh.slots, sh.buffers[core]);
    forall id: int, v: VersionId | Has(slots', id, v) && id < x
      ensures Has(sh.slots, id, v)
    {
      if Has(sh.buffers[core], id, v) {
        BufferEntry(sh.slots, sh.buffers, apc, x, core, id, v);
        HandedIsNew(apc, x, id, v);
      }
    }
    GrowKeepsOld(sh.slots, slots', sh.heap, x, base);
    HeapWithMoreSlots(sh.slots, slots', sh.heap, sh.created, sh.deleted, apc, x);
    FlushedContent(sh.slots, slots', sh.buffers, apc, x, core);
  }

  lemma HandedIsNew(apc: map<nat, AppendPc>, x: int, id: int, v: VersionId)
    requires Handed(apc, x, id, v)
    ensures id >= x
  {
  }

  // ---------- locks and buffers ----------

  lemma LockAfterAppend(cnt: int, holder: Option<Actor>, apc: map<nat, AppendPc>, fpc: map<nat, FlushPc>, s: nat,
                        pc: AppendPc,
                        cnt': int, holder': Option<Actor>)
    requires LockOk(cnt, holder, apc, fpc) && s in apc
    requires if AppenderInLock(apc[s]) then
               if AppenderInLock(pc) then cnt' == cnt && holder' == holder else cnt' == cnt + 1 && holder' == None
             else
               if AppenderInLock(pc) then cnt == 0 && cnt' == -1 && holder' == Some(Appender(s)) else cnt' == cnt && holder' == holder
    ensures LockOk(cnt', holder', apc[s := pc], fpc)
  {
  }

  lemma LockAfterFlush(cnt: int, holder: Option<Actor>, apc: map<nat, AppendPc>, fpc: map<nat, FlushPc>, c: nat, pc: FlushPc,
                       cnt': int, holder': Option<Actor>)
    requires LockOk(cnt, holder, apc, fpc) && c in fpc
    requires if FlusherInLock(fpc[c]) then
               if FlusherInLock(pc) then cnt' == cnt && holder' == holder else cnt' == cnt + 1 && holder' == None
             else
               if FlusherInLock(pc) then cnt == 0 && cnt' == -1 && holder' == Some(Flusher(c)) else cnt' == cnt && holder' == holder
    ensures LockOk(cnt', holder', apc, fpc[c := pc])
  {
  }

  lemma BuffersAfterQuiet(sh: Shared, sh': Shared, cap: nat, apc: map<nat, AppendPc>, fpc: map<nat, FlushPc>, s: nat,
                          pc: AppendPc)
    requires BuffersOk(sh, cap, apc, fpc) && s in apc && Full(apc[s]) == Full(pc)
    requires sh'.buffers == sh.buffers && sh'.recorded == sh.recorded && (sh.installed ==> sh'.installed)
    requires pc.ABuffer? || Full(pc) ==> sh'.installed
    requires (sh.contended ==> sh'.contended) && (sh'.installed || pc.AInstall? ==> sh'.contended) && !apc[s].ADone?
    ensures BuffersOk(sh', cap, apc[s := pc], fpc)
  {
    var apc' := apc[s := pc];
    assert forall t :: t in apc && Full(apc[t]) ==> t in apc' && Full(apc'[t]);
    assert forall t :: t in apc && apc[t].ADone? ==> t in apc' && apc'[t].ADone?;
  }

  /** The buffer that the appender fills is not full, and it is the only one that changes. */
  lemma BuffersAfterFill(sh: Shared, sh': Shared, cap: nat, apc: map<nat, AppendPc>, fpc: map<nat, FlushPc>, s: nat,
                         pc: AppendPc)
    requires BuffersOk(sh, cap, apc, fpc) && s in apc && apc[s].ABuffer? && s % WIDTH < |sh.buffers|
    requires s % WIDTH in fpc ==> fpc[s % WIDTH].FCheck?
    requires |sh'.buffers| == |sh.buffers| && sh'.installed == sh.installed
    requires forall c: nat :: c < |sh.buffers| && c != s % WIDTH ==> sh'.buffers[c] == sh.buffers[c]
    requires if Full(pc) then sh'.recorded == sh.recorded
             else |sh'.buffers[s % WIDTH]| < cap && sh'.recorded == sh.recorded + {s % WIDTH} && pc.ADone?
    requires sh'.contended == sh.contended
    ensures BuffersOk(sh', cap, apc[s := pc], fpc)
  {
    var apc' := apc[s := pc];
    assert forall t :: t in apc && Full(apc[t]) ==> t in apc' && Full(apc'[t]);
    assert Full(pc) ==> s in apc' && Full(apc'[s]);
    assert pc.ADone? ==> s in apc' && apc'[s].ADone?;
    assert forall t :: t in apc && apc[t].ADone? ==> t in apc' && apc'[t].ADone?;
  }

  lemma BufferNotFull(sh: Shared, cap: nat, apc: map<nat, AppendPc>, fpc: map<nat, FlushPc>, s: nat)
    requires BuffersOk(sh, cap, apc, fpc) && OrderOk(apc, fpc) && EarlierDone(apc, s)
    requires s in apc && apc[s].ABuffer? && s % WIDTH < |sh.buffers|
    ensures |sh.buffers[s % WIDTH]| < cap && sh.installed
  {
    AloneOnCore(apc, fpc, s);
  }

  lemma BuffersAfterEmptying(sh: Shared, sh': Shared, cap: nat, apc: map<nat, AppendPc>, fpc: map<nat, FlushPc>,
                             s: nat, pc: AppendPc)
    requires BuffersOk(sh, cap, apc, fpc) && cap >= 1 && s in apc && s % WIDTH < |sh.buffers|
    requires sh'.buffers == sh.buffers[s % WIDTH := []] && sh'.installed == sh.installed && sh'.recorded == sh.recorded
    requires !pc.ABuffer? && !Full(pc) && !pc.AInstall? && !apc[s].ADone? && sh'.contended == sh.contended
    ensures BuffersOk(sh', cap, apc[s := pc], fpc)
  {
    var apc' := apc[s := pc];
    assert forall t :: t in apc && t % WIDTH != s % WIDTH && Full(apc[t]) ==> t in apc' && Full(apc'[t]);
    assert forall t :: t in apc && apc[t].ADone? ==> t in apc' && apc'[t].ADone?;
  }

  /** Once all appenders of a core are done, an unrecorded buffer is empty. */
  lemma NothingToFlush(sh: Shared, cap: nat, apc: map<nat, AppendPc>, fpc: map<nat, FlushPc>, c: nat)
    requires BuffersOk(sh, cap, apc, fpc) && CoreDone(apc, c) && c < |sh.buffers| && c !in sh.recorded
    ensures sh.buffers[c] == []
  {
  }

  lemma BuffersAfterFlush(sh: Shared, sh': Shared, cap: nat, apc: map<nat, AppendPc>, fpc: map<nat, FlushPc>, c: nat,
                          pc: FlushPc)
    requires BuffersOk(sh, cap, apc, fpc) && cap >= 1 && c in fpc && c < |sh.buffers|
    requires sh'.installed == sh.installed && sh'.contended == sh.contended
    requires sh'.buffers == sh.buffers || sh'.buffers == sh.buffers[c := []]
    requires FlushBegun(pc) ==> c in sh'.recorded
    requires sh'.recorded == sh.recorded || (sh'.buffers[c] == [] && sh'.recorded == sh.recorded - {c})
    requires pc.FUnlock? || pc.FDone? ==> sh'.buffers[c] == []
    requires pc.FDone? ==> c !in sh'.recorded
    ensures BuffersOk(sh', cap, apc, fpc[c := pc])
  {
  }

  // ---------- appender steps ----------

  lemma AssembleAppend(r: Row, s: nat, sh': Shared, pc: AppendPc)
    requires Inv(r) && Enabled(r, Appender(s)) && AppendStep(r.epoch, r.cap, s, r.apc[s], r.sh) == (sh', pc)
    requires |sh'.buffers| == WIDTH && !sh'.fault
    requires LockOk(sh'.cnt, sh'.holder, r.apc[s := pc], r.fpc)
    requires DataOk(sh', r.apc[s := pc], r.epoch, r.base)
    requires BuffersOk(sh', r.cap, r.apc[s := pc], r.fpc)
    ensures Inv(Step(r, Appender(s)))
  {
    hide LockOk, OrderOk, OldOk, ContentOk, HandlesOk, HeapOk, BuffersOk, ReadersOk, AppendStep, Cores, Base;
    OrderAfterStep(r.apc, r.fpc, s, pc);
    IdleReaders(Step(r, Appender(s)));
  }

  lemma IdleReaders(r: Row)
    requires forall s :: s in r.rpc ==> r.rpc[s].RSearch?
    ensures ReadersOk(r)
  {
  }

  lemma OrderAfterFlush(apc: map<nat, AppendPc>, fpc: map<nat, FlushPc>, c: nat, pc: FlushPc)
    requires OrderOk(apc, fpc) && CoreDone(apc, c)
    ensures OrderOk(apc, fpc[c := pc])
  {
    hide EarlierDone, CoreDone;
  }

  lemma Parts(r: Row)
    requires Inv(r) && r.phase.InitPhase?
    ensures DataOk(r.sh, r.apc, r.epoch, r.base) && |r.sh.buffers| == WIDTH && !r.sh.fault && r.cap >= 1 && r.epoch + 1 < LOW
    ensures LockOk(r.sh.cnt, r.sh.holder, r.apc, r.fpc) && OrderOk(r.apc, r.fpc) && BuffersOk(r.sh, r.cap, r.apc, r.fpc)
    ensures forall s :: s in r.apc ==> s < EPOCH_SIZE
    ensures r.fpc.Keys == Cores()
  {
    hide LockOk, OrderOk, OldOk, ContentOk, HandlesOk, HeapOk, BuffersOk, ReadersOk;
  }

  predicate QuietPc(pc: AppendPc) {
    pc.ALoad? || pc.ATryLock? || pc.AInstall? || pc.AUnlock? || pc.AFullLock? || pc.AFullUnlock?
  }

  lemma QuietStep(r: Row, s: nat)
    requires Inv(r) && Enabled(r, Appender(s)) && QuietPc(r.apc[s])
    ensures Inv(Step(r, Appender(s)))
  {
    hide Inv, DataOk, LockOk, OrderOk, BuffersOk;
    Parts(r);
    var (sh', pc) := AppendStep(r.epoch, r.cap, s, r.apc[s], r.sh);
    LockIsFree(r);
    InstalledForFull(r, s);
    LockAfterAppend(r.sh.cnt, r.sh.holder, r.apc, r.fpc, s, pc, sh'.cnt, sh'.holder);
    QuietData(r.sh, sh', r.apc, r.epoch, r.base, s, pc);
    BuffersAfterQuiet(r.sh, sh', r.cap, r.apc, r.fpc, s, pc);
    AssembleAppend(r, s, sh', pc);
  }

  lemma LockIsFree(r: Row)
    requires LockOk(r.sh.cnt, r.sh.holder, r.apc, r.fpc)
    ensures r.sh.cnt == 0 <==> r.sh.holder == None
  {
  }

  lemma InstalledForFull(r: Row, s: nat)
    requires BuffersOk(r.sh, r.cap, r.apc, r.fpc) && s in r.apc
    ensures r.apc[s].ABuffer? || Full(r.apc[s]) ==> r.sh.installed
    ensures r.sh.installed || r.apc[s].AInstall? ==> r.sh.contended
  {
  }

  /** append_to_uncontended_row, under the lock. */
  lemma InsertStep(r: Row, s: nat)
    requires Inv(r) && Enabled(r, Appender(s)) && r.apc[s].AInsert?
    ensures Inv(Step(r, Appender(s)))
  {
    hide Inv, DataOk, LockOk, OrderOk, BuffersOk, Collect, Insert, Create;
    Parts(r);
    var (sh', pc) := AppendStep(r.epoch, r.cap, s, r.apc[s], r.sh);
    PackIsBase(r.epoch, s);
    InsertData(r.sh, r.apc, r.epoch, r.base, s);
    InstalledForFull(r, s);
    LockAfterAppend(r.sh.cnt, r.sh.holder, r.apc, r.fpc, s, pc, sh'.cnt, sh'.holder);
    BuffersAfterQuiet(r.sh, sh', r.cap, r.apc, r.fpc, s, pc);
    AssembleAppend(r, s, sh', pc);
  }

  lemma InsertData(sh: Shared, apc: map<nat, AppendPc>, epoch: nat, base: Slot, s: nat)
    requires DataOk(sh, apc, epoch, base) && s in apc && apc[s].AInsert?
    ensures var x := Base(epoch);
      var sh1 := Collect(Create(sh, x + s), x);
      var sh' := sh1.(slots := Insert(sh1.slots, Slot(x + s, NewId(sh))));
      && sh' == sh.(slots := sh'.slots, heap := sh'.heap, created := sh'.created, deleted := sh'.deleted)
      && DataOk(sh', apc[s := AUnlock(NewId(sh))], epoch, base)
  {
    hide OldOk, ContentOk, HandlesOk, HeapOk, Collect, GcOk, Collected, Insert, Has, HasId, Sorted, Handed;
    var x := Base(epoch);
    var pc := AUnlock(NewId(sh));
    CreateKeeps(sh, x, base, s, apc, epoch);
    CreatedHeap(sh, x, s, apc, pc);
    CreatedHandles(sh, x, s, apc, pc, epoch);
    var sh1 := Create(sh, x + s);
    var apc' := apc[s := pc];
    CollectAfterCreate(sh1, apc, apc', epoch, base);
    var sh2 := Collect(sh1, x);
    CreateFields(sh, x + s);
    NoEntryYet(sh2.slots, sh2.buffers, apc, x, s);
    OldIsSorted(sh2.slots, sh2.heap, x, base);
    var slots' := Insert(sh2.slots, Slot(x + s, pc.v));
    InsertKeepsOrder(sh2.slots, Slot(x + s, pc.v));
    forall id: int, v: VersionId
      ensures Has(slots', id, v) <==> Has(sh2.slots, id, v) || (id == x + s && v == pc.v)
    {
      InsertAdds(sh2.slots, Slot(x + s, pc.v), id, v);
    }
    GrowKeepsOld(sh2.slots, slots', sh2.heap, x, base);
    HeapWithMoreSlots(sh2.slots, slots', sh2.heap, sh2.created, sh2.deleted, apc', x);
    PlacedInSlots(sh2.slots, slots', sh2.buffers, apc, x, s, pc);
  }

  lemma CreateFields(sh: Shared, id: int)
    ensures var sh' := Create(sh, id);
      sh' == sh.(heap := sh'.heap, created := sh'.created)
  {
  }

  /** The collection keeps what belongs to the row before and after the new version is handed out. */
  lemma CollectAfterCreate(sh: Shared, apc: map<nat, AppendPc>, apc': map<nat, AppendPc>, epoch: nat, base: Slot)
    requires var x := Base(epoch);
      && OldOk(sh.slots, sh.heap, x, base)
      && ContentOk(sh.slots, sh.buffers, apc, x)
      && HandlesOk(sh.heap, apc', map[], epoch, x)
      && HeapOk(sh.slots, sh.heap, sh.created, sh.deleted, apc', x)
    ensures var x := Base(epoch); var sh' := Collect(sh, x);
      && sh' == sh.(slots := sh'.slots, heap := sh'.heap, deleted := sh'.deleted)
      && OldOk(sh'.slots, sh'.heap, x, base) && LowerBound(sh'.slots, x) == 1
      && ContentOk(sh'.slots, sh'.buffers, apc, x)
      && HandlesOk(sh'.heap, apc', map[], epoch, x)
      && HeapOk(sh'.slots, sh'.heap, sh'.created, sh'.deleted, apc', x)
  {
    hide OldOk, ContentOk, HandlesOk, HeapOk, Collect, GcOk, Collected;
    var x := Base(epoch);
    var sh' := Collect(sh, x);
    CollectSucceeds(sh, x, base);
    CollectKeeps(sh, x, base);
    CollectFrame(sh, x);
    CollectedHandles(sh, sh', x, base, apc', epoch);
    CollectedHeap(sh, sh', x, base, apc');
    CollectedContent(sh, sh', x, base, apc);
  }

  /** append_to_contented_row, up to the test whether the buffer is full. */
  lemma BufferStep(r: Row, s: nat)
    requires Inv(r) && Enabled(r, Appender(s)) && r.apc[s].ABuffer?
    ensures Inv(Step(r, Appender(s)))
  {
    hide Inv, DataOk, LockOk, OrderOk, BuffersOk, Collect, Insert, Create;
    Parts(r);
    var (sh', pc) := AppendStep(r.epoch, r.cap, s, r.apc[s], r.sh);
    PackIsBase(r.epoch, s);
    CreateFields(r.sh, Base(r.epoch) + s);
    AloneOnCore(r.apc, r.fpc, s);
    BufferNotFull(r.sh, r.cap, r.apc, r.fpc, s);
    BufferData(r.sh, r.apc, r.epoch, r.base, s, sh', pc);
    LockAfterAppend(r.sh.cnt, r.sh.holder, r.apc, r.fpc, s, pc, sh'.cnt, sh'.holder);
    BuffersAfterFill(r.sh, sh', r.cap, r.apc, r.fpc, s, pc);
    AssembleAppend(r, s, sh', pc);
  }

  lemma BufferData(sh: Shared, apc: map<nat, AppendPc>, epoch: nat, base: Slot, s: nat, sh': Shared, pc: AppendPc)
    requires DataOk(sh, apc, epoch, base) && s in apc && apc[s].ABuffer? && s % WIDTH < |sh.buffers|
    requires HasVersion(pc) && pc.v == NewId(sh)
    requires var x := Base(epoch); var sh1 := Create(sh, x + s);
      sh' == sh1.(buffers := sh.buffers[s % WIDTH := Insert(sh.buffers[s % WIDTH], Slot(x + s, NewId(sh)))], recorded := sh'.recorded)
    ensures DataOk(sh', apc[s := pc], epoch, base)
  {
    hide OldOk, ContentOk, HandlesOk, HeapOk, Insert, Has, HasId, Sorted, Handed;
    var x := Base(epoch);
    CreateKeeps(sh, x, base, s, apc, epoch);
    CreatedHeap(sh, x, s, apc, pc);
    CreatedHandles(sh, x, s, apc, pc, epoch);
    var was := sh.buffers[s % WIDTH];
    var buffer := Insert(was, Slot(x + s, pc.v));
    NoEntryYet(sh.slots, sh.buffers, apc, x, s);
    BufferSorted(sh.slots, sh.buffers, apc, x, s % WIDTH);
    InsertKeepsOrder(was, Slot(x + s, pc.v));
    forall id: int, v: VersionId
      ensures Has(buffer, id, v) <==> Has(was, id, v) || (id == x + s && v == pc.v)
    {
      InsertAdds(was, Slot(x + s, pc.v), id, v);
    }
    InsertAdds(was, Slot(x + s, pc.v), x + s, pc.v);
    PlacedInBuffer(sh.slots, sh.buffers, buffer, apc, x, s, pc);
  }

  lemma BatchStep(r: Row, s: nat)
    requires Inv(r) && Enabled(r, Appender(s)) && r.apc[s].AFullBatch?
    ensures Inv(Step(r, Appender(s)))
  {
    hide Inv, DataOk, LockOk, OrderOk, BuffersOk, BatchAppend;
    Parts(r);
    var (sh', pc) := AppendStep(r.epoch, r.cap, s, r.apc[s], r.sh);
    BatchData(r.sh, r.apc, r.epoch, r.base, s % WIDTH);
    QuietData(sh', sh', r.apc, r.epoch, r.base, s, pc);
    LockAfterAppend(r.sh.cnt, r.sh.holder, r.apc, r.fpc, s, pc, sh'.cnt, sh'.holder);
    BuffersAfterEmptying(r.sh, sh', r.cap, r.apc, r.fpc, s, pc);
    AssembleAppend(r, s, sh', pc);
  }

  // ---------- flusher steps ----------

  lemma AssembleFlush(r: Row, c: nat, sh': Shared, pc: FlushPc)
    requires Inv(r) && Enabled(r, Flusher(c)) && FlushStep(r.epoch, c, r.fpc[c], r.sh) == (sh', pc)
    requires |sh'.buffers| == WIDTH && !sh'.fault
    requires LockOk(sh'.cnt, sh'.holder, r.apc, r.fpc[c := pc])
    requires DataOk(sh', r.apc, r.epoch, r.base)
    requires BuffersOk(sh', r.cap, r.apc, r.fpc[c := pc])
    ensures Inv(Step(r, Flusher(c)))
  {
    hide LockOk, OrderOk, OldOk, ContentOk, HandlesOk, HeapOk, BuffersOk, ReadersOk, FlushStep, Cores, Base;
    OrderAfterFlush(r.apc, r.fpc, c, pc);
    assert r.fpc[c := pc].Keys == r.fpc.Keys;
    IdleReaders(Step(r, Flusher(c)));
  }

  lemma FlushStepKeeps(r: Row, c: nat)
    requires Inv(r) && Enabled(r, Flusher(c))
    ensures Inv(Step(r, Flusher(c)))
  {
    hide Inv, DataOk, LockOk, OrderOk, BuffersOk, BatchAppend;
    Parts(r);
    var (sh', pc) := FlushStep(r.epoch, c, r.fpc[c], r.sh);
    LockIsFree(r);
    FlushedAlready(r, c);
    if r.fpc[c].FBatch? {
      BatchData(r.sh, r.apc, r.epoch, r.base, c);
    } else {
      SameData(r.sh, sh', r.apc, r.epoch, r.base);
    }
    LockAfterFlush(r.sh.cnt, r.sh.holder, r.apc, r.fpc, c, pc, sh'.cnt, sh'.holder);
    BuffersAfterFlush(r.sh, sh', r.cap, r.apc, r.fpc, c, pc);
    AssembleFlush(r, c, sh', pc);
  }

  lemma FlushedAlready(r: Row, c: nat)
    requires BuffersOk(r.sh, r.cap, r.apc, r.fpc) && c in r.fpc && c < |r.sh.buffers| && CoreDone(r.apc, c)
    ensures r.fpc[c].FUnlock? || (r.fpc[c].FCheck? && c !in r.sh.recorded) ==> r.sh.buffers[c] == []
    ensures FlushBegun(r.fpc[c]) ==> c in r.sh.recorded
  {
    if c !in r.sh.recorded { NothingToFlush(r.sh, r.cap, r.apc, r.fpc, c); }
  }

  lemma SameData(sh: Shared, sh': Shared, apc: map<nat, AppendPc>, epoch: nat, base: Slot)
    requires DataOk(sh, apc, epoch, base)
    requires sh' == sh.(cnt := sh'.cnt, holder := sh'.holder, recorded := sh'.recorded)
    ensures DataOk(sh', apc, epoch, base)
  {
    hide OldOk, ContentOk, HandlesOk, HeapOk;
  }

  lemma AppendStepKeeps(r: Row, s: nat)
    requires Inv(r) && Enabled(r, Appender(s))
    ensures Inv(Step(r, Appender(s)))
  {
    hide Inv, Step;
    match r.apc[s]
    case AInsert => InsertStep(r, s);
    case ABuffer => BufferStep(r, s);
    case AFullBatch(_) => BatchStep(r, s);
    case _ => QuietStep(r, s);
  }
}
