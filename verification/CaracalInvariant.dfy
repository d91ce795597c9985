/** The inductive invariant of a Caracal row, and what garbage collection does to the version array. */
module CaracalInvariant {
  import opened Bits
  import opened TwoLevelBitmap
  import opened Versions
  import opened SortedSlots
  import opened CaracalRow

  predicate HasVersion(pc: AppendPc) {
    pc.AUnlock? || pc.AFullLock? || pc.AFullBatch? || pc.AFullUnlock? || pc.ADone?
  }

  predicate AppenderInLock(pc: AppendPc) {
    pc.AInsert? || pc.AUnlock? || pc.AFullBatch? || pc.AFullUnlock?
  }

  predicate FlusherInLock(pc: FlushPc) {
    pc.FBatch? || pc.FUnlock?
  }

  predicate FlushBegun(pc: FlushPc) {
    pc.FLock? || pc.FBatch? || pc.FUnlock?
  }

  predicate Full(pc: AppendPc) {
    pc.AFullLock? || pc.AFullBatch?
  }

  /** The content that the version with a global id has once it is STABLE. */
  function TagOf(id: int): Tag {
    if id < LOW then Loaded else Written(PackedEpoch(id) - 1, PackedSerial(id))
  }

  /** The version belongs to writer `s` of the epoch. */
  predicate Handed(apc: map<nat, AppendPc>, x: int, id: int, v: VersionId) {
    id >= x && id - x in apc && HasVersion(apc[id - x]) && apc[id - x].v == v
  }

  ghost predicate Shape(r: Row) {
    && |r.sh.buffers| == WIDTH
    && r.cap >= 1
    && r.epoch + 1 < LOW
    && (forall s :: s in r.apc ==> s < EPOCH_SIZE)
    && (forall s :: s in r.rpc ==> s < EPOCH_SIZE)
    && r.fpc.Keys == Cores()
    && !r.sh.fault
    && (r.phase.InitPhase? ==> r.wpc == map[] && forall s :: s in r.rpc ==> r.rpc[s].RSearch?)
    && (r.phase.ExecPhase? ==>
          && (forall s :: s in r.apc ==> r.apc[s].ADone?)
          && (forall c :: c in r.fpc ==> r.fpc[c].FDone?)
          && r.wpc.Keys == r.apc.Keys
          && (forall s :: s in r.wpc ==> r.wpc[s].v == r.apc[s].v))
  }

  ghost predicate LockOk(cnt: int, holder: Option<Actor>, apc: map<nat, AppendPc>, fpc: map<nat, FlushPc>) {
    && cnt == (if holder.Some? then -1 else 0)
    && (forall s :: s in apc ==> (AppenderInLock(apc[s]) <==> holder == Some(Appender(s))))
    && (forall c :: c in fpc ==> (FlusherInLock(fpc[c]) <==> holder == Some(Flusher(c))))
    && (match holder
        case None => true
        case Some(Appender(s)) => s in apc
        case Some(Flusher(c)) => c in fpc
        case Some(_) => false)
  }

  ghost predicate OrderOk(apc: map<nat, AppendPc>, fpc: map<nat, FlushPc>) {
    && (forall s :: s in apc && !apc[s].ALoad? ==> EarlierDone(apc, s))
    && (forall c :: c in fpc && !fpc[c].FCheck? ==> CoreDone(apc, c))
  }

  /**
    The array is sorted; its part from before the epoch is not empty, STABLE, and ends in the row's state;
    nothing of this epoch is in the array before the older part has been cut down to that one entry.
   */
  ghost predicate OldOk(slots: seq<Slot>, heap: map<VersionId, Cell>, x: int, base: Slot) {
    && Sorted(slots)
    && LowerBound(slots, x) > 0
    && slots[LowerBound(slots, x) - 1] == base
    && (LowerBound(slots, x) < |slots| ==> LowerBound(slots, x) == 1)
    && (forall id: int, v: VersionId :: Has(slots, id, v) && id < x ==>
          id >= 0 && v in heap && heap[v] == Cell(Some(TagOf(id)), Stable, id))
  }

  ghost predicate InBuffer(buffers: seq<seq<Slot>>, c: nat, id: int, v: VersionId) {
    c < |buffers| && Has(buffers[c], id, v)
  }

  /** An entry of core `c`'s buffer belongs to a writer of that core and is not in the array as well. */
  ghost predicate Rightful(slots: seq<Slot>, apc: map<nat, AppendPc>, x: int, c: nat, id: int, v: VersionId) {
    Handed(apc, x, id, v) && (id - x) % WIDTH == c && !HasId(slots, id)
  }

  ghost predicate Placed(slots: seq<Slot>, buffers: seq<seq<Slot>>, x: int, s: nat, v: VersionId) {
    Has(slots, x + s, v) || InBuffer(buffers, s % WIDTH, x + s, v)
  }

  /** Array and buffers together hold exactly the versions handed out in this epoch, each in one place. */
  ghost predicate ContentOk(slots: seq<Slot>, buffers: seq<seq<Slot>>, apc: map<nat, AppendPc>, x: int) {
    && (forall id: int, v: VersionId :: Has(slots, id, v) && id >= x ==> Handed(apc, x, id, v))
    && (forall c: nat :: c < |buffers| ==> Sorted(buffers[c]))
    && (forall c: nat, id: int, v: VersionId :: InBuffer(buffers, c, id, v) ==> Rightful(slots, apc, x, c, id, v))
    && (forall s :: s in apc && HasVersion(apc[s]) ==> Placed(slots, buffers, x, s, apc[s].v))
  }

  /** The state of the version of writer `s`. */
  function Content(epoch: nat, x: int, s: nat, wpc: map<nat, WriterPc>): Cell {
    if s in wpc then
      Cell(if wpc[s].WStoreRec? then None else Some(Written(epoch, s)),
           if wpc[s].WDone? then Stable else Pending, x + s)
    else Cell(None, Pending, x + s)
  }

  ghost predicate HandlesOk(heap: map<VersionId, Cell>, apc: map<nat, AppendPc>, wpc: map<nat, WriterPc>, epoch: nat,
                            x: int) {
    forall s :: s in apc && HasVersion(apc[s]) ==> apc[s].v in heap && heap[apc[s].v] == Content(epoch, x, s, wpc)
  }

  /** No version is leaked, and nothing is counted twice. */
  ghost predicate HeapOk(slots: seq<Slot>, heap: map<VersionId, Cell>, created: nat, deleted: nat,
                         apc: map<nat, AppendPc>, x: int) {
    && (forall v: VersionId :: v in heap ==> v <= created && (Has(slots, heap[v].owner, v) || Handed(apc, x, heap[v].owner, v)))
    && created + 1 == |heap| + deleted
  }

  ghost predicate BuffersOk(sh: Shared, cap: nat, apc: map<nat, AppendPc>, fpc: map<nat, FlushPc>) {
    && (forall s :: s in apc && (apc[s].ABuffer? || Full(apc[s])) ==> sh.installed)
    && (forall c: nat :: c < |sh.buffers| && |sh.buffers[c]| >= cap ==>
          exists s :: s in apc && s % WIDTH == c && Full(apc[s]))
    && (forall c: nat :: c < |sh.buffers| && sh.buffers[c] != [] ==>
          c in sh.recorded || exists s :: s in apc && s % WIDTH == c && Full(apc[s]))
    && (forall c :: c in fpc && c < |sh.buffers| && (fpc[c].FUnlock? || fpc[c].FDone?) ==> sh.buffers[c] == [])
    && (forall c :: c in fpc && fpc[c].FDone? ==> c !in sh.recorded)
    && (forall c :: c in fpc && FlushBegun(fpc[c]) ==> c in sh.recorded)
    && (forall c :: c in sh.recorded ==> exists s :: s in apc && s % WIDTH == c && apc[s].ADone?)
    && (sh.installed ==> sh.contended)
    && (forall s :: s in apc && apc[s].AInstall? ==> sh.contended)
  }

  ghost predicate ReaderOk(slots: seq<Slot>, heap: map<VersionId, Cell>, writers: set<nat>, epoch: nat, x: int, base: Slot,
                           s: nat, pc: ReaderPc) {
    && (pc.RWait? || pc.RLoad? ==> LowerBound(slots, x + s) > 0 && slots[LowerBound(slots, x + s) - 1].v == pc.v)
    && (pc.RLoad? ==> pc.v in heap && heap[pc.v].status == Stable)
    && (pc.RDone? ==> pc.rec == Some(Outcome(writers, epoch, TagOf(base.id), s)))
  }

  ghost predicate ReadersOk(r: Row) {
    forall s :: s in r.rpc ==>
      ReaderOk(r.sh.slots, r.sh.heap, r.apc.Keys, r.epoch, Base(r.epoch), r.base, s, r.rpc[s])
  }

  ghost predicate Inv(r: Row) {
    var x := Base(r.epoch);
    && Shape(r)
    && LockOk(r.sh.cnt, r.sh.holder, r.apc, r.fpc)
    && OrderOk(r.apc, r.fpc)
    && OldOk(r.sh.slots, r.sh.heap, x, r.base)
    && ContentOk(r.sh.slots, r.sh.buffers, r.apc, x)
    && HandlesOk(r.sh.heap, r.apc, r.wpc, r.epoch, x)
    && HeapOk(r.sh.slots, r.sh.heap, r.sh.created, r.sh.deleted, r.apc, x)
    && BuffersOk(r.sh, r.cap, r.apc, r.fpc)
    && ReadersOk(r)
  }

  // ---------- global ids ----------

  lemma PackIsBase(e: nat, s: nat)
    requires s < EPOCH_SIZE
    ensures Pack(e + 1, s) == Base(e) + s
  {
  }

  /** As long as the epoch fits 32 bits, ids decode to what was packed and are ordered first by epoch. */
  lemma PackRoundTrip(e: nat, s: nat)
    requires e < LOW && s < LOW
    ensures Pack(e, s) == e * LOW + s && PackedEpoch(Pack(e, s)) == e && PackedSerial(Pack(e, s)) == s
  {
    assert e * LOW < FULL;
  }

  lemma PackIsLexicographic(e: nat, s: nat, e': nat, s': nat)
    requires e < LOW && e' < LOW && s < LOW && s' < LOW
    ensures Pack(e, s) < Pack(e', s') <==> e < e' || (e == e' && s < s')
  {
    PackRoundTrip(e, s);
    PackRoundTrip(e', s');
  }

  /** The order of two epochs survives packing exactly when the later one still fits 32 bits, up to whole wraps. */
  lemma PackOrderIsLostAtWrap(e: nat)
    ensures Pack(e, 0) < Pack(e + 1, 0) <==> (e + 1) % LOW != 0
  {
    assert (e * LOW) % FULL == (e % LOW) * LOW by { ScaledModulo(e); }
    assert ((e + 1) * LOW) % FULL == ((e + 1) % LOW) * LOW by { ScaledModulo(e + 1); }
    assert (e + 1) % LOW == if e % LOW == LOW - 1 then 0 else e % LOW + 1;
  }

  lemma ScaledModulo(e: nat)
    ensures (e * LOW) % FULL == (e % LOW) * LOW
  {
    var q, m := e / LOW, e % LOW;
    assert e == q * LOW + m;
    assert e * LOW == q * FULL + m * LOW;
    assert 0 <= m * LOW < FULL;
  }

  lemma TagOfPacked(e: nat, s: nat)
    requires e + 1 < LOW && s < EPOCH_SIZE
    ensures TagOf(Base(e) + s) == Written(e, s)
  {
    PackRoundTrip(e + 1, s);
  }

  lemma BaseGrows(e: nat)
    requires e + 2 < LOW
    ensures Base(e) + EPOCH_SIZE <= Base(e + 1)
  {
    PackRoundTrip(e + 1, 0);
    PackRoundTrip(e + 2, 0);
  }

  // ---------- garbage collection ----------

  /** minor_gc removes exactly the entries before the last one that is older than the epoch. */
  lemma {:induction false} MinorGcIsSuffix(a: seq<Slot>, x: int)
    requires Sorted(a) && LowerBound(a, x) > 0
    ensures var p := LowerBound(a, x);
      && MinorGc(a, x) == a[p - 1..]
      && |Dropped(a, x)| == p - 1
      && forall i :: 0 <= i < p - 1 ==> Dropped(a, x)[i] == a[i].v
  {
    if |a| > 1 && a[1].id < x {
      assert LowerBound(a, x) == 1 + LowerBound(a[1..], x);
      MinorGcIsSuffix(a[1..], x);
    }
  }

  lemma BoundIsMonotone(a: seq<Slot>, x: int, y: int)
    requires x <= y
    ensures LowerBound(a, x) <= LowerBound(a, y)
  {
  }

  /** No search at or after the beginning of the epoch changes its answer. */
  lemma MinorGcPreservesVisibility(a: seq<Slot>, x: int, y: int)
    requires Sorted(a) && LowerBound(a, x) > 0 && x <= y
    ensures var b := MinorGc(a, x);
      && Sorted(b) && LowerBound(b, y) > 0 && LowerBound(b, x) == 1
      && b[LowerBound(b, y) - 1] == a[LowerBound(a, y) - 1]
  {
    hide MinorGc, Dropped, LowerBound;
    MinorGcIsSuffix(a, x);
    var p, q := LowerBound(a, x), LowerBound(a, y);
    BoundIsMonotone(a, x, y);
    BoundIsUnique(a[p - 1..], y, q - (p - 1));
    BoundIsUnique(a[p - 1..], x, 1);
  }

  lemma HasSuffix(a: seq<Slot>, p: nat, id: int, v: VersionId)
    requires Sorted(a) && p < |a|
    ensures Has(a[p..], id, v) <==> Has(a, id, v) && a[p].id <= id
  {
    if Has(a[p..], id, v) {
      var i :| 0 <= i < |a[p..]| && a[p..][i] == Slot(id, v);
      assert a[i + p] == Slot(id, v);
    }
    if Has(a, id, v) && a[p].id <= id {
      var i :| 0 <= i < |a| && a[i] == Slot(id, v);
      assert p <= i && a[p..][i - p] == Slot(id, v);
    }
  }

  lemma AfterMinorGc(a: seq<Slot>, x: int, id: int, v: VersionId)
    requires Sorted(a) && LowerBound(a, x) > 0
    ensures Has(MinorGc(a, x), id, v) <==> Has(a, id, v) && a[LowerBound(a, x) - 1].id <= id
  {
    hide MinorGc, Dropped, LowerBound;
    MinorGcIsSuffix(a, x);
    HasSuffix(a, LowerBound(a, x) - 1, id, v);
  }

  /** The versions that the loop deletes. */
  lemma DroppedVersions(a: seq<Slot>, x: int, v: VersionId)
    requires Sorted(a) && LowerBound(a, x) > 0
    ensures v in Dropped(a, x) <==> exists id: int :: Has(a, id, v) && id < a[LowerBound(a, x) - 1].id
  {
    MinorGcIsSuffix(a, x);
    var p := LowerBound(a, x);
    if v in Dropped(a, x) {
      var i :| 0 <= i < p - 1 && Dropped(a, x)[i] == v;
      assert a[i] == Slot(a[i].id, v) && Has(a, a[i].id, v);
    }
    if id :| Has(a, id, v) && id < a[p - 1].id {
      var i :| 0 <= i < |a| && a[i] == Slot(id, v);
      assert i < p - 1 && Dropped(a, x)[i] == v;
    }
  }

  lemma NoVersionDroppedTwice(a: seq<Slot>, heap: map<VersionId, Cell>, x: int, base: Slot)
    requires OldOk(a, heap, x, base)
    ensures forall i, j :: 0 <= i < j < |Dropped(a, x)| ==> Dropped(a, x)[i] != Dropped(a, x)[j]
  {
    MinorGcIsSuffix(a, x);
    forall i, j | 0 <= i < j < |Dropped(a, x)|
      ensures Dropped(a, x)[i] != Dropped(a, x)[j]
    {
      assert a[i] == Slot(a[i].id, a[i].v) && Has(a, a[i].id, a[i].v);
      assert a[j] == Slot(a[j].id, a[j].v) && Has(a, a[j].id, a[j].v);
    }
  }

  /** What the collection leaves behind, for an array whose older part is in order. */
  ghost predicate Collected(sh: Shared, sh': Shared, x: int) {
    && LowerBound(sh.slots, x) > 0
    && var last := sh.slots[LowerBound(sh.slots, x) - 1];
    && sh' == sh.(slots := sh'.slots, heap := sh'.heap, deleted := sh'.deleted)
    && (forall id: int, v: VersionId :: Has(sh'.slots, id, v) <==> Has(sh.slots, id, v) && last.id <= id)
    && (forall v: VersionId :: v in sh'.heap <==> v in sh.heap && !(exists id: int :: Has(sh.slots, id, v) && id < last.id))
    && (forall v: VersionId :: v in sh'.heap ==> sh'.heap[v] == sh.heap[v])
    && |sh'.heap| + sh'.deleted == |sh.heap| + sh.deleted
  }

  lemma CollectSucceeds(sh: Shared, x: int, base: Slot)
    requires OldOk(sh.slots, sh.heap, x, base)
    ensures GcOk(sh, x)
  {
    hide MinorGc, Dropped, LowerBound, TagOf;
    NoVersionDroppedTwice(sh.slots, sh.heap, x, base);
    SearchFindsVisible(sh.slots, x);
    var last := LowerBound(sh.slots, x) - 1;
    assert sh.slots[last].id < x;
    forall v: VersionId | v in Dropped(sh.slots, x)
      ensures CanDelete(sh, v)
    {
      DroppedVersions(sh.slots, x, v);
    }
  }

  lemma CollectKeeps(sh: Shared, x: int, base: Slot)
    requires OldOk(sh.slots, sh.heap, x, base)
    ensures Collected(sh, Collect(sh, x), x)
    ensures OldOk(Collect(sh, x).slots, Collect(sh, x).heap, x, base)
    ensures LowerBound(Collect(sh, x).slots, x) == 1
  {
    hide MinorGc, Dropped, LowerBound, TagOf, GcOk, OldOk;
    CollectSucceeds(sh, x, base);
    assert Sorted(sh.slots) && LowerBound(sh.slots, x) > 0 by { OldIsSorted(sh.slots, sh.heap, x, base); }
    forall id: int, v: VersionId
      ensures Has(MinorGc(sh.slots, x), id, v) <==> Has(sh.slots, id, v) && sh.slots[LowerBound(sh.slots, x) - 1].id <= id
    {
      AfterMinorGc(sh.slots, x, id, v);
    }
    CollectHeap(sh, x, base);
    CollectOld(sh, Collect(sh, x), x, base);
  }

  lemma OldIsSorted(slots: seq<Slot>, heap: map<VersionId, Cell>, x: int, base: Slot)
    requires OldOk(slots, heap, x, base)
    ensures Sorted(slots) && LowerBound(slots, x) > 0
  {
  }

  lemma CollectHeap(sh: Shared, x: int, base: Slot)
    requires OldOk(sh.slots, sh.heap, x, base) && GcOk(sh, x)
    ensures var sh' := Collect(sh, x); var last := sh.slots[LowerBound(sh.slots, x) - 1];
      && (forall v: VersionId :: v in sh'.heap <==> v in sh.heap && !(exists id: int :: Has(sh.slots, id, v) && id < last.id))
      && |sh'.heap| + sh'.deleted == |sh.heap| + sh.deleted
  {
    hide MinorGc, Dropped, LowerBound, TagOf, Has, OldOk, HasOlder;
    OldIsSorted(sh.slots, sh.heap, x, base);
    forall v: VersionId
      ensures v in Dropped(sh.slots, x) <==> exists id: int :: Has(sh.slots, id, v) && id < sh.slots[LowerBound(sh.slots, x) - 1].id
    {
      DroppedVersions(sh.slots, x, v);
    }
    DistinctCount(Dropped(sh.slots, x));
    RemoveAll(sh.heap, AsSet(Dropped(sh.slots, x)));
  }

  lemma RemoveAll(heap: map<VersionId, Cell>, gone: set<VersionId>)
    requires gone <= heap.Keys
    ensures |heap - gone| == |heap| - |gone|
  {
    assert (heap - gone).Keys == heap.Keys - gone;
  }

  lemma CollectOld(sh: Shared, sh': Shared, x: int, base: Slot)
    requires OldOk(sh.slots, sh.heap, x, base) && Collected(sh, sh', x)
    requires sh'.slots == MinorGc(sh.slots, x)
    ensures OldOk(sh'.slots, sh'.heap, x, base) && LowerBound(sh'.slots, x) == 1
  {
    hide MinorGc, TagOf, LowerBound;
    MinorGcPreservesVisibility(sh.slots, x, x);
    forall id: int, v: VersionId | Has(sh'.slots, id, v) && id < x
      ensures id >= 0 && v in sh'.heap && sh'.heap[v] == Cell(Some(TagOf(id)), Stable, id)
    {
      assert Has(sh.slots, id, v);
      LastIsOld(sh.slots, x);
    }
  }

  lemma LastIsOld(slots: seq<Slot>, x: int)
    requires LowerBound(slots, x) > 0
    ensures slots[LowerBound(slots, x) - 1].id < x
  {
    hide LowerBound;
    var last := LowerBound(slots, x) - 1;
    assert 0 <= last < LowerBound(slots, x);
  }
}
