/**
  The objects of the Caracal protocol with their fields updated in place: a row's version array and
  buffers, and the worker's flush at the end of the initialization phase in both of its variants.
  Each method is proved equal to the step functions that the transition system of `CaracalRow` uses.
 */
module CaracalObjects {
  import opened Bits
  import opened TwoLevelBitmap
  import opened Versions
  import opened SortedSlots
  import opened Workload
  import opened CaracalRow
  import opened CaracalInvariant
  import opened CaracalRoutes

  /** protocols/caracal/include/row_buffer.hpp: GlobalVersionArray and the row's PerCoreBuffers, with the heap of versions. */
  class Value {
    var idsSlots: seq<Slot>
    var cnt: int
    var installed: bool
    var buffers: seq<seq<Slot>>
    var heap: map<VersionId, Cell>
    var created: nat
    var deleted: nat

    /** The row's data as the transition system has them; the workers' lists are not part of it. */
    function State(): Shared
      reads this
    {
      Shared(idsSlots, cnt, installed, buffers, {}, heap, created, deleted, false, None, false)
    }

    /** The row as the loader creates it. */
    constructor ()
      ensures State() == Initial(1, {}, {}).sh
    {
      idsSlots, cnt := [Slot(0, 0)], 0;
      installed := false;
      buffers := seq(WIDTH, _ => []);
      heap := map[0 := Cell(Some(Loaded), Stable, 0)];
      created, deleted := 0, 0;
    }

    method CreatePendingVersion(id: int) returns (v: VersionId)
      modifies this
      ensures State() == Create(old(State()), id)
      ensures v == NewId(old(State())) && v in heap
    {
      v := created + 1;
      heap := heap[v := Cell(None, Pending, id)];
      created := created + 1;
    }

    /** minor_gc: drop the first entry as long as the second one is older than the epoch, too. */
    method MinorGc(x: int)
      requires GcOk(State(), x)
      modifies this
      ensures State() == Collect(old(State()), x)
    {
      hide GcOk, Dropped, CaracalRow.MinorGc, Collecting, HasOlder;
      ghost var was := State();
      ghost var n := 0;
      CollectingStarts(was, x);
      while 1 < |idsSlots| && idsSlots[1].id < x
        invariant Collecting(was, idsSlots, heap, deleted, x, n)
        invariant cnt == was.cnt && installed == was.installed && buffers == was.buffers && created == was.created
        decreases |idsSlots|
      {
        CollectingOneMore(was, idsSlots, heap, deleted, x, n);
        heap := heap - {idsSlots[0].v};
        deleted := deleted + 1;
        idsSlots := idsSlots[1..];
        n := n + 1;
      }
      CollectingEnds(was, idsSlots, heap, deleted, x, n);
    }

    /** append_with_no_gc */
    method AppendWithNoGc(id: int, v: VersionId)
      modifies this`idsSlots
      ensures idsSlots == Insert(old(idsSlots), Slot(id, v))
    {
      var it := LowerBound(idsSlots, id + 1);
      idsSlots := idsSlots[..it] + [Slot(id, v)] + idsSlots[it..];
    }

    /** append_with_gc */
    method AppendWithGc(epoch: nat, serial: nat, v: VersionId)
      requires serial < EPOCH_SIZE && GcOk(State(), Pack(epoch, 0))
      modifies this
      ensures var collected := Collect(old(State()), Pack(epoch, 0));
        State() == collected.(slots := Insert(collected.slots, Slot(Pack(epoch, serial), v)))
    {
      MinorGc(Pack(epoch, 0));
      AppendWithNoGc(Pack(epoch, serial), v);
    }

    /** batch_append */
    method BatchAppend(core: nat, x: int)
      requires core < |buffers| && GcOk(State(), x)
      modifies this
      ensures State() == CaracalRow.BatchAppend(old(State()), core, x)
    {
      MinorGc(x);
      ghost var collected := idsSlots;
      label L:
      var todo := buffers[core];
      while todo != []
        invariant buffers == old@L(buffers) && installed == old@L(installed) && cnt == old@L(cnt)
        invariant heap == old@L(heap) && deleted == old@L(deleted) && created == old@L(created)
        invariant InsertAll(idsSlots, todo) == InsertAll(collected, buffers[core])
        decreases |todo|
      {
        AppendWithNoGc(todo[0].id, todo[0].v);
        todo := todo[1..];
      }
      buffers := buffers[core := []];
    }

    /** appendable, on the worker's own buffer: false when the buffer is full now */
    method Appendable(core: nat, cap: nat, v: VersionId, id: int) returns (ok: bool)
      requires core < |buffers|
      modifies this`buffers
      ensures core < |old(buffers)| && buffers == old(buffers)[core := Insert(old(buffers)[core], Slot(id, v))]
      ensures ok <==> |buffers[core]| < cap
    {
      var slots := buffers[core];
      var it := LowerBound(slots, id + 1);
      slots := slots[..it] + [Slot(id, v)] + slots[it..];
      buffers := buffers[core := slots];
      return |slots| < cap;
    }

    /**
      do_append_pending_version, by worker `core`: to the array when the row has no buffers and its lock is free, else
      to the worker's buffer, which the row gets now if it has none; `record` says whether the worker has to flush it later.
      A buffer that is full is appended at once, as soon as the lock is free.
     */
    method DoAppendPendingVersion(epoch: nat, serial: nat, core: nat, cap: nat) returns (v: VersionId, record: bool)
      requires serial < EPOCH_SIZE && core < |buffers|
      requires (!installed && cnt == 0) || |buffers[core]| + 1 == cap ==>
                 GcOk(WithVersion(State(), Pack(epoch, serial)), Pack(epoch, 0))
      requires installed || cnt != 0 ==> |buffers[core]| < cap
      requires (installed || cnt != 0) && |buffers[core]| + 1 == cap ==> cnt == 0
      modifies this
      ensures core < |old(buffers)| && v == old(created) + 1
      ensures record <==> (old(installed) || old(cnt) != 0) && |old(buffers)[core]| + 1 < cap
      ensures var id, x := Pack(epoch, serial), Pack(epoch, 0);
        var cleaned := Cleaned(WithVersion(old(State()), id), x);
        State() == if !old(installed) && old(cnt) == 0 then cleaned.(slots := Insert(cleaned.slots, Slot(id, v)))
                   else if record then Buffered(old(State()).(installed := true), cap, core, id).(recorded := {})
                   else Overflowed(old(State()).(installed := true), core, id, x)
    {
      hide GcOk, Dropped, CaracalRow.MinorGc, HasOlder, InsertAll, LowerBound, AsSet;
      var id := Pack(epoch, serial);
      ghost var was := State();
      CreatedIs(was, id);
      if !installed {
        if cnt == 0 {
          CollectAtPc(was, -1, was.installed, was.buffers, id, Pack(epoch, 0));
          cnt := -1;
          v := CreatePendingVersion(id);
          AppendWithGc(epoch, serial, v);
          cnt := cnt + 1;
          return v, false;
        }
        installed := true;
      }
      v := CreatePendingVersion(id);
      record := Appendable(core, cap, v, id);
      if !record {
        CollectAtPc(was, -1, true, buffers, id, Pack(epoch, 0));
        cnt := -1;
        BatchAppend(core, Pack(epoch, 0));
        cnt := cnt + 1;
      }
    }

    /** search_visible_version: the entry with the lexicographically largest (epoch, serial) below the reader's. */
    method SearchVisibleVersion(epoch: nat, serial: nat) returns (id: int, v: VersionId)
      requires serial < EPOCH_SIZE && Sorted(idsSlots) && idsSlots != [] && HasOlder(idsSlots, Pack(epoch, serial))
      requires Pack(epoch, serial) != 0
      ensures IsVisible(idsSlots, Pack(epoch, serial), id, v)
    {
      SearchFindsVisible(idsSlots, Pack(epoch, serial));
      SomethingOlder(idsSlots, Pack(epoch, serial));
      var it := LowerBound(idsSlots, Pack(epoch, serial)) - 1;
      return idsSlots[it].id, idsSlots[it].v;
    }
  }

  /** The collection depends on neither the lock nor the buffers. */
  lemma CollectAtPc(sh: Shared, cnt: int, installed: bool, buffers: seq<seq<Slot>>, id: int, x: int)
    requires GcOk(WithVersion(sh, id), x)
    ensures var sh' := Create(sh.(cnt := cnt, installed := installed, buffers := buffers), id);
      GcOk(sh', x) && Collect(sh', x) == Cleaned(WithVersion(sh, id), x).(cnt := cnt, installed := installed, buffers := buffers)
  {
    hide HasOlder, Dropped, MinorGc;
  }

  lemma SomethingOlder(a: seq<Slot>, x: int)
    requires HasOlder(a, x) && x != 0
    ensures exists id: int :: HasId(a, id) && id < x
  {
    var i :| 0 <= i < |a| && a[i].id < x;
    assert HasId(a, a[i].id);
  }

  /** The loop of minor_gc after `n` rounds. */
  ghost predicate Collecting(was: Shared, slots: seq<Slot>, heap: map<VersionId, Cell>, deleted: nat, x: int, n: nat) {
    var all := Dropped(was.slots, x);
    && GcOk(was, x)
    && n <= |all|
    && all[n..] == Dropped(slots, x)
    && MinorGc(slots, x) == MinorGc(was.slots, x)
    && heap == was.heap - AsSet(all[..n])
    && deleted == was.deleted + n
  }

  lemma CollectingStarts(was: Shared, x: int)
    requires GcOk(was, x)
    ensures Collecting(was, was.slots, was.heap, was.deleted, x, 0)
  {
    hide GcOk, Dropped, MinorGc;
    var all := Dropped(was.slots, x);
    assert all[0..] == all && AsSet(all[..0]) == {};
    assert was.heap - {} == was.heap;
  }

  lemma CollectingOneMore(was: Shared, slots: seq<Slot>, heap: map<VersionId, Cell>, deleted: nat, x: int, n: nat)
    requires Collecting(was, slots, heap, deleted, x, n) && 1 < |slots| && slots[1].id < x
    ensures slots[0].v in heap && CanDelete(was, slots[0].v)
    ensures Collecting(was, slots[1..], heap - {slots[0].v}, deleted + 1, x, n + 1)
  {
    var all := Dropped(was.slots, x);
    assert Dropped(slots, x) == [slots[0].v] + Dropped(slots[1..], x) && MinorGc(slots, x) == MinorGc(slots[1..], x);
    hide Dropped, MinorGc, HasOlder;
    assert all[n..][0] == all[n] == slots[0].v && all[n..][1..] == all[n + 1..];
    PrefixSet(all, n);
    NotInPrefix(was, x, n);
    assert was.heap - AsSet(all[..n]) - {all[n]} == was.heap - AsSet(all[..n + 1]);
  }

  lemma PrefixSet(all: seq<VersionId>, n: nat)
    requires n < |all|
    ensures AsSet(all[..n + 1]) == AsSet(all[..n]) + {all[n]}
  {
    assert all[..n + 1] == all[..n] + [all[n]];
  }

  /** The next version to delete is still there. */
  lemma NotInPrefix(was: Shared, x: int, n: nat)
    requires GcOk(was, x) && n < |Dropped(was.slots, x)|
    ensures Dropped(was.slots, x)[n] !in AsSet(Dropped(was.slots, x)[..n]) && CanDelete(was, Dropped(was.slots, x)[n])
  {
    hide Dropped, HasOlder;
    assert Dropped(was.slots, x)[n] in Dropped(was.slots, x);
  }

  lemma CollectingEnds(was: Shared, slots: seq<Slot>, heap: map<VersionId, Cell>, deleted: nat, x: int, n: nat)
    requires Collecting(was, slots, heap, deleted, x, n) && !(1 < |slots| && slots[1].id < x)
    ensures var sh := Collect(was, x);
      sh == was.(slots := slots, heap := heap, deleted := deleted)
  {
    assert Dropped(slots, x) == [] && MinorGc(slots, x) == slots;
    hide Dropped, MinorGc, GcOk;
    var all := Dropped(was.slots, x);
    assert all[n..] == [];
    assert n == |all| && all[..n] == all;
  }

  // ---------- the flush of a worker ----------

  /** Every row in `keys` has taken over the worker's buffer. */
  ghost function FlushAll(rows: map<Key, Shared>, keys: set<Key>, core: nat, x: int): (m: map<Key, Shared>)
    requires forall k :: k in rows ==> core < |rows[k].buffers|
    ensures m.Keys == rows.Keys
    ensures forall k :: k in rows ==> m[k] == if k in keys then CaracalRow.BatchAppend(rows[k], core, x) else rows[k]
  {
    FlushedRowsExist(rows, keys, core, x);
    var m: map<Key, Shared> :| m.Keys == rows.Keys
      && forall k :: k in rows ==> m[k] == if k in keys then CaracalRow.BatchAppend(rows[k], core, x) else rows[k];
    m
  }

  lemma FlushedRowsExist(rows: map<Key, Shared>, keys: set<Key>, core: nat, x: int)
    requires forall k :: k in rows ==> core < |rows[k].buffers|
    ensures exists m: map<Key, Shared> ::
      && m.Keys == rows.Keys
      && forall k :: k in rows ==> m[k] == if k in keys then CaracalRow.BatchAppend(rows[k], core, x) else rows[k]
  {
    hide CaracalRow.BatchAppend;
    var m := map k | k in rows :: if k in keys then CaracalRow.BatchAppend(rows[k], core, x) else rows[k];
    assert m.Keys == rows.Keys;
  }

  /** protocols/caracal/include/caracal.hpp, the part that flushes: `appended` in the order of the hash map. */
  class Worker {
    const core: nat
    var rows: map<Key, Shared>
    var appended: seq<Key>

    ghost predicate Valid()
      reads this
    {
      && core < WIDTH
      && (forall k :: k in rows ==> |rows[k].buffers| == WIDTH)
      && (forall k :: k in appended ==> k in rows)
      && (forall i, j :: 0 <= i < j < |appended| ==> appended[i] != appended[j])
    }

    constructor (core: nat, rows: map<Key, Shared>)
      requires core < WIDTH && forall k :: k in rows ==> |rows[k].buffers| == WIDTH
      ensures Valid() && this.core == core && this.rows == rows && appended == []
    {
      this.core, this.rows, appended := core, rows, [];
    }

    /** finalize_batch_append_non_optimized: wait for each row's lock in turn. */
    method FinalizeBatchAppendNonOptimized(x: int)
      requires Valid()
      modifies this`rows, this`appended
      ensures Valid() && appended == []
      ensures rows == FlushAll(old(rows), Keys(old(appended)), core, x)
    {
      hide FlushAll, Keys, CaracalRow.BatchAppend, Flushing;
      ghost var done: set<Key> := {};
      FlushingStarts(rows, appended, core, x);
      while appended != []
        invariant Flushing(old(rows), old(appended), core, x, done, rows, appended)
        decreases |appended|
      {
        var k := appended[0];
        FlushOne(old(rows), old(appended), core, x, done, rows, appended, 0);
        rows := rows[k := CaracalRow.BatchAppend(rows[k], core, x)];
        done := done + {k};
        appended := appended[1..];
      }
      FlushingEnds(old(rows), old(appended), core, x, done, rows);
    }

    /** finalize_batch_append_optimized: skip rows whose lock is taken and come back; `taken` says which attempts fail. */
    method FinalizeBatchAppendOptimized(x: int, taken: seq<bool>)
      requires Valid()
      modifies this`rows, this`appended
      ensures Valid() && appended == []
      ensures rows == FlushAll(old(rows), Keys(old(appended)), core, x)
    {
      hide FlushAll, Keys, CaracalRow.BatchAppend, Flushing;
      ghost var done: set<Key> := {};
      var rest := taken;
      FlushingStarts(rows, appended, core, x);
      while appended != []
        invariant Flushing(old(rows), old(appended), core, x, done, rows, appended)
        decreases |appended| + |rest|
      {
        var itr := 0;
        ghost var before := |appended| + |rest|;
        while itr < |appended|
          invariant itr <= |appended|
          invariant Flushing(old(rows), old(appended), core, x, done, rows, appended)
          invariant |appended| + |rest| < before || (itr == 0 && |appended| + |rest| == before && appended != [])
          decreases |appended| + |rest|
        {
          var tryLock := rest == [] || !rest[0];
          if rest != [] { rest := rest[1..]; }
          if !tryLock {
            itr := itr + 1;
            continue;
          }
          var k := appended[itr];
          FlushOne(old(rows), old(appended), core, x, done, rows, appended, itr);
          rows := rows[k := CaracalRow.BatchAppend(rows[k], core, x)];
          done := done + {k};
          appended := appended[..itr] + appended[itr + 1..];
        }
      }
      FlushingEnds(old(rows), old(appended), core, x, done, rows);
    }
  }

  ghost function Keys(ks: seq<Key>): set<Key> {
    set k | k in ks
  }

  ghost predicate Listed(rows: map<Key, Shared>, ks: seq<Key>) {
    && (forall k :: k in rows ==> |rows[k].buffers| == WIDTH)
    && (forall k :: k in ks ==> k in rows)
    && (forall i, j :: 0 <= i < j < |ks| ==> ks[i] != ks[j])
  }

  /** The rows in `done` have been flushed, those in `todo` are still to be flushed. */
  ghost predicate Flushing(rows0: map<Key, Shared>, ks: seq<Key>, core: nat, x: int,
                           done: set<Key>, rows: map<Key, Shared>, todo: seq<Key>) {
    && core < WIDTH && Listed(rows0, ks) && Listed(rows, todo)
    && done !! Keys(todo) && done + Keys(todo) == Keys(ks)
    && rows == FlushAll(rows0, done, core, x)
  }

  lemma FlushingStarts(rows: map<Key, Shared>, ks: seq<Key>, core: nat, x: int)
    requires core < WIDTH && Listed(rows, ks)
    ensures Flushing(rows, ks, core, x, {}, rows, ks)
  {
    hide BatchAppend;
  }

  lemma FlushingEnds(rows0: map<Key, Shared>, ks: seq<Key>, core: nat, x: int, done: set<Key>, rows: map<Key, Shared>)
    requires Flushing(rows0, ks, core, x, done, rows, [])
    ensures Listed(rows, []) && Listed(rows0, ks) && rows == FlushAll(rows0, Keys(ks), core, x)
  {
    assert Keys([]) == {};
    hide FlushAll, Keys, Listed;
  }

  /** One more row is flushed, and it leaves the list. */
  lemma FlushOne(rows0: map<Key, Shared>, ks: seq<Key>, core: nat, x: int, done: set<Key>, rows: map<Key, Shared>,
                 todo: seq<Key>, i: nat)
    requires Flushing(rows0, ks, core, x, done, rows, todo) && i < |todo|
    ensures todo[i] in rows && core < |rows[todo[i]].buffers|
    ensures Flushing(rows0, ks, core, x, done + {todo[i]},
                     rows[todo[i] := CaracalRow.BatchAppend(rows[todo[i]], core, x)], todo[..i] + todo[i + 1..])
    ensures i == 0 ==> todo[..i] + todo[i + 1..] == todo[1..]
  {
    hide BatchAppend, Keys, FlushAll;
    var k := todo[i];
    assert k in todo;
    RemoveKey(todo, i);
    assert k in Keys(todo) && k in done + Keys(todo);
    assert k in rows0 by { KeyListed(rows0, ks, k); }
    FlushKey(rows0, done, core, x, k);
    BatchKeepsBuffers(rows[k], core, x);
  }

  lemma KeyListed(rows: map<Key, Shared>, ks: seq<Key>, k: Key)
    requires Listed(rows, ks) && k in Keys(ks)
    ensures k in rows
  {
  }

  lemma FlushKey(rows: map<Key, Shared>, done: set<Key>, core: nat, x: int, k: Key)
    requires forall k :: k in rows ==> core < |rows[k].buffers|
    requires k in rows && k !in done
    ensures FlushAll(rows, done, core, x).Keys == rows.Keys && FlushAll(rows, done, core, x)[k] == rows[k]
    ensures FlushAll(rows, done, core, x)[k := CaracalRow.BatchAppend(rows[k], core, x)] == FlushAll(rows, done + {k}, core, x)
  {
    hide BatchAppend;
  }

  lemma RemoveKey(ks: seq<Key>, i: nat)
    requires i < |ks| && forall i, j :: 0 <= i < j < |ks| ==> ks[i] != ks[j]
    ensures var rest := ks[..i] + ks[i + 1..];
      && ks[i] in Keys(ks) && Keys(rest) == Keys(ks) - {ks[i]}
      && (forall k :: k in rest ==> k in ks)
      && (forall i, j :: 0 <= i < j < |rest| ==> rest[i] != rest[j])
  {
    var rest := ks[..i] + ks[i + 1..];
    assert forall j :: 0 <= j < |rest| ==> rest[j] == ks[if j < i then j else j + 1];
    forall k | k in Keys(ks) - {ks[i]}
      ensures k in Keys(rest)
    {
      var j :| 0 <= j < |ks| && ks[j] == k;
      assert rest[if j < i then j else j - 1] == k;
    }
  }

  lemma BatchKeepsBuffers(sh: Shared, core: nat, x: int)
    requires core < |sh.buffers|
    ensures |CaracalRow.BatchAppend(sh, core, x).buffers| == |sh.buffers|
  {
  }
}
