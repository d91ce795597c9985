/** What the steps of a Cheetah row do to the lock, to the reference counter and to the heap. */
module CheetahSteps {
  import opened Bits
  import opened TwoLevelBitmap
  import opened Versions
  import opened CheetahRow
  import opened CheetahInvariant

  // ---------- the lock ----------

  /** What a step of `a` does to the lock, given whether `a` is inside it before and after. */
  predicate LockEffect(a: Actor, sh: Shared, sh': Shared, before: bool, after: bool) {
    || (sh.cnt == 0 && !before && after && sh'.cnt == -1 && sh'.holder == Some(a))
    || (before && !after && sh'.cnt == sh.cnt + 1 && sh'.holder == None)
    || (before == after && sh'.cnt == sh.cnt && sh'.holder == sh.holder)
  }

  lemma LockCore(r: Row, c: nat, sh': Shared, pc': CorePc)
    requires LockOk(r.sh.cnt, r.sh.holder, r.cpc, r.rpc, r.wpc) && c in r.cpc
    requires LockEffect(Core(c), r.sh, sh', CoreInLock(r.cpc[c]), CoreInLock(pc'))
    ensures LockOk(sh'.cnt, sh'.holder, r.cpc[c := pc'], r.rpc, r.wpc)
  {
  }

  lemma LockReader(r: Row, s: nat, sh': Shared, pc': ReaderPc)
    requires LockOk(r.sh.cnt, r.sh.holder, r.cpc, r.rpc, r.wpc) && s in r.rpc
    requires LockEffect(Reader(s), r.sh, sh', ReaderInLock(r.rpc[s]), ReaderInLock(pc'))
    ensures LockOk(sh'.cnt, sh'.holder, r.cpc, r.rpc[s := pc'], r.wpc)
  {
  }

  lemma LockWriter(r: Row, w: nat, sh': Shared, pc': WriterPc)
    requires LockOk(r.sh.cnt, r.sh.holder, r.cpc, r.rpc, r.wpc) && w in r.wpc
    requires LockEffect(Writer(w), r.sh, sh', WriterInLock(r.wpc[w]), WriterInLock(pc'))
    ensures LockOk(sh'.cnt, sh'.holder, r.cpc, r.rpc, r.wpc[w := pc'])
  {
  }

  // ---------- the reference counter ----------

  lemma CountedAfter(rpc: map<nat, ReaderPc>, s: nat, pc': ReaderPc)
    requires s in rpc
    ensures CountedReaders(rpc[s := pc']) ==
      if Counted(pc') then CountedReaders(rpc) + {s} else CountedReaders(rpc) - {s}
    ensures s in CountedReaders(rpc) <==> Counted(rpc[s])
  {
  }

  lemma SameCounted(rpc: map<nat, ReaderPc>, s: nat, pc': ReaderPc)
    requires s in rpc && Counted(pc') == Counted(rpc[s])
    ensures CountedReaders(rpc[s := pc']) == CountedReaders(rpc)
  {
    hide Counted;
  }

  lemma RefQuiet(refCnt: int, rpc: map<nat, ReaderPc>, s: nat, pc': ReaderPc)
    requires RefOk(refCnt, rpc) && s in rpc
    requires Counted(pc') == Counted(rpc[s]) && Final(pc') == Final(rpc[s])
    requires pc'.RSecondAdd? == rpc[s].RSecondAdd?
    ensures RefOk(refCnt, rpc[s := pc'])
  {
    hide Counted, Final, CountedReaders;
    CountedAfter(rpc, s, pc');
    SameCounted(rpc, s, pc');
    assert forall t :: t in rpc ==>
      && rpc[s := pc'][t].RSecondAdd? == rpc[t].RSecondAdd?
      && Final(rpc[s := pc'][t]) == Final(rpc[t]);
  }

  lemma RefFetchAdd(refCnt: int, rpc: map<nat, ReaderPc>, s: nat, pc': ReaderPc)
    requires RefOk(refCnt, rpc) && s in rpc && rpc[s].RFetchAdd?
    requires forall t :: t in rpc ==> !Final(rpc[t])
    requires pc' == if refCnt == 0 then RSecondAdd else RLookup
    ensures RefOk(refCnt + 1, rpc[s := pc'])
  {
    CountedAfter(rpc, s, pc');
    var counted := CountedReaders(rpc);
    assert counted == {} <==> |counted| == 0;
    if t :| t in rpc && rpc[t].RSecondAdd? {
      assert t in counted;
    }
  }

  lemma RefSecondAdd(refCnt: int, rpc: map<nat, ReaderPc>, s: nat)
    requires RefOk(refCnt, rpc) && s in rpc && rpc[s].RSecondAdd?
    ensures RefOk(refCnt + 1, rpc[s := RLookup])
  {
    CountedAfter(rpc, s, RLookup);
    assert s in CountedReaders(rpc);
    assert CountedReaders(rpc[s := RLookup]) == CountedReaders(rpc);
  }

  lemma RefDecrement(refCnt: int, rpc: map<nat, ReaderPc>, s: nat, pc': ReaderPc)
    requires RefOk(refCnt, rpc) && s in rpc && rpc[s].RRead?
    requires forall t :: t in rpc ==> !rpc[t].RSecondAdd?
    requires pc' == if refCnt - 1 == 1 then RFinalLock(rpc[s].rec) else RDone(rpc[s].rec)
    ensures refCnt > 1 && RefOk(refCnt - 1, rpc[s := pc'])
    ensures pc'.RFinalLock? <==> CountedReaders(rpc[s := pc']) == {}
  {
    CountedAfter(rpc, s, pc');
    var counted, counted' := CountedReaders(rpc), CountedReaders(rpc[s := pc']);
    assert counted' == counted - {s} && s in counted;
    assert counted' == {} <==> |counted'| == 0;
    assert forall t :: t in rpc ==> !Final(rpc[t]);
  }

  lemma RefFinalSub(refCnt: int, rpc: map<nat, ReaderPc>, s: nat)
    requires RefOk(refCnt, rpc) && s in rpc && rpc[s].RFinalSub?
    ensures refCnt == 1 && RefOk(0, rpc[s := RFinalUnlock(rpc[s].rec)])
  {
    CountedAfter(rpc, s, RFinalUnlock(rpc[s].rec));
  }

  // ---------- the heap ----------

  lemma ValuesAfterInsert<K, V>(m: map<K, V>, k: K, v: V)
    requires k !in m
    ensures m[k := v].Values == m.Values + {v}
  {
    var m' := m[k := v];
    assert m'[k] == v;
    forall x | x in m.Values ensures x in m'.Values {
      var j :| j in m && m[j] == x;
      assert m'[j] == x;
    }
  }

  lemma InjectiveAfterInsert(m: map<nat, VersionId>, k: nat, v: VersionId)
    requires Injective(m) && k !in m && v !in m.Values
    ensures Injective(m[k := v])
  {
  }

  lemma OwnersAreLive(mem: Memory, local: Option<VersionId>)
    requires mem.heap.Keys == Owners(mem, local)
    ensures mem.placeholders.Values <= mem.heap.Keys
    ensures Opt(mem.master) <= mem.heap.Keys
    ensures Opt(mem.previous) <= mem.heap.Keys
    ensures Opt(local) <= mem.heap.Keys
  {
  }

  lemma BaseIsNoPlaceholder(mem: Memory, local: Option<VersionId>, baseId: VersionId, base: Tag)
    requires HeapOk(mem, local, baseId, base)
    ensures forall k :: k in mem.placeholders ==> mem.placeholders[k] != baseId
  {
    assert forall k :: k in mem.placeholders ==> mem.placeholders[k] in mem.placeholders.Values;
  }

  lemma EachWriterOk(mem: Memory, work: Work, epoch: nat, wpc: map<nat, WriterPc>)
    requires forall w :: w in wpc ==> WriterOk(mem, work, epoch, w, wpc[w])
    ensures WritersOk(mem, work, epoch, wpc)
  {
  }

  lemma {:induction false} InjectiveValues(m: map<nat, VersionId>)
    requires Injective(m)
    ensures |m.Values| == |m|
    decreases |m|
  {
    if m == map[] {
      assert m.Values == {};
    } else {
      var k :| k in m;
      var rest := m - {k};
      assert rest[k := m[k]] == m;
      assert forall j :: j in rest ==> rest[j] == m[j] && j in m;
      assert Injective(rest) by { InjectiveWithout(m, k); }
      InjectiveValues(rest);
      ValuesAfterInsert(rest, k, m[k]);
      assert |m.Keys| == |rest.Keys| + 1 by { assert m.Keys == rest.Keys + {k}; }
    }
  }

  lemma InjectiveWithout(m: map<nat, VersionId>, k: nat)
    requires Injective(m)
    ensures Injective(m - {k})
  {
    forall i, j | i in m - {k} && j in m - {k} && (m - {k})[i] == (m - {k})[j]
      ensures i == j
    {
      assert m[i] == m[j];
    }
  }

  lemma RemoveOwners(m: set<nat>, p: set<nat>, gone: set<nat>, l: set<nat>)
    requires gone !! m && gone !! l && p == {}
    ensures gone <= m + p + gone + l
    ensures m + p + {} + l == (m + p + gone + l) - gone
  {
  }

  lemma OptNone<T>()
    ensures Opt<T>(None) == {}
  {
  }
}
