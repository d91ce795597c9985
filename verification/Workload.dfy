/**
  The transactions of a run, and the serial execution that every protocol has to be equivalent to.

  An epoch is a sequence of transactions; a transaction's position is its serial id.  Operations
  name a key and either read it or blindly write it (benchmarks/ycsb, operation_set.hpp).
 */
module Workload {
  import opened Bits
  import opened TwoLevelBitmap
  import opened Versions

  type Key = nat

  datatype Op = Op(key: Key, isWrite: bool)

  type Tx = seq<Op>

  predicate DistinctKeys(tx: Tx) {
    forall i, j :: 0 <= i < j < |tx| ==> tx[i].key != tx[j].key
  }

  /** Full epochs, keys that exist, and no key twice in a transaction. */
  predicate GoodEpoch(txs: seq<Tx>, db: set<Key>) {
    && |txs| == EPOCH_SIZE
    && (forall s :: 0 <= s < |txs| ==> DistinctKeys(txs[s]))
    && (forall s, j :: 0 <= s < |txs| && 0 <= j < |txs[s]| ==> txs[s][j].key in db)
  }

  predicate Good(w: seq<seq<Tx>>, db: set<Key>) {
    forall e :: 0 <= e < |w| ==> GoodEpoch(w[e], db)
  }

  /** The transactions of epoch `e`; none after the last epoch. */
  function TxsAt(w: seq<seq<Tx>>, e: nat): seq<Tx> {
    if e < |w| then w[e] else []
  }

  function WriterSet(txs: seq<Tx>, k: Key): set<nat> {
    set s: nat | s < |txs| && Op(k, true) in txs[s]
  }

  function ReaderSet(txs: seq<Tx>, k: Key): set<nat> {
    set s: nat | s < |txs| && Op(k, false) in txs[s]
  }

  // ---------- serial execution ----------

  /** One transaction runs its operations in order; a write leaves its own tag. */
  function Execute(store: map<Key, Tag>, tag: Tag, tx: Tx): map<Key, Tag> {
    if tx == [] then store
    else
      var before := Execute(store, tag, tx[..|tx| - 1]);
      var op := tx[|tx| - 1];
      if op.isWrite then before[op.key := tag] else before
  }

  /** The store after the transactions of all epochs before `e` and the first `s` of epoch `e`. */
  ghost function SerialStore(w: seq<seq<Tx>>, db: set<Key>, e: nat, s: nat): map<Key, Tag>
    requires e <= |w| && (if e < |w| then s <= |w[e]| else s == 0)
    decreases e, s
  {
    if s > 0 then Execute(SerialStore(w, db, e, s - 1), Written(e, s - 1), w[e][s - 1])
    else if e > 0 then SerialStore(w, db, e - 1, |w[e - 1]|)
    else AllAt(db, Loaded)
  }

  /** What operation `j` of transaction `s` of epoch `e` reads when everything runs serially. */
  ghost function SerialRead(w: seq<seq<Tx>>, db: set<Key>, e: nat, s: nat, j: nat): Option<Tag>
    requires e < |w| && s < |w[e]| && j < |w[e][s]|
  {
    var store := Execute(SerialStore(w, db, e, s), Written(e, s), w[e][s][..j]);
    var k := w[e][s][j].key;
    if k in store then Some(store[k]) else None
  }

  lemma NextEpochStore(w: seq<seq<Tx>>, db: set<Key>, e: nat)
    requires e < |w|
    ensures SerialStore(w, db, e + 1, 0) == SerialStore(w, db, e, |w[e]|)
  {
  }

  lemma EpochSerials(w: seq<seq<Tx>>, db: set<Key>, e: nat, k: Key)
    requires Good(w, db)
    ensures forall s :: s in WriterSet(TxsAt(w, e), k) ==> s < EPOCH_SIZE
    ensures forall s :: s in ReaderSet(TxsAt(w, e), k) ==> s < EPOCH_SIZE
    ensures e < |w| ==> |w[e]| == EPOCH_SIZE
  {
    if e < |w| { assert GoodEpoch(w[e], db); }
  }

  lemma {:induction false} ExecuteLookup(store: map<Key, Tag>, tag: Tag, tx: Tx, k: Key)
    ensures k in Execute(store, tag, tx) <==> k in store || Op(k, true) in tx
    ensures k in Execute(store, tag, tx) ==>
      Execute(store, tag, tx)[k] == if Op(k, true) in tx then tag else store[k]
  {
    if tx != [] {
      var rest, last := tx[..|tx| - 1], tx[|tx| - 1];
      assert tx == rest + [last];
      ExecuteLookup(store, tag, rest, k);
    }
  }

  lemma {:induction false} StoreKeys(w: seq<seq<Tx>>, db: set<Key>, e: nat, s: nat, k: Key)
    requires Good(w, db) && e <= |w| && (if e < |w| then s <= |w[e]| else s == 0) && k in db
    ensures k in SerialStore(w, db, e, s)
    decreases e, s
  {
    if s > 0 {
      StoreKeys(w, db, e, s - 1, k);
      ExecuteLookup(SerialStore(w, db, e, s - 1), Written(e, s - 1), w[e][s - 1], k);
    } else if e > 0 {
      StoreKeys(w, db, e - 1, |w[e - 1]|, k);
    }
  }

  /** Within an epoch the serial store holds the largest smaller write, or what the epoch began with. */
  lemma {:induction false} StoreIsVisible(w: seq<seq<Tx>>, db: set<Key>, e: nat, s: nat, k: Key)
    requires Good(w, db) && e < |w| && s <= |w[e]| && k in db
    ensures k in SerialStore(w, db, e, s) && k in SerialStore(w, db, e, 0)
    ensures SerialStore(w, db, e, s)[k] ==
      match Visible(WriterSet(w[e], k), s)
      case Some(x) => Written(e, x)
      case None => SerialStore(w, db, e, 0)[k]
    decreases s
  {
    StoreKeys(w, db, e, 0, k);
    StoreKeys(w, db, e, s, k);
    var ws := WriterSet(w[e], k);
    if s > 0 {
      StoreIsVisible(w, db, e, s - 1, k);
      ExecuteLookup(SerialStore(w, db, e, s - 1), Written(e, s - 1), w[e][s - 1], k);
      if Op(k, true) in w[e][s - 1] {
        VisibleIsUnique(ws, s, s - 1);
      } else {
        assert s - 1 !in ws;
        SameVisible(ws, s);
      }
    }
  }

  lemma SameVisible(ws: set<nat>, s: nat)
    requires s > 0 && s - 1 !in ws
    ensures Visible(ws, s) == Visible(ws, s - 1)
  {
    match Visible(ws, s - 1)
    case Some(x) => VisibleIsUnique(ws, s, x);
    case None =>
      assert NoneBelow(ws, s);
  }

  /** With distinct keys, an operation sees none of its own transaction's writes. */
  lemma SerialReadIsStore(w: seq<seq<Tx>>, db: set<Key>, e: nat, s: nat, j: nat)
    requires Good(w, db) && e < |w| && s < |w[e]| && j < |w[e][s]|
    ensures w[e][s][j].key in SerialStore(w, db, e, s)
    ensures SerialRead(w, db, e, s, j) == Some(SerialStore(w, db, e, s)[w[e][s][j].key])
  {
    var k := w[e][s][j].key;
    StoreKeys(w, db, e, s, k);
    ExecuteLookup(SerialStore(w, db, e, s), Written(e, s), w[e][s][..j], k);
    assert DistinctKeys(w[e][s]);
    assert forall i :: 0 <= i < j ==> w[e][s][..j][i] == w[e][s][i];
  }
}
