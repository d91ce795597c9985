/**
  A worker's write phase in Cheetah (executables/ycsb_cheetah.cpp, do_write_phase, with
  protocols/cheetah/include/cheetah.hpp): it first collects one transaction bitmap for every row that its
  64 transactions write, and then registers each of them with its row.  The loops are proved to hand every
  row exactly the bitmap that `CheetahSystem.WorkOf` gives the row's transition system.
 */
module CheetahWorker {
  import opened Bits
  import opened TwoLevelBitmap
  import opened Versions
  import opened Workload
  import opened CheetahRow
  import opened CheetahSystem

  /** The bitmap of key `k` after `i` whole transactions of core `c` and the first `j` operations of the next. */
  function SoFar(txs: seq<Tx>, c: nat, k: Key, i: nat, j: nat): Word {
    seq(WIDTH, t requires 0 <= t < WIDTH =>
      c * WIDTH + t < |txs| && Op(k, true) in (if t < i then txs[c * WIDTH + t] else if t == i then Prefix(txs[c * WIDTH + t], j) else []))
  }

  function Prefix(tx: Tx, j: nat): Tx {
    if j <= |tx| then tx[..j] else tx
  }

  /** The worker has collected exactly these bitmaps. */
  ghost predicate Collected(bitmaps: map<Key, Word>, txs: seq<Tx>, c: nat, i: nat, j: nat) {
    forall k: Key ::
      && (k in bitmaps <==> SoFar(txs, c, k, i, j) != Zero())
      && (k in bitmaps ==> bitmaps[k] == SoFar(txs, c, k, i, j))
  }

  class Worker {
    const core: nat
    var serialId: nat
    var bitmaps: map<Key, Word>
    var rows: map<Key, TwoLevel>

    constructor (core: nat, rows: map<Key, TwoLevel>)
      requires core < WIDTH
      ensures this.core == core && this.rows == rows && bitmaps == map[]
    {
      this.core, this.rows := core, rows;
      serialId, bitmaps := 0, map[];
    }

    /** update_write_bitmaps; a key that the map does not have yet is entered with bitmap 0 first. */
    method UpdateWriteBitmaps(key: Key)
      requires key in bitmaps ==> !IsBitSet(bitmaps[key], serialId % WIDTH)
      modifies this`bitmaps
      ensures bitmaps == old(bitmaps)[key := SetBit(if key in old(bitmaps) then old(bitmaps)[key] else Zero(), serialId % WIDTH)]
    {
      if key !in bitmaps {
        bitmaps := bitmaps[key := Zero()];
      }
      bitmaps := bitmaps[key := SetBit(bitmaps[key], serialId % WIDTH)];
    }

    /** The loops of do_write_phase that collect, over the transactions of this core. */
    method CollectWriteBitmaps(txs: seq<Tx>)
      requires core < WIDTH && |txs| == EPOCH_SIZE && bitmaps == map[]
      requires forall s :: 0 <= s < |txs| ==> DistinctKeys(txs[s])
      modifies this`serialId, this`bitmaps
      ensures forall k: Key :: k in bitmaps <==> core in WorkOf(txs, k).cores
      ensures forall k: Key :: k in bitmaps ==> bitmaps[k] == WorkOf(txs, k).cores[core]
    {
      hide Zero, SoFar, Collected, WorkOf, IsBitSet, DistinctKeys;
      NothingSoFar(txs, core);
      var i := 0;
      while i < WIDTH
        invariant i <= WIDTH && Collected(bitmaps, txs, core, i, 0)
      {
        serialId := core * WIDTH + i;
        SerialAddress(core, i);
        var tx := txs[serialId];
        var j := 0;
        while j < |tx|
          invariant j <= |tx| && serialId == core * WIDTH + i && Collected(bitmaps, txs, core, i, j)
        {
          if tx[j].isWrite {
            NotWrittenYet(bitmaps, txs, core, i, j);
            OneMoreWrite(bitmaps, txs, core, i, j);
            UpdateWriteBitmaps(tx[j].key);
          } else {
            OneMoreRead(bitmaps, txs, core, i, j);
          }
          j := j + 1;
        }
        TransactionDone(bitmaps, txs, core, i);
        i := i + 1;
      }
      AllCollected(bitmaps, txs, core);
    }

    /** finalize_update_write_bitmaps: in whatever order the rows' locks become free, each row is updated once. */
    method FinalizeUpdateWriteBitmaps()
      requires forall k :: k in bitmaps ==> k in rows && CanRegister(rows[k], core, bitmaps[k])
      modifies this`bitmaps, this`rows
      ensures bitmaps == map[] && rows.Keys == old(rows).Keys
      ensures forall k :: k in rows ==>
        if k in old(bitmaps) then IsRegistered(old(rows)[k], rows[k], core, old(bitmaps)[k]) else rows[k] == old(rows)[k]
    {
      hide CanRegister, IsRegistered, Update, CountPrefixSum;
      while bitmaps != map[]
        invariant rows.Keys == old(rows).Keys
        invariant forall k :: k in bitmaps ==> k in old(bitmaps) && bitmaps[k] == old(bitmaps)[k]
        invariant forall k :: k in rows ==>
          if k in old(bitmaps) && k !in bitmaps then IsRegistered(old(rows)[k], rows[k], core, old(bitmaps)[k])
          else rows[k] == old(rows)[k]
        decreases |bitmaps|
      {
        var k :| k in bitmaps;
        RegisterOne(rows[k], core, bitmaps[k]);
        var insertPos := CountPrefixSum(rows[k], core);
        rows := rows[k := TwoLevel(SetBit(rows[k].core, core), rows[k].txs[..insertPos] + [bitmaps[k]] + rows[k].txs[insertPos..])];
        ghost var before := bitmaps;
        bitmaps := bitmaps - {k};
        assert before.Keys == bitmaps.Keys + {k};
      }
    }
  }

  /** What update_bitmap demands of the row and the bitmap. */
  predicate CanRegister(b: TwoLevel, core: nat, txBitmap: Word) {
    core < WIDTH && WellFormed(b) && !IsBitSet(b.core, core) && txBitmap != Zero()
  }

  ghost predicate IsRegistered(b: TwoLevel, b': TwoLevel, core: nat, txBitmap: Word) {
    WellFormed(b) && WellFormed(b') && ToMap(b') == ToMap(b)[core := txBitmap]
  }

  lemma RegisterOne(b: TwoLevel, core: nat, txBitmap: Word)
    requires CanRegister(b, core, txBitmap)
    ensures core < WIDTH && CountPrefixSum(b, core) <= |b.txs|
    ensures var p := CountPrefixSum(b, core);
      IsRegistered(b, TwoLevel(SetBit(b.core, core), b.txs[..p] + [txBitmap] + b.txs[p..]), core, txBitmap)
  {
    hide WellFormed, ToMap, CountPrefixSum, SetBit;
    UpdateRefinesMapUpdate(b, core, txBitmap);
  }

  // ---------- collecting ----------

  lemma NothingSoFar(txs: seq<Tx>, c: nat)
    ensures Collected(map[], txs, c, 0, 0)
  {
    forall k: Key
      ensures SoFar(txs, c, k, 0, 0) == Zero()
    {
      forall t: nat | t < WIDTH
        ensures !SoFar(txs, c, k, 0, 0)[t]
      {
        if c * WIDTH + t < |txs| { assert Prefix(txs[c * WIDTH + t], 0) == []; }
      }
    }
  }

  /** A bitmap changes only at its own transaction's bit, and only for the key of a write. */
  lemma OneMoreOp(txs: seq<Tx>, c: nat, i: nat, j: nat, k: Key)
    requires i < WIDTH && c * WIDTH + i < |txs| && j < |txs[c * WIDTH + i]|
    ensures SoFar(txs, c, k, i, j + 1) ==
      if txs[c * WIDTH + i][j] == Op(k, true) then SoFar(txs, c, k, i, j)[i := true] else SoFar(txs, c, k, i, j)
  {
    var tx: Tx := txs[c * WIDTH + i];
    assert tx[..j + 1] == tx[..j] + [tx[j]];
    var a, b := SoFar(txs, c, k, i, j), SoFar(txs, c, k, i, j + 1);
    forall t: nat | t < WIDTH
      ensures b[t] == (if tx[j] == Op(k, true) then a[i := true] else a)[t]
    {
    }
  }

  lemma SetIsNonZero(w: Word, i: nat)
    requires i < WIDTH
    ensures SetBit(w, i) == w[i := true] && SetBit(w, i) != Zero()
  {
    SetBitIsUpdate(w, i);
    assert w[i := true][i] && !Zero()[i];
  }

  /** The assertion of the source: the transaction has not written the key before. */
  lemma NotWrittenYet(bitmaps: map<Key, Word>, txs: seq<Tx>, c: nat, i: nat, j: nat)
    requires Collected(bitmaps, txs, c, i, j)
    requires i < WIDTH && c * WIDTH + i < |txs| && j < |txs[c * WIDTH + i]| && DistinctKeys(txs[c * WIDTH + i])
    ensures var key := txs[c * WIDTH + i][j].key;
      key in bitmaps ==> !IsBitSet(bitmaps[key], i)
  {
    var tx: Tx := txs[c * WIDTH + i];
    var key := tx[j].key;
    assert forall a :: 0 <= a < j ==> tx[..j][a] == tx[a];
    assert !SoFar(txs, c, key, i, j)[i];
    if key in bitmaps { IsBitSetIsIndex(bitmaps[key], i); }
  }

  lemma OneMoreWrite(bitmaps: map<Key, Word>, txs: seq<Tx>, c: nat, i: nat, j: nat)
    requires Collected(bitmaps, txs, c, i, j)
    requires i < WIDTH && c * WIDTH + i < |txs| && j < |txs[c * WIDTH + i]| && txs[c * WIDTH + i][j].isWrite
    ensures var key := txs[c * WIDTH + i][j].key;
      Collected(bitmaps[key := SetBit(if key in bitmaps then bitmaps[key] else Zero(), i)], txs, c, i, j + 1)
  {
    hide SoFar, Zero, SetBit;
    var op := txs[c * WIDTH + i][j];
    var was := if op.key in bitmaps then bitmaps[op.key] else Zero();
    SetIsNonZero(was, i);
    forall k: Key
      ensures SoFar(txs, c, k, i, j + 1) == if k == op.key then SetBit(was, i) else SoFar(txs, c, k, i, j)
    {
      OneMoreOp(txs, c, i, j, k);
    }
  }

  lemma OneMoreRead(bitmaps: map<Key, Word>, txs: seq<Tx>, c: nat, i: nat, j: nat)
    requires Collected(bitmaps, txs, c, i, j)
    requires i < WIDTH && c * WIDTH + i < |txs| && j < |txs[c * WIDTH + i]| && !txs[c * WIDTH + i][j].isWrite
    ensures Collected(bitmaps, txs, c, i, j + 1)
  {
    hide SoFar, Zero;
    forall k: Key
      ensures SoFar(txs, c, k, i, j + 1) == SoFar(txs, c, k, i, j)
    {
      OneMoreOp(txs, c, i, j, k);
    }
  }

  lemma TransactionDone(bitmaps: map<Key, Word>, txs: seq<Tx>, c: nat, i: nat)
    requires i < WIDTH && c * WIDTH + i < |txs| && Collected(bitmaps, txs, c, i, |txs[c * WIDTH + i]|)
    ensures Collected(bitmaps, txs, c, i + 1, 0)
  {
    hide Zero;
    var tx: Tx := txs[c * WIDTH + i];
    forall k: Key
      ensures SoFar(txs, c, k, i + 1, 0) == SoFar(txs, c, k, i, |tx|)
    {
      forall t: nat | t < WIDTH
        ensures SoFar(txs, c, k, i + 1, 0)[t] == SoFar(txs, c, k, i, |tx|)[t]
      {
        if c * WIDTH + t < |txs| {
          assert Prefix(txs[c * WIDTH + t], 0) == [];
          assert Prefix(tx, |tx|) == tx;
        }
      }
    }
  }

  lemma AllCollected(bitmaps: map<Key, Word>, txs: seq<Tx>, c: nat)
    requires c < WIDTH && Collected(bitmaps, txs, c, WIDTH, 0)
    ensures forall k: Key :: k in bitmaps <==> c in WorkOf(txs, k).cores
    ensures forall k: Key :: k in bitmaps ==> bitmaps[k] == WorkOf(txs, k).cores[c]
  {
    forall k: Key
      ensures SoFar(txs, c, k, WIDTH, 0) == TxBits(txs, c, k)
    {
      forall t: nat | t < WIDTH
        ensures SoFar(txs, c, k, WIDTH, 0)[t] == TxBits(txs, c, k)[t]
      {
      }
    }
  }
}
