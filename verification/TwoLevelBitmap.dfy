/**
  The compressed two-level bitmap of a row (protocols/cheetah/include/rw_bitmaps.hpp): a core
  bitmap, and one transaction bitmap for each set core, kept at that core's rank.

  It represents a map from core to transaction bitmap, and through that a set of serial ids,
  where transaction `t` of core `c` has serial id `c * 64 + t`.
 */
module TwoLevelBitmap {
  import opened Bits

  const EPOCH_SIZE: nat := 4096

  datatype TwoLevel = TwoLevel(core: Word, txs: seq<Word>)

  const EMPTY := TwoLevel(Zero(), [])

  // ---------- the operations ----------

  function CountPrefixSum(b: TwoLevel, core: nat): nat
    requires core < WIDTH
  {
    CountBits(And(b.core, FillLeftBefore(core)))
  }

  function Update(b: TwoLevel, core: nat, tx_bitmap: Word): TwoLevel
    requires core < WIDTH
    requires CountPrefixSum(b, core) <= |b.txs|
  {
    var p := CountPrefixSum(b, core);
    TwoLevel(SetBit(b.core, core), b.txs[..p] + [tx_bitmap] + b.txs[p..])
  }

  /** {is_found, visible_core, visible_tx}: where the read by (core, tx) finds its version. */
  function IdentifyVisible(b: TwoLevel, core: nat, tx: nat): (bool, nat, nat)
    requires core < WIDTH && tx < WIDTH
    requires WellFormed(b) && b.core != Zero()
  {
    var (second, first) := FindTwoLargestAmongOrLessThan(b.core, core);
    TwoLargestAreTheMaxima(b.core, core);
    if first == -1 then (false, 0, 0)
    else
      RankInBounds(b, first);
      var firstTxs := b.txs[CountPrefixSum(b, first)];
      if first == core then
        SearchLessThan(firstTxs, tx);
        var firstTx := FindLargestLessThan(firstTxs, tx);
        if firstTx != -1 then (true, first, firstTx)
        else if second != -1 then
          RankInBounds(b, second);
          var secondTxs := b.txs[CountPrefixSum(b, second)];
          LargestIsMax(secondTxs);
          (true, second, FindLargest(secondTxs))
        else (false, 0, 0)
      else
        LargestIsMax(firstTxs);
        (true, first, FindLargest(firstTxs))
  }

  predicate IsFinalState(b: TwoLevel, core: nat, tx: nat)
    requires WellFormed(b)
  {
    && b.core != Zero()
    && FindLargest(b.core) == core
    && (NonZeroHasTxs(b); FindLargest(b.txs[|b.txs| - 1]) == tx)
  }

  // ---------- what the structure represents ----------

  /** Every set core has exactly one transaction bitmap, and none of them is empty. */
  predicate WellFormed(b: TwoLevel) {
    && |b.txs| == CountBits(b.core)
    && forall i :: 0 <= i < |b.txs| ==> b.txs[i] != Zero()
  }

  ghost function ToMap(b: TwoLevel): (m: map<nat, Word>)
    requires WellFormed(b)
    ensures m.Keys == Positions(b.core)
    ensures forall c :: c in m.Keys ==> CountPrefixSum(b, c) < |b.txs| && m[c] == b.txs[CountPrefixSum(b, c)]
  {
    MapExists(b);
    var m: map<nat, Word> :| m.Keys == Positions(b.core)
      && forall c :: c in m.Keys ==> CountPrefixSum(b, c) < |b.txs| && m[c] == b.txs[CountPrefixSum(b, c)];
    m
  }

  lemma MapExists(b: TwoLevel)
    requires WellFormed(b)
    ensures exists m: map<nat, Word> ::
      && m.Keys == Positions(b.core)
      && forall c :: c in m.Keys ==> CountPrefixSum(b, c) < |b.txs| && m[c] == b.txs[CountPrefixSum(b, c)]
  {
    hide CountPrefixSum, WellFormed;
    var m := map c | c in Positions(b.core) :: (RankInBounds(b, c); b.txs[CountPrefixSum(b, c)]);
    assert m.Keys == Positions(b.core);
    forall c | c in m.Keys
      ensures CountPrefixSum(b, c) < |b.txs| && m[c] == b.txs[CountPrefixSum(b, c)]
    {
      RankInBounds(b, c);
    }
  }

  /** The serial ids of a core-to-bitmap map. */
  ghost function Serials(m: map<nat, Word>): set<nat> {
    set s: nat | s < EPOCH_SIZE && s / WIDTH in m && m[s / WIDTH][s % WIDTH]
  }

  lemma {:induction false} CountBitsMonotone(w: seq<bool>, i: nat, j: nat)
    requires i <= j <= |w|
    ensures CountBits(w[..i]) <= CountBits(w[..j])
    ensures i < j && w[i] ==> CountBits(w[..i]) < CountBits(w[..j])
  {
    if i < j {
      CountBitsMonotone(w, i, j - 1);
      assert w[..j][..j - 1] == w[..j - 1];
    }
  }

  lemma RankInBounds(b: TwoLevel, core: nat)
    requires WellFormed(b) && core < WIDTH && b.core[core]
    ensures CountPrefixSum(b, core) < |b.txs|
  {
    MaskedCountIsRank(b.core, core);
    CountBitsMonotone(b.core, core, WIDTH);
    assert b.core[..WIDTH] == b.core;
  }

  lemma InsertionPointInBounds(b: TwoLevel, core: nat)
    requires WellFormed(b) && core < WIDTH
    ensures CountPrefixSum(b, core) <= |b.txs|
  {
    MaskedCountIsRank(b.core, core);
    CountBitsMonotone(b.core, core, WIDTH);
    assert b.core[..WIDTH] == b.core;
  }

  lemma NonZeroHasTxs(b: TwoLevel)
    requires WellFormed(b) && b.core != Zero()
    ensures |b.txs| > 0
  {
    NonZeroHasPosition(b.core);
    var c :| c in Positions(b.core);
    RankInBounds(b, c);
  }

  /** Setting one more bit raises by one exactly the counts of the prefixes that contain it. */
  lemma {:induction false} CountAfterSet(w: seq<bool>, pos: nat, i: nat)
    requires pos < |w| && !w[pos] && i <= |w|
    ensures CountBits(w[pos := true][..i]) == CountBits(w[..i]) + (if pos < i then 1 else 0)
  {
    if i > 0 {
      CountAfterSet(w, pos, i - 1);
      assert w[pos := true][..i][..i - 1] == w[pos := true][..i - 1];
      assert w[..i][..i - 1] == w[..i - 1];
    }
  }

  /** The rank of core `c` after core `core` has been inserted. */
  lemma PrefixSumAfterSet(b: TwoLevel, core: nat, c: nat, txs: seq<Word>)
    requires core < WIDTH && c < WIDTH && !b.core[core]
    ensures CountPrefixSum(TwoLevel(SetBit(b.core, core), txs), c)
         == CountPrefixSum(b, c) + (if core < c then 1 else 0)
  {
    SetBitIsUpdate(b.core, core);
    MaskedCountIsRank(b.core, c);
    MaskedCountIsRank(SetBit(b.core, core), c);
    CountAfterSet(b.core, core, c);
  }

  lemma MapAt(b: TwoLevel)
    requires WellFormed(b)
    ensures ToMap(b).Keys == Positions(b.core)
    ensures forall c :: c in Positions(b.core) ==>
      CountPrefixSum(b, c) < |b.txs| && ToMap(b)[c] == b.txs[CountPrefixSum(b, c)] && ToMap(b)[c] != Zero()
  {
    hide CountPrefixSum, CountBits, Zero;
    forall c | c in Positions(b.core)
      ensures CountPrefixSum(b, c) < |b.txs| && ToMap(b)[c] == b.txs[CountPrefixSum(b, c)] && ToMap(b)[c] != Zero()
    {
      RankInBounds(b, c);
    }
  }

  /** Where core `c` finds its bitmap after core `core` has been inserted. */
  lemma EntryAfterUpdate(b: TwoLevel, core: nat, tx_bitmap: Word, c: nat)
    requires WellFormed(b) && core < WIDTH && !b.core[core] && CountPrefixSum(b, core) <= |b.txs|
    requires c in Positions(b.core) + {core}
    ensures var b' := Update(b, core, tx_bitmap);
      && CountPrefixSum(b', c) < |b'.txs|
      && b'.txs[CountPrefixSum(b', c)] == if c == core then tx_bitmap else ToMap(b)[c]
  {
    hide CountBits, And, FillLeftBefore, Zero, ToMap;
    PrefixSumAfterSet(b, core, c, Update(b, core, tx_bitmap).txs);
    hide CountPrefixSum;
    if c != core {
      MapAt(b);
      RanksAreOrdered(b, core, c);
    }
  }

  lemma RanksAreOrdered(b: TwoLevel, core: nat, c: nat)
    requires core < WIDTH && c < WIDTH && b.core[c] && core != c
    ensures if c < core then CountPrefixSum(b, c) < CountPrefixSum(b, core)
            else CountPrefixSum(b, core) <= CountPrefixSum(b, c)
  {
    hide And, FillLeftBefore, CountBits;
    MaskedCountIsRank(b.core, c);
    MaskedCountIsRank(b.core, core);
    if c < core { CountBitsMonotone(b.core, c, core); } else { CountBitsMonotone(b.core, core, c); }
  }

  lemma UpdateIsWellFormed(b: TwoLevel, core: nat, tx_bitmap: Word)
    requires WellFormed(b) && core < WIDTH && !b.core[core] && tx_bitmap != Zero()
    requires CountPrefixSum(b, core) <= |b.txs|
    ensures WellFormed(Update(b, core, tx_bitmap))
  {
    hide CountBits, CountPrefixSum, Zero;
    SetBitIsUpdate(b.core, core);
    CountAfterSet(b.core, core, WIDTH);
    assert b.core[..WIDTH] == b.core && b.core[core := true][..WIDTH] == b.core[core := true];
  }

  /** update_bitmap refines the update of the represented map, whatever cores came before. */
  lemma UpdateRefinesMapUpdate(b: TwoLevel, core: nat, tx_bitmap: Word)
    requires WellFormed(b) && core < WIDTH && !IsBitSet(b.core, core) && tx_bitmap != Zero()
    ensures CountPrefixSum(b, core) <= |b.txs|
    ensures WellFormed(Update(b, core, tx_bitmap))
    ensures ToMap(Update(b, core, tx_bitmap)) == ToMap(b)[core := tx_bitmap]
  {
    hide CountBits, CountPrefixSum, Zero, WellFormed, Update, ToMap, IsBitSet;
    InsertionPointInBounds(b, core);
    IsBitSetIsIndex(b.core, core);
    UpdateIsWellFormed(b, core, tx_bitmap);
    SetBitIsUpdate(b.core, core);
    UpdatedCore(b, core, tx_bitmap);
    var b' := Update(b, core, tx_bitmap);
    MapAt(b');
    MapAt(b);
    forall c | c in Positions(b'.core)
      ensures ToMap(b')[c] == ToMap(b)[core := tx_bitmap][c]
    {
      EntryAfterUpdate(b, core, tx_bitmap, c);
    }
  }

  lemma UpdatedCore(b: TwoLevel, core: nat, tx_bitmap: Word)
    requires core < WIDTH && CountPrefixSum(b, core) <= |b.txs|
    ensures Update(b, core, tx_bitmap).core == SetBit(b.core, core)
  {
  }

  lemma {:induction false} SelectByRank(w: seq<bool>, i: nat) returns (c: nat)
    requires i < CountBits(w)
    ensures c < |w| && w[c] && CountBits(w[..c]) == i
  {
    var n := |w| - 1;
    if i < CountBits(w[..n]) {
      c := SelectByRank(w[..n], i);
      assert w[..n][..c] == w[..c];
    } else {
      c := n;
    }
  }

  /** The representation is canonical: the order in which cores inserted cannot be told from it. */
  lemma RepresentationIsCanonical(a: TwoLevel, b: TwoLevel)
    requires WellFormed(a) && WellFormed(b) && ToMap(a) == ToMap(b)
    ensures a == b
  {
    assert Positions(a.core) == ToMap(a).Keys && Positions(b.core) == ToMap(b).Keys;
    forall i: nat | i < WIDTH
      ensures a.core[i] == b.core[i]
    {
      assert i in Positions(a.core) <==> i in Positions(b.core);
    }
    assert a.core == b.core;
    forall i | 0 <= i < |a.txs|
      ensures a.txs[i] == b.txs[i]
    {
      var c := SelectByRank(a.core, i);
      MaskedCountIsRank(a.core, c);
      assert c in ToMap(a) && ToMap(a)[c] == a.txs[i];
      assert ToMap(b)[c] == b.txs[i];
    }
  }

  lemma SerialAddress(c: nat, t: nat)
    requires t < WIDTH
    ensures (c * WIDTH + t) / WIDTH == c && (c * WIDTH + t) % WIDTH == t
  {
  }

  /** Serial ids are ordered first by core and then by transaction. */
  lemma SerialOrder(s: nat, c: nat, t: nat)
    requires t < WIDTH
    ensures s < c * WIDTH + t <==> s / WIDTH < c || (s / WIDTH == c && s % WIDTH < t)
  {
  }

  /** A core that no relevant core exceeds, and its greatest relevant transaction, give the maximum. */
  lemma GreatestCoreGreatestTx(m: map<nat, Word>, c: nat, t: nat, core: nat, tx: nat)
    requires core < WIDTH && tx <= WIDTH
    requires c in m && c <= core && IsMaxBelow(t, Positions(m[c]), if c == core then tx else WIDTH)
    requires forall c' :: c' in m && c < c' <= core ==> c' == core && NoneBelow(Positions(m[core]), tx)
    ensures IsMaxBelow(c * WIDTH + t, Serials(m), core * WIDTH + tx)
  {
    SerialAddress(c, t);
    var top := c * WIDTH + t;
    forall s | s in Serials(m) && s < core * WIDTH + tx
      ensures s <= top
    {
      var c': nat, t': nat := s / WIDTH, s % WIDTH;
      assert c' in m && t' in Positions(m[c']);
      assert s == c' * WIDTH + t';
    }
  }

  lemma NothingRelevant(m: map<nat, Word>, core: nat, tx: nat)
    requires core < WIDTH && tx < WIDTH
    requires forall c' :: c' in m && c' <= core ==> c' == core && NoneBelow(Positions(m[core]), tx)
    ensures NoneBelow(Serials(m), core * WIDTH + tx)
  {
    forall s | s in Serials(m)
      ensures core * WIDTH + tx <= s
    {
      SerialOrder(s, core, tx);
      assert s % WIDTH in Positions(m[s / WIDTH]);
    }
  }

  /** identify_visible_version_in_bitmaps returns the greatest serial id below the reader's. */
  lemma IdentifyVisibleIsMaxBelow(b: TwoLevel, core: nat, tx: nat)
    requires core < WIDTH && tx < WIDTH
    requires WellFormed(b) && b.core != Zero()
    ensures var (found, c, t) := IdentifyVisible(b, core, tx);
      if found
      then c < WIDTH && t < WIDTH && IsMaxBelow(c * WIDTH + t, Serials(ToMap(b)), core * WIDTH + tx)
      else NoneBelow(Serials(ToMap(b)), core * WIDTH + tx)
  {
    hide FindTwoLargestAmongOrLessThan, FindLargestLessThan, FindLargest, CountPrefixSum, CountBits, Serials, Zero, ToMap;
    var (second, first) := FindTwoLargestAmongOrLessThan(b.core, core);
    TwoLargestAreTheMaxima(b.core, core);
    var m := ToMap(b);
    MapAt(b);
    var (found, c, t) := IdentifyVisible(b, core, tx);
    if first != -1 {
      RankInBounds(b, first);
      var firstTxs := m[first as nat];
      SearchLessThan(firstTxs, tx);
      LargestIsMax(firstTxs);
      if first == core && second != -1 {
        RankInBounds(b, second);
        LargestIsMax(m[second as nat]);
      }
    }
    if found {
      GreatestCoreGreatestTx(m, c, t, core, tx);
    } else {
      NothingRelevant(m, core, tx);
    }
  }

  /** is_final_state holds exactly for the greatest serial id. */
  lemma IsFinalStateIsGreatest(b: TwoLevel, core: nat, tx: nat)
    requires WellFormed(b) && core < WIDTH && tx < WIDTH
    ensures IsFinalState(b, core, tx)
       <==> IsMaxBelow(core * WIDTH + tx, Serials(ToMap(b)), EPOCH_SIZE)
  {
    SerialAddress(core, tx);
    if b.core == Zero() {
      NonZeroHasPosition(b.core);
      assert ToMap(b) == map[];
    } else {
      var top := FinalSerial(b);
      assert IsFinalState(b, core, tx) <==> core == top / WIDTH && tx == top % WIDTH;
    }
  }

  /** The serial id that is_final_state singles out is the maximum. */
  lemma FinalSerial(b: TwoLevel) returns (top: nat)
    requires WellFormed(b) && b.core != Zero()
    ensures |b.txs| > 0 && top / WIDTH == FindLargest(b.core)
    ensures top % WIDTH == FindLargest(b.txs[|b.txs| - 1])
    ensures IsMaxBelow(top, Serials(ToMap(b)), EPOCH_SIZE)
  {
    LastRank(b);
    var m := ToMap(b);
    var last: nat := FindLargest(b.core);
    LargestIsMax(b.core);
    LargestIsMax(m[last]);
    var t: nat := FindLargest(m[last]);
    assert m.Keys == Positions(b.core);
    GreatestCoreGreatestTx(m, last, t, last, WIDTH);
    top := last * WIDTH + t;
    SerialAddress(last, t);
    forall s | s in Serials(m)
      ensures s <= top
    {
      SerialOrder(s, last, t);
      assert s / WIDTH in m;
    }
  }

  lemma LastRank(b: TwoLevel)
    requires WellFormed(b) && b.core != Zero()
    ensures |b.txs| > 0 && 0 <= FindLargest(b.core) < WIDTH && FindLargest(b.core) in ToMap(b)
    ensures ToMap(b)[FindLargest(b.core)] == b.txs[|b.txs| - 1]
  {
    LargestIsMax(b.core);
    NonZeroHasTxs(b);
    var last := FindLargest(b.core);
    MaskedCountIsRank(b.core, last);
    var rest := b.core[last + 1..];
    forall i | 0 <= i < |rest| ensures !rest[i] {
      assert rest[i] ==> last + 1 + i in Positions(b.core);
    }
    CountBitsOfZeros(rest);
    CountBitsConcat(b.core[..last + 1], rest);
    assert b.core == b.core[..last + 1] + rest;
    assert b.core[..last + 1][..last] == b.core[..last];
  }
}
