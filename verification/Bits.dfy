/**
  The 64-bit bitmap primitives of utils/bitmap.hpp.

  A machine word is the string of its bits, most significant first, so that index `i` of a
  `Word` is "position i" in the source's left-to-right numbering.  The primitives are written
  with the same shifts, masks, complements, population counts and find-first-set as the source;
  the lemmas say what they mean for the set of positions that a word represents.
 */
module Bits {

  const WIDTH: nat := 64

  type Word = w: seq<bool> | |w| == WIDTH witness seq(WIDTH, _ => false)

  // ---------- the machine operations ----------

  function Zero(): Word {
    seq(WIDTH, _ => false)
  }

  function Not(a: Word): Word {
    seq(WIDTH, i requires 0 <= i < WIDTH => !a[i])
  }

  function And(a: Word, b: Word): Word {
    seq(WIDTH, i requires 0 <= i < WIDTH => a[i] && b[i])
  }

  function Or(a: Word, b: Word): Word {
    seq(WIDTH, i requires 0 <= i < WIDTH => a[i] || b[i])
  }

  /** `>>` on an unsigned word. */
  function ShiftRight(a: Word, n: nat): Word {
    seq(WIDTH, i requires 0 <= i < WIDTH => n <= i && a[i - n])
  }

  /** `>>` on a signed word: the vacated positions take the sign bit. */
  function ArithmeticShiftRight(a: Word, n: nat): Word {
    seq(WIDTH, i requires 0 <= i < WIDTH => if i < n then a[0] else a[i - n])
  }

  /** Population count. */
  function CountBits(w: seq<bool>): nat {
    if w == [] then 0 else CountBits(w[..|w| - 1]) + (if w[|w| - 1] then 1 else 0)
  }

  /** One-based index, counted from the right, of the rightmost set bit; 0 when there is none. */
  function FindFirstFromRight(w: seq<bool>): nat {
    if w == [] then 0
    else if w[|w| - 1] then 1
    else
      var rest := FindFirstFromRight(w[..|w| - 1]);
      if rest == 0 then 0 else rest + 1
  }

  // ---------- the primitives ----------

  function UpperBit(): Word {
    Not(ShiftRight(Not(Zero()), 1))
  }

  function BitAt(pos: nat): Word
    requires pos < WIDTH
  {
    ShiftRight(UpperBit(), pos)
  }

  predicate IsBitSet(bitmap: Word, pos: nat)
    requires pos < WIDTH
  {
    And(bitmap, BitAt(pos)) != Zero()
  }

  function SetBit(bitmap: Word, pos: nat): Word
    requires pos < WIDTH
  {
    Or(bitmap, BitAt(pos))
  }

  function FillLeftBefore(pos: nat): Word
    requires pos < WIDTH
  {
    if pos == 0 then Zero() else ArithmeticShiftRight(UpperBit(), pos - 1)
  }

  function FillLeftUntil(pos: nat): Word
    requires pos < WIDTH
  {
    ArithmeticShiftRight(UpperBit(), pos)
  }

  function FindLargest(bits: Word): int {
    WIDTH - FindFirstFromRight(bits)
  }

  function FindLargestAmongOrLessThan(bitmap: Word, pos: nat): int
    requires pos < WIDTH
  {
    var smallers := And(bitmap, FillLeftUntil(pos));
    if smallers == Zero() then -1 else FindLargest(smallers)
  }

  function FindLargestLessThan(bitmap: Word, pos: nat): int
    requires pos < WIDTH
  {
    var smallers := And(bitmap, FillLeftBefore(pos));
    if smallers == Zero() then -1 else FindLargest(smallers)
  }

  /** {second largest, largest}, each -1 when it does not exist. */
  function FindTwoLargestAmongOrLessThan(bitmap: Word, pos: nat): (int, int)
    requires pos < WIDTH
  {
    var smallers := And(bitmap, FillLeftUntil(pos));
    if smallers == Zero() then (-1, -1)
    else
      LargestIsMax(smallers);
      var largest := FindLargest(smallers);
      if CountBits(smallers) == 1 then (-1, largest)
      else (FindLargest(And(Not(BitAt(largest)), smallers)), largest)
  }

  // ---------- what the words mean ----------

  ghost function Positions(w: Word): set<nat> {
    set i: nat | i < WIDTH && w[i]
  }

  /** `m` is the greatest element of `s` that satisfies the bound `m < limit`. */
  ghost predicate IsMaxBelow(m: int, s: set<nat>, limit: int) {
    0 <= m < limit && m in s && forall p :: p in s && p < limit ==> p <= m
  }

  ghost predicate NoneBelow(s: set<nat>, limit: int) {
    forall p :: p in s ==> limit <= p
  }

  lemma UpperBitAt(i: nat)
    requires i < WIDTH
    ensures UpperBit()[i] == (i == 0)
  {
    assert Not(Zero())[if i == 0 then 0 else i - 1];
  }

  lemma SingleBit(pos: nat)
    requires pos < WIDTH
    ensures BitAt(pos) == Zero()[pos := true]
  {
    forall i: nat | i < WIDTH
      ensures BitAt(pos)[i] == Zero()[pos := true][i]
    {
      if pos <= i { UpperBitAt(i - pos); }
    }
  }

  lemma SetBitIsUpdate(bitmap: Word, pos: nat)
    requires pos < WIDTH
    ensures SetBit(bitmap, pos) == bitmap[pos := true]
    ensures Positions(SetBit(bitmap, pos)) == Positions(bitmap) + {pos}
  {
    SingleBit(pos);
    assert SetBit(bitmap, pos) == bitmap[pos := true];
  }

  lemma IsBitSetIsIndex(bitmap: Word, pos: nat)
    requires pos < WIDTH
    ensures IsBitSet(bitmap, pos) <==> bitmap[pos]
  {
    SingleBit(pos);
    if bitmap[pos] {
      assert And(bitmap, BitAt(pos))[pos];
      assert !Zero()[pos];
    } else {
      assert And(bitmap, BitAt(pos)) == Zero();
    }
  }

  lemma FillUntilAt(pos: nat, i: nat)
    requires pos < WIDTH && i < WIDTH
    ensures FillLeftUntil(pos)[i] == (i <= pos)
  {
    UpperBitAt(0);
    if pos <= i { UpperBitAt(i - pos); }
  }

  lemma FillBeforeAt(pos: nat, i: nat)
    requires pos < WIDTH && i < WIDTH
    ensures FillLeftBefore(pos)[i] == (i < pos)
  {
    if pos > 0 { FillUntilAt(pos - 1, i); }
  }

  /** Masking with a left fill keeps a prefix of the word. */
  lemma MaskUntil(w: Word, pos: nat)
    requires pos < WIDTH
    ensures And(w, FillLeftUntil(pos)) == w[..pos + 1] + seq(WIDTH - pos - 1, _ => false)
  {
    forall i: nat | i < WIDTH
      ensures And(w, FillLeftUntil(pos))[i] == (w[..pos + 1] + seq(WIDTH - pos - 1, _ => false))[i]
    {
      FillUntilAt(pos, i);
    }
  }

  lemma MaskBefore(w: Word, pos: nat)
    requires pos < WIDTH
    ensures And(w, FillLeftBefore(pos)) == w[..pos] + seq(WIDTH - pos, _ => false)
  {
    forall i: nat | i < WIDTH
      ensures And(w, FillLeftBefore(pos))[i] == (w[..pos] + seq(WIDTH - pos, _ => false))[i]
    {
      FillBeforeAt(pos, i);
    }
  }

  lemma {:induction false} CountBitsConcat(a: seq<bool>, b: seq<bool>)
    ensures CountBits(a + b) == CountBits(a) + CountBits(b)
  {
    if b == [] {
      assert a + b == a;
    } else {
      assert (a + b)[..|a + b| - 1] == a + b[..|b| - 1];
      CountBitsConcat(a, b[..|b| - 1]);
    }
  }

  lemma {:induction false} CountBitsOfZeros(w: seq<bool>)
    requires forall i :: 0 <= i < |w| ==> !w[i]
    ensures CountBits(w) == 0
  {
    if w != [] { CountBitsOfZeros(w[..|w| - 1]); }
  }

  lemma {:induction false} CountBitsIsCardinality(w: seq<bool>)
    ensures CountBits(w) == |set i: nat | i < |w| && w[i]|
  {
    var s := set i: nat | i < |w| && w[i];
    if w != [] {
      var w' := w[..|w| - 1];
      CountBitsIsCardinality(w');
      var s' := set i: nat | i < |w'| && w'[i];
      assert s == if w[|w| - 1] then s' + {|w| - 1} else s';
    }
  }

  /** Masked population count is the rank: how many set positions lie strictly to the left. */
  lemma MaskedCountIsRank(w: Word, pos: nat)
    requires pos < WIDTH
    ensures CountBits(And(w, FillLeftBefore(pos))) == CountBits(w[..pos])
    ensures CountBits(And(w, FillLeftBefore(pos))) == |set p | p in Positions(w) && p < pos|
  {
    MaskBefore(w, pos);
    var zeros := seq(WIDTH - pos, _ => false);
    CountBitsConcat(w[..pos], zeros);
    CountBitsOfZeros(zeros);
    CountBitsIsCardinality(w[..pos]);
    assert (set p | p in Positions(w) && p < pos) == set i: nat | i < |w[..pos]| && w[..pos][i];
  }

  lemma MaskedCountUntilIsRank(w: Word, pos: nat)
    requires pos < WIDTH
    ensures CountBits(And(w, FillLeftUntil(pos))) == CountBits(w[..pos + 1])
  {
    MaskUntil(w, pos);
    var zeros := seq(WIDTH - pos - 1, _ => false);
    CountBitsConcat(w[..pos + 1], zeros);
    CountBitsOfZeros(zeros);
  }

  lemma {:induction false} FindFirstLocates(w: seq<bool>)
    ensures FindFirstFromRight(w) <= |w|
    ensures FindFirstFromRight(w) == 0 <==> forall i :: 0 <= i < |w| ==> !w[i]
    ensures FindFirstFromRight(w) != 0 ==>
      w[|w| - FindFirstFromRight(w)] && forall i :: |w| - FindFirstFromRight(w) < i < |w| ==> !w[i]
  {
    if w != [] {
      var w' := w[..|w| - 1];
      FindFirstLocates(w');
      assert forall i :: 0 <= i < |w'| ==> w[i] == w'[i];
    }
  }

  lemma NonZeroHasPosition(w: Word)
    ensures w != Zero() <==> Positions(w) != {}
    ensures w != Zero() <==> exists i :: 0 <= i < WIDTH && w[i]
  {
    if w != Zero() {
      var i :| 0 <= i < WIDTH && w[i] != Zero()[i];
      assert i in Positions(w);
    }
    if Positions(w) != {} {
      var p :| p in Positions(w);
      assert w[p] != Zero()[p];
    }
  }

  /** find_the_largest returns the greatest set position. */
  lemma LargestIsMax(w: Word)
    requires w != Zero()
    ensures IsMaxBelow(FindLargest(w), Positions(w), WIDTH)
    ensures 0 <= FindLargest(w) < WIDTH
  {
    FindFirstLocates(w);
    NonZeroHasPosition(w);
  }

  /** The two "largest at or below / strictly below" searches return the maximum in range, or -1. */
  lemma SearchesFindTheMaximum(bitmap: Word, pos: nat)
    requires pos < WIDTH
    ensures var r := FindLargestLessThan(bitmap, pos);
      if r == -1 then NoneBelow(Positions(bitmap), pos) else IsMaxBelow(r, Positions(bitmap), pos)
    ensures var r := FindLargestAmongOrLessThan(bitmap, pos);
      if r == -1 then NoneBelow(Positions(bitmap), pos + 1) else IsMaxBelow(r, Positions(bitmap), pos + 1)
  {
    SearchLessThan(bitmap, pos);
    SearchAmongOrLessThan(bitmap, pos);
  }

  /** The masked word has exactly the positions below the limit, and its largest is their maximum. */
  lemma MaskedSearch(bitmap: Word, smallers: Word, limit: nat)
    requires limit <= WIDTH
    requires smallers == bitmap[..limit] + seq(WIDTH - limit, _ => false)
    ensures Positions(smallers) == set p | p in Positions(bitmap) && p < limit
    ensures smallers == Zero() <==> NoneBelow(Positions(bitmap), limit)
    ensures smallers != Zero() ==> IsMaxBelow(FindLargest(smallers), Positions(bitmap), limit)
  {
    assert forall p: nat :: p in Positions(smallers) <==> p in Positions(bitmap) && p < limit;
    NonZeroHasPosition(smallers);
    if smallers != Zero() {
      LargestIsMax(smallers);
      assert FindLargest(smallers) in Positions(smallers);
    }
  }

  lemma SearchLessThan(bitmap: Word, pos: nat)
    requires pos < WIDTH
    ensures var r := FindLargestLessThan(bitmap, pos);
      if r == -1 then NoneBelow(Positions(bitmap), pos) else IsMaxBelow(r, Positions(bitmap), pos)
  {
    MaskBefore(bitmap, pos);
    MaskedSearch(bitmap, And(bitmap, FillLeftBefore(pos)), pos);
  }

  lemma SearchAmongOrLessThan(bitmap: Word, pos: nat)
    requires pos < WIDTH
    ensures var r := FindLargestAmongOrLessThan(bitmap, pos);
      if r == -1 then NoneBelow(Positions(bitmap), pos + 1) else IsMaxBelow(r, Positions(bitmap), pos + 1)
  {
    MaskUntil(bitmap, pos);
    MaskedSearch(bitmap, And(bitmap, FillLeftUntil(pos)), pos + 1);
  }

  /**
    The two-largest search: the first component of the answer is the maximum below the second,
    the second is the maximum at or below `pos`.
   */
  lemma TwoLargestAreTheMaxima(bitmap: Word, pos: nat)
    requires pos < WIDTH
    ensures var (second, first) := FindTwoLargestAmongOrLessThan(bitmap, pos);
      && (if first == -1 then NoneBelow(Positions(bitmap), pos + 1)
          else IsMaxBelow(first, Positions(bitmap), pos + 1))
      && (if second == -1 then first == -1 || NoneBelow(Positions(bitmap), first)
          else first != -1 && IsMaxBelow(second, Positions(bitmap), first))
  {
    var smallers := And(bitmap, FillLeftUntil(pos));
    MaskUntil(bitmap, pos);
    MaskedSearch(bitmap, smallers, pos + 1);
    if smallers != Zero() {
      var largest: nat := FindLargest(smallers);
      var others := And(Not(BitAt(largest)), smallers);
      SingleBit(largest);
      assert others == bitmap[..largest] + seq(WIDTH - largest, _ => false) by {
        forall i: nat | i < WIDTH
          ensures others[i] == (bitmap[..largest] + seq(WIDTH - largest, _ => false))[i]
        {
          assert i in Positions(smallers) <==> i in Positions(bitmap) && i < pos + 1;
          assert i in Positions(bitmap) && i < pos + 1 ==> i <= largest;
        }
      }
      MaskedSearch(bitmap, others, largest);
      CountBitsIsCardinality(smallers);
      assert Positions(smallers) == set i: nat | i < |smallers| && smallers[i];
      assert Positions(others) == Positions(smallers) - {largest} && largest in Positions(smallers);
      NonZeroHasPosition(others);
      assert Positions(smallers) == Positions(others) + {largest};
      assert CountBits(smallers) == |Positions(others)| + 1;
      assert |Positions(others)| == 0 <==> Positions(others) == {};
    }
  }
}
