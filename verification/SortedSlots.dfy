/**
  Vectors of (id, version) pairs in ascending order of id, as Caracal and Serval keep them:
  insertion with `std::upper_bound`, the search for the last id below a limit, and what both mean for
  the map from id to version that such a vector represents.
 */
module SortedSlots {
  import opened Versions

  datatype Slot = Slot(id: int, v: VersionId)

  predicate Sorted(a: seq<Slot>) {
    forall i, j :: 0 <= i < j < |a| ==> a[i].id < a[j].id
  }

  /** The first position whose id is at least `x`: where `std::upper_bound` stops for "x <= id". */
  function LowerBound(a: seq<Slot>, x: int): (p: nat)
    ensures p <= |a|
    ensures p < |a| ==> x <= a[p].id
    ensures forall i :: 0 <= i < p ==> a[i].id < x
  {
    if a == [] then 0
    else if x <= a[0].id then 0
    else 1 + LowerBound(a[1..], x)
  }

  /** Insertion before the first greater id. */
  function Insert(a: seq<Slot>, s: Slot): seq<Slot> {
    var p := LowerBound(a, s.id + 1);
    a[..p] + [s] + a[p..]
  }

  function InsertAll(a: seq<Slot>, b: seq<Slot>): seq<Slot>
    decreases |b|
  {
    if b == [] then a else InsertAll(Insert(a, b[0]), b[1..])
  }

  function EntryVersions(a: seq<Slot>): seq<VersionId> {
    seq(|a|, i requires 0 <= i < |a| => a[i].v)
  }

  function AsSet(vs: seq<VersionId>): set<VersionId> {
    set v | v in vs
  }

  lemma {:induction false} DistinctCount(vs: seq<VersionId>)
    requires forall i, j :: 0 <= i < j < |vs| ==> vs[i] != vs[j]
    ensures |AsSet(vs)| == |vs|
  {
    if vs == [] {
      assert AsSet(vs) == {};
    } else {
      DistinctCount(vs[1..]);
      assert vs[0] !in AsSet(vs[1..]);
      assert AsSet(vs) == AsSet(vs[1..]) + {vs[0]};
    }
  }

  // ---------- the map that a vector represents ----------

  ghost predicate Has(a: seq<Slot>, id: int, v: VersionId) {
    exists i :: 0 <= i < |a| && a[i] == Slot(id, v)
  }

  ghost predicate HasId(a: seq<Slot>, id: int) {
    exists i :: 0 <= i < |a| && a[i].id == id
  }

  /** Two vectors represent the same map. */
  ghost predicate SameSlots(a: seq<Slot>, b: seq<Slot>) {
    forall id: int, v: VersionId :: Has(a, id, v) <==> Has(b, id, v)
  }

  lemma BoundIsUnique(a: seq<Slot>, x: int, p: nat)
    requires p <= |a|
    requires p < |a| ==> x <= a[p].id
    requires forall i :: 0 <= i < p ==> a[i].id < x
    ensures LowerBound(a, x) == p
  {
  }

  /** Insertion keeps the order and adds exactly the new slot. */
  lemma InsertKeepsOrder(a: seq<Slot>, s: Slot)
    requires Sorted(a) && !HasId(a, s.id)
    ensures Sorted(Insert(a, s))
    ensures |Insert(a, s)| == |a| + 1
  {
    var p := LowerBound(a, s.id + 1);
    var b := Insert(a, s);
    assert forall i :: p <= i < |a| ==> a[i].id >= a[p].id;
    forall i, j | 0 <= i < j < |b|
      ensures b[i].id < b[j].id
    {
      if i < p { assert b[i] == a[i]; } else if i > p { assert b[i] == a[i - 1]; }
      if j < p { assert b[j] == a[j]; } else if j > p { assert b[j] == a[j - 1]; }
    }
  }

  lemma InsertAdds(a: seq<Slot>, s: Slot, id: int, v: VersionId)
    ensures Has(Insert(a, s), id, v) <==> Has(a, id, v) || (id == s.id && v == s.v)
  {
    var p := LowerBound(a, s.id + 1);
    var b := Insert(a, s);
    if Has(a, id, v) {
      var i :| 0 <= i < |a| && a[i] == Slot(id, v);
      assert b[if i < p then i else i + 1] == Slot(id, v);
    }
    assert b[p] == s;
    if Has(b, id, v) {
      var i :| 0 <= i < |b| && b[i] == Slot(id, v);
      if i < p { assert a[i] == b[i]; } else if i > p { assert a[i - 1] == b[i]; }
    }
  }

  lemma HasIdIsHas(a: seq<Slot>, id: int)
    ensures HasId(a, id) <==> exists v: VersionId :: Has(a, id, v)
  {
    if HasId(a, id) {
      var i :| 0 <= i < |a| && a[i].id == id;
      assert a[i] == Slot(id, a[i].v);
      assert Has(a, id, a[i].v);
    }
  }

  lemma HasIsUnique(a: seq<Slot>, id: int, v: VersionId, v': VersionId)
    requires Sorted(a) && Has(a, id, v) && Has(a, id, v')
    ensures v == v'
  {
    var i :| 0 <= i < |a| && a[i] == Slot(id, v);
    var j :| 0 <= j < |a| && a[j] == Slot(id, v');
    assert i == j;
  }

  /** Inserting the slots of a sorted vector one after the other: sorted, and exactly the union. */
  lemma {:induction false} InsertAllIsUnion(a: seq<Slot>, b: seq<Slot>)
    requires Sorted(a) && Sorted(b)
    requires forall id: int :: HasId(b, id) ==> !HasId(a, id)
    ensures Sorted(InsertAll(a, b))
    ensures |InsertAll(a, b)| == |a| + |b|
    ensures forall id: int, v: VersionId :: Has(InsertAll(a, b), id, v) <==> Has(a, id, v) || Has(b, id, v)
    decreases |b|
  {
    if b != [] {
      var a' := Insert(a, b[0]);
      assert b[0].id == b[0].id && HasId(b, b[0].id);
      InsertKeepsOrder(a, b[0]);
      forall id: int, v: VersionId
        ensures Has(a', id, v) <==> Has(a, id, v) || (id == b[0].id && v == b[0].v)
        ensures Has(b, id, v) <==> Has(b[1..], id, v) || (id == b[0].id && v == b[0].v)
      {
        InsertAdds(a, b[0], id, v);
        HasTail(b, id, v);
      }
      forall id: int | HasId(b[1..], id)
        ensures !HasId(a', id)
      {
        Disjointness(a, b, id);
      }
      InsertAllIsUnion(a', b[1..]);
    }
  }

  lemma HasTail(b: seq<Slot>, id: int, v: VersionId)
    requires b != []
    ensures Has(b, id, v) <==> Has(b[1..], id, v) || b[0] == Slot(id, v)
  {
    if Has(b[1..], id, v) {
      var i :| 0 <= i < |b[1..]| && b[1..][i] == Slot(id, v);
      assert b[i + 1] == Slot(id, v);
    }
    if Has(b, id, v) {
      var i :| 0 <= i < |b| && b[i] == Slot(id, v);
      if i > 0 { assert b[1..][i - 1] == Slot(id, v); }
    }
  }

  lemma Disjointness(a: seq<Slot>, b: seq<Slot>, id: int)
    requires Sorted(b) && b != [] && HasId(b[1..], id)
    requires forall id: int :: HasId(b, id) ==> !HasId(a, id)
    ensures !HasId(Insert(a, b[0]), id)
  {
    var i :| 0 <= i < |b[1..]| && b[1..][i].id == id;
    assert b[i + 1].id == id;
    assert HasId(b, id);
    if HasId(Insert(a, b[0]), id) {
      HasIdIsHas(Insert(a, b[0]), id);
      var v: VersionId :| Has(Insert(a, b[0]), id, v);
      InsertAdds(a, b[0], id, v);
      HasIdIsHas(a, id);
    }
  }

  /** The representation is canonical: the order of the insertions cannot be told from the vector. */
  lemma {:induction false} SameSlotsSameVector(a: seq<Slot>, b: seq<Slot>)
    requires Sorted(a) && Sorted(b) && SameSlots(a, b)
    ensures a == b
    decreases |a|
  {
    if a == [] {
      if b != [] { assert b[0] == Slot(b[0].id, b[0].v); assert Has(b, b[0].id, b[0].v); }
    } else {
      assert a[0] == Slot(a[0].id, a[0].v) && Has(a, a[0].id, a[0].v);
      assert Has(b, a[0].id, a[0].v);
      assert b != [] && b[0] == Slot(b[0].id, b[0].v) && Has(b, b[0].id, b[0].v);
      assert Has(a, b[0].id, b[0].v);
      assert a[0] == b[0];
      forall id: int, v: VersionId
        ensures Has(a[1..], id, v) <==> Has(b[1..], id, v)
      {
        HasTail(a, id, v);
        HasTail(b, id, v);
        assert Has(a, id, v) <==> Has(b, id, v);
        HeadIsNotInTail(a, v);
        HeadIsNotInTail(b, v);
      }
      SameSlotsSameVector(a[1..], b[1..]);
      assert a == [a[0]] + a[1..] && b == [b[0]] + b[1..];
    }
  }

  lemma HeadIsNotInTail(a: seq<Slot>, v: VersionId)
    requires Sorted(a) && a != []
    ensures !Has(a[1..], a[0].id, v)
  {
  }

  /** `id` is the greatest id of the vector below the limit, and `v` belongs to it. */
  ghost predicate IsVisible(a: seq<Slot>, limit: int, id: int, v: VersionId) {
    Has(a, id, v) && id < limit && forall id': int :: HasId(a, id') && id' < limit ==> id' <= id
  }

  /** Stepping back once from the bound gives the greatest id below the limit. */
  lemma SearchFindsVisible(a: seq<Slot>, x: int)
    requires Sorted(a)
    ensures LowerBound(a, x) == 0 <==> forall id: int :: HasId(a, id) ==> x <= id
    ensures LowerBound(a, x) > 0 ==>
      IsVisible(a, x, a[LowerBound(a, x) - 1].id, a[LowerBound(a, x) - 1].v)
  {
    var p := LowerBound(a, x);
    if p > 0 {
      assert a[p - 1] == Slot(a[p - 1].id, a[p - 1].v);
      assert HasId(a, a[p - 1].id);
      forall id: int | HasId(a, id) && id < x
        ensures id <= a[p - 1].id
      {
        var i :| 0 <= i < |a| && a[i].id == id;
        assert i < p;
      }
    } else {
      forall id: int | HasId(a, id)
        ensures x <= id
      {
        var i :| 0 <= i < |a| && a[i].id == id;
        assert a[0].id <= a[i].id;
      }
    }
  }

  lemma VisibleIsUniqueSlot(a: seq<Slot>, x: int, id: int, v: VersionId)
    requires Sorted(a) && IsVisible(a, x, id, v)
    ensures LowerBound(a, x) > 0 && a[LowerBound(a, x) - 1] == Slot(id, v)
  {
    SearchFindsVisible(a, x);
    HasIdIsHas(a, id);
    var s := a[LowerBound(a, x) - 1];
    HasIdIsHas(a, s.id);
    HasIsUnique(a, id, v, s.v);
  }
}
