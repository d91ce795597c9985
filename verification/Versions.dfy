/** Versions, and what every protocol of the repository says about them. */
module Versions {
  import opened Bits

  datatype Option<+T> = None | Some(value: T) {
    function GetOr(default: T): T {
      if Some? then value else default
    }
  }

  /** The content of a record: which write produced it. */
  datatype Tag = Loaded | Written(epoch: nat, serial: nat)

  datatype Status = Pending | Stable

  type VersionId = nat

  /** `rec` is None while the version has no record; the writer of the version stores it. */
  datatype Version = Version(rec: Option<Tag>, status: Status)

  /** Everyone in `who` is at the same program point. */
  ghost function AllAt<K(!new), V(!new)>(who: set<K>, pc: V): (m: map<K, V>)
    ensures m.Keys == who && forall k :: k in who ==> m[k] == pc
  {
    SomeMap(who, pc);
    var m: map<K, V> :| m.Keys == who && forall k :: k in who ==> m[k] == pc;
    m
  }

  lemma {:induction false} SomeMap<K(!new), V(!new)>(who: set<K>, pc: V)
    ensures exists m: map<K, V> :: m.Keys == who && forall k :: k in who ==> m[k] == pc
  {
    var none: map<K, V> := map[];
    if who == {} {
      assert none.Keys == who;
    } else {
      var k :| k in who;
      SomeMap(who - {k}, pc);
      var m: map<K, V> :| m.Keys == who - {k} && forall j :: j in who - {k} ==> m[j] == pc;
      assert m[k := pc].Keys == who;
    }
  }

  /** The serial id of the write that the read with serial id `s` must see in its own epoch. */
  ghost function Visible(writers: set<nat>, s: nat): (v: Option<nat>)
    ensures v.None? <==> NoneBelow(writers, s)
    ensures v.Some? ==> IsMaxBelow(v.value, writers, s)
  {
    MaxBelowExists(writers, s);
    if exists w: nat :: IsMaxBelow(w, writers, s)
    then var w: nat :| IsMaxBelow(w, writers, s); Some(w)
    else None
  }

  /** What the read with serial id `s` has to return when the epoch began with content `base`. */
  ghost function Outcome(writers: set<nat>, epoch: nat, base: Tag, s: nat): Tag {
    match Visible(writers, s)
    case Some(w) => Written(epoch, w)
    case None => base
  }

  lemma {:induction false} FindMaxBelow(writers: set<nat>, s: nat) returns (m: Option<nat>)
    ensures m.None? ==> NoneBelow(writers, s)
    ensures m.Some? ==> IsMaxBelow(m.value, writers, s)
  {
    if s == 0 {
      m := None;
    } else if s - 1 in writers {
      m := Some(s - 1);
    } else {
      m := FindMaxBelow(writers, s - 1);
    }
  }

  lemma MaxBelowExists(writers: set<nat>, s: nat)
    ensures NoneBelow(writers, s) <==> !exists w: nat :: IsMaxBelow(w, writers, s)
  {
    var m := FindMaxBelow(writers, s);
  }

  lemma VisibleIsUnique(writers: set<nat>, s: nat, w: nat)
    requires IsMaxBelow(w, writers, s)
    ensures Visible(writers, s) == Some(w)
  {
  }
}
