/**
  The rendezvous barrier (protocols/ycsb_common/rendezvous_barrier.hpp): one parent and any number of
  children go through phase after phase, with a barrier of type `ty(k)` at the end of phase `k`.
  Every atomic access of the source is a step of its own.
 */
module Barrier {

  /** BarrierType::BeforeExp, the value that start_ has before the first release. */
  const BEFORE_EXP: nat := 0

  // send_ready_and_wait_start
  datatype ChildPc = Work(phase: nat) | Waiting(phase: nat)

  // wait_all_children_and_send_start
  datatype ParentPc = PWork(phase: nat) | PSpin(phase: nat) | PInit(phase: nat) | PSend(phase: nat)

  datatype State = State(ready: int, start: nat, children: seq<ChildPc>, parent: ParentPc)

  datatype Thread = Parent | Child(i: nat)

  /** Spinning threads cannot step. */
  predicate Enabled(ty: nat -> nat, st: State, t: Thread) {
    match t
    case Parent => st.parent.PSpin? ==> st.ready <= 0
    case Child(i) => i < |st.children| && (st.children[i].Waiting? ==> st.start == ty(st.children[i].phase))
  }

  function Step(ty: nat -> nat, st: State, t: Thread): State
    requires Enabled(ty, st, t)
  {
    match t
    case Parent =>
      (match st.parent
       case PWork(k) => st.(parent := PSpin(k))
       case PSpin(k) => st.(parent := PInit(k))
       case PInit(k) => st.(ready := |st.children|, parent := PSend(k))
       case PSend(k) => st.(start := ty(k), parent := PWork(k + 1)))
    case Child(i) =>
      (match st.children[i]
       case Work(k) => st.(ready := st.ready - 1, children := st.children[i := Waiting(k)])
       case Waiting(k) => st.(children := st.children[i := Work(k + 1)]))
  }

  function Initial(n: nat): State {
    State(n, BEFORE_EXP, seq(n, _ => Work(0)), PWork(0))
  }

  /** The value of start_ while phase `k` is running. */
  function Released(ty: nat -> nat, k: nat): nat {
    if k == 0 then BEFORE_EXP else ty(k - 1)
  }

  /** Consecutive types differ, beginning with the initial value of start_. */
  ghost predicate TypesDiffer(ty: nat -> nat) {
    forall k: nat :: ty(k) != Released(ty, k)
  }

  // ---------- the invariant ----------

  /** How many children are at `pc`. */
  function Count(children: seq<ChildPc>, pc: ChildPc): nat {
    if children == [] then 0 else Count(children[..|children| - 1], pc) + (if children[|children| - 1] == pc then 1 else 0)
  }

  ghost predicate Inv(ty: nat -> nat, st: State) {
    var k := st.parent.phase;
    && st.start == Released(ty, k)
    && (if st.parent.PWork? || st.parent.PSpin? then
          && st.ready == |st.children| - Count(st.children, Waiting(k))
          && forall i :: 0 <= i < |st.children| ==>
               st.children[i] == Work(k) || st.children[i] == Waiting(k) || (k > 0 && st.children[i] == Waiting(k - 1))
        else
          && st.ready == (if st.parent.PInit? then 0 else |st.children|)
          && forall i :: 0 <= i < |st.children| ==> st.children[i] == Waiting(k))
  }

  lemma {:induction false} CountBound(children: seq<ChildPc>, pc: ChildPc)
    ensures Count(children, pc) <= |children|
    ensures Count(children, pc) == |children| <==> forall i :: 0 <= i < |children| ==> children[i] == pc
    ensures Count(children, pc) == 0 <==> forall i :: 0 <= i < |children| ==> children[i] != pc
  {
    if children != [] {
      var rest := children[..|children| - 1];
      CountBound(rest, pc);
      assert forall i :: 0 <= i < |rest| ==> rest[i] == children[i];
      assert children[|children| - 1] == children[|rest|];
    }
  }

  lemma {:induction false} CountUpdate(children: seq<ChildPc>, i: nat, to: ChildPc, pc: ChildPc)
    requires i < |children|
    ensures Count(children[i := to], pc)
         == Count(children, pc) - (if children[i] == pc then 1 else 0) + (if to == pc then 1 else 0)
  {
    var rest := children[..|children| - 1];
    if i < |rest| {
      CountUpdate(rest, i, to, pc);
      assert children[i := to][..|children| - 1] == rest[i := to];
    } else {
      assert children[i := to][..|children| - 1] == rest;
    }
  }

  lemma InitialInv(ty: nat -> nat, n: nat)
    ensures Inv(ty, Initial(n))
  {
    CountBound(Initial(n).children, Waiting(0));
  }

  lemma Differs(ty: nat -> nat, k: nat)
    requires TypesDiffer(ty)
    ensures ty(k) != Released(ty, k)
  {
  }

  lemma ParentKeepsInv(ty: nat -> nat, st: State)
    requires Inv(ty, st) && Enabled(ty, st, Parent)
    ensures Inv(ty, Step(ty, st, Parent))
  {
    hide Count;
    CountBound(st.children, Waiting(st.parent.phase));
    CountBound(st.children, Waiting(st.parent.phase + 1));
  }

  lemma ChildKeepsInv(ty: nat -> nat, st: State, i: nat)
    requires Inv(ty, st) && Enabled(ty, st, Child(i)) && ty(st.parent.phase) != Released(ty, st.parent.phase)
    ensures Inv(ty, Step(ty, st, Child(i)))
  {
    hide Count;
    var k := st.parent.phase;
    CountUpdate(st.children, i, Step(ty, st, Child(i)).children[i], Waiting(k));
  }

  lemma StepKeepsInv(ty: nat -> nat, st: State, t: Thread)
    requires TypesDiffer(ty) && Inv(ty, st) && Enabled(ty, st, t)
    ensures Inv(ty, Step(ty, st, t))
  {
    hide TypesDiffer, Inv, Enabled, Step;
    match t
    case Parent => ParentKeepsInv(ty, st);
    case Child(i) =>
      Differs(ty, st.parent.phase);
      ChildKeepsInv(ty, st, i);
  }

  // ---------- runs ----------

  ghost predicate IsRun(ty: nat -> nat, st: State, run: seq<Thread>)
    decreases |run|
  {
    run == [] || (Enabled(ty, st, run[0]) && IsRun(ty, Step(ty, st, run[0]), run[1..]))
  }

  ghost function After(ty: nat -> nat, st: State, run: seq<Thread>): State
    requires IsRun(ty, st, run)
    decreases |run|
  {
    if run == [] then st else After(ty, Step(ty, st, run[0]), run[1..])
  }

  ghost predicate Reachable(ty: nat -> nat, n: nat, st: State) {
    exists run: seq<Thread> :: IsRun(ty, Initial(n), run) && After(ty, Initial(n), run) == st
  }

  lemma {:induction false} RunKeepsInv(ty: nat -> nat, st: State, run: seq<Thread>)
    requires TypesDiffer(ty) && Inv(ty, st) && IsRun(ty, st, run)
    ensures Inv(ty, After(ty, st, run)) && |After(ty, st, run).children| == |st.children|
    decreases |run|
  {
    hide Inv, TypesDiffer;
    if run != [] {
      StepKeepsInv(ty, st, run[0]);
      RunKeepsInv(ty, Step(ty, st, run[0]), run[1..]);
    }
  }

  // ---------- safety ----------

  function PhaseOf(st: State, t: Thread): nat
    requires t.Child? ==> t.i < |st.children|
  {
    match t
    case Parent => st.parent.phase
    case Child(i) => st.children[i].phase
  }

  /** The thread has done its work of phase `k`. */
  predicate Finished(st: State, t: Thread, k: nat)
    requires t.Child? ==> t.i < |st.children|
  {
    || PhaseOf(st, t) > k
    || (PhaseOf(st, t) == k && (match t case Parent => !st.parent.PWork? case Child(i) => st.children[i].Waiting?))
  }

  predicate IsThread(st: State, t: Thread) {
    t.Child? ==> t.i < |st.children|
  }

  /** No thread is in a later phase before all threads have finished the earlier one. */
  ghost predicate Safe(st: State) {
    forall t: Thread, u: Thread, k: nat ::
      IsThread(st, t) && IsThread(st, u) && PhaseOf(st, t) > k ==> Finished(st, u, k)
  }

  /** A released child that has not left yet still finds its type in start_, whatever the others do. */
  ghost predicate NoMissedRelease(ty: nat -> nat, st: State) {
    forall i: nat :: i < |st.children| && st.children[i].Waiting? && st.children[i].phase < st.parent.phase ==>
      Enabled(ty, st, Child(i))
  }

  lemma InvIsSafe(ty: nat -> nat, st: State)
    requires Inv(ty, st)
    ensures Safe(st) && NoMissedRelease(ty, st)
  {
  }

  /** Some thread can always step. */
  lemma Progress(ty: nat -> nat, st: State) returns (t: Thread)
    requires Inv(ty, st)
    ensures Enabled(ty, st, t)
  {
    hide Count;
    var k := st.parent.phase;
    CountBound(st.children, Waiting(k));
    if !st.parent.PSpin? || st.ready <= 0 {
      t := Parent;
    } else {
      var i: nat :| i < |st.children| && st.children[i] != Waiting(k);
      t := Child(i);
    }
  }

  // ---------- the condition is exact ----------

  lemma {:induction false} RunExtends(ty: nat -> nat, st: State, run: seq<Thread>, t: Thread)
    requires IsRun(ty, st, run) && Enabled(ty, After(ty, st, run), t)
    ensures IsRun(ty, st, run + [t]) && After(ty, st, run + [t]) == Step(ty, After(ty, st, run), t)
    decreases |run|
  {
    if run == [] {
      assert run + [t] == [t];
      assert IsRun(ty, Step(ty, st, t), []);
    } else {
      RunExtends(ty, Step(ty, st, run[0]), run[1..], t);
      assert (run + [t])[1..] == run[1..] + [t];
    }
  }

  lemma ReachNext(ty: nat -> nat, n: nat, st: State, t: Thread)
    requires Reachable(ty, n, st) && Enabled(ty, st, t)
    ensures Reachable(ty, n, Step(ty, st, t))
  {
    hide IsRun, After, Enabled, Step;
    var run: seq<Thread> :| IsRun(ty, Initial(n), run) && After(ty, Initial(n), run) == st;
    RunExtends(ty, Initial(n), run, t);
  }

  /** The first `m` of `n` children are at `first`, the others at `rest`. */
  function Mixed(n: nat, m: nat, first: ChildPc, rest: ChildPc): seq<ChildPc> {
    seq(n, i => if i < m then first else rest)
  }

  lemma MixedStep(n: nat, m: nat, first: ChildPc, rest: ChildPc)
    requires m < n
    ensures Mixed(n, m, first, rest)[m] == rest
    ensures Mixed(n, m, first, rest)[m := first] == Mixed(n, m + 1, first, rest)
  {
  }

  lemma MixedEnds(n: nat, first: ChildPc, rest: ChildPc, other: ChildPc)
    ensures Mixed(n, n, first, rest) == Mixed(n, 0, other, first)
  {
  }

  lemma {:induction false} ChildrenArrive(ty: nat -> nat, n: nat, k: nat, m: nat)
    requires m <= n
    requires Reachable(ty, n, State(n, Released(ty, k), Mixed(n, 0, Waiting(k), Work(k)), PWork(k)))
    ensures Reachable(ty, n, State(n - m, Released(ty, k), Mixed(n, m, Waiting(k), Work(k)), PWork(k)))
  {
    hide Reachable, Mixed, Released;
    if m > 0 {
      ChildrenArrive(ty, n, k, m - 1);
      MixedStep(n, m - 1, Waiting(k), Work(k));
      MixedLength(n, m - 1, Waiting(k), Work(k));
      var st := State(n - (m - 1), Released(ty, k), Mixed(n, m - 1, Waiting(k), Work(k)), PWork(k));
      ReachNext(ty, n, st, Child(m - 1));
    }
  }

  lemma MixedLength(n: nat, m: nat, first: ChildPc, rest: ChildPc)
    ensures |Mixed(n, m, first, rest)| == n
  {
  }

  lemma {:induction false} ChildrenLeave(ty: nat -> nat, n: nat, k: nat, m: nat)
    requires m <= n
    requires Reachable(ty, n, State(n, ty(k), Mixed(n, 0, Work(k + 1), Waiting(k)), PWork(k + 1)))
    ensures Reachable(ty, n, State(n, ty(k), Mixed(n, m, Work(k + 1), Waiting(k)), PWork(k + 1)))
  {
    hide Reachable, Mixed;
    if m > 0 {
      ChildrenLeave(ty, n, k, m - 1);
      MixedStep(n, m - 1, Work(k + 1), Waiting(k));
      MixedLength(n, m - 1, Work(k + 1), Waiting(k));
      ReachNext(ty, n, State(n, ty(k), Mixed(n, m - 1, Work(k + 1), Waiting(k)), PWork(k + 1)), Child(m - 1));
    }
  }

  function AllAtWork(ty: nat -> nat, n: nat, k: nat): State {
    State(n, Released(ty, k), Mixed(n, 0, Waiting(k), Work(k)), PWork(k))
  }

  lemma ParentReleases(ty: nat -> nat, n: nat, k: nat)
    requires Reachable(ty, n, State(0, Released(ty, k), Mixed(n, n, Waiting(k), Work(k)), PWork(k)))
    ensures Reachable(ty, n, State(n, ty(k), Mixed(n, n, Waiting(k), Work(k)), PWork(k + 1)))
  {
    hide Reachable, Mixed, Released;
    var children := Mixed(n, n, Waiting(k), Work(k));
    MixedLength(n, n, Waiting(k), Work(k));
    ReachNext(ty, n, State(0, Released(ty, k), children, PWork(k)), Parent);
    ReachNext(ty, n, State(0, Released(ty, k), children, PSpin(k)), Parent);
    ReachNext(ty, n, State(0, Released(ty, k), children, PInit(k)), Parent);
    ReachNext(ty, n, State(n, Released(ty, k), children, PSend(k)), Parent);
  }

  /** Whatever the types are, every phase is reached in lockstep. */
  lemma {:induction false} EveryPhaseIsReached(ty: nat -> nat, n: nat, k: nat)
    ensures Reachable(ty, n, AllAtWork(ty, n, k))
    decreases k
  {
    if k == 0 {
      assert AllAtWork(ty, n, 0) == Initial(n);
      assert IsRun(ty, Initial(n), []) && After(ty, Initial(n), []) == Initial(n);
    } else {
      hide Reachable, Mixed;
      EveryPhaseIsReached(ty, n, k - 1);
      ChildrenArrive(ty, n, k - 1, n);
      ParentReleases(ty, n, k - 1);
      MixedEnds(n, Waiting(k - 1), Work(k - 1), Work(k));
      ChildrenLeave(ty, n, k - 1, n);
      MixedEnds(n, Work(k), Waiting(k - 1), Waiting(k));
    }
  }

  /** With two equal types in a row a child runs through the second barrier while the parent is still at work. */
  lemma EqualTypesAreUnsafe(ty: nat -> nat, n: nat, k: nat)
    requires n > 0 && ty(k) == Released(ty, k)
    ensures exists st: State :: Reachable(ty, n, st) && !Safe(st)
  {
    EveryPhaseIsReached(ty, n, k);
    var st := AllAtWork(ty, n, k);
    hide Reachable;
    ReachNext(ty, n, st, Child(0));
    var st1 := Step(ty, st, Child(0));
    ReachNext(ty, n, st1, Child(0));
    var st2 := Step(ty, st1, Child(0));
    assert IsThread(st2, Child(0)) && IsThread(st2, Parent) && PhaseOf(st2, Child(0)) > k && !Finished(st2, Parent, k);
  }

  /**
    The barrier separates the phases, for any number of children and any run, exactly if consecutive types
    differ; then no child misses a release either.
   */
  lemma SafeIffTypesDiffer(ty: nat -> nat, n: nat)
    requires n > 0
    ensures TypesDiffer(ty) <==> forall st: State :: Reachable(ty, n, st) ==> Safe(st)
    ensures TypesDiffer(ty) ==> forall st: State :: Reachable(ty, n, st) ==> NoMissedRelease(ty, st)
  {
    hide Safe, NoMissedRelease, Inv;
    if TypesDiffer(ty) {
      forall st: State | Reachable(ty, n, st)
        ensures Safe(st) && NoMissedRelease(ty, st)
      {
        var run: seq<Thread> :| IsRun(ty, Initial(n), run) && After(ty, Initial(n), run) == st;
        InitialInv(ty, n);
        RunKeepsInv(ty, Initial(n), run);
        InvIsSafe(ty, st);
      }
    } else {
      var k: nat :| ty(k) == Released(ty, k);
      EqualTypesAreUnsafe(ty, n, k);
    }
  }

  // ---------- the sequences that the executables use ----------

  /** Exp, then InitPhase, ExecPhase and NewEpoc in every epoch (executables/ycsb_cheetah.cpp). */
  function CheetahTypes(k: nat): nat {
    if k == 0 then 1 else if k % 3 == 1 then 2 else if k % 3 == 2 then 3 else 4
  }

  /** Exp, then ExecPhase and NewEpoc in every epoch (executables/ycsb_serval.cpp, executables/ycsb_caracal.cpp). */
  function TwoPhaseTypes(k: nat): nat {
    if k == 0 then 1 else if k % 2 == 1 then 3 else 4
  }

  /** So the phases of all three protocols are separated. */
  lemma ExecutablesUseTheBarrierSafely(n: nat)
    requires n > 0
    ensures forall st: State :: Reachable(CheetahTypes, n, st) ==> Safe(st)
    ensures forall st: State :: Reachable(TwoPhaseTypes, n, st) ==> Safe(st)
  {
    hide Safe, Reachable;
    assert TypesDiffer(CheetahTypes) by {
      forall k: nat ensures CheetahTypes(k) != Released(CheetahTypes, k) {}
    }
    assert TypesDiffer(TwoPhaseTypes) by {
      forall k: nat ensures TwoPhaseTypes(k) != Released(TwoPhaseTypes, k) {}
    }
    SafeIffTypesDiffer(CheetahTypes, n);
    SafeIffTypesDiffer(TwoPhaseTypes, n);
  }

  // ---------- the object ----------

  /** RendezvousBarrierVariable; `ghost` views of who is waiting are in the transition system above. */
  class RendezvousBarrierVariable {
    var start: nat
    var ready: int
    const numChildren: nat

    constructor (numChildren: nat)
      ensures start == Initial(numChildren).start && ready == Initial(numChildren).ready && this.numChildren == numChildren
    {
      start, ready := BEFORE_EXP, numChildren;
      this.numChildren := numChildren;
    }

    /** wait_all_children_and_send_start, once all children are ready */
    method WaitAllChildrenAndSendStart(ty: nat -> nat, ghost k: nat, ghost children: seq<ChildPc>, barrierType: nat)
      requires Enabled(ty, State(ready, start, children, PSpin(k)), Parent)
      requires barrierType == ty(k) && |children| == numChildren
      modifies this
      ensures ready == numChildren && start == barrierType
      ensures var st := State(old(ready), old(start), children, PSpin(k));
        var st1 := Step(ty, st, Parent);
        var st2 := Step(ty, st1, Parent);
        State(ready, start, children, PWork(k + 1)) == Step(ty, st2, Parent)
    {
      ready := numChildren;
      start := barrierType;
    }

    /** send_ready_to_parent */
    method SendReadyToParent()
      modifies this`ready
      ensures ready == old(ready) - 1
    {
      ready := ready - 1;
    }
  }
}
