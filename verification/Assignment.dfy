/**
  How the executables assign serial ids to workers (executables/ycsb_cheetah.cpp, executables/ycsb_serval.cpp):
  sequentially in the initialization phases, round-robin in the execution phase, for the same 64 workers
  and the same number `n` of transactions per worker (NUM_TXS_IN_ONE_EPOCH / 64).
 */
module Assignment {
  import opened Bits
  import opened TwoLevelBitmap

  /** With which core and serial id a protocol object runs a transaction. */
  datatype Visit = Visit(core: nat, serial: nat)

  function SequentialVisits(worker: nat, n: nat): seq<Visit> {
    seq(n, i requires 0 <= i => Visit(worker, worker * 64 + i))
  }

  function RoundRobinVisits(worker: nat, n: nat): seq<Visit> {
    seq(n, i requires 0 <= i => Visit(i, i * 64 + worker))
  }

  /** The fields of the protocol object that the phase loops set, and what it has run so far. */
  class Protocol {
    var core: nat
    var serialId: nat
    var visits: seq<Visit>

    constructor (core: nat, serialId: nat)
      ensures this.core == core && this.serialId == serialId && visits == []
    {
      this.core, this.serialId, visits := core, serialId, [];
    }

    /** One transaction, with the fields as they are. */
    method RunTransaction()
      modifies this`visits
      ensures visits == old(visits) + [Visit(core, serialId)]
    {
      visits := visits + [Visit(core, serialId)];
    }

    /** do_write_phase, do_read_phase and Serval's do_initialization_phase */
    method DoSequentialPhase(workerId: nat, n: nat)
      modifies this
      ensures visits == old(visits) + SequentialVisits(workerId, n)
    {
      core := workerId;
      var i := 0;
      while i < n
        invariant i <= n && core == workerId
        invariant visits == old(visits) + SequentialVisits(workerId, i)
      {
        serialId := workerId * 64 + i;
        RunTransaction();
        i := i + 1;
      }
    }

    /** do_execution_phase */
    method DoRoundRobinPhase(workerId: nat, n: nat)
      modifies this
      ensures visits == old(visits) + RoundRobinVisits(workerId, n)
    {
      var i := 0;
      while i < n
        invariant i <= n
        invariant visits == old(visits) + RoundRobinVisits(workerId, i)
      {
        serialId := i * 64 + workerId;
        core := i;
        RunTransaction();
        i := i + 1;
      }
    }
  }

  ghost predicate Visited(visits: seq<Visit>, serial: nat) {
    exists i :: 0 <= i < |visits| && visits[i].serial == serial
  }

  /** Some worker runs serial id `s` in the initialization phases; in the execution phase. */
  ghost predicate Initialized(n: nat, s: nat) {
    exists w: nat :: w < 64 && Visited(SequentialVisits(w, n), s)
  }

  ghost predicate Executed(n: nat, s: nat) {
    exists w: nat :: w < 64 && Visited(RoundRobinVisits(w, n), s)
  }

  lemma InitializedWhen(n: nat, s: nat)
    ensures Initialized(n, s) <==> exists w: nat {:trigger SequentialVisits(w, n)} :: w < 64 && w * 64 <= s < w * 64 + n
  {
    if w: nat :| w < 64 && w * 64 <= s < w * 64 + n {
      assert SequentialVisits(w, n)[s - w * 64].serial == s;
      assert Visited(SequentialVisits(w, n), s);
    }
  }

  lemma ExecutedWhen(n: nat, s: nat)
    ensures Executed(n, s) <==> s < 64 * n
  {
    if s < 64 * n {
      assert RoundRobinVisits(s % 64, n)[s / 64].serial == s;
      assert Visited(RoundRobinVisits(s % 64, n), s);
    }
  }

  /** The address that both phases give a serial id: core and transaction are its quotient and remainder. */
  lemma AddressesAgree(worker: nat, n: nat, i: nat)
    requires worker < 64 && n <= 64 && i < n
    ensures var v := SequentialVisits(worker, n)[i];
      v.core == v.serial / 64 && v.serial % 64 == i && v.core * 64 + v.serial % 64 == v.serial
    ensures var v := RoundRobinVisits(worker, n)[i];
      v.core == v.serial / 64 && v.serial % 64 == worker && v.core * 64 + v.serial % 64 == v.serial
  {
    SerialAddress(worker, i);
    SerialAddress(i, worker);
  }

  /**
    The phases run the same transactions exactly if every worker runs 64 of them, or none: for any other
    NUM_TXS_IN_ONE_EPOCH some transaction is executed without having been initialized, or the other way round.
   */
  lemma SameTransactionsIff(n: nat)
    ensures (forall s: nat :: Initialized(n, s) <==> Executed(n, s)) <==> n == 0 || n == 64
  {
    if n == 0 || n == 64 {
      forall s: nat
        ensures Initialized(n, s) <==> Executed(n, s)
      {
        FullEpoch(n, s);
      }
    } else {
      var s := DifferentTransaction(n);
    }
  }

  lemma FullEpoch(n: nat, s: nat)
    requires n == 0 || n == 64
    ensures Initialized(n, s) <==> Executed(n, s)
  {
    InitializedWhen(n, s);
    ExecutedWhen(n, s);
    if n == 64 && s < 64 * n {
      assert |SequentialVisits(s / 64, n)| == n && s / 64 < 64 && (s / 64) * 64 <= s < (s / 64) * 64 + n;
    }
  }

  lemma DifferentTransaction(n: nat) returns (s: nat)
    requires n != 0 && n != 64
    ensures Initialized(n, s) != Executed(n, s)
  {
    s := if n < 64 then 63 * 64 else 64 * n - 1;
    InitializedWhen(n, s);
    ExecutedWhen(n, s);
    if n < 64 {
      assert |SequentialVisits(63, n)| == n;
    }
  }

  /** With full epochs a worker's initialization covers one core, its execution one transaction of every core, both in order. */
  lemma FullEpochOrder(worker: nat, s: nat)
    requires worker < 64 && s < EPOCH_SIZE
    ensures Visited(SequentialVisits(worker, 64), s) <==> s / 64 == worker
    ensures Visited(RoundRobinVisits(worker, 64), s) <==> s % 64 == worker
    ensures forall i, j :: 0 <= i < j < 64 ==> SequentialVisits(worker, 64)[i].serial < SequentialVisits(worker, 64)[j].serial
    ensures forall i, j :: 0 <= i < j < 64 ==> RoundRobinVisits(worker, 64)[i].serial < RoundRobinVisits(worker, 64)[j].serial
  {
    if s / 64 == worker {
      assert SequentialVisits(worker, 64)[s % 64].serial == s;
    }
    if s % 64 == worker {
      assert RoundRobinVisits(worker, 64)[s / 64].serial == s;
    }
  }
}
