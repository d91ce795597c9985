/**
  The whole Cheetah run (executables/ycsb_cheetah.cpp): every row, 64 workers, all epochs.

  In the write phase worker `c` registers, row by row and in any order, the transaction bitmaps it
  has collected; it tries one row's lock at a time.  In the read phase worker `c` goes through the
  transactions c*64 .. c*64+63, in the execution phase worker `t` goes through t, 64+t, 128+t, ...,
  each through its operations in order.  A barrier ends every phase.
 */
module CheetahSystem {
  import opened Bits
  import opened TwoLevelBitmap
  import opened Versions
  import opened Workload
  import opened CheetahRow
  import opened CheetahInvariant

  /** `log` records what every read of the finished epochs returned, by epoch, serial id and operation. */
  datatype Sys = Sys(epoch: nat, phase: Phase, rows: map<Key, Row>, log: map<(nat, nat, nat), Option<Tag>>)

  datatype Move = Register(core: nat, key: Key) | Run(s: nat, j: nat) | Barrier

  // ---------- what an epoch does to a row ----------

  /** The transaction bitmap that core `c` collects for key `k`. */
  function TxBits(txs: seq<Tx>, c: nat, k: Key): Word {
    seq(WIDTH, t requires 0 <= t < WIDTH => c * WIDTH + t < |txs| && Op(k, true) in txs[c * WIDTH + t])
  }

  /** The cores that write key `k`, with the bitmaps they collect. */
  ghost function CoreBits(txs: seq<Tx>, k: Key): (m: map<nat, Word>)
    ensures forall c: nat :: c in m <==> c < WIDTH && TxBits(txs, c, k) != Zero()
    ensures forall c: nat :: c in m ==> m[c] == TxBits(txs, c, k)
  {
    CoreBitsExist(txs, k);
    var m: map<nat, Word> :| AreCoreBits(txs, k, m);
    m
  }

  ghost predicate AreCoreBits(txs: seq<Tx>, k: Key, m: map<nat, Word>) {
    && (forall c: nat :: c in m <==> c < WIDTH && TxBits(txs, c, k) != Zero())
    && (forall c: nat :: c in m ==> m[c] == TxBits(txs, c, k))
  }

  lemma CoreBitsExist(txs: seq<Tx>, k: Key)
    ensures exists m: map<nat, Word> :: AreCoreBits(txs, k, m)
  {
    hide TxBits, Zero;
    var m := map c: nat | c < WIDTH && TxBits(txs, c, k) != Zero() :: TxBits(txs, c, k);
    assert AreCoreBits(txs, k, m);
  }

  ghost function WorkOf(txs: seq<Tx>, k: Key): Work {
    Work(CoreBits(txs, k), ReaderSet(txs, k))
  }

  // ---------- program order ----------

  predicate IsOp(txs: seq<Tx>, s: nat, j: nat) {
    s < |txs| && j < |txs[s]|
  }

  predicate SameWorker(phase: Phase, s: nat, t: nat) {
    if phase.ExecPhase? then s % WIDTH == t % WIDTH else s / WIDTH == t / WIDTH
  }

  predicate Earlier(s: nat, j: nat, t: nat, i: nat) {
    s < t || (s == t && j < i)
  }

  function ActorOf(txs: seq<Tx>, s: nat, j: nat): Actor
    requires IsOp(txs, s, j)
  {
    if txs[s][j].isWrite then Writer(s) else Reader(s)
  }

  /** The operation has done its part of the phase. */
  predicate Finished(phase: Phase, rows: map<Key, Row>, s: nat, op: Op) {
    && op.key in rows
    && var row := rows[op.key];
       if op.isWrite then phase.ReadPhase? || (s in row.wpc && row.wpc[s].WDone?)
       else s in row.rpc && (if phase.ReadPhase? then row.rpc[s].RReady? else row.rpc[s].RDone?)
  }

  predicate Started(phase: Phase, rows: map<Key, Row>, s: nat, op: Op) {
    && op.key in rows
    && var row := rows[op.key];
       if op.isWrite then s in row.wpc && !row.wpc[s].WLock?
       else s in row.rpc && (if phase.ReadPhase? then !row.rpc[s].RFetchAdd? else !row.rpc[s].RReady?)
  }

  /** Everything that the same worker has to do before operation (s, j) is finished. */
  ghost predicate IsNext(txs: seq<Tx>, phase: Phase, rows: map<Key, Row>, s: nat, j: nat) {
    forall t: nat, i: nat :: IsOp(txs, t, i) && SameWorker(phase, t, s) && Earlier(t, i, s, j) ==>
      Finished(phase, rows, t, txs[t][i])
  }

  // ---------- the moves ----------

  ghost predicate CanMove(w: seq<seq<Tx>>, sys: Sys, m: Move) {
    && sys.epoch < |w|
    && match m
       case Register(c, k) =>
         && sys.phase.WritePhase? && k in sys.rows && Enabled(sys.rows[k], Core(c))
         && (forall k' :: k' != k ==> !InLockOf(sys.rows, k', c))
       case Run(s, j) =>
         && !sys.phase.WritePhase? && IsOp(w[sys.epoch], s, j) && w[sys.epoch][s][j].key in sys.rows
         && Enabled(sys.rows[w[sys.epoch][s][j].key], ActorOf(w[sys.epoch], s, j))
         && IsNext(w[sys.epoch], sys.phase, sys.rows, s, j)
       case Barrier =>
         forall k :: k in sys.rows ==> sys.rows[k].phase == sys.phase && PhaseDone(sys.rows[k])
  }

  /** The read of key `k` by serial `s` has returned. */
  predicate Returned(rows: map<Key, Row>, s: nat, k: Key) {
    k in rows && s in rows[k].rpc && HasRecord(rows[k].rpc[s])
  }

  function RecordOf(rows: map<Key, Row>, s: nat, k: Key): Option<Tag> {
    if Returned(rows, s, k) then rows[k].rpc[s].rec else None
  }

  ghost function EpochLog(txs: seq<Tx>, e: nat, rows: map<Key, Row>): (log: map<(nat, nat, nat), Option<Tag>>)
    ensures IsEpochLog(txs, e, rows, log)
  {
    EpochLogExists(txs, e, rows);
    var log: map<(nat, nat, nat), Option<Tag>> :| IsEpochLog(txs, e, rows, log);
    log
  }

  /** What every read of the epoch has returned, and nothing else. */
  ghost predicate IsEpochLog(txs: seq<Tx>, e: nat, rows: map<Key, Row>, log: map<(nat, nat, nat), Option<Tag>>) {
    && (forall e': nat, s: nat, j: nat :: (e', s, j) in log <==> e' == e && s < |txs| && j < |txs[s]| && !txs[s][j].isWrite)
    && (forall e': nat, s: nat, j: nat :: (e', s, j) in log ==> log[(e', s, j)] == RecordOf(rows, s, txs[s][j].key))
  }

  lemma EpochLogExists(txs: seq<Tx>, e: nat, rows: map<Key, Row>)
    ensures exists log: map<(nat, nat, nat), Option<Tag>> :: IsEpochLog(txs, e, rows, log)
  {
    hide RecordOf;
    var log := map s: nat, j: nat | s < |txs| && j < |txs[s]| && !txs[s][j].isWrite :: (e, s, j) := RecordOf(rows, s, txs[s][j].key);
    assert IsEpochLog(txs, e, rows, log);
  }

  /** Every row after the barrier. */
  ghost function AdvanceRows(w: seq<seq<Tx>>, sys: Sys): (rows: map<Key, Row>)
    requires CanMove(w, sys, Barrier)
    ensures rows.Keys == sys.rows.Keys
    ensures forall k :: k in sys.rows ==> rows[k] == Advance(sys.rows[k], WorkOf(TxsAt(w, sys.epoch + 1), k))
  {
    AdvancedRowsExist(w, sys);
    var rows: map<Key, Row> :| rows.Keys == sys.rows.Keys
      && forall k :: k in sys.rows ==> rows[k] == Advance(sys.rows[k], WorkOf(TxsAt(w, sys.epoch + 1), k));
    rows
  }

  lemma AdvancedRowsExist(w: seq<seq<Tx>>, sys: Sys)
    requires CanMove(w, sys, Barrier)
    ensures exists rows: map<Key, Row> ::
      && rows.Keys == sys.rows.Keys
      && forall k :: k in sys.rows ==> rows[k] == Advance(sys.rows[k], WorkOf(TxsAt(w, sys.epoch + 1), k))
  {
    hide Advance, WorkOf, PhaseDone;
    var rows := map k | k in sys.rows :: Advance(sys.rows[k], WorkOf(TxsAt(w, sys.epoch + 1), k));
    assert rows.Keys == sys.rows.Keys;
  }

  ghost function AdvanceAll(w: seq<seq<Tx>>, sys: Sys): Sys
    requires CanMove(w, sys, Barrier)
  {
    var rows := AdvanceRows(w, sys);
    match sys.phase
    case WritePhase => Sys(sys.epoch, ReadPhase, rows, sys.log)
    case ReadPhase => Sys(sys.epoch, ExecPhase, rows, sys.log)
    case ExecPhase => Sys(sys.epoch + 1, WritePhase, rows, sys.log + EpochLog(w[sys.epoch], sys.epoch, sys.rows))
  }

  ghost function Make(w: seq<seq<Tx>>, sys: Sys, m: Move): Sys
    requires CanMove(w, sys, m)
  {
    match m
    case Register(c, k) => sys.(rows := sys.rows[k := Step(sys.rows[k], Core(c))])
    case Run(s, j) =>
      var k := w[sys.epoch][s][j].key;
      sys.(rows := sys.rows[k := Step(sys.rows[k], ActorOf(w[sys.epoch], s, j))])
    case Barrier => AdvanceAll(w, sys)
  }

  ghost function Start(w: seq<seq<Tx>>, db: set<Key>): Sys {
    Sys(0, WritePhase, InitialRows(w, db, 0), map[])
  }

  /** Loaded rows that are about to do the work of epoch `e`. */
  ghost function InitialRows(w: seq<seq<Tx>>, db: set<Key>, e: nat): (rows: map<Key, Row>)
    ensures rows.Keys == db && forall k :: k in db ==> rows[k] == Initial(WorkOf(TxsAt(w, e), k))
  {
    InitialRowsExist(w, db, e);
    var rows: map<Key, Row> :| rows.Keys == db && forall k :: k in db ==> rows[k] == Initial(WorkOf(TxsAt(w, e), k));
    rows
  }

  lemma InitialRowsExist(w: seq<seq<Tx>>, db: set<Key>, e: nat)
    ensures exists rows: map<Key, Row> :: rows.Keys == db && forall k :: k in db ==> rows[k] == Initial(WorkOf(TxsAt(w, e), k))
  {
    hide Initial, WorkOf;
    var rows := map k | k in db :: Initial(WorkOf(TxsAt(w, e), k));
    assert rows.Keys == db;
  }

  /** `moves` is a possible schedule from `sys`. */
  ghost predicate IsRun(w: seq<seq<Tx>>, sys: Sys, moves: seq<Move>)
    decreases |moves|
  {
    moves == [] || (CanMove(w, sys, moves[0]) && IsRun(w, Make(w, sys, moves[0]), moves[1..]))
  }

  ghost function After(w: seq<seq<Tx>>, sys: Sys, moves: seq<Move>): Sys
    requires IsRun(w, sys, moves)
    decreases |moves|
  {
    if moves == [] then sys else After(w, Make(w, sys, moves[0]), moves[1..])
  }

  // ---------- the invariant of the run ----------

  ghost predicate RowFits(w: seq<seq<Tx>>, db: set<Key>, epoch: nat, phase: Phase, k: Key, r: Row)
    requires epoch <= |w|
  {
    && Inv(r)
    && r.epoch == epoch
    && r.phase == phase
    && r.work == WorkOf(TxsAt(w, epoch), k)
    && k in SerialStore(w, db, epoch, 0)
    && r.base == SerialStore(w, db, epoch, 0)[k]
  }

  /** Nobody runs ahead of the program order. */
  ghost predicate OrderOk(txs: seq<Tx>, phase: Phase, rows: map<Key, Row>) {
    forall s: nat, j: nat :: IsOp(txs, s, j) && !phase.WritePhase? && Started(phase, rows, s, txs[s][j]) ==>
      IsNext(txs, phase, rows, s, j)
  }

  predicate InLockOf(rows: map<Key, Row>, k: Key, c: nat) {
    k in rows && c in rows[k].cpc && CoreInLock(rows[k].cpc[c])
  }

  /** A core is inside one row's lock at a time. */
  ghost predicate CoresOk(rows: map<Key, Row>) {
    forall k, k', c :: InLockOf(rows, k, c) && InLockOf(rows, k', c) ==> k == k'
  }

  /** The log has every read of the finished epochs, with the result of the serial execution. */
  ghost predicate LogOk(w: seq<seq<Tx>>, epoch: nat, log: map<(nat, nat, nat), Option<Tag>>) {
    forall e: nat, s: nat, j: nat ::
      (e, s, j) in log <==> (e < epoch && e < |w| && IsOp(w[e], s, j) && !w[e][s][j].isWrite)
  }

  ghost predicate LogIsSerial(w: seq<seq<Tx>>, db: set<Key>, log: map<(nat, nat, nat), Option<Tag>>) {
    forall e: nat, s: nat, j: nat :: (e, s, j) in log ==>
      e < |w| && IsOp(w[e], s, j) && log[(e, s, j)] == SerialRead(w, db, e, s, j)
  }

  ghost predicate SysInv(w: seq<seq<Tx>>, db: set<Key>, sys: Sys) {
    && sys.epoch <= |w|
    && (sys.epoch == |w| ==> sys.phase.WritePhase?)
    && sys.rows.Keys == db
    && (forall k :: k in sys.rows ==> RowFits(w, db, sys.epoch, sys.phase, k, sys.rows[k]))
    && OrderOk(TxsAt(w, sys.epoch), sys.phase, sys.rows)
    && CoresOk(sys.rows)
    && LogOk(w, sys.epoch, sys.log)
    && LogIsSerial(w, db, sys.log)
  }
}
