/** The timestamp oracle with its two watermarks (src/txn/oracle.rs) and the transactions that
    use it (src/txn/mod.rs), as atomic steps: each lock section is one step, each channel a
    queue. Managed mode is not modelled. */
module Oracle {
  import opened WaterMark
  import opened MarkChannel

  /** A transaction before `Txn::new` has returned, and after. */
  datatype TxnPhase =
    | Admitting  // left the lock section of `get_latest_read_ts`
    | MustWait   // saw a transaction watermark below its read timestamp
    | Waiting    // has sent its waiter mark
    | Active     // has its read timestamp

  /** Transaction `i` owns session `i` of `readMark`; the `j`-th commit owns session `j` of
      `txnMark`. */
  datatype OracleState = Oracle(
    nextTs: nat,
    lastCleanup: nat,
    readMark: Channel,
    txnMark: Channel,
    txns: seq<TxnPhase>)

  function Start(maxVersion: nat): OracleState {
    Oracle(maxVersion + 1, 0, Init(maxVersion), Init(maxVersion), [])
  }

  /** `discard_at_or_below`, the timestamp compaction works with. */
  function DiscardAtOrBelow(s: OracleState): nat {
    s.readMark.wm.doneUntil
  }

  // ---------- steps ----------

  /** Lock section of `get_latest_read_ts`. */
  function BeginTxn(s: OracleState): OracleState
    requires s.nextTs > 0
  {
    s.(readMark := OpenSession(s.readMark, s.nextTs - 1), txns := s.txns + [Admitting])
  }

  function SetPhase(s: OracleState, i: nat, phase: TxnPhase): OracleState
    requires i < |s.txns|
  {
    s.(txns := s.txns[i := phase])
  }

  /** `wait_for_mark` queues a waiter for the read timestamp. */
  function SendWaiter(s: OracleState, i: nat): OracleState
    requires i < |s.txns| && i < |s.readMark.ts|
  {
    SetPhase(s, i, Waiting).(txnMark := Ask(s.txnMark, s.readMark.ts[i], i))
  }

  /** `done_read`: the swap of the transaction's flag lets only the first call send. */
  function DoneRead(c: Channel, i: nat): Channel {
    if i in c.closed then c else CloseSession(c, i)
  }

  /** Lock section of `get_latest_commit_ts`. */
  function TakeCommitTs(s: OracleState, i: nat): OracleState {
    s.(readMark := DoneRead(s.readMark, i), lastCleanup := s.readMark.wm.doneUntil,
       nextTs := s.nextTs + 1, txnMark := OpenSession(s.txnMark, s.nextTs))
  }

  function Discard(s: OracleState, i: nat): OracleState {
    s.(readMark := DoneRead(s.readMark, i))
  }

  function DoneCommit(s: OracleState, j: nat): OracleState {
    s.(txnMark := CloseSession(s.txnMark, j))
  }

  function ProcessReadMark(s: OracleState): OracleState
    requires Receivable(s.readMark)
  {
    s.(readMark := Receive(s.readMark))
  }

  function ProcessTxnMark(s: OracleState): OracleState
    requires Receivable(s.txnMark)
  {
    s.(txnMark := Receive(s.txnMark))
  }

  predicate Receivable(c: Channel) {
    c.queue != [] && (c.queue[0].Wait? || c.queue[0].session < |c.ts|)
  }

  // ---------- the invariant ----------

  /** Commits are numbered consecutively and read timestamps lie below `nextTs`. The last clause
      is the pair of debug assertions around `last_cleanup_ts`. */
  ghost predicate Timed(s: OracleState) {
    && s.readMark.start == s.txnMark.start
    && s.nextTs == s.txnMark.start + 1 + |s.txnMark.ts|
    && (forall j :: 0 <= j < |s.txnMark.ts| ==> s.txnMark.ts[j] == s.txnMark.start + 1 + j)
    && (forall i :: 0 <= i < |s.readMark.ts| ==> s.readMark.ts[i] < s.nextTs)
    && s.lastCleanup <= s.readMark.wm.doneUntil
  }

  /** A transaction is admitted only once the transaction watermark has reached it. */
  ghost predicate Admitted(s: OracleState) {
    && |s.txns| == |s.readMark.ts|
    && (forall i :: 0 <= i < |s.txns| && s.txns[i].Active? ==> s.readMark.ts[i] <= s.txnMark.wm.doneUntil)
    && (forall w :: w in s.txnMark.asked ==> w < |s.txns| && s.txnMark.asked[w] == s.readMark.ts[w])
    && (forall w :: w in s.txnMark.asked ==> s.txns[w].Waiting? || s.txns[w].Active?)
    && (forall w :: 0 <= w < |s.txns| && s.txns[w].Waiting? ==> w in s.txnMark.asked)
  }

  ghost predicate OracleInv(s: OracleState) {
    Inv(s.readMark) && Inv(s.txnMark) && Exact(s.txnMark) && Timed(s) && Admitted(s)
  }

  lemma StartInv(maxVersion: nat)
    ensures OracleInv(Start(maxVersion))
  {
    InitInv(maxVersion);
  }

  lemma BeginTxnKeeps(s: OracleState)
    requires OracleInv(s)
    ensures s.nextTs > 0 && OracleInv(BeginTxn(s))
  {
    BeginTxnReadMark(s);
    BeginTxnTimed(s);
    BeginTxnAdmitted(s);
    assert BeginTxn(s).txnMark == s.txnMark;
  }

  lemma BeginTxnReadMark(s: OracleState)
    requires Inv(s.readMark) && Timed(s)
    ensures s.nextTs > 0 && Inv(BeginTxn(s).readMark)
  {
    LastBelow(s);
    assert s.readMark.start <= s.nextTs - 1;
    assert s.readMark.ts != [] ==> s.readMark.ts[|s.readMark.ts| - 1] <= s.nextTs - 1;
    OpenSessionKeeps(s.readMark, s.nextTs - 1);
  }

  lemma BeginTxnTimed(s: OracleState)
    requires s.nextTs > 0 && Timed(s)
    ensures Timed(BeginTxn(s))
  {
  }

  lemma BeginTxnAdmitted(s: OracleState)
    requires s.nextTs > 0 && Admitted(s)
    ensures Admitted(BeginTxn(s))
  {
  }

  lemma TakeCommitTsTimed(s: OracleState, i: nat)
    requires Timed(s) && Admitted(s)
    ensures Timed(TakeCommitTs(s, i)) && Admitted(TakeCommitTs(s, i))
  {
  }

  /** New timestamps may be appended to either watermark. */
  lemma LastBelow(s: OracleState)
    requires Timed(s)
    ensures s.readMark.start < s.nextTs
    ensures s.readMark.ts != [] ==> s.readMark.ts[|s.readMark.ts| - 1] < s.nextTs
    ensures s.txnMark.ts != [] ==> s.txnMark.ts[|s.txnMark.ts| - 1] < s.nextTs
  {
  }

  lemma DoneReadKeeps(c: Channel, i: nat)
    requires Inv(c) && i < |c.ts|
    ensures Inv(DoneRead(c, i))
  {
    if i !in c.closed {
      CloseSessionKeeps(c, i);
    }
  }

  lemma SetPhaseKeeps(s: OracleState, i: nat, phase: TxnPhase)
    requires OracleInv(s) && i < |s.txns|
    requires phase.Active? ==> s.readMark.ts[i] <= s.txnMark.wm.doneUntil
    requires i in s.txnMark.asked ==> phase.Waiting? || phase.Active?
    requires !phase.Waiting?
    ensures OracleInv(SetPhase(s, i, phase))
  {
  }

  /** A notified waiter may go ahead: its read timestamp has been reached. */
  lemma WakeKeeps(s: OracleState, i: nat)
    requires OracleInv(s) && i < |s.txns| && i in s.txnMark.wm.notified
    ensures OracleInv(SetPhase(s, i, Active))
  {
    SetPhaseKeeps(s, i, Active);
  }

  lemma SendWaiterKeeps(s: OracleState, i: nat)
    requires OracleInv(s) && i < |s.txns| && s.txns[i].MustWait?
    ensures OracleInv(SendWaiter(s, i))
  {
    SendWaiterAdmitted(s, i);
    SendWaiterTxnMark(s.txnMark, s.readMark.ts[i], i, SendWaiter(s, i).txnMark);
  }

  lemma SendWaiterTxnMark(c: Channel, ts: nat, w: nat, c': Channel)
    requires Inv(c) && Exact(c) && w !in c.asked && c' == Ask(c, ts, w)
    ensures Inv(c') && Exact(c')
  {
    AskKeeps(c, ts, w);
  }

  lemma SendWaiterAdmitted(s: OracleState, i: nat)
    requires Timed(s) && Admitted(s) && i < |s.txns| && s.txns[i].MustWait?
    ensures i !in s.txnMark.asked && Timed(SendWaiter(s, i)) && Admitted(SendWaiter(s, i))
  {
  }

  lemma TakeCommitTsKeeps(s: OracleState, i: nat)
    requires OracleInv(s) && i < |s.txns|
    ensures OracleInv(TakeCommitTs(s, i))
    ensures TakeCommitTs(s, i).lastCleanup == DiscardAtOrBelow(s)
  {
    TakeCommitTsTimed(s, i);
    LastBelow(s);
    DoneReadKeeps(s.readMark, i);
    OpenSessionKeeps(s.txnMark, s.nextTs);
    OpenSessionKeepsExact(s.txnMark, s.nextTs);
  }

  lemma DiscardKeeps(s: OracleState, i: nat)
    requires OracleInv(s) && i < |s.txns|
    ensures OracleInv(Discard(s, i))
  {
    DoneReadKeeps(s.readMark, i);
  }

  lemma DoneCommitKeeps(s: OracleState, j: nat)
    requires OracleInv(s) && j < |s.txnMark.ts| && j !in s.txnMark.closed
    ensures OracleInv(DoneCommit(s, j))
  {
    CloseSessionKeeps(s.txnMark, j);
  }

  lemma ProcessReadMarkKeeps(s: OracleState)
    requires OracleInv(s) && Receivable(s.readMark)
    ensures OracleInv(ProcessReadMark(s))
  {
    ReceiveKeeps(s.readMark);
  }

  lemma ProcessTxnMarkKeeps(s: OracleState)
    requires OracleInv(s) && Receivable(s.txnMark)
    ensures OracleInv(ProcessTxnMark(s))
  {
    ReceiveKeeps(s.txnMark);
    ReceiveKeepsExact(s.txnMark);
    TxnMarkAdvances(s, Receive(s.txnMark));
  }

  lemma TxnMarkAdvances(s: OracleState, c: Channel)
    requires Timed(s) && Admitted(s) && c.start == s.txnMark.start && c.ts == s.txnMark.ts
    requires c.asked == s.txnMark.asked && s.txnMark.wm.doneUntil <= c.wm.doneUntil
    ensures Timed(s.(txnMark := c)) && Admitted(s.(txnMark := c))
  {
  }
}
