/** Oracle, transactions, watermark tasks and write path together: every interleaving of their
    steps, and what holds along every run. */
module Protocol {
  import opened Options
  import opened WaterMark
  import opened MarkChannel
  import O = Oracle
  import W = WritePipeline

  datatype Sys = Sys(oracle: O.OracleState, pipe: W.Pipe)

  function Start(maxVersion: nat): Sys {
    Sys(O.Start(maxVersion), W.Empty())
  }

  datatype Step =
    | BeginTxn              // get_latest_read_ts, under the lock
    | AdmitFast(i: nat)     // wait_for_mark: already reached
    | SeeLow(i: nat)        // wait_for_mark: not reached yet
    | SendWaiter(i: nat)
    | Wake(i: nat)
    | TakeCommitTs(i: nat)  // commit_and_send: send_write_req and the oracle's lock
    | Enqueue
    | Reject
    | Discard(i: nat)
    | ProcessReadMark
    | ProcessTxnMark
    | TakeRequest           // do_writes
    | SpawnBatch
    | ApplyNext             // write_requests
    | EndBatch
    | HandOver
    | DropRequest(j: nat)
    | ReturnPermit
    | FinishCommit(j: nat)  // commit: the result is in, done_commit
    | Shutdown

  ghost predicate In(s: Sys, i: nat, phase: O.TxnPhase) {
    i < |s.oracle.txns| && i < |s.oracle.readMark.ts| && s.oracle.txns[i] == phase
  }

  ghost predicate Enabled(s: Sys, step: Step) {
    match step
    case BeginTxn => s.oracle.nextTs > 0
    case AdmitFast(i) => In(s, i, O.Admitting) && s.oracle.readMark.ts[i] <= s.oracle.txnMark.wm.doneUntil
    case SeeLow(i) => In(s, i, O.Admitting) && s.oracle.readMark.ts[i] > s.oracle.txnMark.wm.doneUntil
    case SendWaiter(i) => In(s, i, O.MustWait)
    case Wake(i) => In(s, i, O.Waiting) && i in s.oracle.txnMark.wm.notified
    case TakeCommitTs(i) => In(s, i, O.Active) && s.pipe.sending.None?
    case Enqueue => s.pipe.sending.Some?
    case Reject => s.pipe.sending.Some?
    case Discard(i) => In(s, i, O.Active)
    case ProcessReadMark => O.Receivable(s.oracle.readMark)
    case ProcessTxnMark => O.Receivable(s.oracle.txnMark)
    case TakeRequest => W.CanTake(s.pipe)
    case SpawnBatch => W.CanSpawn(s.pipe)
    case ApplyNext => W.CanApply(s.pipe)
    case EndBatch => s.pipe.batch.Running? && s.pipe.batches != []
    case HandOver => s.pipe.batch.Running? && s.pipe.batch.next == |s.pipe.batch.reqs|
    case DropRequest(j) => j in s.pipe.published
    case ReturnPermit => s.pipe.batch.Ended?
    case FinishCommit(j) => j in s.pipe.settled && j !in s.oracle.txnMark.closed
    case Shutdown => s.pipe.loc.Outer? || (s.pipe.loc.Inner? && |s.pipe.buffer| < W.BATCH_LIMIT)
  }

  ghost function Next(s: Sys, step: Step): Sys
    requires Enabled(s, step)
  {
    match step
    case BeginTxn => s.(oracle := O.BeginTxn(s.oracle))
    case AdmitFast(i) => s.(oracle := O.SetPhase(s.oracle, i, O.Active))
    case SeeLow(i) => s.(oracle := O.SetPhase(s.oracle, i, O.MustWait))
    case SendWaiter(i) => s.(oracle := O.SendWaiter(s.oracle, i))
    case Wake(i) => s.(oracle := O.SetPhase(s.oracle, i, O.Active))
    case TakeCommitTs(i) => Sys(O.TakeCommitTs(s.oracle, i), W.Issue(s.pipe))
    case Enqueue => s.(pipe := W.Enqueue(s.pipe))
    case Reject => Sys(O.DoneCommit(s.oracle, s.pipe.sending.value), W.Reject(s.pipe))
    case Discard(i) => s.(oracle := O.Discard(s.oracle, i))
    case ProcessReadMark => s.(oracle := O.ProcessReadMark(s.oracle))
    case ProcessTxnMark => s.(oracle := O.ProcessTxnMark(s.oracle))
    case TakeRequest => s.(pipe := W.Take(s.pipe))
    case SpawnBatch => s.(pipe := W.Spawn(s.pipe))
    case ApplyNext => s.(pipe := W.ApplyNext(s.pipe))
    case EndBatch => s.(pipe := W.End(s.pipe))
    case HandOver => s.(pipe := W.HandOver(s.pipe))
    case DropRequest(j) => s.(pipe := W.Drop(s.pipe, j))
    case ReturnPermit => s.(pipe := W.ReturnPermit(s.pipe))
    case FinishCommit(j) => s.(oracle := O.DoneCommit(s.oracle, j))
    case Shutdown => s.(pipe := W.Shutdown(s.pipe))
  }

  // ---------- invariant ----------

  /** Requests and commit sessions are the same things; a done mark is only sent for a request
      that was settled or refused, and at once for one that was refused. */
  ghost predicate Linked(s: Sys) {
    && s.pipe.issued == |s.oracle.txnMark.ts|
    && (forall j :: j in s.oracle.txnMark.closed ==> j in s.pipe.settled || j in s.pipe.rejected)
    && (forall j :: j in s.pipe.rejected ==> j in s.oracle.txnMark.closed)
  }

  ghost predicate SysInv(s: Sys) {
    O.OracleInv(s.oracle) && W.PipeInv(s.pipe) && Linked(s)
  }

  lemma StartInv(maxVersion: nat)
    ensures SysInv(Start(maxVersion))
  {
    O.StartInv(maxVersion);
    W.EmptyInv();
  }

  lemma OracleStepKeeps(s: Sys, step: Step)
    requires SysInv(s) && Enabled(s, step)
    ensures O.OracleInv(Next(s, step).oracle)
  {
    match step
    case BeginTxn => O.BeginTxnKeeps(s.oracle);
    case AdmitFast(i) => O.SetPhaseKeeps(s.oracle, i, O.Active);
    case SeeLow(i) => O.SetPhaseKeeps(s.oracle, i, O.MustWait);
    case SendWaiter(i) => O.SendWaiterKeeps(s.oracle, i);
    case Wake(i) => O.WakeKeeps(s.oracle, i);
    case TakeCommitTs(i) => O.TakeCommitTsKeeps(s.oracle, i);
    case Reject => O.DoneCommitKeeps(s.oracle, s.pipe.sending.value);
    case Discard(i) => O.DiscardKeeps(s.oracle, i);
    case ProcessReadMark => O.ProcessReadMarkKeeps(s.oracle);
    case ProcessTxnMark => O.ProcessTxnMarkKeeps(s.oracle);
    case FinishCommit(j) => O.DoneCommitKeeps(s.oracle, j);
    case _ =>
  }

  lemma PipeStepKeeps(s: Sys, step: Step)
    requires W.PipeInv(s.pipe) && Enabled(s, step)
    ensures W.PipeInv(Next(s, step).pipe)
  {
    match step
    case TakeCommitTs(i) => W.IssueKeeps(s.pipe);
    case Enqueue => W.EnqueueKeeps(s.pipe);
    case Reject => W.RejectKeeps(s.pipe);
    case TakeRequest => W.TakeKeeps(s.pipe);
    case SpawnBatch => W.SpawnKeeps(s.pipe);
    case ApplyNext => W.ApplyNextKeeps(s.pipe);
    case EndBatch => W.EndKeeps(s.pipe);
    case HandOver => W.HandOverKeeps(s.pipe);
    case DropRequest(j) => W.DropKeeps(s.pipe, j);
    case ReturnPermit => W.ReturnPermitKeeps(s.pipe);
    case Shutdown => W.ShutdownKeeps(s.pipe);
    case _ =>
  }

  lemma LinkedKeeps(s: Sys, step: Step)
    requires Linked(s) && Enabled(s, step)
    ensures Linked(Next(s, step))
  {
  }

  /** Every step of every component keeps the invariant. */
  lemma StepKeeps(s: Sys, step: Step)
    requires SysInv(s) && Enabled(s, step)
    ensures SysInv(Next(s, step))
  {
    OracleStepKeeps(s, step);
    PipeStepKeeps(s, step);
    LinkedKeeps(s, step);
  }
}
