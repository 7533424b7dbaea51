/** The write path behind a commit (src/txn/mod.rs:335-397, src/write.rs): requests go through
    the write channel to the `do_writes` loop, which collects them and spawns one batch at a
    time under a single `Notify` permit. Request `j` is the write of the `j`-th commit. */
module WritePipeline {
  import opened Options
  import opened Seqs

  datatype Batch =
    | Idle
    | Running(reqs: seq<nat>, next: nat)
    | Ended  // `notify_one` is still to come

  datatype Loc = Outer | Inner | Draining | Stopped

  datatype Pipe = Pipe(
    issued: nat,              // commit timestamps handed out so far
    sending: Option<nat>,     // the request of the holder of `send_write_req`
    writeQueue: seq<nat>,
    buffer: seq<nat>,         // `write_reqs`
    loc: Loc,
    permit: bool,
    batch: Batch,
    enqueued: seq<nat>,       // every request ever put on the write channel
    batches: seq<seq<nat>>,   // every batch ever spawned
    applied: seq<nat>,        // requests in the order they reached the memtable
    published: set<nat>,      // written requests that the publisher still holds
    settled: set<nat>,        // requests whose result is out
    failures: set<nat>,       // the batches, by their number, whose requests were told of an error
    rejected: set<nat>)       // requests refused because writes are blocked

  const BATCH_LIMIT: nat := 3 * 1000

  function Empty(): Pipe {
    Pipe(0, None, [], [], Outer, true, Idle, [], [], [], {}, {}, {}, {})
  }

  // ---------- steps ----------

  /** A commit timestamp is taken while `send_write_req` is held. */
  function Issue(p: Pipe): Pipe {
    p.(issued := p.issued + 1, sending := Some(p.issued))
  }

  function Enqueue(p: Pipe): Pipe
    requires p.sending.Some?
  {
    var j := p.sending.value;
    p.(writeQueue := p.writeQueue + [j], enqueued := p.enqueued + [j], sending := None)
  }

  function Reject(p: Pipe): Pipe
    requires p.sending.Some?
  {
    p.(rejected := p.rejected + {p.sending.value}, sending := None)
  }

  predicate CanTake(p: Pipe) {
    && p.writeQueue != []
    && (p.loc.Outer? || p.loc.Draining? || (p.loc.Inner? && |p.buffer| < BATCH_LIMIT))
  }

  function Take(p: Pipe): Pipe
    requires CanTake(p)
  {
    p.(writeQueue := p.writeQueue[1..], buffer := p.buffer + [p.writeQueue[0]],
       loc := if p.loc.Outer? then Inner else p.loc)
  }

  predicate CanSpawn(p: Pipe) {
    p.permit && (p.loc.Inner? || (p.loc.Draining? && p.writeQueue == []))
  }

  function Spawn(p: Pipe): Pipe
    requires CanSpawn(p)
  {
    p.(permit := false, batch := Running(p.buffer, 0), batches := p.batches + [p.buffer], buffer := [],
       loc := if p.loc.Inner? then Outer else Stopped)
  }

  predicate CanApply(p: Pipe) {
    p.batch.Running? && p.batch.next < |p.batch.reqs|
  }

  function ApplyNext(p: Pipe): Pipe
    requires CanApply(p)
  {
    p.(batch := p.batch.(next := p.batch.next + 1), applied := p.applied + [p.batch.reqs[p.batch.next]])
  }

  /** The batch is over; before its last request this is a failed batch, and all of its requests are
      told of the error. Its requests are dropped, which sends their results. */
  function End(p: Pipe): Pipe
    requires p.batch.Running? && p.batches != []
  {
    var failed := if p.batch.next < |p.batch.reqs| then {|p.batches| - 1} else {};
    p.(batch := Ended, settled := p.settled + Elements(p.batch.reqs), failures := p.failures + failed)
  }

  /** With subscribers, a batch that was written is moved into the publisher's channel instead. */
  function HandOver(p: Pipe): Pipe
    requires p.batch.Running? && p.batch.next == |p.batch.reqs|
  {
    p.(batch := Ended, published := p.published + Elements(p.batch.reqs))
  }

  /** The publisher drops a request, before or after the batch's permit was returned. */
  function Drop(p: Pipe, j: nat): Pipe
    requires j in p.published
  {
    p.(published := p.published - {j}, settled := p.settled + {j})
  }

  function ReturnPermit(p: Pipe): Pipe
    requires p.batch.Ended?
  {
    p.(batch := Idle, permit := true)
  }

  function Shutdown(p: Pipe): Pipe {
    p.(loc := Draining)
  }

  // ---------- the invariant ----------

  /** What the running batch still has to write. */
  function Rest(b: Batch): seq<nat> {
    if b.Running? && b.next <= |b.reqs| then b.reqs[b.next..] else []
  }

  /** Requests on their way to the memtable, in order. */
  function Ahead(p: Pipe): seq<nat> {
    Rest(p.batch) + p.buffer + p.writeQueue
  }

  /** Nothing is lost, doubled or overtaken between the channel and the batches. */
  ghost predicate Conserved(p: Pipe) {
    && p.enqueued == Flatten(p.batches) + p.buffer + p.writeQueue
    && Ascending(p.enqueued)
    && (forall j :: j in p.enqueued ==> j < p.issued)
    && (p.sending.Some? ==> p.sending.value == p.issued - 1 && p.sending.value !in p.enqueued)
  }

  /** One batch at a time. */
  ghost predicate Exclusive(p: Pipe) {
    && (p.permit <==> p.batch.Idle?)
    && (p.loc.Outer? ==> p.buffer == [])
    && (p.batch.Running? ==>
          && p.batch.next <= |p.batch.reqs|
          && p.batches != [] && p.batches[|p.batches| - 1] == p.batch.reqs)
  }

  /** The memtable is written in ascending order, and what is ahead comes later still. */
  ghost predicate InOrder(p: Pipe) {
    && Ascending(p.applied + Ahead(p))
    && (forall j :: j in p.applied || j in Ahead(p) ==> j in p.enqueued)
    && (p.batch.Running? ==> forall j :: j in p.batch.reqs ==> j in p.enqueued)
  }

  /** Settled requests are done with; the rest of a running batch is not settled. */
  ghost predicate Accounted(p: Pipe) {
    && (forall j :: j in p.settled || j in p.published ==> j in p.enqueued && j !in Ahead(p))
    && (forall j :: j in p.rejected ==> j < p.issued && j !in p.enqueued)
    && (p.sending.Some? ==> p.sending.value !in p.rejected)
  }

  /** Batch `x` is over. */
  ghost predicate Over(p: Pipe, x: nat) {
    x < |p.batches| && (p.batch.Running? ==> x < |p.batches| - 1)
  }

  ghost predicate InOver(p: Pipe, j: nat) {
    exists x: nat :: Over(p, x) && j in p.batches[x]
  }

  ghost predicate Unwritten(p: Pipe, x: nat)
    requires x < |p.batches|
  {
    exists j :: j in p.batches[x] && j !in p.applied
  }

  /** Exactly the first `n` of the requests were written. */
  ghost predicate WrittenUpTo(applied: seq<nat>, reqs: seq<nat>, n: nat) {
    forall i :: 0 <= i < |reqs| ==> (reqs[i] in applied <==> i < n)
  }

  /** What became of every request: the running batch has written exactly the requests before its next one; a batch that
      is over has failed if and only if it left a request unwritten; a request has its result, or is with the publisher,
      if and only if its batch is over, and a failed one has its result; whatever was issued is being sent, on the
      channel or beyond, or refused. */
  ghost predicate Outcomes(p: Pipe) {
    && (p.batch.Running? ==> WrittenUpTo(p.applied, p.batch.reqs, p.batch.next))
    && (forall x :: x in p.failures ==> Over(p, x))
    && (forall x: nat {:trigger Unwritten(p, x)} :: Over(p, x) ==> (x in p.failures <==> Unwritten(p, x)))
    && (forall j {:trigger InOver(p, j)} :: j in p.settled || j in p.published <==> InOver(p, j))
    && (forall j :: j in p.published ==> j in p.applied && j !in p.settled)
    && (forall j :: 0 <= j < p.issued ==> p.sending == Some(j) || j in p.enqueued || j in p.rejected)
  }

  ghost predicate PipeInv(p: Pipe) {
    Conserved(p) && Exclusive(p) && InOrder(p) && Accounted(p) && Outcomes(p)
  }

  lemma EmptyInv()
    ensures PipeInv(Empty())
  {
  }

  // ---------- every step keeps it ----------

  /** The requests of the running batch are in no batch that is over. */
  lemma RunningApart(p: Pipe, x: nat, j: nat)
    requires Conserved(p) && Exclusive(p) && p.batch.Running? && Over(p, x) && j in p.batches[x]
    ensures j !in p.batch.reqs
  {
    var last, tail := |p.batches| - 1, p.buffer + p.writeQueue;
    assert p.enqueued == Flatten(p.batches) + tail;
    AscendingParts(Flatten(p.batches), tail);
    var u :| 0 <= u < |p.batches[x]| && p.batches[x][u] == j;
    forall v | 0 <= v < |p.batch.reqs|
      ensures p.batch.reqs[v] != j
    {
      FlattenSeparates(p.batches, x, last, u, v);
    }
  }

  /** With the batches and the memtable as they were, and no batch beginning or ending, so are the outcomes. */
  lemma SameOutcomes(p: Pipe, p': Pipe)
    requires Outcomes(p) && p'.batches == p.batches && p'.applied == p.applied && p'.failures == p.failures
    requires p'.batch == p.batch || (!p.batch.Running? && !p'.batch.Running?)
    requires forall j :: j in p'.settled || j in p'.published <==> j in p.settled || j in p.published
    requires forall j :: j in p'.published ==> j in p.published && j !in p'.settled
    requires forall j :: 0 <= j < p'.issued ==> p'.sending == Some(j) || j in p'.enqueued || j in p'.rejected
    ensures Outcomes(p')
  {
    forall x: nat
      ensures Over(p', x) <==> Over(p, x)
      ensures Over(p, x) ==> (Unwritten(p', x) <==> Unwritten(p, x))
    {
    }
    forall j
      ensures InOver(p', j) <==> InOver(p, j)
    {
    }
  }

  lemma SpawnOutcomes(p: Pipe)
    requires PipeInv(p) && CanSpawn(p)
    ensures Outcomes(Spawn(p))
  {
    var p', n := Spawn(p), |p.batches|;
    AscendingParts(p.applied, Ahead(p));
    forall x: nat | Over(p', x)
      ensures Over(p, x) && p'.batches[x] == p.batches[x] && (Unwritten(p', x) <==> Unwritten(p, x))
    {
    }
    forall j
      ensures InOver(p', j) <==> InOver(p, j)
    {
      if x: nat :| Over(p, x) && j in p.batches[x] {
        assert Over(p', x) && j in p'.batches[x];
      }
    }
    forall i | 0 <= i < |p.buffer|
      ensures p.buffer[i] !in p.applied
    {
      assert p.buffer[i] in Ahead(p);
    }
  }

  /** Writing a request of the running batch changes nothing for the batches that are over. */
  lemma ApplyKeepsOver(p: Pipe, x: nat)
    requires Conserved(p) && Exclusive(p) && CanApply(p) && Over(p, x)
    ensures Unwritten(ApplyNext(p), x) <==> Unwritten(p, x)
  {
    forall j | j in p.batches[x]
      ensures j != p.batch.reqs[p.batch.next]
    {
      RunningApart(p, x, j);
    }
  }

  lemma WrittenNext(applied: seq<nat>, reqs: seq<nat>, n: nat)
    requires WrittenUpTo(applied, reqs, n) && n < |reqs|
    requires forall i, j :: 0 <= i < j < |reqs| ==> reqs[i] != reqs[j]
    ensures WrittenUpTo(applied + [reqs[n]], reqs, n + 1)
  {
  }

  lemma ApplyOutcomes(p: Pipe)
    requires Outcomes(p) && Conserved(p) && Exclusive(p) && CanApply(p)
    ensures Outcomes(ApplyNext(p))
  {
    var p' := ApplyNext(p);
    ReqsDistinct(p);
    WrittenNext(p.applied, p.batch.reqs, p.batch.next);
    SameOver(p, p');
    forall x: nat | Over(p, x)
      ensures Unwritten(p', x) <==> Unwritten(p, x)
    {
      ApplyKeepsOver(p, x);
    }
  }

  lemma SameOver(p: Pipe, p': Pipe)
    requires p'.batches == p.batches && p'.batch.Running? == p.batch.Running?
    ensures forall x: nat :: Over(p', x) <==> Over(p, x)
    ensures forall j :: InOver(p', j) <==> InOver(p, j)
  {
    forall j
      ensures InOver(p', j) <==> InOver(p, j)
    {
      if x: nat :| Over(p, x) && j in p.batches[x] {
        assert Over(p', x) && j in p'.batches[x];
      }
    }
  }

  lemma ReqsDistinct(p: Pipe)
    requires Conserved(p) && Exclusive(p) && p.batch.Running?
    ensures forall i, j :: 0 <= i < j < |p.batch.reqs| ==> p.batch.reqs[i] != p.batch.reqs[j]
  {
    var last, tail := |p.batches| - 1, p.buffer + p.writeQueue;
    assert p.enqueued == Flatten(p.batches) + tail;
    AscendingParts(Flatten(p.batches), tail);
    forall i, j | 0 <= i < j < |p.batch.reqs|
      ensures p.batch.reqs[i] != p.batch.reqs[j]
    {
      FlattenSeparates(p.batches, last, last, i, j);
    }
  }

  /** When the running batch is over, its requests join those of the batches before it. */
  lemma NowOver(p: Pipe, p': Pipe)
    requires Exclusive(p) && p.batch.Running? && p'.batches == p.batches && p'.batch.Ended?
    ensures forall x: nat :: Over(p', x) <==> Over(p, x) || x == |p.batches| - 1
    ensures forall j :: InOver(p', j) <==> InOver(p, j) || j in p.batch.reqs
  {
    var last := |p.batches| - 1;
    forall j
      ensures InOver(p', j) <==> InOver(p, j) || j in p.batch.reqs
    {
      if x: nat :| Over(p, x) && j in p.batches[x] {
        assert Over(p', x);
      }
      if j in p.batch.reqs {
        assert Over(p', last) && j in p'.batches[last];
      }
    }
  }

  /** The requests of the running batch have no result yet. */
  lemma NotYetOut(p: Pipe, j: nat)
    requires Outcomes(p) && Conserved(p) && Exclusive(p) && p.batch.Running? && j in p.batch.reqs
    ensures j !in p.settled && j !in p.published
  {
    forall x: nat | Over(p, x)
      ensures j !in p.batches[x]
    {
      if j in p.batches[x] {
        RunningApart(p, x, j);
      }
    }
    assert !InOver(p, j);
  }

  lemma FailuresNow(p: Pipe, p': Pipe)
    requires Outcomes(p) && Exclusive(p) && p.batch.Running? && p'.batches == p.batches && p'.batch.Ended?
    requires p'.applied == p.applied
    requires p'.failures == p.failures + if p.batch.next < |p.batch.reqs| then {|p.batches| - 1} else {}
    ensures forall x :: x in p'.failures ==> Over(p', x)
    ensures forall x: nat :: Over(p', x) ==> (x in p'.failures <==> Unwritten(p', x))
  {
    LastUnwritten(p);
    forall x: nat | Over(p', x)
      ensures x in p'.failures <==> Unwritten(p', x)
    {
      assert Unwritten(p', x) <==> Unwritten(p, x);
      assert x < |p.batches| - 1 ==> Over(p, x);
    }
  }

  lemma EndOutcomes(p: Pipe)
    requires Outcomes(p) && Conserved(p) && Exclusive(p) && p.batch.Running?
    ensures Outcomes(End(p))
  {
    NowOver(p, End(p));
    FailuresNow(p, End(p));
    forall j | j in p.published
      ensures j !in p.batch.reqs
    {
      if j in p.batch.reqs {
        NotYetOut(p, j);
      }
    }
  }

  /** The running batch has written everything if and only if it is at its end. */
  lemma LastUnwritten(p: Pipe)
    requires Outcomes(p) && Exclusive(p) && p.batch.Running?
    ensures Unwritten(p, |p.batches| - 1) <==> p.batch.next < |p.batch.reqs|
  {
    var last := |p.batches| - 1;
    if p.batch.next < |p.batch.reqs| {
      assert p.batch.reqs[p.batch.next] in p.batches[last];
    }
  }

  lemma HandOverOutcomes(p: Pipe)
    requires Outcomes(p) && Conserved(p) && Exclusive(p) && p.batch.Running? && p.batch.next == |p.batch.reqs|
    ensures Outcomes(HandOver(p))
  {
    NowOver(p, HandOver(p));
    FailuresNow(p, HandOver(p));
    forall j | j in p.batch.reqs
      ensures j in p.applied && j !in p.settled
    {
      NotYetOut(p, j);
    }
  }

  lemma AscendingSnoc(s: seq<nat>, j: nat)
    requires Ascending(s) && forall k :: k in s ==> k < j
    ensures Ascending(s + [j])
  {
    assert forall i :: 0 <= i < |s| ==> s[i] in s;
  }

  lemma AscendingDropMiddle(a: seq<nat>, b: seq<nat>, c: seq<nat>)
    requires Ascending(a + b + c)
    ensures Ascending(a + c)
  {
    var all := a + b + c;
    assert forall i :: 0 <= i < |a + c| ==> (a + c)[i] == all[if i < |a| then i else i + |b|];
  }

  lemma IssueKeeps(p: Pipe)
    requires PipeInv(p) && p.sending.None?
    ensures PipeInv(Issue(p))
  {
    SameOutcomes(p, Issue(p));
  }

  lemma EnqueueKeeps(p: Pipe)
    requires PipeInv(p) && p.sending.Some?
    ensures PipeInv(Enqueue(p))
  {
    SameOutcomes(p, Enqueue(p));
    var j, p' := p.sending.value, Enqueue(p);
    assert p'.enqueued == Flatten(p.batches) + p.buffer + p'.writeQueue;
    assert Ahead(p') == Ahead(p) + [j];
    assert p.applied + Ahead(p') == (p.applied + Ahead(p)) + [j];
    AscendingSnoc(p.enqueued, j);
    AscendingSnoc(p.applied + Ahead(p), j);
  }

  lemma RejectKeeps(p: Pipe)
    requires PipeInv(p) && p.sending.Some?
    ensures PipeInv(Reject(p))
  {
    SameOutcomes(p, Reject(p));
  }

  lemma TakeKeeps(p: Pipe)
    requires PipeInv(p) && CanTake(p)
    ensures PipeInv(Take(p))
  {
    SameOutcomes(p, Take(p));
    var p' := Take(p);
    assert p.writeQueue == [p.writeQueue[0]] + p'.writeQueue;
    assert p'.enqueued == Flatten(p.batches) + p'.buffer + p'.writeQueue;
    assert Ahead(p') == Ahead(p);
  }

  lemma SpawnKeeps(p: Pipe)
    requires PipeInv(p) && CanSpawn(p)
    ensures PipeInv(Spawn(p))
  {
    SpawnOutcomes(p);
    var p' := Spawn(p);
    assert p'.batches[..|p.batches|] == p.batches;
    assert p'.enqueued == Flatten(p'.batches) + p'.buffer + p'.writeQueue;
    assert Ahead(p') == Ahead(p);
  }

  lemma ApplyNextKeeps(p: Pipe)
    requires PipeInv(p) && CanApply(p)
    ensures PipeInv(ApplyNext(p))
  {
    ApplyOutcomes(p);
    ApplyKeepsOrder(p);
  }

  lemma ApplyKeepsOrder(p: Pipe)
    requires Conserved(p) && Exclusive(p) && InOrder(p) && Accounted(p) && CanApply(p)
    ensures var p' := ApplyNext(p);
      Conserved(p') && Exclusive(p') && InOrder(p') && Accounted(p')
  {
    var p' := ApplyNext(p);
    var j := p.batch.reqs[p.batch.next];
    assert Rest(p.batch) == [j] + Rest(p'.batch);
    assert Ahead(p) == [j] + Ahead(p');
    assert p'.applied + Ahead(p') == p.applied + Ahead(p);
  }

  /** What holds apart from the outcomes when the running batch is over. */
  lemma OverKeeps(p: Pipe, p': Pipe)
    requires Conserved(p) && Exclusive(p) && InOrder(p) && Accounted(p) && p.batch.Running?
    requires p' == p.(batch := Ended, settled := p'.settled, published := p'.published, failures := p'.failures)
    requires forall j :: j in p'.settled || j in p'.published ==>
               j in p.settled || j in p.published || j in p.batch.reqs
    ensures Conserved(p') && Exclusive(p') && InOrder(p') && Accounted(p')
  {
    var reqs, tail := p.batch.reqs, p.buffer + p.writeQueue;
    assert Ahead(p') == tail && Ahead(p) == Rest(p.batch) + tail;
    assert p.applied + Rest(p.batch) + tail == p.applied + Ahead(p);
    AscendingDropMiddle(p.applied, Rest(p.batch), tail);
    assert p.enqueued == Flatten(p.batches) + tail;
    AscendingParts(Flatten(p.batches), tail);
    assert forall j :: j in reqs ==> j in Flatten(p.batches);
  }

  lemma EndKeeps(p: Pipe)
    requires PipeInv(p) && p.batch.Running?
    ensures PipeInv(End(p))
  {
    EndOutcomes(p);
    OverKeeps(p, End(p));
  }

  lemma HandOverKeeps(p: Pipe)
    requires PipeInv(p) && p.batch.Running? && p.batch.next == |p.batch.reqs|
    ensures PipeInv(HandOver(p))
  {
    HandOverOutcomes(p);
    OverKeeps(p, HandOver(p));
  }

  lemma DropKeeps(p: Pipe, j: nat)
    requires PipeInv(p) && j in p.published
    ensures PipeInv(Drop(p, j))
  {
    SameOutcomes(p, Drop(p, j));
    assert Ahead(Drop(p, j)) == Ahead(p);
  }

  lemma ReturnPermitKeeps(p: Pipe)
    requires PipeInv(p) && p.batch.Ended?
    ensures PipeInv(ReturnPermit(p))
  {
    SameOutcomes(p, ReturnPermit(p));
    assert Ahead(ReturnPermit(p)) == Ahead(p);
  }

  lemma ShutdownKeeps(p: Pipe)
    requires PipeInv(p)
    ensures PipeInv(Shutdown(p))
  {
    SameOutcomes(p, Shutdown(p));
    assert Ahead(Shutdown(p)) == Ahead(p);
  }
}
