/** A watermark with the FIFO channel that feeds it. A session is one `begin` with its later `done`; begin marks are
    sent in session order, with timestamps that never decrease. */
module MarkChannel {
  import opened Options
  import opened WaterMark

  /** A queued mark, labelled with the session it belongs to. The watermark only ever looks at the
      `Mark` it stands for (`MarkOf`). */
  datatype Event = Begin(session: nat) | Done(session: nat) | Wait(ts: nat, waiter: nat)

  datatype Channel = Channel(
    start: nat,             // done_until at start-up
    wm: State,
    queue: seq<Event>,
    ts: seq<nat>,           // timestamp of each session
    begun: nat,             // how many begin marks have been processed
    closed: set<nat>,       // sessions whose done mark has been sent
    seen: set<nat>,         // sessions whose done mark has been processed
    asked: map<nat, nat>,   // waiter -> timestamp it waits for
    heard: set<nat>)        // waiters whose mark has been processed

  function Init(start: nat): Channel {
    Channel(start, Initial(start), [], [], 0, {}, {}, map[], {})
  }

  function OpenSession(c: Channel, ts: nat): Channel {
    c.(queue := c.queue + [Begin(|c.ts|)], ts := c.ts + [ts])
  }

  function CloseSession(c: Channel, i: nat): Channel {
    c.(queue := c.queue + [Done(i)], closed := c.closed + {i})
  }

  function Ask(c: Channel, ts: nat, w: nat): Channel {
    c.(queue := c.queue + [Wait(ts, w)], asked := c.asked[w := ts])
  }

  function MarkOf(e: Event, ts: seq<nat>): Mark
    requires e.Wait? || e.session < |ts|
  {
    match e
    case Begin(i) => Mark(ts[i], false, None)
    case Done(i) => Mark(ts[i], true, None)
    case Wait(t, w) => Mark(t, false, Some(w))
  }

  /** The watermark task takes the oldest mark. */
  function Receive(c: Channel): Channel
    requires c.queue != [] && (c.queue[0].Wait? || c.queue[0].session < |c.ts|)
  {
    var e, rest := c.queue[0], c.queue[1..];
    var wm := Process(c.wm, MarkOf(e, c.ts));
    match e
    case Begin(i) => c.(wm := wm, queue := rest, begun := c.begun + 1)
    case Done(i) => c.(wm := wm, queue := rest, seen := c.seen + {i})
    case Wait(t, w) => c.(wm := wm, queue := rest, heard := c.heard + {w})
  }

  // ---------- what the queue may hold ----------

  /** Replaying the queue from (`begun`, `seen`) is legal -- begins in session order, each done
      after its begin and at most once -- and ends with every session begun and `closed` seen. */
  ghost predicate Legal(queue: seq<Event>, begun: nat, seen: set<nat>, total: nat, closed: set<nat>)
    decreases |queue|
  {
    if queue == [] then begun == total && seen == closed
    else
      match queue[0]
      case Begin(i) => i == begun && begun < total && Legal(queue[1..], begun + 1, seen, total, closed)
      case Done(i) => i < begun && i !in seen && Legal(queue[1..], begun, seen + {i}, total, closed)
      case Wait(_, _) => Legal(queue[1..], begun, seen, total, closed)
  }

  lemma {:induction false} LegalBounds(queue: seq<Event>, begun: nat, seen: set<nat>, total: nat, closed: set<nat>)
    requires Legal(queue, begun, seen, total, closed)
    ensures begun <= total && seen <= closed
    decreases |queue|
  {
    if queue != [] {
      match queue[0]
      case Begin(i) => LegalBounds(queue[1..], begun + 1, seen, total, closed);
      case Done(i) => LegalBounds(queue[1..], begun, seen + {i}, total, closed);
      case Wait(_, _) => LegalBounds(queue[1..], begun, seen, total, closed);
    }
  }

  /** Appending one more legal mark keeps the queue legal. */
  lemma {:induction false} LegalSend(queue: seq<Event>, begun: nat, seen: set<nat>, total: nat, closed: set<nat>,
                                     e: Event)
    requires Legal(queue, begun, seen, total, closed)
    requires e.Begin? ==> e.session == total
    requires e.Done? ==> e.session < total && e.session !in closed
    ensures Legal(queue + [e], begun, seen,
                  if e.Begin? then total + 1 else total,
                  if e.Done? then closed + {e.session} else closed)
    decreases |queue|
  {
    var total' := if e.Begin? then total + 1 else total;
    var closed' := if e.Done? then closed + {e.session} else closed;
    var q := queue + [e];
    if queue == [] {
      assert q[1..] == [];
    } else {
      var rest := queue[1..];
      assert q[0] == queue[0] && q[1..] == rest + [e];
      match queue[0]
      case Begin(i) =>
        LegalSend(rest, begun + 1, seen, total, closed, e);
      case Done(i) =>
        LegalSend(rest, begun, seen + {i}, total, closed, e);
      case Wait(_, _) =>
        LegalSend(rest, begun, seen, total, closed, e);
    }
  }

  // ---------- the invariant ----------

  /** The first `begun` sessions at timestamp `t` whose done mark is still outstanding. */
  ghost function OpenAt(ts: seq<nat>, begun: nat, seen: set<nat>, t: nat): set<nat>
    requires begun <= |ts|
  {
    set i | 0 <= i < begun && i !in seen && ts[i] == t
  }

  lemma OpenAtBegin(ts: seq<nat>, begun: nat, seen: set<nat>, t: nat)
    requires begun < |ts| && begun !in seen
    ensures |OpenAt(ts, begun + 1, seen, t)| == |OpenAt(ts, begun, seen, t)| + if ts[begun] == t then 1 else 0
  {
    var before := OpenAt(ts, begun, seen, t);
    assert OpenAt(ts, begun + 1, seen, t) == if ts[begun] == t then before + {begun} else before;
  }

  lemma OpenAtDone(ts: seq<nat>, begun: nat, seen: set<nat>, t: nat, i: nat)
    requires i < begun <= |ts| && i !in seen
    ensures |OpenAt(ts, begun, seen + {i}, t)| == |OpenAt(ts, begun, seen, t)| - if ts[i] == t then 1 else 0
  {
    var before := OpenAt(ts, begun, seen, t);
    assert OpenAt(ts, begun, seen + {i}, t) == before - {i};
    assert i in before <==> ts[i] == t;
  }

  ghost predicate Ordered(c: Channel) {
    && c.begun <= |c.ts|
    && (forall i, j :: 0 <= i <= j < |c.ts| ==> c.ts[i] <= c.ts[j])
    && (forall i :: 0 <= i < |c.ts| ==> c.start <= c.ts[i])
    && (forall i :: i in c.seen ==> i < c.begun)
    && Legal(c.queue, c.begun, c.seen, |c.ts|, c.closed)
  }

  /** `pending` counts the open sessions, and covers every begun session that the watermark has
      not reached. Timestamp 0 is left out: the watermark drops such marks (src/txn/water_mark.rs:173). */
  ghost predicate Counted(start: nat, wm: State, ts: seq<nat>, begun: nat, seen: set<nat>)
    requires begun <= |ts|
  {
    Valid(wm) && Counts(wm.pending, ts, begun, seen) && Bounded(start, wm, ts, begun)
  }

  ghost predicate Counts(pending: map<nat, int>, ts: seq<nat>, begun: nat, seen: set<nat>)
    requires begun <= |ts|
  {
    forall t :: t > 0 ==> Count(pending, t) == -|OpenAt(ts, begun, seen, t)|
  }

  ghost predicate Bounded(start: nat, wm: State, ts: seq<nat>, begun: nat)
    requires begun <= |ts|
  {
    && (forall t :: t in wm.pending ==> 0 < t && 0 < begun && t <= ts[begun - 1])
    && start <= wm.doneUntil
    && (start < wm.doneUntil ==> 0 < begun && wm.doneUntil <= ts[begun - 1])
    && (forall i :: 0 <= i < begun && wm.doneUntil < ts[i] ==> ts[i] in wm.pending)
  }

  /** The waiters of a watermark against what they asked for: no wake-up before its time,
      none lost. */
  ghost predicate Answered(wm: State, asked: map<nat, nat>, heard: set<nat>) {
    && (forall t, w :: t in wm.waiters && w in wm.waiters[t] ==> w in asked && asked[w] == t)
    && (forall w :: w in wm.notified ==> w in asked && asked[w] <= wm.doneUntil)
    && (forall w :: w in heard ==> w in asked)
    && (forall w :: w in heard && asked[w] <= wm.doneUntil ==> w in wm.notified)
    && (forall w :: w in heard && asked[w] > wm.doneUntil ==>
          asked[w] in wm.waiters && w in wm.waiters[asked[w]])
  }

  ghost predicate Queued(queue: seq<Event>, ts: nat, w: nat) {
    exists k :: 0 <= k < |queue| && queue[k] == Wait(ts, w)
  }

  /** Every waiter was heard, or its mark is on the channel. */
  ghost predicate NoneLost(queue: seq<Event>, asked: map<nat, nat>, heard: set<nat>) {
    forall w {:trigger Queued(queue, asked[w], w)} :: w in asked ==> w in heard || Queued(queue, asked[w], w)
  }

  lemma NoneLostSend(queue: seq<Event>, asked: map<nat, nat>, heard: set<nat>, e: Event)
    requires NoneLost(queue, asked, heard)
    ensures NoneLost(queue + [e], asked, heard)
    ensures e.Wait? ==> NoneLost(queue + [e], asked[e.waiter := e.ts], heard)
  {
    var q := queue + [e];
    assert q[|queue|] == e;
    forall w | w in asked && w !in heard
      ensures Queued(q, asked[w], w)
    {
      assert Queued(queue, asked[w], w);
      var k :| 0 <= k < |queue| && queue[k] == Wait(asked[w], w);
      assert q[k] == queue[k];
    }
  }

  lemma NoneLostReceive(queue: seq<Event>, asked: map<nat, nat>, heard: set<nat>)
    requires NoneLost(queue, asked, heard) && queue != []
    ensures NoneLost(queue[1..], asked, if queue[0].Wait? then heard + {queue[0].waiter} else heard)
  {
    forall w | w in asked && w !in heard && !(queue[0].Wait? && queue[0].waiter == w)
      ensures Queued(queue[1..], asked[w], w)
    {
      assert Queued(queue, asked[w], w);
      var k :| 0 <= k < |queue| && queue[k] == Wait(asked[w], w);
      assert queue[1..][k - 1] == queue[k];
    }
  }

  ghost predicate Waiting(c: Channel) {
    && Answered(c.wm, c.asked, c.heard)
    && NoneLost(c.queue, c.asked, c.heard)
    && (forall k :: 0 <= k < |c.queue| && c.queue[k].Wait? ==>
          c.queue[k].waiter in c.asked && c.asked[c.queue[k].waiter] == c.queue[k].ts)
  }

  ghost predicate Inv(c: Channel) {
    Ordered(c) && Counted(c.start, c.wm, c.ts, c.begun, c.seen) && Waiting(c)
  }

  lemma InitInv(start: nat)
    ensures Inv(Init(start))
  {
    forall t: nat
      ensures |OpenAt([], 0, {}, t)| == 0
    {
      assert OpenAt([], 0, {}, t) == {};
    }
  }

  // ---------- consequences of the invariant ----------

  /** The watermark never passes a session, at a non-zero timestamp, whose done mark has not
      been processed -- whether its begin mark is still queued or not. */
  lemma UnseenNotPassed(c: Channel, i: nat)
    requires Inv(c) && i < |c.ts| && i !in c.seen && c.ts[i] > 0
    ensures c.wm.doneUntil <= c.ts[i]
    ensures i < c.begun ==> Open(c.wm.pending, c.ts[i])
  {
    if i < c.begun {
      assert i in OpenAt(c.ts, c.begun, c.seen, c.ts[i]);
    }
  }

  /** The next begin timestamp is never below the watermark either. */
  lemma NextNotPassed(c: Channel, ts: nat)
    requires Inv(c) && c.start <= ts && (c.ts != [] ==> c.ts[|c.ts| - 1] <= ts)
    ensures c.wm.doneUntil <= ts
  {
  }

  /** So the assertion at the head of `process_one` holds for every queued mark. */
  lemma HeadNotPassed(c: Channel)
    requires Inv(c) && c.queue != [] && !c.queue[0].Wait?
    ensures c.queue[0].session < |c.ts|
    ensures c.ts[c.queue[0].session] > 0 ==> c.wm.doneUntil <= c.ts[c.queue[0].session]
  {
    LegalBounds(c.queue, c.begun, c.seen, |c.ts|, c.closed);
    var i := c.queue[0].session;
    if c.ts[i] > 0 {
      UnseenNotPassed(c, i);
    }
  }

  /** The watermark does not lag: if it is below a begun session, some begun session at or
      below that timestamp, and above 0, is still open. */
  lemma WatermarkIsTight(c: Channel, i: nat) returns (j: nat)
    requires Inv(c) && i < c.begun && c.wm.doneUntil < c.ts[i]
    ensures j < c.begun && j !in c.seen && 0 < c.ts[j] <= c.ts[i]
  {
    var t := c.wm.heap[0];
    assert c.ts[i] in c.wm.heap;
    assert t in c.wm.pending;
    assert OpenAt(c.ts, c.begun, c.seen, t) != {};
    j :| j in OpenAt(c.ts, c.begun, c.seen, t);
  }

  // ---------- every step keeps the invariant ----------

  lemma OpenSessionKeeps(c: Channel, ts: nat)
    requires Inv(c) && c.start <= ts && (c.ts != [] ==> c.ts[|c.ts| - 1] <= ts)
    ensures Inv(OpenSession(c, ts))
  {
    OpenSessionOrdered(c, ts);
    CountedLonger(c.start, c.wm, c.ts, c.begun, c.seen, ts);
    OpenSessionWaiting(c, ts);
  }

  lemma OpenSessionOrdered(c: Channel, ts: nat)
    requires Ordered(c) && c.start <= ts && (c.ts != [] ==> c.ts[|c.ts| - 1] <= ts)
    ensures Ordered(OpenSession(c, ts))
  {
    LegalSend(c.queue, c.begun, c.seen, |c.ts|, c.closed, Begin(|c.ts|));
  }

  lemma OpenSessionWaiting(c: Channel, ts: nat)
    requires Waiting(c)
    ensures Waiting(OpenSession(c, ts))
  {
    NoneLostSend(c.queue, c.asked, c.heard, Begin(|c.ts|));
  }

  lemma CountedLonger(start: nat, wm: State, ts: seq<nat>, begun: nat, seen: set<nat>, t: nat)
    requires begun <= |ts| && Counted(start, wm, ts, begun, seen)
    ensures Counted(start, wm, ts + [t], begun, seen)
  {
    forall u: nat
      ensures OpenAt(ts + [t], begun, seen, u) == OpenAt(ts, begun, seen, u)
    {
    }
  }

  lemma CloseSessionKeeps(c: Channel, i: nat)
    requires Inv(c) && i < |c.ts| && i !in c.closed
    ensures Inv(CloseSession(c, i))
  {
    LegalSend(c.queue, c.begun, c.seen, |c.ts|, c.closed, Done(i));
    NoneLostSend(c.queue, c.asked, c.heard, Done(i));
  }

  lemma AskKeeps(c: Channel, ts: nat, w: nat)
    requires Inv(c) && w !in c.asked
    ensures Inv(Ask(c, ts, w))
  {
    LegalSend(c.queue, c.begun, c.seen, |c.ts|, c.closed, Wait(ts, w));
    NoneLostSend(c.queue, c.asked, c.heard, Wait(ts, w));
  }

  /** Popping closed timestamps leaves every count as the mark made it. */
  lemma PopKeepsCounts(wm: State, ts: nat, done: bool, wm': State, t: nat)
    requires Marked(wm, ts, done, wm')
    requires Count(Bump(wm.pending, ts, done), t) <= 0
    ensures Count(wm'.pending, t) == Count(Bump(wm.pending, ts, done), t)
  {
  }

  lemma BeginKeepsCounted(start: nat, wm: State, wm': State, ts: seq<nat>, begun: nat, seen: set<nat>)
    requires begun < |ts| && begun !in seen && Counted(start, wm, ts, begun, seen)
    requires forall i, j :: 0 <= i <= j < |ts| ==> ts[i] <= ts[j]
    requires 0 < ts[begun] && Valid(wm') && Marked(wm, ts[begun], false, wm')
    ensures Counted(start, wm', ts, begun + 1, seen)
  {
    BeginKeepsCounts(wm, wm', ts, begun, seen);
    BeginKeepsBounded(start, wm, wm', ts, begun);
  }

  lemma BeginKeepsCounts(wm: State, wm': State, ts: seq<nat>, begun: nat, seen: set<nat>)
    requires begun < |ts| && begun !in seen && Counts(wm.pending, ts, begun, seen)
    requires Marked(wm, ts[begun], false, wm')
    ensures Counts(wm'.pending, ts, begun + 1, seen)
  {
    forall t: nat | t > 0
      ensures Count(wm'.pending, t) == -|OpenAt(ts, begun + 1, seen, t)|
    {
      OpenAtBegin(ts, begun, seen, t);
      PopKeepsCounts(wm, ts[begun], false, wm', t);
    }
  }

  lemma BeginKeepsBounded(start: nat, wm: State, wm': State, ts: seq<nat>, begun: nat)
    requires begun < |ts| && Bounded(start, wm, ts, begun)
    requires forall i, j :: 0 <= i <= j < |ts| ==> ts[i] <= ts[j]
    requires 0 < ts[begun] && Marked(wm, ts[begun], false, wm')
    ensures Bounded(start, wm', ts, begun + 1)
  {
  }

  lemma DoneKeepsCounted(start: nat, wm: State, wm': State, ts: seq<nat>, begun: nat, seen: set<nat>, i: nat)
    requires i < begun <= |ts| && i !in seen && Counted(start, wm, ts, begun, seen)
    requires forall i, j :: 0 <= i <= j < |ts| ==> ts[i] <= ts[j]
    requires 0 < ts[i] && Valid(wm') && Marked(wm, ts[i], true, wm')
    ensures Counted(start, wm', ts, begun, seen + {i})
  {
    DoneKeepsCounts(wm, wm', ts, begun, seen, i);
    DoneKeepsBounded(start, wm, wm', ts, begun, i);
  }

  lemma DoneKeepsCounts(wm: State, wm': State, ts: seq<nat>, begun: nat, seen: set<nat>, i: nat)
    requires i < begun <= |ts| && i !in seen && Counts(wm.pending, ts, begun, seen)
    requires Marked(wm, ts[i], true, wm')
    ensures Counts(wm'.pending, ts, begun, seen + {i})
  {
    forall t: nat | t > 0
      ensures Count(wm'.pending, t) == -|OpenAt(ts, begun, seen + {i}, t)|
    {
      OpenAtDone(ts, begun, seen, t, i);
      PopKeepsCounts(wm, ts[i], true, wm', t);
    }
  }

  lemma DoneKeepsBounded(start: nat, wm: State, wm': State, ts: seq<nat>, begun: nat, i: nat)
    requires i < begun <= |ts| && Bounded(start, wm, ts, begun)
    requires forall i, j :: 0 <= i <= j < |ts| ==> ts[i] <= ts[j]
    requires 0 < ts[i] && Marked(wm, ts[i], true, wm')
    ensures Bounded(start, wm', ts, begun)
  {
  }

  /** A mark at timestamp 0 changes nothing, and concerns no counted session. */
  lemma ZeroKeepsCounted(start: nat, wm: State, ts: seq<nat>, begun: nat, seen: set<nat>, i: nat)
    requires i <= begun <= |ts| && i !in seen && Counted(start, wm, ts, begun, seen)
    requires i < |ts| && ts[i] == 0
    requires forall i, j :: 0 <= i <= j < |ts| ==> ts[i] <= ts[j]
    requires forall i :: 0 <= i < |ts| ==> start <= ts[i]
    ensures i == begun ==> Counted(start, wm, ts, begun + 1, seen)
    ensures i < begun ==> Counted(start, wm, ts, begun, seen + {i})
  {
    forall t: nat | t > 0
      ensures i == begun ==> |OpenAt(ts, begun + 1, seen, t)| == |OpenAt(ts, begun, seen, t)|
      ensures i < begun ==> |OpenAt(ts, begun, seen + {i}, t)| == |OpenAt(ts, begun, seen, t)|
    {
      if i == begun {
        OpenAtBegin(ts, begun, seen, t);
      } else {
        OpenAtDone(ts, begun, seen, t, i);
      }
    }
  }

  lemma BeginCounted(start: nat, wm: State, ts: seq<nat>, begun: nat, seen: set<nat>)
    requires begun < |ts| && begun !in seen && Counted(start, wm, ts, begun, seen)
    requires forall i, j :: 0 <= i <= j < |ts| ==> ts[i] <= ts[j]
    requires 0 < ts[begun] && wm.doneUntil <= ts[begun]
    ensures Counted(start, ProcessOne(wm, ts[begun], false), ts, begun + 1, seen)
  {
    ProcessOneMarks(wm, ts[begun], false);
    BeginKeepsCounted(start, wm, ProcessOne(wm, ts[begun], false), ts, begun, seen);
  }

  lemma DoneCounted(start: nat, wm: State, ts: seq<nat>, begun: nat, seen: set<nat>, i: nat)
    requires i < begun <= |ts| && i !in seen && Counted(start, wm, ts, begun, seen)
    requires forall i, j :: 0 <= i <= j < |ts| ==> ts[i] <= ts[j]
    requires 0 < ts[i] && wm.doneUntil <= ts[i]
    ensures Counted(start, ProcessOne(wm, ts[i], true), ts, begun, seen + {i})
  {
    ProcessOneMarks(wm, ts[i], true);
    DoneKeepsCounted(start, wm, ProcessOne(wm, ts[i], true), ts, begun, seen, i);
  }

  lemma BeginReceived(start: nat, wm: State, ts: seq<nat>, begun: nat, seen: set<nat>)
    requires begun < |ts| && begun !in seen && Counted(start, wm, ts, begun, seen)
    requires forall i, j :: 0 <= i <= j < |ts| ==> ts[i] <= ts[j]
    requires forall i :: 0 <= i < |ts| ==> start <= ts[i]
    requires ts[begun] > 0 ==> wm.doneUntil <= ts[begun]
    ensures Counted(start, Process(wm, Mark(ts[begun], false, None)), ts, begun + 1, seen)
  {
    if ts[begun] > 0 {
      BeginCounted(start, wm, ts, begun, seen);
    } else {
      ZeroKeepsCounted(start, wm, ts, begun, seen, begun);
    }
  }

  lemma DoneReceived(start: nat, wm: State, ts: seq<nat>, begun: nat, seen: set<nat>, i: nat)
    requires i < begun <= |ts| && i !in seen && Counted(start, wm, ts, begun, seen)
    requires forall i, j :: 0 <= i <= j < |ts| ==> ts[i] <= ts[j]
    requires forall i :: 0 <= i < |ts| ==> start <= ts[i]
    requires ts[i] > 0 ==> wm.doneUntil <= ts[i]
    ensures Counted(start, Process(wm, Mark(ts[i], true, None)), ts, begun, seen + {i})
  {
    if ts[i] > 0 {
      DoneCounted(start, wm, ts, begun, seen, i);
    } else {
      ZeroKeepsCounted(start, wm, ts, begun, seen, i);
    }
  }

  lemma WaitKeepsCounted(start: nat, wm: State, ts: seq<nat>, begun: nat, seen: set<nat>, t: nat, w: nat)
    requires begun <= |ts| && Counted(start, wm, ts, begun, seen)
    ensures Counted(start, Process(wm, Mark(t, false, Some(w))), ts, begun, seen)
  {
    ProcessKeepsValid(wm, Mark(t, false, Some(w)));
  }

  /** The timestamps of the sessions. */
  ghost predicate Sessions(c: Channel) {
    && c.begun <= |c.ts|
    && (forall i, j :: 0 <= i <= j < |c.ts| ==> c.ts[i] <= c.ts[j])
    && (forall i :: 0 <= i < |c.ts| ==> c.start <= c.ts[i])
  }

  lemma ReceiveBegin(c: Channel)
    requires Sessions(c) && Counted(c.start, c.wm, c.ts, c.begun, c.seen) && c.queue != [] && c.queue[0].Begin?
    requires c.queue[0].session == c.begun < |c.ts| && c.begun !in c.seen
    requires c.ts[c.begun] > 0 ==> c.wm.doneUntil <= c.ts[c.begun]
    ensures Counted(c.start, Receive(c).wm, c.ts, Receive(c).begun, Receive(c).seen)
  {
    BeginReceived(c.start, c.wm, c.ts, c.begun, c.seen);
  }

  lemma ReceiveDone(c: Channel)
    requires Sessions(c) && Counted(c.start, c.wm, c.ts, c.begun, c.seen) && c.queue != [] && c.queue[0].Done?
    requires c.queue[0].session < c.begun && c.queue[0].session !in c.seen
    requires c.ts[c.queue[0].session] > 0 ==> c.wm.doneUntil <= c.ts[c.queue[0].session]
    ensures Counted(c.start, Receive(c).wm, c.ts, Receive(c).begun, Receive(c).seen)
  {
    DoneReceived(c.start, c.wm, c.ts, c.begun, c.seen, c.queue[0].session);
  }

  lemma ReceiveWait(c: Channel)
    requires Sessions(c) && Counted(c.start, c.wm, c.ts, c.begun, c.seen) && c.queue != [] && c.queue[0].Wait?
    ensures Counted(c.start, Receive(c).wm, c.ts, Receive(c).begun, Receive(c).seen)
  {
    WaitKeepsCounted(c.start, c.wm, c.ts, c.begun, c.seen, c.queue[0].ts, c.queue[0].waiter);
  }

  /** What the head of the queue may be. */
  lemma HeadIsLegal(c: Channel)
    requires Ordered(c) && c.queue != []
    ensures Sessions(c) && (c.queue[0].Begin? ==> c.queue[0].session == c.begun < |c.ts| && c.begun !in c.seen)
    ensures c.queue[0].Done? ==> c.queue[0].session < c.begun && c.queue[0].session !in c.seen
  {
  }

  lemma ReceiveKeepsCounted(c: Channel)
    requires Sessions(c) && Counted(c.start, c.wm, c.ts, c.begun, c.seen) && c.queue != []
    requires c.queue[0].Begin? ==> c.queue[0].session == c.begun < |c.ts| && c.begun !in c.seen
    requires c.queue[0].Done? ==> c.queue[0].session < c.begun && c.queue[0].session !in c.seen
    requires !c.queue[0].Wait? && c.ts[c.queue[0].session] > 0 ==> c.wm.doneUntil <= c.ts[c.queue[0].session]
    ensures Receive(c).begun <= |c.ts|
    ensures Counted(c.start, Receive(c).wm, c.ts, Receive(c).begun, Receive(c).seen)
  {
    match c.queue[0]
    case Wait(t, w) => ReceiveWait(c);
    case Begin(i) => ReceiveBegin(c);
    case Done(i) => ReceiveDone(c);
  }

  lemma WokeKeepsAnswered(wm: State, wm': State, asked: map<nat, nat>, heard: set<nat>)
    requires Answered(wm, asked, heard) && Woke(wm, wm')
    ensures Answered(wm', asked, heard)
  {
    forall w | w in wm'.notified
      ensures w in asked && asked[w] <= wm'.doneUntil
    {
      assert w in wm.notified || WaitsUpTo(wm, w, wm'.doneUntil);
    }
    forall w | w in heard && asked[w] <= wm'.doneUntil
      ensures w in wm'.notified
    {
      assert asked[w] > wm.doneUntil ==> WaitsUpTo(wm, w, wm'.doneUntil);
    }
  }

  lemma ProcessKeepsAnswered(wm: State, m: Mark, asked: map<nat, nat>, heard: set<nat>)
    requires Valid(wm) && Answered(wm, asked, heard)
    requires m.waiter.None? && m.ts > 0 ==> wm.doneUntil <= m.ts
    requires m.waiter.Some? ==> m.waiter.value in asked && asked[m.waiter.value] == m.ts
    ensures Answered(Process(wm, m), asked, if m.waiter.Some? then heard + {m.waiter.value} else heard)
  {
    if m.waiter.Some? {
      WaiterAnswered(wm, m.ts, m.waiter.value, asked, heard);
    } else if m.ts > 0 {
      ProcessOneMarks(wm, m.ts, m.done);
      WokeKeepsAnswered(wm, ProcessOne(wm, m.ts, m.done), asked, heard);
    }
  }

  lemma WaiterAnswered(wm: State, t: nat, w: nat, asked: map<nat, nat>, heard: set<nat>)
    requires Valid(wm) && Answered(wm, asked, heard) && w in asked && asked[w] == t
    ensures Answered(Process(wm, Mark(t, false, Some(w))), asked, heard + {w})
  {
    if t <= wm.doneUntil {
      assert Process(wm, Mark(t, false, Some(w))) == wm.(notified := wm.notified + {w});
    } else {
      WaiterRegistered(wm, t, w, asked, heard);
      var ws := if t in wm.waiters then wm.waiters[t] else [];
      assert [] + [w] == [w];
      assert Process(wm, Mark(t, false, Some(w))) == wm.(waiters := wm.waiters[t := ws + [w]]);
    }
  }

  lemma WaiterRegistered(wm: State, t: nat, w: nat, asked: map<nat, nat>, heard: set<nat>)
    requires Answered(wm, asked, heard) && w in asked && asked[w] == t > wm.doneUntil
    ensures var ws := if t in wm.waiters then wm.waiters[t] else [];
      Answered(wm.(waiters := wm.waiters[t := ws + [w]]), asked, heard + {w})
  {
  }

  lemma ReceiveKeepsOrdered(c: Channel)
    requires Ordered(c) && c.queue != [] && (c.queue[0].Wait? || c.queue[0].session < |c.ts|)
    ensures Ordered(Receive(c))
  {
    LegalBounds(c.queue, c.begun, c.seen, |c.ts|, c.closed);
  }

  lemma ReceiveKeepsWaiting(c: Channel)
    requires Waiting(c) && Valid(c.wm) && c.queue != [] && (c.queue[0].Wait? || c.queue[0].session < |c.ts|)
    requires !c.queue[0].Wait? && c.ts[c.queue[0].session] > 0 ==> c.wm.doneUntil <= c.ts[c.queue[0].session]
    ensures Waiting(Receive(c))
  {
    ProcessKeepsAnswered(c.wm, MarkOf(c.queue[0], c.ts), c.asked, c.heard);
    NoneLostReceive(c.queue, c.asked, c.heard);
    assert forall k :: 0 <= k < |c.queue[1..]| ==> c.queue[1..][k] == c.queue[k + 1];
  }

  lemma HeadInRange(c: Channel)
    requires Ordered(c) && c.queue != []
    ensures c.queue[0].Wait? || c.queue[0].session < |c.ts|
  {
  }

  /** Taking a mark off the queue keeps the invariant and never moves the watermark back. */
  lemma ReceiveKeeps(c: Channel)
    requires Inv(c) && c.queue != []
    ensures c.queue[0].Wait? || c.queue[0].session < |c.ts|
    ensures Inv(Receive(c))
    ensures c.wm.doneUntil <= Receive(c).wm.doneUntil
    ensures c.wm.notified <= Receive(c).wm.notified
  {
    HeadInRange(c);
    if !c.queue[0].Wait? {
      HeadNotPassed(c);
    }
    ReceiveKeepsOrdered(c);
    HeadIsLegal(c);
    ReceiveKeepsCounted(c);
    ReceiveKeepsWaiting(c);
    ProcessKeepsValid(c.wm, MarkOf(c.queue[0], c.ts));
  }

  // ---------- sessions with distinct timestamps ----------

  /** What the transaction watermark adds: timestamps are new, so passing one means its done
      mark has been processed. */
  ghost predicate Exact(c: Channel) {
    && (forall i, j :: 0 <= i < j < |c.ts| ==> c.ts[i] < c.ts[j])
    && (forall i :: 0 <= i < |c.ts| ==> c.start < c.ts[i])
    && (forall i :: 0 <= i < |c.ts| && i !in c.seen ==> c.wm.doneUntil < c.ts[i])
  }

  lemma OpenSessionKeepsExact(c: Channel, ts: nat)
    requires Inv(c) && Exact(c) && c.start < ts && (c.ts != [] ==> c.ts[|c.ts| - 1] < ts)
    ensures Exact(OpenSession(c, ts))
  {
  }

  lemma ReceiveKeepsExact(c: Channel)
    requires Inv(c) && Exact(c) && c.queue != []
    requires c.queue[0].Wait? || c.queue[0].session < |c.ts|
    ensures Exact(Receive(c))
  {
    forall i | 0 <= i < |c.ts| && i !in Receive(c).seen
      ensures Receive(c).wm.doneUntil < c.ts[i]
    {
      StillAhead(c, i);
    }
  }

  lemma StillAhead(c: Channel, i: nat)
    requires Inv(c) && Exact(c) && c.queue != [] && (c.queue[0].Wait? || c.queue[0].session < |c.ts|)
    requires i < |c.ts| && i !in Receive(c).seen
    ensures Receive(c).wm.doneUntil < c.ts[i]
  {
    if !c.queue[0].Wait? {
      HeadNotPassed(c);
      ProcessOneMarks(c.wm, c.ts[c.queue[0].session], c.queue[0].Done?);
      ReceiveKeeps(c);
      UnseenNotReached(c.wm, Receive(c), c.ts[c.queue[0].session], c.queue[0].Done?, i);
    }
  }

  /** With distinct timestamps above the start, an unseen session is not even reached. */
  lemma UnseenNotReached(wm: State, c: Channel, t: nat, done: bool, i: nat)
    requires Inv(c) && i < |c.ts| && i !in c.seen && c.start < c.ts[i] && Marked(wm, t, done, c.wm)
    requires wm.doneUntil < c.ts[i] && forall j :: 0 <= j < i ==> c.ts[j] < c.ts[i]
    ensures c.wm.doneUntil < c.ts[i]
  {
    UnseenNotPassed(c, i);
    if i < c.begun {
      OpenNotReached(wm, c.wm, t, done, c.ts[i]);
    }
  }

  /** A watermark that moved is below what is still pending. */
  lemma OpenNotReached(wm: State, wm': State, ts: nat, done: bool, t: nat)
    requires Marked(wm, ts, done, wm') && wm.doneUntil < t && t in wm'.pending
    ensures wm'.doneUntil < t
  {
  }
}
