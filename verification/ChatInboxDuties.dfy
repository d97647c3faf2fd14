/** What the steps of a channel's owner write: each is told by its record, not by how it is pushed. */
module ChatInboxDuties {
  import opened ChatRecords
  import opened ChatInbox
  import ChatInboxAlways
  import opened ChatInboxSafety
  import opened ChatRuntime
  import opened StableSort
  import opened Wrappers

  /** The newest checkpoint stands at this cursor; before the first one that is the empty cursor. */
  ghost predicate StandsAt(records: Log, at: Cursor) {
    || (at == Cursor(None, None) && forall r <- records :: !r.Checkpoint?)
    || exists k :: 0 <= k < |records| && Newest(records, k, at)
  }

  ghost predicate Newest(records: Log, k: nat, at: Cursor)
    requires k < |records|
  {
    records[k].Checkpoint? && records[k].at == at && forall j :: k < j < |records| ==> !records[j].Checkpoint?
  }

  lemma {:induction false} CursorStands(records: Log, at: Cursor)
    ensures StandsAt(records, at) <==> CheckpointOrEmpty(records) == at
  {
    if records == [] {
    } else {
      var init, last := records[..|records| - 1], records[|records| - 1];
      assert records == init + [last];
      CursorStands(init, at);
      if last.Checkpoint? {
        if at == last.at { assert Newest(records, |records| - 1, at); }
      } else {
        if StandsAt(init, at) && exists k :: 0 <= k < |init| && Newest(init, k, at) {
          var k :| 0 <= k < |init| && Newest(init, k, at);
          assert Newest(records, k, at);
        }
        if exists k :: 0 <= k < |records| && Newest(records, k, at) {
          var k :| 0 <= k < |records| && Newest(records, k, at);
          assert k < |init| && Newest(init, k, at);
        }
      }
    }
  }

  /** The record goes to memory under the next id and is on its way to the file. */
  ghost predicate Pushes(x: Instance, y: Instance, r: Record) {
    r.recordId == x.nextRecordId
    && y == x.(records := x.records + [r], nextRecordId := x.nextRecordId + 1, unflushed := Some(r), op := y.op)
  }

  /** Behind a noted cursor the newest checkpoint stands there; nothing is written if it did already. */
  ghost predicate Notes(x: Instance, y: Instance, at: Cursor) {
    && StandsAt(y.records, at)
    && if StandsAt(x.records, at) then y == x.(op := y.op) else Pushes(x, y, Checkpoint(x.nextRecordId, at))
  }

  lemma {:induction false} Noted(lock: Option<Claim>, x: Instance, at: Cursor)
    requires Holder(lock, x)
    ensures Notes(x, ChatInbox.NoteCheckpoint(lock, x, at), at)
  {
    CursorStands(x.records, at);
    if !StandsAt(x.records, at) {
      var r := Checkpoint(x.nextRecordId, at);
      assert Newest(x.records + [r], |x.records|, at);
    }
  }

  /** The owner notes a cursor that has moved, and only such a one. */
  lemma {:induction false} CursorIsNoted(s: State, i: nat, at: Cursor)
    requires Enabled(s, Do(i, Note(at))) && Holder(s.lock, s.instances[i])
    ensures Notes(s.instances[i], Apply(s, Do(i, Note(at))).instances[i], at)
  {
    Noted(s.lock, s.instances[i], at);
  }

  /** Behind its message, an ingest of the owner notes its cursor. */
  lemma {:induction false} IngestNotesItsCursor(s: State, i: nat)
    requires Enabled(s, Resume(i)) && Holder(s.lock, s.instances[i]) && s.instances[i].op.AfterInbound?
    ensures var x, y := s.instances[i], Apply(s, Resume(i)).instances[i];
            && y.op == AfterCheckpoint(x.op.record)
            && if x.op.checkpoint.Some? then Notes(x, y, x.op.checkpoint.value) else y == x.(op := y.op)
  {
    var x := s.instances[i];
    if x.op.checkpoint.Some? { Noted(s.lock, x, x.op.checkpoint.value); }
  }

  /** Loading brings the records of the file, by id and stably, with the next id above them all and nothing to do. */
  lemma {:induction false} LoadingSorts(s: State, i: nat)
    requires Enabled(s, LoadLog(i)) && FreshOk(s.instances[i])
    ensures var y := Apply(s, LoadLog(i)).instances[i];
            && multiset(y.records) == multiset(s.log) && y.phase.Ready?
            && (forall a, b :: 0 <= a < b < |y.records| ==> y.records[a].recordId <= y.records[b].recordId)
            && (forall r <- s.log :: r.recordId < y.nextRecordId)
            && (y.nextRecordId == 1 || exists r <- s.log :: r.recordId == y.nextRecordId - 1)
            && y.pendingJobs == [] && y.activeJob == None && y.armedAfter == None && y.op == Idle && y.unflushed == None
  {
    var records := SortById(s.log);
    SortedById(s.log, records);
    NextIsAbove(s.log, records, MaxId(records));
    assert Apply(s, LoadLog(i)).instances[i] == NewInstance(s.instances[i].ownerId).(
             phase := Ready, records := records, nextRecordId := MaxId(records) + 1);
  }

  lemma {:induction false} NextIsAbove(log: Log, records: Log, top: nat)
    requires (forall r :: r in records <==> r in log) && top == MaxId(records)
    ensures forall r <- log :: r.recordId <= top
    ensures top == 0 || exists r <- log :: r.recordId == top
  {
    MaxIdBounds(records);
    forall r | r in log ensures r.recordId <= top {
      var k :| 0 <= k < |records| && records[k] == r;
    }
    if records != [] {
      var k :| 0 <= k < |records| && records[k].recordId == top;
      assert records[k] in log;
    }
  }

  lemma {:induction false} SortedById(log: Log, records: Log)
    requires records == SortById(log)
    ensures multiset(records) == multiset(log) && forall r :: r in records <==> r in log
    ensures forall a, b :: 0 <= a < b < |records| ==> records[a].recordId <= records[b].recordId
  {
    SortPermutes(NotLater, log);
    assert TotalPreorder(NotLater);
    SortSorts(NotLater, log);
    assert forall a, b :: 0 <= a < b < |records| ==> NotLater(records[a], records[b]);
    forall r ensures r in records <==> r in log {
      assert r in records <==> r in multiset(records);
      assert r in log <==> r in multiset(log);
    }
  }

  // ---------------------------------------------------------------- jobs

  /** The messages a job answers: those in memory above every settled trigger, up to its own. */
  ghost predicate Answers(records: Log, trigger: nat, r: Record) {
    && r in records && r.Inbound? && 0 < r.recordId <= trigger
    && forall q <- records :: IsSettle(q) ==> q.triggerRecordId < r.recordId
  }

  lemma {:induction false} LastSettledIsLargest(log: Log)
    ensures forall q <- log :: IsSettle(q) ==> q.triggerRecordId <= LastSettled(log)
    ensures LastSettled(log) > 0 ==> exists q <- log :: IsSettle(q) && q.triggerRecordId == LastSettled(log)
  {
    if log != [] {
      var init, last := log[..|log| - 1], log[|log| - 1];
      assert log == init + [last];
      LastSettledIsLargest(init);
      if LastSettled(log) > 0 && LastSettled(init) == LastSettled(log) {
        var q :| q in init && IsSettle(q) && q.triggerRecordId == LastSettled(init);
        assert q in log;
      }
    }
  }

  lemma {:induction false} LastQueuedIsLargest(log: Log, id: nat)
    requires 0 < id
    ensures LastQueued(log) < id <==> forall q <- log :: q.JobQueued? ==> q.triggerRecordId < id
  {
    if log != [] {
      assert log == log[..|log| - 1] + [log[|log| - 1]];
      LastQueuedIsLargest(log[..|log| - 1], id);
    }
  }

  /** The first job waiting is handed out, with every message it answers. */
  lemma {:induction false} FirstJobIsDispatched(s: State, i: nat)
    requires Enabled(s, Do(i, BeginJob))
    ensures var x, y := s.instances[i], Apply(s, Do(i, BeginJob)).instances[i];
            if x.activeJob.Some? || x.pendingJobs == [] then y == x
            else
              && y == x.(pendingJobs := x.pendingJobs[1..], activeJob := y.activeJob)
              && y.activeJob.Some? && y.activeJob.value.triggerRecordId == x.pendingJobs[0]
              && forall r :: r in y.activeJob.value.prompt <==> Answers(x.records, x.pendingJobs[0], r)
  {
    var x := s.instances[i];
    if x.activeJob.None? && x.pendingJobs != [] {
      LastSettledIsLargest(x.records);
      forall r ensures r in InboundBetween(x.records, LastSettled(x.records), x.pendingJobs[0])
                       <==> Answers(x.records, x.pendingJobs[0], r) {
        InboundBetweenMembers(x.records, LastSettled(x.records), x.pendingJobs[0], r);
      }
    }
  }

  /** A queued job waits behind the others. */
  lemma {:induction false} QueuedJobWaits(s: State, i: nat)
    requires Enabled(s, Resume(i)) && s.instances[i].op.AfterQueued?
    ensures var x, y := s.instances[i], Apply(s, Resume(i)).instances[i];
            y == x.(pendingJobs := x.pendingJobs + [x.op.trigger], op := Idle)
  {
  }

  /** The owner logs a reply as given, behind it the completion of that job, and then the job is over. */
  lemma {:induction false} ReplyIsLogged(s: State, i: nat, text: string)
    requires Enabled(s, Do(i, Complete(text))) && Holder(s.lock, s.instances[i]) && s.instances[i].activeJob.Some?
    ensures var x, y := s.instances[i], Apply(s, Do(i, Complete(text))).instances[i];
            && y.op == Completing
            && if text == "" then y == x.(op := Completing) else Pushes(x, y, Outbound(x.nextRecordId, text))
  {
  }

  lemma {:induction false} FailureIsLogged(s: State, i: nat)
    requires Enabled(s, Do(i, FailJob)) && Holder(s.lock, s.instances[i]) && s.instances[i].activeJob.Some?
    ensures var x, y := s.instances[i], Apply(s, Do(i, FailJob)).instances[i];
            y.op == Settling && Pushes(x, y, JobFailed(x.nextRecordId, x.activeJob.value.triggerRecordId))
  {
  }

  lemma {:induction false} CompletionIsLogged(s: State, i: nat)
    requires Enabled(s, Resume(i)) && Holder(s.lock, s.instances[i]) && s.instances[i].activeJob.Some?
    requires s.instances[i].op.Completing? || s.instances[i].op.Settling?
    ensures var x, y := s.instances[i], Apply(s, Resume(i)).instances[i];
            if x.op.Settling? then y == x.(activeJob := None, op := Idle)
            else y.op == Settling && Pushes(x, y, JobCompleted(x.nextRecordId, x.activeJob.value.triggerRecordId))
  {
  }

  /** A message and an error go to the log as given, and arming takes the newest record's id. */
  lemma {:induction false} OtherActsAreLogged(s: State, i: nat, m: Message, at: Option<Cursor>, text: string)
    requires Enabled(s, Do(i, Arm)) && Holder(s.lock, s.instances[i])
    ensures var x, y := s.instances[i], Apply(s, Do(i, Ingest(m, at))).instances[i];
            Pushes(x, y, Inbound(x.nextRecordId, m)) && y.op == AfterInbound(Inbound(x.nextRecordId, m), at)
    ensures var x, y := s.instances[i], Apply(s, Do(i, AppendError(text))).instances[i];
            Pushes(x, y, ErrorNote(x.nextRecordId, text)) && y.op == x.op
    ensures var x, y := s.instances[i], Apply(s, Do(i, Arm)).instances[i];
            y == x.(armedAfter := Some(if x.records == [] then 0 else x.records[|x.records| - 1].recordId))
  {
  }

  // ---------------------------------------------------------------- whole operations, with nobody in between

  /** The owner, at rest, with the log file. */
  ghost predicate AtRest(lock: Option<Claim>, l: Local) {
    l.x.op.Idle? && l.x.unflushed.None? && Holder(lock, l.x)
  }

  /** The operation leaves these records behind the others, in memory and in the file. */
  ghost predicate Leaves(before: Local, after: Local, added: Log) {
    && after.log == before.log + added && after.x.records == before.x.records + added
    && after.x.nextRecordId == before.x.nextRecordId + |added| && after.x.op.Idle? && after.x.unflushed.None?
  }

  /** Armed before this record, and no queued job is triggered by it or a later one. */
  ghost predicate ArmedFor(x: Instance, id: nat) {
    x.armedAfter.Some? && x.armedAfter.value < id && forall q <- x.records :: q.JobQueued? ==> q.triggerRecordId < id
  }

  function IngestRecords(l: Local, m: Message, moved: Option<Cursor>, queues: bool): Log {
    var n := l.x.nextRecordId;
    [Inbound(n, m)]
    + (if moved.Some? then [Checkpoint(n + 1, moved.value)] else [])
    + (if queues then [JobQueued(if moved.Some? then n + 2 else n + 1, n)] else [])
  }

  lemma {:induction false} WrittenLeaves(lock: Option<Claim>, l: Local, r: Record)
    requires AtRest(lock, l) && r.recordId == l.x.nextRecordId
    ensures var w := Written(lock, l, r); AtRest(lock, w) && Leaves(l, w, [r]) && w.x.pendingJobs == l.x.pendingJobs
    ensures Written(lock, l, r).x.armedAfter == l.x.armedAfter && Written(lock, l, r).x.activeJob == l.x.activeJob
  {
  }

  lemma {:induction false} NotedLeaves(lock: Option<Claim>, l: Local, at: Option<Cursor>)
    requires AtRest(lock, l)
    ensures var w, moved := ChatRuntime.Noted(lock, l, at), at.Some? && !StandsAt(l.x.records, at.value);
            && AtRest(lock, w) && w.x.pendingJobs == l.x.pendingJobs && w.x.armedAfter == l.x.armedAfter
            && Leaves(l, w, if moved then [Checkpoint(l.x.nextRecordId, at.value)] else [])
            && (at.Some? ==> StandsAt(w.x.records, at.value))
  {
    if at.Some? { Noted(lock, l.x, at.value); }
  }

  lemma {:induction false} StandsBehindInbound(records: Log, r: Record, at: Cursor)
    requires !r.Checkpoint?
    ensures StandsAt(records + [r], at) <==> StandsAt(records, at)
  {
    CursorStands(records, at);
    CursorStands(records + [r], at);
    Snoc(records, r);
  }

  /**
    An ingest of the owner leaves the message, the cursor if it has moved, and the job exactly if the process is
    armed and the sender may trigger one; behind it the newest checkpoint stands at the cursor.
   */
  lemma {:induction false} IngestLeaves(policy: Policy, lock: Option<Claim>, l: Local, m: Message, at: Option<Cursor>)
    requires AtRest(lock, l) && 0 < l.x.nextRecordId
    ensures var after := Finish(policy, lock, Local(Act(lock, l.x, Ingest(m, at)), l.log));
            var moved := at.Some? && !StandsAt(l.x.records, at.value);
            var queues := ChatInboxAlways.MayTrigger(policy, m) && ArmedFor(l.x, l.x.nextRecordId);
            && Leaves(l, after, IngestRecords(l, m, if moved then at else None, queues))
            && after.x.pendingJobs == l.x.pendingJobs + (if queues then [l.x.nextRecordId] else [])
            && (at.Some? ==> StandsAt(after.x.records, at.value))
  {
    var r := Inbound(l.x.nextRecordId, m);
    FinishIngest(policy, lock, l, m, at);
    MessageAndCursorLeave(lock, l, m, at);
    var n := ChatRuntime.Noted(lock, Written(lock, l, r), at);
    QueueDecision(policy, l, m, at, n);
    var q := JobQueued(n.x.nextRecordId, r.recordId);
    WrittenLeaves(lock, n, q);
    if at.Some? { StandsBehindInbound(n.x.records, q, at.value); }
  }

  lemma {:induction false} MessageAndCursorLeave(lock: Option<Claim>, l: Local, m: Message, at: Option<Cursor>)
    requires AtRest(lock, l)
    ensures var n := ChatRuntime.Noted(lock, Written(lock, l, Inbound(l.x.nextRecordId, m)), at);
            var moved := at.Some? && !StandsAt(l.x.records, at.value);
            && AtRest(lock, n) && n.x.pendingJobs == l.x.pendingJobs && n.x.armedAfter == l.x.armedAfter
            && Leaves(l, n, IngestRecords(l, m, if moved then at else None, false))
            && (at.Some? ==> StandsAt(n.x.records, at.value))
  {
    var r := Inbound(l.x.nextRecordId, m);
    var w := Written(lock, l, r);
    WrittenLeaves(lock, l, r);
    if at.Some? { StandsBehindInbound(l.x.records, r, at.value); }
    NotedLeaves(lock, w, at);
  }

  lemma {:induction false} QueueDecision(policy: Policy, l: Local, m: Message, at: Option<Cursor>, n: Local)
    requires 0 < l.x.nextRecordId && n.x.armedAfter == l.x.armedAfter
    requires n.x.records == l.x.records + [Inbound(l.x.nextRecordId, m)]
             || exists c: Record :: c.Checkpoint? && n.x.records == l.x.records + [Inbound(l.x.nextRecordId, m)] + [c]
    ensures ShouldTrigger(policy, m) && ShouldQueue(n.x, l.x.nextRecordId)
            <==> ChatInboxAlways.MayTrigger(policy, m) && ArmedFor(l.x, l.x.nextRecordId)
  {
    LastQueuedIsLargest(n.x.records, l.x.nextRecordId);
    LastQueuedIsLargest(l.x.records, l.x.nextRecordId);
    Snoc(l.x.records, Inbound(l.x.nextRecordId, m));
    if n.x.records != l.x.records + [Inbound(l.x.nextRecordId, m)] {
      var c: Record :| c.Checkpoint? && n.x.records == l.x.records + [Inbound(l.x.nextRecordId, m)] + [c];
      Snoc(l.x.records + [Inbound(l.x.nextRecordId, m)], c);
    }
  }

  /** Completing a job leaves the reply, if there is one, and the completion; failing it leaves the failure. */
  lemma {:induction false} CompleteLeaves(policy: Policy, lock: Option<Claim>, l: Local, text: string)
    requires AtRest(lock, l) && l.x.activeJob.Some?
    ensures var after := Finish(policy, lock, Local(Act(lock, l.x, Complete(text)), l.log));
            var n, t := l.x.nextRecordId, l.x.activeJob.value.triggerRecordId;
            && after.x.activeJob.None? && after.x.pendingJobs == l.x.pendingJobs
            && Leaves(l, after, if text == "" then [JobCompleted(n, t)] else [Outbound(n, text), JobCompleted(n + 1, t)])
  {
    var l0 := Local(Act(lock, l.x, Complete(text)), l.log);
    var w := if text == "" then l else Written(lock, l, Outbound(l.x.nextRecordId, text));
    WrittenLeaves(lock, l, Outbound(l.x.nextRecordId, text));
    assert Flushed(l0) == Local(w.x.(op := Completing), w.log);
    FinishUnfolds(policy, lock, l0);
    SettleLeaves(policy, lock, w, JobCompleted(w.x.nextRecordId, l.x.activeJob.value.triggerRecordId),
                 Local(Continue(policy, lock, w.x.(op := Completing)), w.log));
  }

  lemma {:induction false} FailLeaves(policy: Policy, lock: Option<Claim>, l: Local)
    requires AtRest(lock, l) && l.x.activeJob.Some?
    ensures var after := Finish(policy, lock, Local(Act(lock, l.x, FailJob), l.log));
            && after.x.activeJob.None? && after.x.pendingJobs == l.x.pendingJobs
            && Leaves(l, after, [JobFailed(l.x.nextRecordId, l.x.activeJob.value.triggerRecordId)])
  {
    SettleLeaves(policy, lock, l, JobFailed(l.x.nextRecordId, l.x.activeJob.value.triggerRecordId),
                 Local(Act(lock, l.x, FailJob), l.log));
  }

  lemma {:induction false} SettleLeaves(policy: Policy, lock: Option<Claim>, l: Local, r: Record, l1: Local)
    requires AtRest(lock, l) && r.recordId == l.x.nextRecordId
    requires l1 == Local(Append(lock, l.x, r).(op := Settling), l.log)
    ensures var after := Finish(policy, lock, l1);
            Leaves(l, after, [r]) && after.x.activeJob.None? && after.x.pendingJobs == l.x.pendingJobs
  {
    var w := Written(lock, l, r);
    WrittenLeaves(lock, l, r);
    assert Flushed(l1) == Local(w.x.(op := Settling), w.log);
    FinishUnfolds(policy, lock, l1);
    FinishUnfolds(policy, lock, Local(w.x.(activeJob := None), w.log));
  }
}
