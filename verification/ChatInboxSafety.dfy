/** What every disciplined run of the channel protocol keeps, and why the discipline is exactly what is needed. */
module ChatInboxSafety {
  import opened ChatRecords
  import opened ChatInbox
  import opened Wrappers

  /** A process whose appends can still reach the log: it owns the channel, or has one append under way. */
  ghost predicate Holder(lock: Option<Claim>, x: Instance) {
    x.phase.Ready? && !x.lockLost && Holds(lock, x.ownerId)
  }

  ghost predicate Current(lock: Option<Claim>, x: Instance) {
    Holder(lock, x) || x.unflushed.Some?
  }

  ghost predicate InboundAt(records: Log, id: nat) {
    exists k :: 0 <= k < |records| && records[k].Inbound? && records[k].recordId == id
  }

  ghost predicate UnderWay(x: Instance, log: Log) {
    match x.unflushed
    case None => x.records == log
    case Some(r) => x.records == log + [r] && r.recordId == MaxId(log) + 1
  }

  /** The queue: triggers in log order, each above the boundary `lo`, each naming a logged message. */
  ghost predicate QueueOk(x: Instance, lo: nat) {
    && (forall a, b :: 0 <= a < b < |x.pendingJobs| ==> x.pendingJobs[a] < x.pendingJobs[b])
    && (forall a :: 0 <= a < |x.pendingJobs| ==> lo < x.pendingJobs[a] && InboundAt(x.records, x.pendingJobs[a]))
  }

  /** The active job, up to the moment its settlement is in the log. */
  ghost predicate ActiveOk(x: Instance, log: Log) {
    x.activeJob.Some? ==>
      var t := x.activeJob.value.triggerRecordId;
      && (forall a :: 0 <= a < |x.pendingJobs| ==> t < x.pendingJobs[a])
      && (if x.op.Settling? && x.unflushed.None? then t <= LastSettled(log)
          else
            PromptOk(x.records, LastSettled(log), x.activeJob.value))
  }

  ghost predicate AboveJobs(x: Instance, log: Log, id: nat) {
    && LastSettled(log) < id && InboundAt(x.records, id)
    && (forall a :: 0 <= a < |x.pendingJobs| ==> x.pendingJobs[a] < id)
    && (x.activeJob.Some? ==> x.activeJob.value.triggerRecordId < id)
  }

  /** The record is newer than every queued trigger and than the point the process was armed at. */
  ghost predicate AboveQueued(x: Instance, id: nat) {
    LastQueued(x.records) < id && (x.armedAfter.Some? ==> x.armedAfter.value < id)
  }

  ghost predicate OpOk(x: Instance, log: Log) {
    match x.op
    case Idle => true
    case AfterInbound(r, _) => r.Inbound? && r in x.records && AboveJobs(x, log, r.recordId) && AboveQueued(x, r.recordId)
    case AfterCheckpoint(r) => r.Inbound? && r in x.records && AboveJobs(x, log, r.recordId) && AboveQueued(x, r.recordId)
    case AfterQueued(t) => AboveJobs(x, log, t)
    case Completing => x.activeJob.Some?
    case Settling => x.activeJob.Some?
  }

  ghost predicate UnflushedOk(x: Instance) {
    x.unflushed.Some? ==>
      && x.phase.Ready?
      && (IsSettle(x.unflushed.value) <==> x.op.Settling?)
      && (x.op.Settling? ==> x.activeJob.Some? && x.unflushed.value.triggerRecordId == x.activeJob.value.triggerRecordId)
      && (x.op.AfterInbound? ==> x.unflushed.value == x.op.record)
      && (x.unflushed.value.JobQueued? ==> x.unflushed.value.triggerRecordId < x.unflushed.value.recordId)
  }

  ghost predicate InstanceOk(x: Instance, log: Log) {
    && UnderWay(x, log) && x.nextRecordId == MaxId(x.records) + 1
    && (x.armedAfter.Some? ==> x.armedAfter.value < x.nextRecordId)
    && QueueOk(x, LastSettled(log)) && ActiveOk(x, log) && OpOk(x, log) && UnflushedOk(x)
  }

  /** The trigger of the last settled job, 0 when none is. */
  function Boundary(settled: seq<Dispatch>): nat {
    if settled == [] then 0 else settled[|settled| - 1].triggerRecordId
  }

  function Triggers(settled: seq<Dispatch>): seq<nat> {
    if settled == [] then [] else Triggers(settled[..|settled| - 1]) + [settled[|settled| - 1].triggerRecordId]
  }

  /** A job settled after the boundary `lo`: its prompt is every message since, up to its trigger. */
  ghost predicate PromptOk(log: Log, lo: nat, job: Dispatch) {
    && lo < job.triggerRecordId && InboundAt(log, job.triggerRecordId)
    && job.prompt == InboundBetween(log, lo, job.triggerRecordId)
  }

  /** The settled jobs, in order: each prompt is every message since the previous job's trigger. */
  ghost predicate PromptsOk(log: Log, settled: seq<Dispatch>) {
    settled == [] ||
    var init, job := settled[..|settled| - 1], settled[|settled| - 1];
    PromptsOk(log, init) && PromptOk(log, Boundary(init), job)
  }

  ghost predicate HistoryOk(log: Log, settled: seq<Dispatch>) {
    && Boundary(settled) == LastSettled(log) && PromptsOk(log, settled)
    && SettledTriggers(log) == Triggers(settled)
  }

  ghost predicate Unique(s: State) {
    forall i, j :: i in s.instances && j in s.instances && i != j && Live(s.instances[i]) && Live(s.instances[j])
      ==> s.instances[i].ownerId != s.instances[j].ownerId
  }

  ghost predicate OneCurrent(s: State) {
    forall i, j :: i in s.instances && j in s.instances && i != j ==>
      !(Current(s.lock, s.instances[i]) && Current(s.lock, s.instances[j]))
  }

  /** Before its log is loaded a process knows nothing. */
  ghost predicate FreshOk(x: Instance) {
    x.phase.Starting? || x.phase.Claiming? || x.phase.Loading? ==> x == NewInstance(x.ownerId).(phase := x.phase)
  }

  ghost predicate Inv(s: State) {
    && Increasing(s.log) && LastQueued(s.log) <= MaxId(s.log)
    && (forall i <- s.instances :: FreshOk(s.instances[i]))
    && Unique(s) && OneCurrent(s)
    && (forall i <- s.instances :: Current(s.lock, s.instances[i]) ==> InstanceOk(s.instances[i], s.log))
    && HistoryOk(s.log, s.settled)
  }

  // ---------------------------------------------------------------- one process, one step

  lemma InboundAtGrows(records: Log, r: Record, id: nat)
    requires InboundAt(records, id)
    ensures InboundAt(records + [r], id)
  {
    var k :| 0 <= k < |records| && records[k].Inbound? && records[k].recordId == id;
    assert (records + [r])[k] == records[k];
  }

  lemma InboundAtBelowMax(records: Log, id: nat)
    requires InboundAt(records, id)
    ensures id <= MaxId(records)
  {
    MaxIdBounds(records);
  }

  /** Settled and queued triggers name logged messages, so neither boundary runs past the log. */
  ghost predicate BoundaryOk(log: Log) { LastSettled(log) <= MaxId(log) && LastQueued(log) <= MaxId(log) }

  function Push(x: Instance, r: Record, op: Op): Instance {
    x.(records := x.records + [r], nextRecordId := Max(x.nextRecordId, r.recordId + 1), unflushed := Some(r), op := op)
  }

  lemma PushedQueue(x: Instance, r: Record, op: Op, log: Log)
    requires InstanceOk(x, log) && x.unflushed.None? && r.recordId == x.nextRecordId
    ensures QueueOk(Push(x, r, op), LastSettled(log))
  {
    forall a | 0 <= a < |x.pendingJobs| ensures InboundAt(x.records + [r], x.pendingJobs[a]) {
      InboundAtGrows(x.records, r, x.pendingJobs[a]);
    }
  }

  lemma PushedActive(x: Instance, r: Record, op: Op, log: Log)
    requires Increasing(log) && InstanceOk(x, log) && x.unflushed.None? && r.recordId == x.nextRecordId && !x.op.Settling?
    ensures ActiveOk(Push(x, r, op), log)
  {
    if x.activeJob.Some? { PromptStable(log, r, LastSettled(log), x.activeJob.value); }
  }

  lemma AboveStable(x: Instance, r: Record, op: Op, log: Log, id: nat)
    requires AboveJobs(x, log, id)
    ensures AboveJobs(Push(x, r, op), log, id)
    ensures AboveQueued(x, id) && !r.JobQueued? ==> AboveQueued(Push(x, r, op), id)
  {
    Snoc(x.records, r);
    InboundAtGrows(x.records, r, id);
  }

  lemma PushedAbove(x: Instance, r: Record, op: Op, log: Log)
    requires InstanceOk(x, log) && x.unflushed.None? && r.recordId == x.nextRecordId && r.Inbound? && x.op.Idle?
    requires BoundaryOk(log)
    ensures AboveJobs(Push(x, r, op), log, r.recordId) && r in Push(x, r, op).records
    ensures AboveQueued(Push(x, r, op), r.recordId)
  {
    Snoc(x.records, r);
    assert (x.records + [r])[|x.records|] == r;
    forall a | 0 <= a < |x.pendingJobs| ensures x.pendingJobs[a] < r.recordId {
      InboundAtBelowMax(x.records, x.pendingJobs[a]);
    }
    if x.activeJob.Some? { InboundAtBelowMax(x.records, x.activeJob.value.triggerRecordId); }
  }

  /** A fenced push keeps the process in order, provided it fits the operation it belongs to. */
  lemma Pushed(x: Instance, r: Record, op: Op, log: Log)
    requires Increasing(log) && InstanceOk(x, log) && x.phase.Ready? && x.unflushed.None? && r.recordId == x.nextRecordId
    requires !x.op.Settling? && OpOk(Push(x, r, op), log) && UnflushedOk(Push(x, r, op))
    ensures InstanceOk(Push(x, r, op), log)
  {
    PushedQueue(x, r, op, log);
    PushedActive(x, r, op, log);
    Snoc(x.records, r);
  }

  lemma IngestOk(lock: Option<Claim>, x: Instance, m: Message, at: Option<Cursor>, log: Log)
    requires Increasing(log) && BoundaryOk(log) && InstanceOk(x, log) && Holder(lock, x) && x.unflushed.None? && x.op.Idle?
    ensures InstanceOk(BeginIngest(lock, x, m, at), log)
  {
    var r := Inbound(x.nextRecordId, m);
    PushedAbove(x, r, AfterInbound(r, at), log);
    Pushed(x, r, AfterInbound(r, at), log);
  }

  lemma NoteOk(lock: Option<Claim>, x: Instance, at: Cursor, op: Op, log: Log)
    requires Increasing(log) && InstanceOk(x, log) && Holder(lock, x) && x.unflushed.None?
    requires (x.op.Idle? && op.Idle?) || (x.op.AfterInbound? && op == AfterCheckpoint(x.op.record))
    ensures InstanceOk(NoteCheckpoint(lock, x, at).(op := op), log)
  {
    if CheckpointOrEmpty(x.records) != at {
      var c := Checkpoint(x.nextRecordId, at);
      if op.AfterCheckpoint? { AboveStable(x, c, op, log, op.record.recordId); }
      Pushed(x, c, op, log);
    }
  }

  lemma BeginOk(x: Instance, log: Log)
    requires InstanceOk(x, log) && x.unflushed.None? && x.op.Idle?
    ensures InstanceOk(BeginNextJob(x), log)
  {
  }

  lemma CompleteOk(lock: Option<Claim>, x: Instance, text: string, log: Log)
    requires Increasing(log) && InstanceOk(x, log) && Holder(lock, x) && x.unflushed.None? && x.op.Idle?
    ensures InstanceOk(BeginComplete(lock, x, text), log)
  {
    if x.activeJob.Some? && text != [] { Pushed(x, Outbound(x.nextRecordId, text), Completing, log); }
  }

  lemma SettleOk(lock: Option<Claim>, x: Instance, r: Record, log: Log)
    requires Increasing(log) && InstanceOk(x, log) && Holder(lock, x) && x.unflushed.None?
    requires x.op.Idle? || x.op.Completing?
    requires IsSettle(r) && r.recordId == x.nextRecordId
    requires x.activeJob.Some? && r.triggerRecordId == x.activeJob.value.triggerRecordId
    ensures InstanceOk(Append(lock, x, r).(op := Settling), log)
  {
    Pushed(x, r, Settling, log);
  }

  lemma {:induction false} FailOk(lock: Option<Claim>, x: Instance, log: Log)
    requires Increasing(log) && InstanceOk(x, log) && Holder(lock, x) && x.unflushed.None? && x.op.Idle?
    ensures InstanceOk(Fail(lock, x), log)
  {
    if x.activeJob.Some? { SettleOk(lock, x, JobFailed(x.nextRecordId, x.activeJob.value.triggerRecordId), log); }
  }

  lemma {:induction false} ErrorOk(lock: Option<Claim>, x: Instance, text: string, log: Log)
    requires Increasing(log) && InstanceOk(x, log) && Holder(lock, x) && x.unflushed.None? && x.op.Idle?
    ensures InstanceOk(Append(lock, x, ErrorNote(x.nextRecordId, text)), log)
  {
    Pushed(x, ErrorNote(x.nextRecordId, text), Idle, log);
  }

  lemma {:induction false} ArmOk(x: Instance, log: Log, at: nat)
    requires InstanceOk(x, log) && x.unflushed.None? && x.op.Idle? && at < x.nextRecordId
    ensures InstanceOk(x.(armedAfter := Some(at)), log)
  {
  }

  lemma {:induction false} QueuePushed(x: Instance, r: Record, log: Log)
    requires Increasing(log) && InstanceOk(x, log) && x.phase.Ready? && x.unflushed.None? && x.op == AfterCheckpoint(r)
    ensures InstanceOk(Push(x, JobQueued(x.nextRecordId, r.recordId), AfterQueued(r.recordId)), log)
  {
    var q := JobQueued(x.nextRecordId, r.recordId);
    AboveStable(x, q, AfterQueued(r.recordId), log, r.recordId);
    InboundAtBelowMax(x.records, r.recordId);
    Pushed(x, q, AfterQueued(r.recordId), log);
  }

  lemma QueueStepOk(lock: Option<Claim>, x: Instance, policy: Policy, log: Log)
    requires Increasing(log) && InstanceOk(x, log) && Holder(lock, x) && x.unflushed.None? && x.op.AfterCheckpoint?
    ensures InstanceOk(Continue(policy, lock, x), log)
  {
    var r := x.op.record;
    if ShouldTrigger(policy, r.message) && ShouldQueue(x, r.recordId) {
      QueuePushed(x, r, log);
      assert Continue(policy, lock, x) == Push(x, JobQueued(x.nextRecordId, r.recordId), AfterQueued(r.recordId));
    }
  }

  lemma {:induction false} EnqueueOk(x: Instance, log: Log)
    requires InstanceOk(x, log) && x.unflushed.None? && x.op.AfterQueued?
    ensures InstanceOk(x.(pendingJobs := x.pendingJobs + [x.op.trigger], op := Idle), log)
  {
    var y := x.(pendingJobs := x.pendingJobs + [x.op.trigger], op := Idle);
    assert QueueOk(y, LastSettled(log)) && ActiveOk(y, log);
  }

  lemma {:induction false} ClearedOk(x: Instance, log: Log)
    requires InstanceOk(x, log) && x.unflushed.None? && x.op.Settling?
    ensures InstanceOk(x.(activeJob := None, op := Idle), log)
  {
  }

  lemma ContinueOk(policy: Policy, lock: Option<Claim>, x: Instance, log: Log)
    requires BoundaryOk(log) && Increasing(log) && InstanceOk(x, log) && Holder(lock, x) && x.unflushed.None?
    ensures InstanceOk(Continue(policy, lock, x), log)
  {
    match x.op
    case Idle =>
    case AfterInbound(r, at) => if at.Some? { NoteOk(lock, x, at.value, AfterCheckpoint(r), log); }
    case AfterCheckpoint(r) => QueueStepOk(lock, x, policy, log);
    case AfterQueued(t) => EnqueueOk(x, log);
    case Completing => SettleOk(lock, x, JobCompleted(x.nextRecordId, x.activeJob.value.triggerRecordId), log);
    case Settling => ClearedOk(x, log);
  }

  /** A step of one process never makes it more entitled than it was. */
  ghost predicate NoGain(lock: Option<Claim>, x: Instance, y: Instance) {
    && y.ownerId == x.ownerId && y.phase == x.phase && (Live(y) ==> Live(x))
    && (Current(lock, y) ==> Holder(lock, x))
  }

  lemma AppendNoGain(lock: Option<Claim>, x: Instance, r: Record)
    requires x.phase.Ready? && x.unflushed.None?
    ensures NoGain(lock, x, Append(lock, x, r)) && Append(lock, x, r).op == x.op
  {
  }

  lemma ActNoGain(lock: Option<Claim>, x: Instance, a: Action)
    requires x.phase.Ready? && x.unflushed.None?
    ensures NoGain(lock, x, Act(lock, x, a))
  {
    match a
    case Ingest(m, at) => AppendNoGain(lock, x, Inbound(x.nextRecordId, m));
    case BeginJob =>
    case Complete(text) => AppendNoGain(lock, x, Outbound(x.nextRecordId, text));
    case FailJob =>
      if x.activeJob.Some? { AppendNoGain(lock, x, JobFailed(x.nextRecordId, x.activeJob.value.triggerRecordId)); }
    case Note(at) => AppendNoGain(lock, x, Checkpoint(x.nextRecordId, at));
    case AppendError(text) => AppendNoGain(lock, x, ErrorNote(x.nextRecordId, text));
    case Arm =>
  }

  lemma ContinueNoGain(policy: Policy, lock: Option<Claim>, x: Instance)
    requires x.phase.Ready? && x.unflushed.None?
    ensures NoGain(lock, x, Continue(policy, lock, x))
  {
    match x.op
    case AfterInbound(r, at) => if at.Some? { AppendNoGain(lock, x, Checkpoint(x.nextRecordId, at.value)); }
    case AfterCheckpoint(r) => AppendNoGain(lock, x, JobQueued(x.nextRecordId, r.recordId));
    case Completing =>
      if x.activeJob.Some? { AppendNoGain(lock, x, JobCompleted(x.nextRecordId, x.activeJob.value.triggerRecordId)); }
    case _ =>
  }

  lemma LoadOk(log: Log, x: Instance)
    requires Increasing(log) && x == NewInstance(x.ownerId).(phase := Loading)
    ensures InstanceOk(Load(log, x), log)
  {
    SortOfIncreasing(log);
  }

  // ---------------------------------------------------------------- all processes, one step

  lemma HistoryBounds(s: State)
    requires HistoryOk(s.log, s.settled) && LastQueued(s.log) <= MaxId(s.log)
    ensures BoundaryOk(s.log)
  {
    if s.settled != [] { InboundAtBelowMax(s.log, Boundary(s.settled)); }
  }

  /** A step that leaves the claim and the log alone and makes no process more current than it was. */
  lemma PutKeepsInv(s: State, i: nat, y: Instance)
    requires Inv(s) && i in s.instances
    requires var x := s.instances[i];
             && y.ownerId == x.ownerId && (Live(y) ==> Live(x)) && FreshOk(y)
             && (Current(s.lock, y) ==> Current(s.lock, x) && InstanceOk(y, s.log))
    ensures Inv(Put(s, i, y))
  {
  }

  lemma ResumeKeepsInv(s: State, i: nat)
    requires Inv(s) && Enabled(s, Resume(i))
    ensures Inv(Apply(s, Resume(i)))
  {
    var x := s.instances[i];
    var y := Continue(s.policy, s.lock, x);
    assert Current(s.lock, x) ==> InstanceOk(x, s.log);
    ContinueNoGain(s.policy, s.lock, x);
    if Current(s.lock, y) {
      HistoryBounds(s);
      ContinueOk(s.policy, s.lock, x, s.log);
    }
    PutKeepsInv(s, i, y);
  }

  lemma LoadKeepsInv(s: State, i: nat)
    requires Inv(s) && Enabled(s, LoadLog(i)) && MayLoad(s, i)
    ensures Inv(Apply(s, LoadLog(i)))
  {
    var x := s.instances[i];
    var y := Load(s.log, x);
    assert InstanceOk(y, s.log) && FreshOk(y) && Live(x) by { LoadOk(s.log, x); }
    if Holds(s.lock, x.ownerId) { OwnerAlone(s, i); }
    PutCurrentKeepsInv(s, i, y);
  }

  lemma OwnerAlone(s: State, i: nat)
    requires Unique(s) && Drained(s) && i in s.instances && Live(s.instances[i]) && Holds(s.lock, s.instances[i].ownerId)
    ensures forall j :: j in s.instances && j != i ==> !Current(s.lock, s.instances[j])
  {
    assert forall j <- s.instances :: Current(s.lock, s.instances[j]) ==> Live(s.instances[j]);
  }

  /** A process may become current when no other one is. */
  lemma PutCurrentKeepsInv(s: State, i: nat, y: Instance)
    requires Inv(s) && i in s.instances && y.ownerId == s.instances[i].ownerId && Live(s.instances[i])
    requires InstanceOk(y, s.log) && FreshOk(y)
    requires forall j :: j in s.instances && j != i && Current(s.lock, s.instances[j]) ==> !Current(s.lock, y)
    ensures Inv(Put(s, i, y))
  {
  }

  lemma ClaimKeepsInv(s: State, i: nat)
    requires Inv(s) && Enabled(s, AcquireWrite(i))
    ensures Inv(Apply(s, AcquireWrite(i)))
  {
    var x := s.instances[i];
    var t := Apply(s, AcquireWrite(i));
    forall j | j in t.instances && Current(t.lock, t.instances[j])
      ensures j != i && Current(s.lock, s.instances[j])
    {
      assert Live(x);
    }
  }

  function FlushedHistory(x: Instance, settled: seq<Dispatch>): seq<Dispatch>
    requires x.unflushed.Some?
  {
    settled + if IsSettle(x.unflushed.value) && x.activeJob.Some? then [x.activeJob.value] else []
  }

  /** What the history says of one settled job survives any further record. */
  lemma PromptStable(log: Log, r: Record, lo: nat, job: Dispatch)
    requires Increasing(log) && MaxId(log) < r.recordId && PromptOk(log, lo, job)
    ensures PromptOk(log + [r], lo, job)
  {
    InboundAtGrows(log, r, job.triggerRecordId);
    InboundAtBelowMax(log, job.triggerRecordId);
    InboundStable(log, r, lo, job.triggerRecordId);
  }

  lemma {:induction false} HistoryKept(log: Log, r: Record, settled: seq<Dispatch>)
    requires Increasing(log) && MaxId(log) < r.recordId && PromptsOk(log, settled)
    ensures PromptsOk(log + [r], settled)
  {
    if settled != [] {
      var init := settled[..|settled| - 1];
      HistoryKept(log, r, init);
      PromptStable(log, r, Boundary(init), settled[|settled| - 1]);
    }
  }

  lemma HistoryExtended(log: Log, r: Record, settled: seq<Dispatch>, job: Dispatch)
    requires Increasing(log) && MaxId(log) < r.recordId && HistoryOk(log, settled)
    requires IsSettle(r) && r.triggerRecordId == job.triggerRecordId && PromptOk(log, LastSettled(log), job)
    ensures HistoryOk(log + [r], settled + [job])
  {
    Snoc(log, r);
    HistoryKept(log, r, settled);
    PromptStable(log, r, LastSettled(log), job);
    assert (settled + [job])[..|settled|] == settled;
  }

  lemma FlushHistory(log: Log, settled: seq<Dispatch>, x: Instance)
    requires Increasing(log) && HistoryOk(log, settled) && InstanceOk(x, log) && x.unflushed.Some?
    ensures HistoryOk(log + [x.unflushed.value], FlushedHistory(x, settled))
  {
    var r := x.unflushed.value;
    if IsSettle(r) {
      assert x.activeJob.Some?;
      var job := x.activeJob.value;
      PromptBeforeSettle(x, log);
      HistoryExtended(log, r, settled, job);
    } else {
      HistoryKept(log, r, settled);
      Snoc(log, r);
      assert settled + [] == settled;
    }
  }

  lemma PromptBeforeSettle(x: Instance, log: Log)
    requires Increasing(log) && InstanceOk(x, log) && x.unflushed.Some? && IsSettle(x.unflushed.value)
    ensures PromptOk(log, LastSettled(log), x.activeJob.value)
  {
    var t := x.activeJob.value.triggerRecordId;
    var k :| 0 <= k < |x.records| && x.records[k].Inbound? && x.records[k].recordId == t;
    assert k < |log| && log[k] == x.records[k];
    InboundAtBelowMax(log, t);
    InboundStable(log, x.unflushed.value, LastSettled(log), t);
  }

  lemma FlushedOp(log: Log, x: Instance)
    requires InstanceOk(x, log) && x.unflushed.Some?
    ensures var y := x.(unflushed := None);
            QueueOk(y, LastSettled(x.records)) && ActiveOk(y, x.records) && OpOk(y, x.records)
  {
    Snoc(log, x.unflushed.value);
  }

  lemma FlushLog(log: Log, x: Instance)
    requires Increasing(log) && LastQueued(log) <= MaxId(log) && UnderWay(x, log) && x.unflushed.Some? && UnflushedOk(x)
    ensures Increasing(x.records) && LastQueued(x.records) <= MaxId(x.records)
  {
    AppendAbove(log, x.unflushed.value);
    Snoc(log, x.unflushed.value);
  }

  lemma FlushInstance(log: Log, x: Instance)
    requires InstanceOk(x, log) && x.unflushed.Some?
    ensures InstanceOk(x.(unflushed := None), x.records)
  {
    FlushedOp(log, x);
  }

  lemma FlushKeepsInv(s: State, i: nat)
    requires Inv(s) && Enabled(s, Flush(i))
    ensures Inv(Apply(s, Flush(i)))
  {
    var x := s.instances[i];
    var y := x.(unflushed := None);
    var t := Apply(s, Flush(i));
    assert Current(s.lock, x) && InstanceOk(x, s.log);
    assert HistoryOk(t.log, t.settled) by { FlushHistory(s.log, s.settled, x); }
    assert t.log == x.records;
    assert Increasing(t.log) && LastQueued(t.log) <= MaxId(t.log) by { FlushLog(s.log, x); }
    assert InstanceOk(y, t.log) by { FlushInstance(s.log, x); }
    FlushOthers(s, i, y, t);
  }

  lemma FlushOthers(s: State, i: nat, y: Instance, t: State)
    requires Unique(s) && OneCurrent(s) && (forall j <- s.instances :: FreshOk(s.instances[j]))
    requires i in s.instances && s.instances[i].unflushed.Some? && s.instances[i].phase.Ready?
    requires y == s.instances[i].(unflushed := None) && t.lock == s.lock && t.instances == s.instances[i := y]
    ensures Unique(t) && OneCurrent(t) && (forall j <- t.instances :: FreshOk(t.instances[j]))
    ensures forall j <- t.instances :: Current(t.lock, t.instances[j]) ==> j == i
  {
    assert Current(s.lock, s.instances[i]);
    forall j | j in t.instances && j != i ensures t.instances[j] == s.instances[j] && !Current(t.lock, t.instances[j]) {
    }
  }

  lemma StartKeepsInv(s: State, i: nat, ownerId: OwnerId)
    requires Inv(s) && Enabled(s, Start(i, ownerId))
    ensures Inv(Apply(s, Start(i, ownerId)))
  {
    assert !Current(s.lock, NewInstance(ownerId));
  }

  lemma UnlinkKeepsInv(s: State, i: nat)
    requires Inv(s) && Enabled(s, Unlink(i))
    ensures Inv(Apply(s, Unlink(i)))
  {
    var t := Apply(s, Unlink(i));
    forall j | j in t.instances && Current(t.lock, t.instances[j])
      ensures j != i && Current(s.lock, s.instances[j]) && t.instances[j] == s.instances[j]
    {
    }
  }

  lemma {:induction false} Acting(s: State, i: nat, a: Action)
    requires Inv(s) && Enabled(s, Do(i, a)) && Current(s.lock, Act(s.lock, s.instances[i], a))
    ensures Holder(s.lock, s.instances[i]) && InstanceOk(s.instances[i], s.log) && BoundaryOk(s.log) && Increasing(s.log)
    ensures TailId(s.instances[i].records) < s.instances[i].nextRecordId
  {
    ActNoGain(s.lock, s.instances[i], a);
    HistoryBounds(s);
  }

  lemma {:induction false} DoneKeepsInv(s: State, i: nat, a: Action)
    requires Inv(s) && Enabled(s, Do(i, a))
    requires var y := Act(s.lock, s.instances[i], a); Current(s.lock, y) ==> InstanceOk(y, s.log)
    ensures Inv(Apply(s, Do(i, a)))
  {
    ActNoGain(s.lock, s.instances[i], a);
    PutKeepsInv(s, i, Act(s.lock, s.instances[i], a));
  }

  lemma {:induction false} ActOk(lock: Option<Claim>, x: Instance, a: Action, log: Log, y: Instance)
    requires BoundaryOk(log) && Increasing(log) && InstanceOk(x, log) && Holder(lock, x) && x.unflushed.None? && x.op.Idle?
    requires TailId(x.records) < x.nextRecordId && y == Act(lock, x, a)
    ensures InstanceOk(y, log)
  {
    match a
    case Ingest(m, at) => IngestOk(lock, x, m, at, log);
    case BeginJob => BeginOk(x, log);
    case Complete(text) => CompleteOk(lock, x, text, log);
    case FailJob => FailOk(lock, x, log);
    case Note(at) => NoteOk(lock, x, at, Idle, log);
    case AppendError(text) => ErrorOk(lock, x, text, log);
    case Arm => ArmOk(x, log, TailId(x.records));
  }

  lemma {:induction false} DoKeepsInv(s: State, i: nat, a: Action)
    requires Inv(s) && Enabled(s, Do(i, a))
    ensures Inv(Apply(s, Do(i, a)))
  {
    var x := s.instances[i];
    var y := Act(s.lock, x, a);
    if Current(s.lock, y) {
      Acting(s, i, a);
      ActOk(s.lock, x, a, s.log, y);
    }
    DoneKeepsInv(s, i, a);
  }

  lemma {:induction false} LatchKeepsInstance(x: Instance, log: Log)
    requires InstanceOk(x, log)
    ensures InstanceOk(x.(lockLost := true), log)
  {
  }

  lemma CheckKeepsInv(s: State, i: nat)
    requires Inv(s) && Enabled(s, CheckOwner(i))
    ensures Inv(Apply(s, CheckOwner(i)))
  {
    var x := s.instances[i];
    if Current(s.lock, x) { LatchKeepsInstance(x, s.log); }
    PutKeepsInv(s, i, StillOwns(s.lock, x));
  }

  lemma AcquireReadKeepsInv(s: State, i: nat, preempt: bool, holderDead: bool)
    requires var e := AcquireRead(i, preempt, holderDead); Inv(s) && Enabled(s, e)
    ensures Inv(Apply(s, AcquireRead(i, preempt, holderDead)))
  {
    var x := s.instances[i];
    match Decide(s.lock, x.ownerId, preempt, holderDead)
    case Take(epoch) => PutKeepsInv(s, i, x.(phase := Claiming(epoch)));
    case Adopt => PutKeepsInv(s, i, x.(phase := Loading));
    case Refuse => PutKeepsInv(s, i, x.(phase := Retired));
  }

  lemma StepKeepsInv(s: State, e: Event)
    requires Inv(s) && Enabled(s, e) && (e.LoadLog? ==> MayLoad(s, e.i))
    ensures Inv(Apply(s, e))
  {
    match e
    case Start(i, o) => StartKeepsInv(s, i, o);
    case AcquireRead(i, p, d) => AcquireReadKeepsInv(s, i, p, d);
    case AcquireWrite(i) => ClaimKeepsInv(s, i);
    case LoadLog(i) => LoadKeepsInv(s, i);
    case Do(i, a) => DoKeepsInv(s, i, a);
    case Resume(i) => ResumeKeepsInv(s, i);
    case Flush(i) => FlushKeepsInv(s, i);
    case CheckOwner(i) => CheckKeepsInv(s, i);
    case ReleaseCheck(i) =>
      PutKeepsInv(s, i, s.instances[i].(phase := if Holds(s.lock, s.instances[i].ownerId) then Releasing else Retired));
    case Unlink(i) => UnlinkKeepsInv(s, i);
    case Crash(i) => PutKeepsInv(s, i, s.instances[i].(phase := Retired, unflushed := None));
  }

  lemma {:induction false} RunKeepsInv(s: State, es: seq<Event>)
    requires Inv(s) && Disciplined(s, es)
    ensures Possible(s, es) && Inv(Run(s, es))
    decreases |es|
  {
    if es != [] {
      StepKeepsInv(s, es[0]);
      RunKeepsInv(Apply(s, es[0]), es[1..]);
    }
  }
}
