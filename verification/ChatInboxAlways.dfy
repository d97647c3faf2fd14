/** What holds in every run of the chat inbox, also where a late write has already spoilt the ids. */
module ChatInboxAlways {
  import opened ChatRecords
  import opened ChatInbox
  import opened ChatInboxSafety
  import opened StableSort
  import opened Wrappers

  ghost predicate Ordered(r: Record) { r.JobQueued? ==> r.triggerRecordId < r.recordId }

  /** Ids are below the next one, and queued triggers below their own records. */
  ghost predicate RecordsOk(records: Log, next: nat) {
    1 <= next && forall r <- records :: r.recordId < next && Ordered(r)
  }

  /** The record is newer than every queued trigger and than the point the process was armed at. */
  ghost predicate NewAmong(x: Instance, r: Record) {
    && r.Inbound? && LastQueued(x.records) < r.recordId
    && (x.armedAfter.Some? ==> x.armedAfter.value < r.recordId)
    && (!x.lockLost ==> r.recordId < x.nextRecordId)
  }

  ghost predicate BaseOk(x: Instance) {
    && RecordsOk(x.records, x.nextRecordId) && (x.armedAfter.Some? ==> x.armedAfter.value < x.nextRecordId)
    && (x.unflushed.Some? ==> Ordered(x.unflushed.value))
  }

  /** An ingest that goes on after losing the channel writes nothing more; otherwise its message is in the log first. */
  ghost predicate IngestOk(x: Instance, log: Log) {
    match x.op
    case AfterInbound(r, _) =>
      NewAmong(x, r) && if x.unflushed.Some? then x.unflushed.value == r else x.lockLost || r in log
    case AfterCheckpoint(r) =>
      NewAmong(x, r) && (x.unflushed.Some? ==>
        x.unflushed.value.Checkpoint? && r in log && r.recordId < x.unflushed.value.recordId)
    case _ => true
  }

  ghost predicate ProcessOk(x: Instance, log: Log) {
    FreshOk(x) && (x.phase.Ready? ==> BaseOk(x) && IngestOk(x, log))
  }

  ghost predicate Always(s: State) {
    && (forall r <- s.log :: Ordered(r))
    && forall i <- s.instances :: ProcessOk(s.instances[i], s.log)
  }

  // ---------------------------------------------------------------- one process

  lemma {:induction false} QueuedBelow(records: Log, next: nat)
    requires RecordsOk(records, next)
    ensures LastQueued(records) < next && TailId(records) < next
  {
    if records != [] {
      assert records[|records| - 1] in records;
      QueuedBelow(records[..|records| - 1], next);
    }
  }

  lemma {:induction false} AppendKeepsBase(lock: Option<Claim>, x: Instance, r: Record)
    requires BaseOk(x) && x.unflushed.None? && r.recordId == x.nextRecordId && Ordered(r)
    ensures var y := Append(lock, x, r);
            && BaseOk(y) && y.armedAfter == x.armedAfter && y.phase == x.phase && y.op == x.op
            && LastQueued(y.records) == (if r.JobQueued? && !y.lockLost then Max(LastQueued(x.records), r.triggerRecordId)
                                         else LastQueued(x.records))
            && (if y.lockLost then y.unflushed.None?
                else !x.lockLost && y.unflushed == Some(r) && r.recordId < y.nextRecordId)
  {
    Snoc(x.records, r);
    assert forall q <- x.records + [r] :: q in x.records || q == r;
  }

  lemma {:induction false} NoteKeeps(lock: Option<Claim>, x: Instance, at: Cursor, log: Log)
    requires BaseOk(x) && x.unflushed.None?
    ensures var y := NoteCheckpoint(lock, x, at);
            && BaseOk(y) && y.phase == x.phase && y.op == x.op
            && (forall r :: NewAmong(x, r) ==> NewAmong(y, r))
            && (y.unflushed.Some? ==> !x.lockLost && y.unflushed == Some(Checkpoint(x.nextRecordId, at)))
  {
    AppendKeepsBase(lock, x, Checkpoint(x.nextRecordId, at));
  }

  lemma {:induction false} IngestKeeps(lock: Option<Claim>, x: Instance, m: Message, at: Option<Cursor>, log: Log)
    requires BaseOk(x) && x.unflushed.None?
    ensures var y := BeginIngest(lock, x, m, at); BaseOk(y) && IngestOk(y, log) && y.phase == x.phase
  {
    QueuedBelow(x.records, x.nextRecordId);
    AppendKeepsBase(lock, x, Inbound(x.nextRecordId, m));
  }

  /** An append that belongs to no ingest. */
  lemma {:induction false} PlainKeeps(lock: Option<Claim>, x: Instance, r: Record, op: Op, log: Log)
    requires BaseOk(x) && x.unflushed.None? && x.phase.Ready? && r.recordId == x.nextRecordId && Ordered(r)
    requires op.Idle? || op.Completing? || op.Settling?
    ensures ProcessOk(Append(lock, x, r).(op := op), log) && Append(lock, x, r).phase.Ready?
  {
    AppendKeepsBase(lock, x, r);
  }

  lemma {:induction false} ActKeeps(lock: Option<Claim>, x: Instance, a: Action, log: Log)
    requires BaseOk(x) && x.unflushed.None? && x.op.Idle? && x.phase.Ready?
    ensures ProcessOk(Act(lock, x, a), log)
  {
    match a
    case Ingest(m, at) => IngestKeeps(lock, x, m, at, log);
    case BeginJob =>
    case Complete(text) => PlainKeeps(lock, x, Outbound(x.nextRecordId, text), Completing, log);
    case FailJob =>
      if x.activeJob.Some? {
        PlainKeeps(lock, x, JobFailed(x.nextRecordId, x.activeJob.value.triggerRecordId), Settling, log);
      }
    case Note(at) => NoteKeeps(lock, x, at, log);
    case AppendError(text) => ErrorKeeps(lock, x, text, log);
    case Arm => QueuedBelow(x.records, x.nextRecordId);
  }

  lemma {:induction false} ErrorKeeps(lock: Option<Claim>, x: Instance, text: string, log: Log)
    requires BaseOk(x) && x.unflushed.None? && x.op.Idle? && x.phase.Ready?
    ensures ProcessOk(Append(lock, x, ErrorNote(x.nextRecordId, text)), log)
  {
    AppendKeepsBase(lock, x, ErrorNote(x.nextRecordId, text));
  }

  lemma {:induction false} ContinueKeeps(policy: Policy, lock: Option<Claim>, x: Instance, log: Log)
    requires BaseOk(x) && IngestOk(x, log) && x.unflushed.None? && x.phase.Ready?
    ensures ProcessOk(Continue(policy, lock, x), log)
  {
    match x.op
    case AfterInbound(r, at) => if at.Some? { NoteKeeps(lock, x, at.value, log); }
    case AfterCheckpoint(r) => QueueKeeps(policy, lock, x, log);
    case Completing =>
      if x.activeJob.Some? {
        PlainKeeps(lock, x, JobCompleted(x.nextRecordId, x.activeJob.value.triggerRecordId), Settling, log);
      }
    case _ =>
  }

  lemma {:induction false} QueueKeeps(policy: Policy, lock: Option<Claim>, x: Instance, log: Log)
    requires BaseOk(x) && IngestOk(x, log) && x.unflushed.None? && x.phase.Ready? && x.op.AfterCheckpoint?
    ensures ProcessOk(Continue(policy, lock, x), log)
  {
    var q := JobQueued(x.nextRecordId, x.op.record.recordId);
    if StillOwns(lock, x).lockLost {
      assert Append(lock, x, q) == StillOwns(lock, x);
    } else {
      AppendKeepsBase(lock, x, q);
    }
  }

  lemma {:induction false} LoadKeeps(log: Log, x: Instance)
    requires (forall r <- log :: Ordered(r)) && x == NewInstance(x.ownerId).(phase := Loading)
    ensures ProcessOk(Load(log, x), log)
  {
    var records := SortById(log);
    SortPermutes(NotLater, log);
    MaxIdBounds(records);
    forall r | r in records ensures r.recordId <= MaxId(records) && Ordered(r) {
      assert r in multiset(records) && r in multiset(log);
    }
  }

  /** What is in the log stays there, so a longer log changes nothing for a process. */
  lemma {:induction false} LongerLog(x: Instance, log: Log, r: Record)
    requires ProcessOk(x, log)
    ensures ProcessOk(x, log + [r])
  {
  }

  // ---------------------------------------------------------------- all processes

  lemma {:induction false} PutKeeps(s: State, i: nat, y: Instance)
    requires Always(s) && ProcessOk(y, s.log)
    ensures Always(Put(s, i, y))
  {
  }

  lemma {:induction false} FlushKeeps(s: State, i: nat)
    requires Always(s) && Enabled(s, Flush(i))
    ensures Always(Apply(s, Flush(i)))
  {
    var x, t := s.instances[i], Apply(s, Flush(i));
    var r := x.unflushed.value;
    forall j | j in t.instances ensures ProcessOk(t.instances[j], t.log) {
      LongerLog(s.instances[j], s.log, r);
    }
  }

  lemma {:induction false} StepKeepsAlways(s: State, e: Event)
    requires Always(s) && Enabled(s, e)
    ensures Always(Apply(s, e))
  {
    if e.Start? {
      PutKeeps(s, e.i, NewInstance(e.ownerId));
    } else if e.Flush? {
      FlushKeeps(s, e.i);
    } else {
      var x, y := s.instances[e.i], Apply(s, e).instances[e.i];
      if e.Do? { ActKeeps(s.lock, x, e.action, s.log); }
      if e.Resume? { ContinueKeeps(s.policy, s.lock, x, s.log); }
      if e.LoadLog? { LoadKeeps(s.log, x); }
      assert ProcessOk(y, s.log);
      PutKeeps(s, e.i, y);
    }
  }

  lemma {:induction false} RunKeepsAlways(s: State, es: seq<Event>)
    requires Always(s) && Possible(s, es)
    ensures Always(Run(s, es))
    decreases |es|
  {
    if es != [] {
      StepKeepsAlways(s, es[0]);
      RunKeepsAlways(Apply(s, es[0]), es[1..]);
    }
  }

  /**
    The cursor cannot pass a message that is not in the log, at any point where every process may crash: in any run
    at all, when a checkpoint of an ingest is written, behind the log as it is, the message of that ingest already
    stands in the log, with a smaller id.
   */
  lemma {:induction false} CheckpointsFollowTheirMessages(policy: Policy, es: seq<Event>, i: nat)
    requires Possible(Init(policy), es) && Enabled(Run(Init(policy), es), Flush(i))
    requires Run(Init(policy), es).instances[i].op.AfterCheckpoint?
    ensures var s := Run(Init(policy), es);
            var c, r := s.instances[i].unflushed.value, s.instances[i].op.record;
            && c.Checkpoint? && r.Inbound? && r in s.log && r.recordId < c.recordId
            && Apply(s, Flush(i)).log == s.log + [c]
  {
    RunKeepsAlways(Init(policy), es);
    var s := Run(Init(policy), es);
    assert ProcessOk(s.instances[i], s.log);
  }

  /** And a message under way is written before its ingest goes on. */
  lemma {:induction false} MessagesAreWrittenFirst(policy: Policy, es: seq<Event>, i: nat)
    requires Possible(Init(policy), es) && Enabled(Run(Init(policy), es), Flush(i))
    requires Run(Init(policy), es).instances[i].op.AfterInbound?
    ensures var s := Run(Init(policy), es);
            && s.instances[i].unflushed == Some(s.instances[i].op.record) && s.instances[i].op.record.Inbound?
            && Apply(s, Flush(i)).log == s.log + [s.instances[i].op.record]
            && Apply(s, Flush(i)).instances[i].op == s.instances[i].op
            && !Enabled(s, Resume(i))
  {
    RunKeepsAlways(Init(policy), es);
    var s := Run(Init(policy), es);
    assert ProcessOk(s.instances[i], s.log);
  }

  /** Who may trigger a job: in a direct chat, no ignored bot, and on the access list unless that is empty. */
  predicate MayTrigger(policy: Policy, m: Message) {
    && policy.dm && (m.isBot ==> !policy.ignoreBots)
    && (policy.allowedUserIds == [] || exists id <- policy.allowedUserIds :: id == m.userId)
  }

  /**
    In any run at all, an ingest that comes to its queue decision queues a job exactly when the process is armed
    and the sender may trigger one in this chat, and writes the job's record exactly when it also owns the channel.
   */
  lemma {:induction false} OwnerQueuesEveryTrigger(policy: Policy, es: seq<Event>, i: nat)
    requires Possible(Init(policy), es) && Enabled(Run(Init(policy), es), Resume(i))
    ensures var s := Run(Init(policy), es);
            var x, y := s.instances[i], Apply(s, Resume(i)).instances[i];
            x.op.AfterCheckpoint? ==>
              && x.op.record.Inbound?
              && (y.op.AfterQueued? <==> x.armedAfter.Some? && MayTrigger(s.policy, x.op.record.message))
              && (y.op.AfterQueued? ==> y.op.trigger == x.op.record.recordId)
              && y.unflushed == if y.op.AfterQueued? && Holder(s.lock, x)
                                then Some(JobQueued(x.nextRecordId, x.op.record.recordId)) else None
  {
    RunKeepsAlways(Init(policy), es);
    var s := Run(Init(policy), es);
    assert ProcessOk(s.instances[i], s.log);
  }

  // ---------------------------------------------------------------- eviction is final

  /** The process may still run, but it is not the owner and has nothing under way. */
  ghost predicate Evicted(s: State, i: nat) {
    && i in s.instances
    && var x := s.instances[i];
       && !x.phase.Starting? && !x.phase.Claiming? && !x.phase.Loading? && x.unflushed.None?
       && (Live(x) ==> !Holds(s.lock, x.ownerId))
  }

  ghost predicate WellFormed(s: State) {
    Unique(s) && forall i <- s.instances :: FreshOk(s.instances[i])
  }

  lemma StepKeepsWellFormed(s: State, e: Event)
    requires WellFormed(s) && Enabled(s, e)
    ensures WellFormed(Apply(s, e))
  {
    if !e.Start? {
      var x, y := s.instances[e.i], Apply(s, e).instances[e.i];
      assert Apply(s, e).instances == s.instances[e.i := y];
      assert y.ownerId == x.ownerId && (Live(y) ==> Live(x)) && FreshOk(y) by { StepWellFormed(s, e); }
    }
  }

  lemma StepWellFormed(s: State, e: Event)
    requires Enabled(s, e) && !e.Start? && FreshOk(s.instances[e.i])
    ensures var x, y := s.instances[e.i], Apply(s, e).instances[e.i];
            y.ownerId == x.ownerId && (Live(y) ==> Live(x)) && FreshOk(y)
  {
    var x := s.instances[e.i];
    if e.Do? { ActNoGain(s.lock, x, e.action); }
    if e.Resume? { ContinueNoGain(s.policy, s.lock, x); }
  }

  lemma StepKeepsEvicted(s: State, e: Event, i: nat)
    requires WellFormed(s) && Enabled(s, e) && Evicted(s, i)
    ensures Evicted(Apply(s, e), i) && Apply(s, e).instances[i].records == s.instances[i].records
  {
    if e.i == i {
      EvictedStep(s, e, i);
    } else if e.AcquireWrite? {
      assert Live(s.instances[e.i]);
    } else if !e.Start? {
      assert Apply(s, e).instances[i] == s.instances[i];
      assert Apply(s, e).lock == s.lock || Apply(s, e).lock == None;
    }
  }

  lemma EvictedStep(s: State, e: Event, i: nat)
    requires Enabled(s, e) && Evicted(s, i) && e.i == i
    ensures Evicted(Apply(s, e), i) && Apply(s, e).instances[i].records == s.instances[i].records
  {
    var x := s.instances[i];
    if e.Do? { RefusedAct(s.lock, x, e.action); }
    if e.Resume? { RefusedContinue(s.policy, s.lock, x); }
  }

  ghost predicate Refused(lock: Option<Claim>, x: Instance, y: Instance) {
    && y.records == x.records && y.unflushed.None? && y.phase == x.phase && y.ownerId == x.ownerId
    && (y.lockLost || !Holds(lock, y.ownerId))
  }

  lemma RefusedAct(lock: Option<Claim>, x: Instance, a: Action)
    requires Refused(lock, x, x)
    ensures Refused(lock, x, Act(lock, x, a))
  {
  }

  lemma RefusedContinue(policy: Policy, lock: Option<Claim>, x: Instance)
    requires Refused(lock, x, x)
    ensures Refused(lock, x, Continue(policy, lock, x))
  {
  }

  /**
    An evicted process never writes again, whatever everyone does afterwards: not one more record enters its
    memory or, through it, the log. No discipline is needed for this.
   */
  lemma {:induction false} EvictionIsFinal(s: State, es: seq<Event>, i: nat)
    requires WellFormed(s) && Possible(s, es) && Evicted(s, i)
    ensures Evicted(Run(s, es), i) && Run(s, es).instances[i].records == s.instances[i].records
    decreases |es|
  {
    if es != [] {
      StepKeepsWellFormed(s, es[0]);
      StepKeepsEvicted(s, es[0], i);
      EvictionIsFinal(Apply(s, es[0]), es[1..], i);
    }
  }
}
