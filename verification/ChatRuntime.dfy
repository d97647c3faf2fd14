/** The runtime object of one process, in the source's imperative form, proved against the protocol's steps. */
module ChatRuntime {
  import opened ChatRecords
  import opened ChatInbox
  import opened Wrappers

  /** The claim file and the log file of one channel. */
  class Channel {
    var lock: Option<Claim>
    var log: Log

    constructor () ensures lock == None && log == [] {
      lock, log := None, [];
    }

    /** Claims the channel; `holderDead` is the outcome of probing the holder's pid. */
    method Acquire(ownerId: OwnerId, preempt: bool, holderDead: bool) returns (claim: Option<Claim>)
      modifies this`lock
      ensures match Decide(old(lock), ownerId, preempt, holderDead)
              case Take(epoch) => lock == claim == Some(Claim(ownerId, epoch))
              case Adopt => lock == old(lock) && claim == lock
              case Refuse => lock == old(lock) && claim == None
    {
      if lock.None? {
        lock := Some(Claim(ownerId, 1));
        return lock;
      }
      var existing := lock.value;
      if existing.ownerId == ownerId { return lock; }
      if !(preempt || holderDead) { return None; }
      lock := Some(Claim(ownerId, existing.epoch + 1));
      return lock;
    }

    method Release(ownerId: OwnerId)
      modifies this`lock
      ensures lock == if Holds(old(lock), ownerId) then None else old(lock)
    {
      if !Holds(lock, ownerId) { return; }
      lock := None;
    }
  }

  /** A process's memory together with the log file. */
  datatype Local = Local(x: Instance, log: Log)

  function Flushed(l: Local): Local {
    if l.x.unflushed.None? then l else Local(l.x.(unflushed := None), l.log + [l.x.unflushed.value])
  }

  function OpRank(op: Op): nat {
    match op
    case Idle => 0
    case Settling => 1
    case Completing => 2
    case AfterQueued(_) => 2
    case AfterCheckpoint(_) => 3
    case AfterInbound(_, _) => 4
  }

  lemma ContinueDescends(policy: Policy, lock: Option<Claim>, x: Instance)
    requires !x.op.Idle?
    ensures OpRank(Continue(policy, lock, x).op) < OpRank(x.op)
  {
  }

  /** Lets a running operation finish with nobody in between: write, resume, write, resume, until it is idle. */
  function Finish(policy: Policy, lock: Option<Claim>, l: Local): Local
    decreases OpRank(l.x.op)
  {
    var m := Flushed(l);
    if m.x.op.Idle? then m
    else
      ContinueDescends(policy, lock, m.x);
      Finish(policy, lock, Local(Continue(policy, lock, m.x), m.log))
  }

  lemma FinishUnfolds(policy: Policy, lock: Option<Claim>, l: Local)
    ensures var m := Flushed(l);
            && (m.x.op.Idle? ==> Finish(policy, lock, l) == m)
            && (!m.x.op.Idle? ==> Finish(policy, lock, l) == Finish(policy, lock, Local(Continue(policy, lock, m.x), m.log)))
  {
  }

  /** The write, resume, write, resume events `Finish` stands for. */
  ghost function FinishEvents(policy: Policy, lock: Option<Claim>, i: nat, l: Local): seq<Event>
    decreases OpRank(l.x.op)
  {
    var m := Flushed(l);
    (if l.x.unflushed.Some? then [Flush(i)] else []) +
    if m.x.op.Idle? then []
    else
      ContinueDescends(policy, lock, m.x);
      [Resume(i)] + FinishEvents(policy, lock, i, Local(Continue(policy, lock, m.x), m.log))
  }

  /** An operation run to its end is a run of the protocol by that one process. */
  lemma {:induction false} FinishIsARun(s: State, i: nat)
    requires i in s.instances && s.instances[i].phase.Ready?
    ensures var l := Local(s.instances[i], s.log);
            var es := FinishEvents(s.policy, s.lock, i, l);
            && Possible(s, es)
            && Run(s, es).log == Finish(s.policy, s.lock, l).log
            && Run(s, es).instances == s.instances[i := Finish(s.policy, s.lock, l).x]
            && Run(s, es).lock == s.lock
    decreases OpRank(s.instances[i].op)
  {
    var l := Local(s.instances[i], s.log);
    var m := Flushed(l);
    var t := if l.x.unflushed.Some? then Apply(s, Flush(i)) else s;
    assert t.instances == s.instances[i := m.x] && t.log == m.log && t.lock == s.lock && t.policy == s.policy;
    var rest: seq<Event> := [];
    if !m.x.op.Idle? {
      ContinueDescends(s.policy, s.lock, m.x);
      var u := Apply(t, Resume(i));
      assert u.instances[i] == Continue(s.policy, s.lock, m.x) && u.log == m.log;
      assert u.instances[i].phase.Ready? by { ContinueStaysReady(s.policy, s.lock, m.x); }
      FinishIsARun(u, i);
      var more := FinishEvents(u.policy, u.lock, i, Local(u.instances[i], u.log));
      rest := [Resume(i)] + more;
      RunStep(t, Resume(i), more);
      assert Run(t, rest).instances == s.instances[i := Finish(s.policy, s.lock, l).x];
    }
    if l.x.unflushed.Some? { RunStep(s, Flush(i), rest); }
    assert FinishEvents(s.policy, s.lock, i, l) == if l.x.unflushed.Some? then [Flush(i)] + rest else rest;
  }

  lemma ContinueStaysReady(policy: Policy, lock: Option<Claim>, x: Instance)
    ensures Continue(policy, lock, x).phase == x.phase
  {
  }

  /** A fenced append with its write. */
  function Written(lock: Option<Claim>, l: Local, r: Record): Local { Flushed(Local(Append(lock, l.x, r), l.log)) }

  function Noted(lock: Option<Claim>, l: Local, at: Option<Cursor>): Local {
    if at.Some? then Flushed(Local(NoteCheckpoint(lock, l.x, at.value), l.log)) else l
  }

  function Queued(policy: Policy, lock: Option<Claim>, l: Local, r: Record): Local
    requires r.Inbound?
  {
    if ShouldTrigger(policy, r.message) && ShouldQueue(l.x, r.recordId) then
      var w := Written(lock, l, JobQueued(l.x.nextRecordId, r.recordId));
      w.(x := w.x.(pendingJobs := w.x.pendingJobs + [r.recordId]))
    else l
  }

  function Ingested(policy: Policy, lock: Option<Claim>, l: Local, m: Message, at: Option<Cursor>): Local {
    var r := Inbound(l.x.nextRecordId, m);
    Queued(policy, lock, Noted(lock, Written(lock, l, r), at), r)
  }

  /** With nobody in between, an ingest logs the message, then the checkpoint, then the queued job. */
  lemma FinishIngest(policy: Policy, lock: Option<Claim>, l: Local, m: Message, at: Option<Cursor>)
    requires l.x.op.Idle? && l.x.unflushed.None?
    ensures Finish(policy, lock, Local(Act(lock, l.x, Ingest(m, at)), l.log)) == Ingested(policy, lock, l, m, at)
  {
    var r := Inbound(l.x.nextRecordId, m);
    var l0 := Local(Act(lock, l.x, Ingest(m, at)), l.log);
    var w := Written(lock, l, r);
    assert Flushed(l0) == Local(w.x.(op := AfterInbound(r, at)), w.log);
    FinishUnfolds(policy, lock, l0);
    FinishNoted(policy, lock, w, r, at);
    FinishQueued(policy, lock, Noted(lock, w, at), r);
  }

  lemma FinishNoted(policy: Policy, lock: Option<Claim>, w: Local, r: Record, at: Option<Cursor>)
    requires w.x.op.Idle? && w.x.unflushed.None? && r.Inbound?
    ensures var n := Noted(lock, w, at);
            n.x.op.Idle? && n.x.unflushed.None?
            && Finish(policy, lock, Local(Continue(policy, lock, w.x.(op := AfterInbound(r, at))), w.log))
               == Finish(policy, lock, Local(Continue(policy, lock, n.x.(op := AfterCheckpoint(r))), n.log))
  {
    var n := Noted(lock, w, at);
    var l1 := Local(Continue(policy, lock, w.x.(op := AfterInbound(r, at))), w.log);
    assert Flushed(l1) == Local(n.x.(op := AfterCheckpoint(r)), n.log);
    FinishUnfolds(policy, lock, l1);
  }

  lemma FinishQueued(policy: Policy, lock: Option<Claim>, n: Local, r: Record)
    requires n.x.op.Idle? && n.x.unflushed.None? && r.Inbound?
    ensures Finish(policy, lock, Local(Continue(policy, lock, n.x.(op := AfterCheckpoint(r))), n.log))
      == Queued(policy, lock, n, r)
  {
    var l2 := Local(Continue(policy, lock, n.x.(op := AfterCheckpoint(r))), n.log);
    FinishUnfolds(policy, lock, l2);
    if ShouldTrigger(policy, r.message) && ShouldQueue(n.x, r.recordId) {
      var w := Written(lock, n, JobQueued(n.x.nextRecordId, r.recordId));
      assert Flushed(l2) == Local(w.x.(op := AfterQueued(r.recordId)), w.log);
      FinishUnfolds(policy, lock, Local(w.x.(pendingJobs := w.x.pendingJobs + [r.recordId]), w.log));
    } else {
      assert Flushed(l2) == n;
    }
  }

  class ConversationRuntime {
    const channel: Channel
    const ownerId: OwnerId
    const policy: Policy
    var records: Log
    var nextRecordId: nat
    var pendingJobs: seq<nat>
    var activeJob: Option<Dispatch>
    var armedAfterRecordId: Option<nat>
    var lockLost: bool

    ghost function View(): Instance
      reads this
    {
      Instance(ownerId, Ready, records, nextRecordId, pendingJobs, activeJob, armedAfterRecordId, lockLost, None, Idle)
    }

    ghost function Here(): Local
      reads this, channel
    {
      Local(View(), channel.log)
    }

    constructor (channel: Channel, ownerId: OwnerId, policy: Policy)
      ensures this.channel == channel && this.ownerId == ownerId && this.policy == policy
      ensures View() == NewInstance(ownerId).(phase := Ready)
    {
      this.channel, this.ownerId, this.policy := channel, ownerId, policy;
      records, nextRecordId, pendingJobs, activeJob := [], 1, [], None;
      armedAfterRecordId, lockLost := None, false;
    }

    /** Claims first, then reads the log; `false` when the channel is refused. */
    method Initialize(preempt: bool, holderDead: bool) returns (connected: bool)
      requires View() == NewInstance(ownerId).(phase := Ready)
      modifies this, channel`lock
      ensures connected <==> !Decide(old(channel.lock), ownerId, preempt, holderDead).Refuse?
      ensures connected ==> Holds(channel.lock, ownerId) && View() == Load(channel.log, NewInstance(ownerId))
      ensures !connected ==> channel.lock == old(channel.lock) && View() == old(View())
    {
      var claim := channel.Acquire(ownerId, preempt, holderDead);
      if claim.None? { return false; }
      records := SortById(channel.log);
      var max := 0;
      for k := 0 to |records|
        invariant max == MaxId(records[..k])
      {
        max := Max(max, records[k].recordId);
        assert records[..k + 1][..k] == records[..k];
      }
      assert records[..|records|] == records;
      nextRecordId := max + 1;
      return true;
    }

    method StillOwnsChannel() returns (owns: bool)
      modifies this`lockLost
      ensures View() == StillOwns(channel.lock, old(View())) && owns == !lockLost
    {
      if lockLost { return false; }
      if Holds(channel.lock, ownerId) { return true; }
      lockLost := true;
      return false;
    }

    /** The fenced append: in memory and in the file, or neither. */
    method AppendRecord(record: Record)
      modifies this, channel`log
      ensures Here() == Flushed(Local(Append(channel.lock, old(View()), record), old(channel.log)))
    {
      var owns := StillOwnsChannel();
      if !owns { return; }
      records := records + [record];
      nextRecordId := Max(nextRecordId, record.recordId + 1);
      channel.log := channel.log + [record];
    }

    method ArmAfterCurrentTail()
      modifies this`armedAfterRecordId
      ensures View() == Act(channel.lock, old(View()), Arm)
    {
      armedAfterRecordId := Some(if records == [] then 0 else records[|records| - 1].recordId);
    }

    method GetLastQueuedTriggerRecordId() returns (last: nat)
      ensures last == LastQueued(records)
    {
      last := 0;
      for k := 0 to |records|
        invariant last == LastQueued(records[..k])
      {
        if records[k].JobQueued? { last := Max(last, records[k].triggerRecordId); }
        assert records[..k + 1][..k] == records[..k];
      }
      assert records[..|records|] == records;
    }

    method GetLastCompletedTriggerRecordId() returns (last: nat)
      ensures last == LastSettled(records)
    {
      last := 0;
      for k := 0 to |records|
        invariant last == LastSettled(records[..k])
      {
        assert records[..k + 1][..k] == records[..k];
        if !records[k].JobCompleted? && !records[k].JobFailed? { continue; }
        last := Max(last, records[k].triggerRecordId);
      }
      assert records[..|records|] == records;
    }

    /** Scans from the newest record back. */
    method GetLastCheckpoint() returns (at: Cursor)
      ensures at == CheckpointOrEmpty(records)
    {
      var index := |records|;
      assert records[..index] == records;
      while index > 0
        invariant 0 <= index <= |records|
        invariant LastCheckpoint(records) == LastCheckpoint(records[..index])
      {
        assert records[..index][..index - 1] == records[..index - 1];
        index := index - 1;
        if records[index].Checkpoint? { return records[index].at; }
      }
      return Cursor(None, None);
    }

    method NoteCheckpoint(at: Cursor)
      modifies this, channel`log
      ensures Here() == Flushed(Local(ChatInbox.NoteCheckpoint(channel.lock, old(View()), at), old(channel.log)))
    {
      var previous := GetLastCheckpoint();
      if previous == at { return; }
      AppendRecord(Checkpoint(nextRecordId, at));
    }

    /** Logs the message, then its checkpoint, then queues a job if the sender may trigger one. */
    method IngestInbound(message: Message, checkpoint: Option<Cursor>) returns (jobQueued: bool)
      modifies this, channel`log
      ensures Here() == Finish(policy, channel.lock,
                               Local(Act(channel.lock, old(View()), Ingest(message, checkpoint)), old(channel.log)))
      ensures jobQueued <==> pendingJobs != old(pendingJobs)
    {
      ghost var before := Here();
      FinishIngest(policy, channel.lock, before, message, checkpoint);
      var record := Inbound(nextRecordId, message);
      AppendRecord(record);
      ghost var written := Here();
      assert written == Written(channel.lock, before, record);
      if checkpoint.Some? { NoteCheckpoint(checkpoint.value); }
      ghost var noted := Here();
      assert noted == Noted(channel.lock, written, checkpoint);
      assert pendingJobs == old(pendingJobs);
      assert Ingested(policy, channel.lock, before, message, checkpoint) == Queued(policy, channel.lock, noted, record);
      jobQueued := QueueJob(record);
    }

    method QueueJob(record: Record) returns (jobQueued: bool)
      requires record.Inbound?
      modifies this, channel`log
      ensures Here() == Queued(policy, channel.lock, old(Here()), record)
      ensures jobQueued <==> pendingJobs != old(pendingJobs)
    {
      var queued := GetLastQueuedTriggerRecordId();
      if !ShouldTrigger(policy, record.message) || armedAfterRecordId.None?
         || record.recordId <= Max(armedAfterRecordId.value, queued) {
        return false;
      }
      AppendRecord(JobQueued(nextRecordId, record.recordId));
      pendingJobs := pendingJobs + [record.recordId];
      return true;
    }

    method BuildPrompt(trigger: nat) returns (prompt: Log)
      ensures prompt == InboundBetween(records, LastSettled(records), trigger)
    {
      var completedBoundary := GetLastCompletedTriggerRecordId();
      prompt := [];
      for k := 0 to |records|
        invariant prompt == InboundBetween(records[..k], completedBoundary, trigger)
      {
        assert records[..k + 1][..k] == records[..k];
        if records[k].recordId > completedBoundary && records[k].recordId <= trigger && records[k].Inbound? {
          prompt := prompt + [records[k]];
        }
      }
      assert records[..|records|] == records;
    }

    method BeginNextJob() returns (job: Option<Dispatch>)
      modifies this
      ensures View() == ChatInbox.BeginNextJob(old(View()))
      ensures job == if old(activeJob).Some? || old(pendingJobs) == [] then None else activeJob
    {
      if activeJob.Some? || |pendingJobs| == 0 { return None; }
      var trigger := pendingJobs[0];
      pendingJobs := pendingJobs[1..];
      var prompt := BuildPrompt(trigger);
      activeJob := Some(Dispatch(trigger, prompt));
      return activeJob;
    }

    method CompleteActiveJob(text: string)
      modifies this, channel`log
      ensures Here() == Finish(policy, channel.lock, Local(Act(channel.lock, old(View()), Complete(text)), old(channel.log)))
    {
      if activeJob.None? { return; }
      ghost var l0 := Local(Act(channel.lock, View(), Complete(text)), channel.log);
      if |text| > 0 { AppendRecord(Outbound(nextRecordId, text)); }
      assert Flushed(l0) == Local(View().(op := Completing), channel.log);
      FinishUnfolds(policy, channel.lock, l0);
      ghost var l1 := Local(Continue(policy, channel.lock, Flushed(l0).x), channel.log);
      AppendRecord(JobCompleted(nextRecordId, activeJob.value.triggerRecordId));
      assert Flushed(l1) == Local(View().(op := Settling), channel.log);
      FinishUnfolds(policy, channel.lock, l1);
      activeJob := None;
      FinishUnfolds(policy, channel.lock, Here());
    }

    method FailActiveJob()
      modifies this, channel`log
      ensures Here() == Finish(policy, channel.lock, Local(Act(channel.lock, old(View()), FailJob), old(channel.log)))
    {
      if activeJob.None? { return; }
      AppendRecord(JobFailed(nextRecordId, activeJob.value.triggerRecordId));
      activeJob := None;
    }
  }
}
