/**
  Many processes compete for one chat channel through a claim file and share one append-only log.

  Every asynchronous operation of the source is cut at its awaits, so that steps of different
  processes interleave between any two of them. In particular the ownership check of an append and the
  append itself are two steps (`Local` fences and pushes in memory, `Flush` writes the line), and so are
  the read and the rename of a claim.
 */
module ChatInbox {
  import opened ChatRecords
  import opened Wrappers

  /** Owner ids are only ever compared; whether an owner's process is alive is a parameter of acquiring. */
  type OwnerId = nat

  datatype Claim = Claim(ownerId: OwnerId, epoch: nat)

  /** A job handed to the agent: its trigger and the inbound records its prompt is built from. */
  datatype Dispatch = Dispatch(triggerRecordId: nat, prompt: Log)

  datatype Phase = Starting | Claiming(epoch: nat) | Loading | Ready | Releasing | Retired

  /** Where a running operation continues after its current append has been written. */
  datatype Op =
    | Idle
    | AfterInbound(record: Record, checkpoint: Option<Cursor>)
    | AfterCheckpoint(record: Record)
    | AfterQueued(trigger: nat)
    | Completing
    | Settling

  datatype Instance = Instance(
    ownerId: OwnerId, phase: Phase, records: Log, nextRecordId: nat, pendingJobs: seq<nat>,
    activeJob: Option<Dispatch>, armedAfter: Option<nat>, lockLost: bool, unflushed: Option<Record>, op: Op)

  function NewInstance(ownerId: OwnerId): Instance {
    Instance(ownerId, Starting, [], 1, [], None, None, false, None, Idle)
  }

  // ---------------------------------------------------------------- one process

  predicate Holds(lock: Option<Claim>, ownerId: OwnerId) {
    lock.Some? && lock.value.ownerId == ownerId
  }

  /** The ownership check, with its latch: once the channel is lost it stays lost. */
  function StillOwns(lock: Option<Claim>, x: Instance): Instance {
    if x.lockLost || Holds(lock, x.ownerId) then x else x.(lockLost := true)
  }

  /** A fenced append up to the write: refused quietly when the channel is lost. */
  function Append(lock: Option<Claim>, x: Instance, r: Record): Instance {
    var y := StillOwns(lock, x);
    if y.lockLost then y
    else y.(records := y.records + [r], nextRecordId := Max(y.nextRecordId, r.recordId + 1), unflushed := Some(r))
  }

  function Load(log: Log, x: Instance): Instance {
    var records := SortById(log);
    x.(phase := Ready, records := records, nextRecordId := MaxId(records) + 1)
  }

  function TailId(records: Log): nat {
    if records == [] then 0 else records[|records| - 1].recordId
  }

  predicate ShouldQueue(x: Instance, recordId: nat) {
    x.armedAfter.Some? && recordId > Max(x.armedAfter.value, LastQueued(x.records))
  }

  function CheckpointOrEmpty(records: Log): Cursor {
    var c := LastCheckpoint(records);
    if c.Some? then c.value else Cursor(None, None)
  }

  function NoteCheckpoint(lock: Option<Claim>, x: Instance, at: Cursor): Instance {
    if CheckpointOrEmpty(x.records) == at then x else Append(lock, x, Checkpoint(x.nextRecordId, at))
  }

  function BeginIngest(lock: Option<Claim>, x: Instance, m: Message, at: Option<Cursor>): Instance {
    var r := Inbound(x.nextRecordId, m);
    Append(lock, x, r).(op := AfterInbound(r, at))
  }

  function BeginNextJob(x: Instance): Instance {
    if x.activeJob.Some? || x.pendingJobs == [] then x
    else
      var t := x.pendingJobs[0];
      x.(pendingJobs := x.pendingJobs[1..],
         activeJob := Some(Dispatch(t, InboundBetween(x.records, LastSettled(x.records), t))))
  }

  function BeginComplete(lock: Option<Claim>, x: Instance, text: string): Instance {
    if x.activeJob.None? then x
    else if text == [] then x.(op := Completing)
    else Append(lock, x, Outbound(x.nextRecordId, text)).(op := Completing)
  }

  function Fail(lock: Option<Claim>, x: Instance): Instance {
    if x.activeJob.None? then x
    else Append(lock, x, JobFailed(x.nextRecordId, x.activeJob.value.triggerRecordId)).(op := Settling)
  }

  /** The next piece of a running operation. */
  function Continue(policy: Policy, lock: Option<Claim>, x: Instance): Instance {
    match x.op
    case Idle => x
    case AfterInbound(r, at) =>
      (if at.Some? then NoteCheckpoint(lock, x, at.value) else x).(op := AfterCheckpoint(r))
    case AfterCheckpoint(r) =>
      if r.Inbound? && ShouldTrigger(policy, r.message) && ShouldQueue(x, r.recordId) then
        Append(lock, x, JobQueued(x.nextRecordId, r.recordId)).(op := AfterQueued(r.recordId))
      else x.(op := Idle)
    case AfterQueued(t) => x.(pendingJobs := x.pendingJobs + [t], op := Idle)
    case Completing =>
      if x.activeJob.None? then x.(op := Idle)
      else Append(lock, x, JobCompleted(x.nextRecordId, x.activeJob.value.triggerRecordId)).(op := Settling)
    case Settling => x.(activeJob := None, op := Idle)
  }

  datatype Action =
    | Ingest(message: Message, checkpoint: Option<Cursor>)
    | BeginJob
    | Complete(text: string)
    | FailJob
    | Note(at: Cursor)
    | AppendError(text: string)
    | Arm

  function Act(lock: Option<Claim>, x: Instance, a: Action): Instance {
    match a
    case Ingest(m, at) => BeginIngest(lock, x, m, at)
    case BeginJob => BeginNextJob(x)
    case Complete(text) => BeginComplete(lock, x, text)
    case FailJob => Fail(lock, x)
    case Note(at) => NoteCheckpoint(lock, x, at)
    case AppendError(text) => Append(lock, x, ErrorNote(x.nextRecordId, text))
    case Arm => x.(armedAfter := Some(TailId(x.records)))
  }

  /** What acquiring decides from the claim it read. */
  datatype Decision = Take(epoch: nat) | Adopt | Refuse

  function Decide(lock: Option<Claim>, ownerId: OwnerId, preempt: bool, holderDead: bool): Decision {
    match lock
    case None => Take(1)
    case Some(c) =>
      if c.ownerId == ownerId then Adopt
      else if preempt || holderDead then Take(c.epoch + 1)
      else Refuse
  }

  // ---------------------------------------------------------------- all processes

  datatype State = State(
    policy: Policy, lock: Option<Claim>, log: Log, instances: map<nat, Instance>,
    settled: seq<Dispatch>)   // history: the jobs settled in the log, with their prompts

  function Init(policy: Policy): State { State(policy, None, [], map[], []) }

  datatype Event =
    | Start(i: nat, ownerId: OwnerId)
    | AcquireRead(i: nat, preempt: bool, holderDead: bool)
    | AcquireWrite(i: nat)
    | LoadLog(i: nat)
    | Do(i: nat, action: Action)
    | Resume(i: nat)
    | Flush(i: nat)
    | CheckOwner(i: nat)
    | ReleaseCheck(i: nat)
    | Unlink(i: nat)
    | Crash(i: nat)

  /** A process that can still believe it owns the channel. */
  predicate Live(x: Instance) { !x.phase.Retired? && !x.phase.Releasing? && !x.lockLost }

  predicate Enabled(s: State, e: Event) {
    if e.Start? then
      // Owner ids are unique among live processes.
      e.i !in s.instances && forall j <- s.instances :: Live(s.instances[j]) ==> s.instances[j].ownerId != e.ownerId
    else
      e.i in s.instances &&
      var x := s.instances[e.i];
      match e
      case AcquireRead(_, _, _) => x.phase.Starting?
      case AcquireWrite(_) => x.phase.Claiming?
      case LoadLog(_) => x.phase.Loading?
      case Do(_, _) => x.phase.Ready? && x.unflushed.None? && x.op.Idle?
      case Resume(_) => x.phase.Ready? && x.unflushed.None? && !x.op.Idle?
      case Flush(_) => x.phase.Ready? && x.unflushed.Some?
      case CheckOwner(_) => x.phase.Ready?
      case ReleaseCheck(_) => x.phase.Ready? && x.unflushed.None?
      case Unlink(_) => x.phase.Releasing?
      case Crash(_) => true
  }

  function Put(s: State, i: nat, x: Instance): State { s.(instances := s.instances[i := x]) }

  function Apply(s: State, e: Event): State
    requires Enabled(s, e)
  {
    if e.Start? then Put(s, e.i, NewInstance(e.ownerId))
    else
      var x := s.instances[e.i];
      match e
      case AcquireRead(i, preempt, dead) =>
        (match Decide(s.lock, x.ownerId, preempt, dead)
         case Take(epoch) => Put(s, i, x.(phase := Claiming(epoch)))
         case Adopt => Put(s, i, x.(phase := Loading))
         case Refuse => Put(s, i, x.(phase := Retired)))
      case AcquireWrite(i) => Put(s, i, x.(phase := Loading)).(lock := Some(Claim(x.ownerId, x.phase.epoch)))
      case LoadLog(i) => Put(s, i, Load(s.log, x))
      case Do(i, a) => Put(s, i, Act(s.lock, x, a))
      case Resume(i) => Put(s, i, Continue(s.policy, s.lock, x))
      case Flush(i) =>
        var r := x.unflushed.value;
        Put(s, i, x.(unflushed := None)).(
          log := s.log + [r],
          settled := s.settled + if IsSettle(r) && x.activeJob.Some? then [x.activeJob.value] else [])
      case CheckOwner(i) => Put(s, i, StillOwns(s.lock, x))
      case ReleaseCheck(i) => Put(s, i, x.(phase := if Holds(s.lock, x.ownerId) then Releasing else Retired))
      case Unlink(i) => Put(s, i, x.(phase := Retired)).(lock := None)
      // A write that was not issued yet is lost with the process.
      case Crash(i) => Put(s, i, x.(phase := Retired, unflushed := None))
  }

  /** No append is between its fence and its write. */
  ghost predicate Drained(s: State) {
    forall j <- s.instances :: s.instances[j].unflushed.None?
  }

  /** A process may read the log: no append is under way, or the process has already lost the channel. */
  ghost predicate MayLoad(s: State, i: nat) {
    Drained(s) || (i in s.instances && !Holds(s.lock, s.instances[i].ownerId))
  }

  /** Runs in which the owner of the channel reads the log only while no append is under way. */
  ghost predicate Disciplined(s: State, es: seq<Event>)
    decreases |es|
  {
    es == [] ||
    (Enabled(s, es[0]) && (es[0].LoadLog? ==> MayLoad(s, es[0].i)) && Disciplined(Apply(s, es[0]), es[1..]))
  }

  /** Any run at all. */
  ghost predicate Possible(s: State, es: seq<Event>)
    decreases |es|
  {
    es == [] || (Enabled(s, es[0]) && Possible(Apply(s, es[0]), es[1..]))
  }

  ghost function Run(s: State, es: seq<Event>): State
    requires Possible(s, es)
    decreases |es|
  {
    if es == [] then s else Run(Apply(s, es[0]), es[1..])
  }

  lemma {:induction false} RunStep(s: State, e: Event, es: seq<Event>)
    requires Enabled(s, e) && Possible(Apply(s, e), es)
    ensures Possible(s, [e] + es) && Run(s, [e] + es) == Run(Apply(s, e), es)
  {
    assert ([e] + es)[1..] == es;
  }

  lemma {:induction false} RunOfThree(s: State, a: Event, b: Event, c: Event)
    requires Enabled(s, a) && Enabled(Apply(s, a), b) && Enabled(Apply(Apply(s, a), b), c)
    ensures Possible(s, [a, b, c]) && Run(s, [a, b, c]) == Apply(Apply(Apply(s, a), b), c)
  {
    var s2 := Apply(Apply(s, a), b);
    RunStep(s2, c, []);
    RunStep(Apply(s, a), b, [c]);
    RunStep(s, a, [b, c]);
    assert [c] + [] == [c] && [b] + [c] == [b, c] && [a] + [b, c] == [a, b, c];
  }
}
