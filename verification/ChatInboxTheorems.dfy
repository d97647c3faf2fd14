/** The promises of the chat inbox, over every run of any number of processes. */
module ChatInboxTheorems {
  import opened ChatRecords
  import opened ChatInbox
  import opened ChatInboxSafety
  import opened Wrappers

  /**
    In every disciplined run the ids in the log strictly increase, and a process that owns the channel and
    has loaded holds exactly the file (plus its own append under way), with its next id above all of it.
   */
  lemma LogIsExclusive(policy: Policy, es: seq<Event>)
    requires Disciplined(Init(policy), es)
    ensures Possible(Init(policy), es)
    ensures var s := Run(Init(policy), es);
            && Increasing(s.log)
            && forall i <- s.instances :: Holder(s.lock, s.instances[i]) ==> HoldsExactly(s.instances[i], s.log)
  {
    RunKeepsInv(Init(policy), es);
    var s := Run(Init(policy), es);
    forall i | i in s.instances && Holder(s.lock, s.instances[i]) ensures HoldsExactly(s.instances[i], s.log) {
      InstanceHoldsExactly(s.instances[i], s.log);
    }
  }

  /** The process has the file in memory, with its own append under way, and its next id is above all of it. */
  ghost predicate HoldsExactly(x: Instance, log: Log) {
    && x.records == log + (if x.unflushed.Some? then [x.unflushed.value] else [])
    && forall k :: 0 <= k < |log| ==> log[k].recordId < x.nextRecordId
  }

  lemma InstanceHoldsExactly(x: Instance, log: Log)
    requires InstanceOk(x, log)
    ensures HoldsExactly(x, log)
  {
    MaxIdBounds(x.records);
    assert forall k :: 0 <= k < |log| ==> x.records[k] == log[k];
  }

  function Prompts(settled: seq<Dispatch>): Log {
    if settled == [] then [] else Prompts(settled[..|settled| - 1]) + settled[|settled| - 1].prompt
  }

  lemma {:induction false} PromptsPartition(log: Log, settled: seq<Dispatch>)
    requires Increasing(log) && PromptsOk(log, settled)
    ensures Prompts(settled) == InboundBetween(log, 0, Boundary(settled))
    ensures forall a, b :: 0 <= a < b < |settled| ==> settled[a].triggerRecordId < settled[b].triggerRecordId
    ensures forall a :: 0 <= a < |settled| ==> settled[a].triggerRecordId <= Boundary(settled)
    ensures forall a :: 0 <= a < |settled| ==> EndsAtTrigger(settled[a])
  {
    if settled == [] {
      InboundEmptyRange(log);
    } else {
      var init, job := settled[..|settled| - 1], settled[|settled| - 1];
      PromptsPartition(log, init);
      InboundSplit(log, 0, Boundary(init), job.triggerRecordId);
      var k :| 0 <= k < |log| && log[k].Inbound? && log[k].recordId == job.triggerRecordId;
      InboundEndsAt(log, Boundary(init), k);
      assert EndsAtTrigger(job);
      assert forall a :: 0 <= a < |init| ==> settled[a] == init[a];
    }
  }

  lemma {:induction false} InboundEmptyRange(log: Log)
    ensures InboundBetween(log, 0, 0) == []
  {
    if log != [] { InboundEmptyRange(log[..|log| - 1]); }
  }

  predicate EndsAtTrigger(job: Dispatch) {
    job.prompt != [] && job.prompt[|job.prompt| - 1].Inbound? && job.prompt[|job.prompt| - 1].recordId == job.triggerRecordId
  }

  /**
    Across all handovers: the settlements stand in the log in strictly increasing trigger order, every settled
    prompt ends with its trigger, and the prompts laid end to end are exactly the inbound messages up to the
    last settled trigger. So no message is answered twice and none is skipped.
   */
  lemma EveryMessageInOnePrompt(policy: Policy, es: seq<Event>)
    requires Disciplined(Init(policy), es)
    ensures Possible(Init(policy), es)
    ensures var s := Run(Init(policy), es);
            && SettledTriggers(s.log) == Triggers(s.settled)
            && Prompts(s.settled) == InboundBetween(s.log, 0, LastSettled(s.log))
            && (forall a, b :: 0 <= a < b < |s.settled| ==> s.settled[a].triggerRecordId < s.settled[b].triggerRecordId)
            && (forall a :: 0 <= a < |s.settled| ==> EndsAtTrigger(s.settled[a]))
            && (forall r :: r in Prompts(s.settled) <==> r in s.log && r.Inbound? && 0 < r.recordId <= LastSettled(s.log))
  {
    RunKeepsInv(Init(policy), es);
    var s := Run(Init(policy), es);
    PromptsPartition(s.log, s.settled);
    forall r ensures r in Prompts(s.settled) <==> r in s.log && r.Inbound? && 0 < r.recordId <= LastSettled(s.log) {
      InboundBetweenMembers(s.log, 0, LastSettled(s.log), r);
    }
  }

  /** The records a process holds without the one it has not written yet. */
  function WrittenPart(x: Instance): Log {
    if x.unflushed.Some? && x.records != [] then x.records[..|x.records| - 1] else x.records
  }

  /** What a running process that has loaded has in memory as written is a prefix of the log, owner or not. */
  ghost predicate PrefixOk(x: Instance, log: Log) {
    x.phase.Ready? || x.phase.Releasing? ==> WrittenPart(x) <= log && (x.unflushed.Some? ==> x.records != [])
  }

  ghost predicate PrefixesOk(s: State) { forall i <- s.instances :: PrefixOk(s.instances[i], s.log) }

  /** A step that pushes a record leaves it unwritten; every other step leaves the records alone. */
  ghost predicate PushesAtMostOne(x: Instance, y: Instance) {
    (y.records == x.records && y.unflushed.None?) || (|y.records| == |x.records| + 1 && x.records <= y.records && y.unflushed.Some?)
  }

  lemma ActPushes(lock: Option<Claim>, x: Instance, a: Action)
    requires x.unflushed.None?
    ensures PushesAtMostOne(x, Act(lock, x, a))
  {
  }

  lemma ContinuePushes(policy: Policy, lock: Option<Claim>, x: Instance)
    requires x.unflushed.None?
    ensures PushesAtMostOne(x, Continue(policy, lock, x))
  {
  }

  lemma PushedPrefix(x: Instance, y: Instance, log: Log)
    requires PushesAtMostOne(x, y) && x.unflushed.None? && x.records <= log
    ensures PrefixOk(y, log)
  {
    if y.unflushed.Some? { assert y.records[..|x.records|] == x.records; }
  }

  lemma PutKeepsPrefixes(s: State, i: nat, y: Instance, t: State)
    requires PrefixesOk(s) && t.instances == s.instances[i := y] && s.log <= t.log && PrefixOk(y, t.log)
    ensures PrefixesOk(t)
  {
  }

  lemma FlushKeepsPrefixes(s: State, i: nat)
    requires Inv(s) && PrefixesOk(s) && Enabled(s, Flush(i))
    ensures PrefixesOk(Apply(s, Flush(i)))
  {
    var x, t := s.instances[i], Apply(s, Flush(i));
    assert Current(s.lock, x) && UnderWay(x, s.log);
    assert t.instances[i].records == t.log;
    PutKeepsPrefixes(s, i, t.instances[i], t);
  }

  lemma {:induction false} LoadedPrefix(s: State, i: nat)
    requires Inv(s) && Enabled(s, LoadLog(i))
    ensures PrefixOk(Load(s.log, s.instances[i]), s.log)
  {
    SortOfIncreasing(s.log);
    assert FreshOk(s.instances[i]);
  }

  /** Steps that push no record and read no log. */
  lemma {:induction false} QuietPrefix(s: State, e: Event)
    requires Enabled(s, e) && (e.CheckOwner? || e.ReleaseCheck? || e.AcquireRead? || e.AcquireWrite? || e.Unlink? || e.Crash?)
    requires PrefixOk(s.instances[e.i], s.log)
    ensures PrefixOk(Apply(s, e).instances[e.i], s.log)
  {
    var x, y := s.instances[e.i], Apply(s, e).instances[e.i];
    if y.phase.Ready? || y.phase.Releasing? { assert x.phase.Ready? || x.phase.Releasing?; }
  }

  lemma StepKeepsPrefixes(s: State, e: Event)
    requires Inv(s) && PrefixesOk(s) && Enabled(s, e)
    ensures PrefixesOk(Apply(s, e))
  {
    match e
    case Start(i, o) => PutKeepsPrefixes(s, i, NewInstance(o), Apply(s, e));
    case Flush(i) => FlushKeepsPrefixes(s, i);
    case Do(i, a) =>
      var y := Act(s.lock, s.instances[i], a);
      ActPushes(s.lock, s.instances[i], a);
      PushedPrefix(s.instances[i], y, s.log);
      PutKeepsPrefixes(s, i, y, Apply(s, e));
    case Resume(i) =>
      var y := Continue(s.policy, s.lock, s.instances[i]);
      ContinuePushes(s.policy, s.lock, s.instances[i]);
      PushedPrefix(s.instances[i], y, s.log);
      PutKeepsPrefixes(s, i, y, Apply(s, e));
    case LoadLog(i) =>
      LoadedPrefix(s, i);
      PutKeepsPrefixes(s, i, Load(s.log, s.instances[i]), Apply(s, e));
    case _ =>
      QuietPrefix(s, e);
      PutKeepsPrefixes(s, e.i, Apply(s, e).instances[e.i], Apply(s, e));
  }

  lemma {:induction false} RunKeepsPrefixes(s: State, es: seq<Event>)
    requires Inv(s) && PrefixesOk(s) && Disciplined(s, es)
    ensures Possible(s, es) && PrefixesOk(Run(s, es))
    decreases |es|
  {
    if es != [] {
      StepKeepsInv(s, es[0]);
      StepKeepsPrefixes(s, es[0]);
      RunKeepsPrefixes(Apply(s, es[0]), es[1..]);
    }
  }

  /**
    A handover misses nothing: what any process, evicted or not, holds as written is the beginning of what a
    new holder loads, so the new holder has every checkpoint written before, and resumes from the last of them.
   */
  lemma {:induction false} HandoverResumesAtLastCheckpoint(policy: Policy, es: seq<Event>, i: nat)
    requires Disciplined(Init(policy), es + [LoadLog(i)])
    ensures Disciplined(Init(policy), es) && Possible(Init(policy), es) && Enabled(Run(Init(policy), es), LoadLog(i))
    ensures var s := Run(Init(policy), es);
            var loaded := Apply(s, LoadLog(i)).instances[i].records;
            && loaded == s.log && LastCheckpoint(loaded) == LastCheckpoint(s.log)
            && forall j <- s.instances :: s.instances[j].phase.Ready? || s.instances[j].phase.Releasing? ==>
                 WrittenPart(s.instances[j]) <= loaded
  {
    SplitRun(Init(policy), es, LoadLog(i));
    RunKeepsInv(Init(policy), es);
    RunKeepsPrefixes(Init(policy), es);
    SortOfIncreasing(Run(Init(policy), es).log);
  }

  lemma {:induction false} SplitRun(s: State, es: seq<Event>, e: Event)
    requires Disciplined(s, es + [e])
    ensures Disciplined(s, es) && Possible(s, es) && Enabled(Run(s, es), e)
    ensures e.LoadLog? ==> MayLoad(Run(s, es), e.i)
    decreases |es|
  {
    if es == [] {
      assert (es + [e])[0] == e;
    } else {
      assert (es + [e])[0] == es[0] && (es + [e])[1..] == es[1..] + [e];
      SplitRun(Apply(s, es[0]), es[1..], e);
    }
  }

  // ---------------------------------------------------------------- the discipline is exact

  /** The run that goes wrong when process `i` loads while the append of `j` is still under way. */
  function Clash(i: nat, j: nat): seq<Event> {
    [Do(i, AppendError("")), Flush(j), Flush(i)]
  }

  /** A loader that owns the channel goes on with the very id the late write has already taken. */
  lemma {:induction false} LoaderMeetsLateWrite(s: State, i: nat, j: nat)
    requires Inv(s) && Enabled(s, LoadLog(i)) && Holds(s.lock, s.instances[i].ownerId)
    requires j in s.instances && s.instances[j].unflushed.Some?
    ensures var z := s.instances[j];
            var y := Load(s.log, s.instances[i]);
            && i != j && z.phase.Ready? && !y.lockLost && y.op.Idle? && y.unflushed.None?
            && y.nextRecordId == z.unflushed.value.recordId
  {
    assert Current(s.lock, s.instances[j]) && UnderWay(s.instances[j], s.log) && FreshOk(s.instances[i]);
    SortOfIncreasing(s.log);
  }

  lemma {:induction false} LateWriteClashes(s: State, i: nat, j: nat)
    requires Inv(s) && Enabled(s, LoadLog(i)) && Holds(s.lock, s.instances[i].ownerId)
    requires j in s.instances && s.instances[j].unflushed.Some?
    ensures var t := Apply(s, LoadLog(i));
            && Disciplined(t, Clash(i, j)) && Possible(t, Clash(i, j))
            && !Increasing(Run(t, Clash(i, j)).log)
  {
    LoaderMeetsLateWrite(s, i, j);
    var t := Apply(s, LoadLog(i));
    ClashRuns(t, i, j);
    var n := |s.log|;
    var log := Run(t, Clash(i, j)).log;
    assert log[n].recordId == log[n + 1].recordId;
  }

  lemma ClashRuns(t: State, i: nat, j: nat)
    requires i in t.instances && j in t.instances && i != j
    requires Enabled(t, Do(i, AppendError(""))) && Enabled(t, Flush(j))
    requires var y := t.instances[i]; Holds(t.lock, y.ownerId) && !y.lockLost
    ensures Disciplined(t, Clash(i, j)) && Possible(t, Clash(i, j))
    ensures Run(t, Clash(i, j)).log == t.log + [t.instances[j].unflushed.value, ErrorNote(t.instances[i].nextRecordId, "")]
  {
    var es := Clash(i, j);
    var t1 := Apply(t, es[0]);
    assert es[1..] == [Flush(j), Flush(i)];
    var t2 := Apply(t1, Flush(j));
    assert es[1..][1..] == [Flush(i)];
    var t3 := Apply(t2, Flush(i));
    assert [Flush(i)][1..] == [];
    assert Disciplined(t2, [Flush(i)]) && Disciplined(t1, es[1..]);
    RunOfThree(t, es[0], es[1], es[2]);
    assert t3.log == t.log + [t.instances[j].unflushed.value] + [ErrorNote(t.instances[i].nextRecordId, "")];
  }

  function OwnerAppending(a: OwnerId): Instance {
    NewInstance(a).(phase := Ready, records := [ErrorNote(1, "")], nextRecordId := 2, unflushed := Some(ErrorNote(1, "")))
  }

  /** The first process owns an empty channel and is in the middle of an append. */
  function Appending(policy: Policy, a: OwnerId): State {
    State(policy, Some(Claim(a, 1)), [], map[0 := OwnerAppending(a)], [])
  }

  /** The second has claimed the channel over it. */
  function Overtaken(policy: Policy, a: OwnerId, b: OwnerId): State {
    State(policy, Some(Claim(b, 2)), [], map[0 := OwnerAppending(a), 1 := NewInstance(b).(phase := Loading)], [])
  }

  function FirstOwner(a: OwnerId): seq<Event> {
    [Start(0, a)] + ([AcquireRead(0, false, false)] + ([AcquireWrite(0)] + ([LoadLog(0)] + ([Do(0, AppendError(""))] + []))))
  }

  function SecondOwner(b: OwnerId): seq<Event> {
    [Start(1, b)] + ([AcquireRead(1, true, false)] + ([AcquireWrite(1)] + []))
  }

  ghost predicate Leads(s: State, es: seq<Event>, t: State) {
    Disciplined(s, es) && Possible(s, es) && Run(s, es) == t
  }

  lemma AppendsFirst(lock: Option<Claim>, a: OwnerId)
    requires Holds(lock, a)
    ensures Act(lock, NewInstance(a).(phase := Ready), AppendError("")) == OwnerAppending(a)
  {
    assert [] + [ErrorNote(1, "")] == [ErrorNote(1, "")];
  }

  /** The first process has claimed the empty channel. */
  function Claimed(policy: Policy, a: OwnerId): State {
    State(policy, Some(Claim(a, 1)), [], map[0 := NewInstance(a).(phase := Loading)], [])
  }

  lemma {:induction false} FirstAppends(policy: Policy, a: OwnerId)
    ensures Leads(Claimed(policy, a), [LoadLog(0)] + ([Do(0, AppendError(""))] + []), Appending(policy, a))
  {
    var s := Apply(Claimed(policy, a), LoadLog(0));
    assert s.instances == map[0 := NewInstance(a).(phase := Ready)];
    AppendsFirst(s.lock, a);
    assert s.instances[0 := OwnerAppending(a)] == map[0 := OwnerAppending(a)];
    assert Apply(s, Do(0, AppendError(""))) == Appending(policy, a);
    LeadsCons(s, Do(0, AppendError("")), [], Appending(policy, a));
    LeadsCons(Claimed(policy, a), LoadLog(0), [Do(0, AppendError(""))] + [], Appending(policy, a));
  }

  lemma {:induction false} FirstOwnerRuns(policy: Policy, a: OwnerId)
    ensures Leads(Init(policy), FirstOwner(a), Appending(policy, a))
  {
    var s1 := Apply(Init(policy), Start(0, a));
    var s2 := Apply(s1, AcquireRead(0, false, false));
    assert Apply(s2, AcquireWrite(0)) == Claimed(policy, a);
    var rest := [LoadLog(0)] + ([Do(0, AppendError(""))] + []);
    FirstAppends(policy, a);
    LeadsCons(s2, AcquireWrite(0), rest, Appending(policy, a));
    LeadsCons(s1, AcquireRead(0, false, false), [AcquireWrite(0)] + rest, Appending(policy, a));
    LeadsCons(Init(policy), Start(0, a), [AcquireRead(0, false, false)] + ([AcquireWrite(0)] + rest), Appending(policy, a));
  }

  lemma {:induction false} SecondOwnerRuns(policy: Policy, a: OwnerId, b: OwnerId)
    requires a != b
    ensures Leads(Appending(policy, a), SecondOwner(b), Overtaken(policy, a, b))
  {
    var s := Appending(policy, a);
    var s1 := Apply(s, Start(1, b));
    var s2 := Apply(s1, AcquireRead(1, true, false));
    assert Apply(s2, AcquireWrite(1)) == Overtaken(policy, a, b);
    LeadsCons(s2, AcquireWrite(1), [], Overtaken(policy, a, b));
    LeadsCons(s1, AcquireRead(1, true, false), [AcquireWrite(1)] + [], Overtaken(policy, a, b));
    LeadsCons(s, Start(1, b), [AcquireRead(1, true, false)] + ([AcquireWrite(1)] + []), Overtaken(policy, a, b));
  }

  /**
    The clash occurs: from the very start an ordinary run leads to a second process about to load while the
    first one's append is under way, and goes on to a log with one id twice.
   */
  lemma {:induction false} LateWriteOccurs(policy: Policy, a: OwnerId, b: OwnerId)
    requires a != b
    ensures Leads(Init(policy), FirstOwner(a) + SecondOwner(b), Overtaken(policy, a, b))
    ensures var s := Overtaken(policy, a, b);
            && Enabled(s, LoadLog(1)) && !MayLoad(s, 1)
            && var t := Apply(s, LoadLog(1));
               Possible(t, Clash(1, 0)) && Run(t, Clash(1, 0)).log == [ErrorNote(1, ""), ErrorNote(1, "")]
  {
    FirstOwnerRuns(policy, a);
    SecondOwnerRuns(policy, a, b);
    LeadsOn(Init(policy), FirstOwner(a), Appending(policy, a), SecondOwner(b), Overtaken(policy, a, b));
    ClashFollows(policy, a, b);
  }

  lemma {:induction false} ClashFollows(policy: Policy, a: OwnerId, b: OwnerId)
    requires a != b
    ensures var s := Overtaken(policy, a, b);
            && Enabled(s, LoadLog(1)) && !MayLoad(s, 1)
            && var t := Apply(s, LoadLog(1));
               Possible(t, Clash(1, 0)) && Run(t, Clash(1, 0)).log == [ErrorNote(1, ""), ErrorNote(1, "")]
  {
    var s := Overtaken(policy, a, b);
    assert s.instances[0].unflushed.Some?;
    ClashRuns(Apply(s, LoadLog(1)), 1, 0);
  }

  lemma {:induction false} LeadsCons(s: State, e: Event, es: seq<Event>, t: State)
    requires Enabled(s, e) && (e.LoadLog? ==> MayLoad(s, e.i)) && Leads(Apply(s, e), es, t)
    ensures Leads(s, [e] + es, t)
  {
    assert ([e] + es)[1..] == es;
  }

  lemma {:induction false} LeadsOn(s: State, es: seq<Event>, t: State, more: seq<Event>, u: State)
    requires Leads(s, es, t) && Leads(t, more, u)
    ensures Leads(s, es + more, u)
    decreases |es|
  {
    if es == [] {
      assert es + more == more;
    } else {
      assert es + more == [es[0]] + (es[1..] + more);
      LeadsOn(Apply(s, es[0]), es[1..], t, more, u);
      LeadsCons(s, es[0], es[1..] + more, u);
    }
  }

  ghost predicate SafeFrom(t: State) {
    forall es | Disciplined(t, es) :: Possible(t, es) && Increasing(Run(t, es).log)
  }

  /** Loading keeps every continuation safe exactly when no append is under way or the loader has lost the channel. */
  lemma LoadSafeExactlyWhenDrained(s: State, i: nat)
    requires Inv(s) && Enabled(s, LoadLog(i))
    ensures SafeFrom(Apply(s, LoadLog(i))) <==> MayLoad(s, i)
  {
    var t := Apply(s, LoadLog(i));
    if MayLoad(s, i) {
      StepKeepsInv(s, LoadLog(i));
      forall es | Disciplined(t, es) ensures Possible(t, es) && Increasing(Run(t, es).log) {
        RunKeepsInv(t, es);
      }
    } else {
      var j :| j in s.instances && s.instances[j].unflushed.Some?;
      LateWriteClashes(s, i, j);
    }
  }

  /** Runs in which the fence and the write of an append are one step. */
  ghost predicate AtomicAppends(s: State, es: seq<Event>)
    decreases |es|
  {
    es == [] ||
    (Enabled(s, es[0])
     && (forall j <- s.instances :: s.instances[j].unflushed.Some? ==> es[0] == Flush(j) || es[0] == Crash(j))
     && AtomicAppends(Apply(s, es[0]), es[1..]))
  }

  /** Were fence and write one step, every run would be disciplined. */
  lemma {:induction false} AtomicAppendsAreDisciplined(s: State, es: seq<Event>)
    requires AtomicAppends(s, es)
    ensures Disciplined(s, es)
    decreases |es|
  {
    if es != [] {
      AtomicAppendsAreDisciplined(Apply(s, es[0]), es[1..]);
    }
  }
}
