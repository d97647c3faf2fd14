/** Processes mutate one settings file under a lock directory that can be taken for stale after ten seconds. */
module SettingsLock {
  import opened SkillRules
  import opened SkillEditor
  import opened SkillToggle
  import opened Wrappers

  const STALE_MS := 10000
  const MAX_ATTEMPTS := 750

  datatype Request = Request(target: Target, enabled: bool)

  /** What a critical section makes of the list it has read. */
  type Edit = (seq<string>, Request) -> seq<string>

  /** The critical section that switches a skill or a group. */
  function Toggling(env: Env): Edit {
    (skills: seq<string>, r: Request) => NextSkills(env, skills, r.target, r.enabled)
  }

  datatype Phase =
    | Waiting(attempt: nat)              // about to mkdir
    | Checking(attempt: nat)             // mkdir found the directory there, about to stat it
    | Clearing(attempt: nat)             // judged it stale, about to rmdir it
    | Entered(since: nat)                // holds the lock, has not read yet
    | Loaded(since: nat, read: seq<string>)
    | Leaving(since: nat)                // has written (or given up), about to rmdir
    | Finished
    | TimedOut

  datatype Process = Process(request: Request, phase: Phase)

  datatype State = State(
    now: nat, lockDir: Option<nat>, skills: seq<string>, processes: map<nat, Process>)

  datatype Event =
    | Tick(now: nat)
    | Begin(i: nat, request: Request)
    | Mkdir(i: nat)
    | Stat(i: nat)
    | ClearStale(i: nat)
    | Read(i: nat)
    | Write(i: nat)
    | Abort(i: nat)
    | Rmdir(i: nat)

  predicate Critical(p: Phase) { p.Entered? || p.Loaded? || p.Leaving? }

  predicate Enabled(s: State, e: Event) {
    match e
    case Tick(now) => s.now <= now
    case Begin(i, _) => i !in s.processes
    case Mkdir(i) => i in s.processes && s.processes[i].phase.Waiting?
    case Stat(i) => i in s.processes && s.processes[i].phase.Checking?
    case ClearStale(i) => i in s.processes && s.processes[i].phase.Clearing?
    case Read(i) => i in s.processes && s.processes[i].phase.Entered?
    case Write(i) => i in s.processes && s.processes[i].phase.Loaded?
    case Abort(i) => i in s.processes && (s.processes[i].phase.Entered? || s.processes[i].phase.Loaded?)
    case Rmdir(i) => i in s.processes && s.processes[i].phase.Leaving?
  }

  function Move(s: State, i: nat, phase: Phase): State
    requires i in s.processes
  {
    s.(processes := s.processes[i := s.processes[i].(phase := phase)])
  }

  function Retry(attempt: nat): Phase {
    if attempt + 1 < MAX_ATTEMPTS then Waiting(attempt + 1) else TimedOut
  }

  function Apply(edit: Edit, s: State, e: Event): State
    requires Enabled(s, e)
  {
    match e
    case Tick(now) => s.(now := now)
    case Begin(i, r) => s.(processes := s.processes[i := Process(r, Waiting(0))])
    case Mkdir(i) =>
      if s.lockDir.None? then Move(s, i, Entered(s.now)).(lockDir := Some(s.now))
      else Move(s, i, Checking(s.processes[i].phase.attempt))
    case Stat(i) =>
      var attempt := s.processes[i].phase.attempt;
      if s.lockDir.Some? && s.lockDir.value + STALE_MS < s.now then Move(s, i, Clearing(attempt))
      else Move(s, i, Retry(attempt))
    case ClearStale(i) => Move(s, i, Retry(s.processes[i].phase.attempt)).(lockDir := None)
    case Read(i) => Move(s, i, Loaded(s.processes[i].phase.since, s.skills))
    case Write(i) =>
      var p := s.processes[i];
      Move(s, i, Leaving(p.phase.since)).(skills := edit(p.phase.read, p.request))
    case Abort(i) => Move(s, i, Leaving(s.processes[i].phase.since))
    case Rmdir(i) => Move(s, i, Finished).(lockDir := None)
  }

  /** No holder has kept the lock past the staleness bound. */
  ghost predicate Timely(s: State) {
    forall i <- s.processes :: Critical(s.processes[i].phase) ==> s.now <= s.processes[i].phase.since + 10000
  }

  function Init(skills: seq<string>): State { State(0, None, skills, map[]) }

  function Run(edit: Edit, s: State, es: seq<Event>): Option<State>
    decreases |es|
  {
    if es == [] then Some(s)
    else if Enabled(s, es[0]) then Run(edit, Apply(edit, s, es[0]), es[1..])
    else None
  }

  /** Every state along the run is timely. */
  ghost predicate TimelyRun(edit: Edit, s: State, es: seq<Event>)
    decreases |es|
  {
    Timely(s) && (es == [] || (Enabled(s, es[0]) && TimelyRun(edit, Apply(edit, s, es[0]), es[1..])))
  }

  /** The edits of these requests, one on top of the other. */
  function Fold(edit: Edit, skills: seq<string>, requests: seq<Request>): seq<string> {
    if requests == [] then skills
    else
      edit(Fold(edit, skills, requests[..|requests| - 1]), requests[|requests| - 1])
  }

  // ---------------------------------------------------------------- what a run's events tell by themselves

  /** What a process was started with. */
  function Asked(es: seq<Event>, i: nat): Option<Request> {
    if es == [] then None
    else
      var e := es[|es| - 1];
      if e.Begin? && e.i == i then Some(e.request) else Asked(es[..|es| - 1], i)
  }

  /** The processes that wrote, in that order. */
  function Writers(es: seq<Event>): seq<nat> {
    if es == [] then []
    else Writers(es[..|es| - 1]) + if es[|es| - 1].Write? then [es[|es| - 1].i] else []
  }

  /** Their requests. */
  function WrittenRequests(es: seq<Event>): seq<Request> {
    if es == [] then []
    else
      var init, e := es[..|es| - 1], es[|es| - 1];
      WrittenRequests(init) + if e.Write? && Asked(init, e.i).Some? then [Asked(init, e.i).value] else []
  }

  // ---------------------------------------------------------------- what timely runs keep

  /** How many times a process that still waits has tried in vain. */
  function Attempt(p: Phase): nat {
    match p
    case Waiting(attempt) => attempt
    case Checking(attempt) => attempt
    case Clearing(attempt) => attempt
    case _ => 0
  }

  ghost predicate Holds(s: State, i: nat) { i in s.processes && Critical(s.processes[i].phase) }

  ghost predicate AtMostOneHolder(s: State) { forall i, j :: Holds(s, i) && Holds(s, j) ==> i == j }

  ghost predicate Inv(s: State) {
    && AtMostOneHolder(s)
    && (s.lockDir.Some? <==> exists i :: Holds(s, i))
    && (forall i :: Holds(s, i) ==> s.lockDir == Some(s.processes[i].phase.since) && s.processes[i].phase.since <= s.now)
    && (forall i <- s.processes :: !s.processes[i].phase.Clearing?)
    && (forall i <- s.processes :: s.processes[i].phase.Loaded? ==> s.processes[i].phase.read == s.skills)
    && (forall i <- s.processes :: Attempt(s.processes[i].phase) < 750)
  }

  lemma MoveFrame(s: State, i: nat, phase: Phase)
    requires i in s.processes
    ensures forall j :: j != i ==> (Holds(Move(s, i, phase), j) <==> Holds(s, j))
    ensures Holds(Move(s, i, phase), i) <==> Critical(phase)
    ensures forall j :: j != i && j in s.processes ==> Move(s, i, phase).processes[j] == s.processes[j]
  {
  }

  /** A step of a process that neither enters nor leaves. */
  lemma OutsideStep(s: State, i: nat, phase: Phase)
    requires Inv(s) && i in s.processes && !Holds(s, i) && !Critical(phase) && !phase.Clearing?
    requires Attempt(phase) < 750
    ensures Inv(Move(s, i, phase))
  {
    MoveFrame(s, i, phase);
    var t := Move(s, i, phase);
    if s.lockDir.Some? {
      var h :| Holds(s, h);
      assert Holds(t, h);
    }
  }

  lemma EnterStep(edit: Edit, s: State, i: nat)
    requires Inv(s) && Enabled(s, Mkdir(i)) && s.lockDir.None?
    ensures Inv(Apply(edit, s, Mkdir(i)))
  {
    MoveFrame(s, i, Entered(s.now));
    assert forall j :: !Holds(s, j);
    assert Holds(Apply(edit, s, Mkdir(i)), i);
  }

  /** The holder reads, or gives up: it stays the holder. */
  lemma ReadStep(s: State, i: nat, phase: Phase)
    requires Inv(s) && Holds(s, i) && Critical(phase)
    requires phase.since == s.processes[i].phase.since && (phase.Loaded? ==> phase.read == s.skills)
    ensures Inv(Move(s, i, phase))
  {
    MoveFrame(s, i, phase);
    assert Holds(Move(s, i, phase), i);
  }

  /** The holder writes what it made of the list it has read, which is still the list. */
  lemma WriteStep(edit: Edit, s: State, i: nat)
    requires Inv(s) && Enabled(s, Write(i))
    ensures Inv(Apply(edit, s, Write(i)))
  {
    var p := s.processes[i];
    assert Holds(s, i);
    MoveFrame(s, i, Leaving(p.phase.since));
    assert Holds(Apply(edit, s, Write(i)), i);
    var t := Apply(edit, s, Write(i));
    forall j | Holds(t, j) ensures j == i {
      if j != i { assert Holds(s, j); }
    }
  }

  lemma LeaveStep(edit: Edit, s: State, i: nat)
    requires Inv(s) && Enabled(s, Rmdir(i))
    ensures Inv(Apply(edit, s, Rmdir(i)))
  {
    assert Holds(s, i);
    MoveFrame(s, i, Finished);
    var t := Apply(edit, s, Rmdir(i));
    forall j ensures !Holds(t, j) {
      assert Holds(s, j) ==> j == i;
    }
  }

  lemma BeginStep(edit: Edit, s: State, i: nat, r: Request)
    requires Inv(s) && i !in s.processes
    ensures Inv(Apply(edit, s, Begin(i, r)))
  {
    var t := Apply(edit, s, Begin(i, r));
    assert forall j :: Holds(t, j) <==> Holds(s, j);
  }

  lemma TickStep(edit: Edit, s: State, now: nat)
    requires Inv(s) && s.now <= now
    ensures Inv(Apply(edit, s, Tick(now)))
  {
    assert forall j :: Holds(Apply(edit, s, Tick(now)), j) <==> Holds(s, j);
  }

  lemma StepKeepsInv(edit: Edit, s: State, e: Event)
    requires Inv(s) && Timely(s) && Enabled(s, e)
    ensures Inv(Apply(edit, s, e))
  {
    match e
    case Tick(now) => TickStep(edit, s, now);
    case Begin(i, r) => BeginStep(edit, s, i, r);
    case Mkdir(i) =>
      if s.lockDir.None? { EnterStep(edit, s, i); }
      else { OutsideStep(s, i, Checking(s.processes[i].phase.attempt)); }
    case Stat(i) =>
      if s.lockDir.Some? {
        var h :| Holds(s, h);
        assert s.lockDir.value + STALE_MS >= s.now;
      }
      OutsideStep(s, i, Retry(s.processes[i].phase.attempt));
    case ClearStale(i) =>
      assert false;
    case Read(i) => ReadStep(s, i, Loaded(s.processes[i].phase.since, s.skills));
    case Write(i) => WriteStep(edit, s, i);
    case Abort(i) => ReadStep(s, i, Leaving(s.processes[i].phase.since));
    case Rmdir(i) => LeaveStep(edit, s, i);
  }

  lemma {:induction false} RunKeepsInv(edit: Edit, s: State, es: seq<Event>)
    requires Inv(s) && TimelyRun(edit, s, es)
    ensures Run(edit, s, es).Some? && Inv(Run(edit, s, es).value)
    decreases |es|
  {
    if es != [] {
      StepKeepsInv(edit, s, es[0]);
      RunKeepsInv(edit, Apply(edit, s, es[0]), es[1..]);
    }
  }

  // ---------------------------------------------------------------- what is written

  /** What the events say of one process: what it asked for, and how often it has written or given up. */
  ghost predicate Told(past: seq<Event>, s: State, i: nat) {
    if i in s.processes then
      && Asked(past, i) == Some(s.processes[i].request)
      && (s.processes[i].phase.Leaving? || s.processes[i].phase.Finished? ==>
            multiset(Writers(past))[i] == if Abort(i) in past then 0 else 1)
      && (!s.processes[i].phase.Leaving? && !s.processes[i].phase.Finished? ==>
            multiset(Writers(past))[i] == 0 && Abort(i) !in past)
    else Asked(past, i).None? && multiset(Writers(past))[i] == 0 && Abort(i) !in past
  }

  ghost predicate AllTold(past: seq<Event>, s: State) { forall i: nat :: Told(past, s, i) }

  lemma {:induction false} EventTells(past: seq<Event>, e: Event)
    ensures var es := past + [e];
            && Writers(es) == Writers(past) + (if e.Write? then [e.i] else [])
            && WrittenRequests(es) == WrittenRequests(past)
                                      + (if e.Write? && Asked(past, e.i).Some? then [Asked(past, e.i).value] else [])
            && (forall i: nat :: Asked(es, i) == if e.Begin? && e.i == i then Some(e.request) else Asked(past, i))
            && (forall i: nat :: Abort(i) in es <==> Abort(i) in past || e == Abort(i))
  {
    assert (past + [e])[..|past|] == past;
  }

  lemma {:induction false} CountOf(past: seq<Event>, e: Event, i: nat)
    ensures multiset(Writers(past + [e]))[i] == if e == Write(i) then multiset(Writers(past))[i] + 1 else multiset(Writers(past))[i]
  {
    EventTells(past, e);
  }

  lemma {:induction false} OthersTold(past: seq<Event>, s: State, t: State, e: Event, i: nat)
    requires Told(past, s, i) && (e.Tick? || e.i != i)
    requires (i in t.processes <==> i in s.processes) && (i in s.processes ==> t.processes[i] == s.processes[i])
    ensures Told(past + [e], t, i)
  {
    EventTells(past, e);
    CountOf(past, e, i);
  }

  lemma {:induction false} OwnTold(past: seq<Event>, s: State, t: State, e: Event, i: nat)
    requires Told(past, s, i) && Enabled(s, e) && !e.Tick? && e.i == i && i in t.processes
    requires t.processes[i].request == if e.Begin? then e.request else s.processes[i].request
    requires (t.processes[i].phase.Leaving? || t.processes[i].phase.Finished?) <==> (e.Write? || e.Abort? || e.Rmdir?)
    ensures Told(past + [e], t, i)
  {
    EventTells(past, e);
    CountOf(past, e, i);
  }

  lemma {:induction false} StepTold(edit: Edit, past: seq<Event>, s: State, e: Event, i: nat)
    requires Enabled(s, e) && Told(past, s, i)
    ensures Told(past + [e], Apply(edit, s, e), i)
  {
    if e.Tick? || e.i != i {
      OthersTold(past, s, Apply(edit, s, e), e, i);
    } else {
      OwnTold(past, s, Apply(edit, s, e), e, i);
    }
  }

  lemma {:induction false} StepAllTold(edit: Edit, past: seq<Event>, s: State, e: Event)
    requires Enabled(s, e) && AllTold(past, s)
    ensures AllTold(past + [e], Apply(edit, s, e))
  {
    forall i: nat ensures Told(past + [e], Apply(edit, s, e), i) {
      StepTold(edit, past, s, e, i);
    }
  }

  /** The events told so far, the state they lead to, and those to come. */
  lemma {:induction false} RunTold(edit: Edit, past: seq<Event>, s: State, es: seq<Event>, all: seq<Event>)
    requires TimelyRun(edit, s, es) && AllTold(past, s) && all == past + es
    ensures Run(edit, s, es).Some? && AllTold(all, Run(edit, s, es).value)
    decreases |es|
  {
    if es == [] {
      assert all == past;
    } else {
      StepAllTold(edit, past, s, es[0]);
      RunTold(edit, past + [es[0]], Apply(edit, s, es[0]), es[1..], all);
    }
  }

  /** What holds of a timely run's events and the state they lead to. */
  ghost predicate Kept(edit: Edit, initial: seq<string>, past: seq<Event>, s: State) {
    Inv(s) && AllTold(past, s) && s.skills == Fold(edit, initial, WrittenRequests(past))
  }

  lemma {:induction false} StepFolds(edit: Edit, initial: seq<string>, past: seq<Event>, s: State, e: Event)
    requires Enabled(s, e) && AllTold(past, s) && s.skills == Fold(edit, initial, WrittenRequests(past))
    requires e.Write? ==> s.processes[e.i].phase.read == s.skills
    ensures Apply(edit, s, e).skills == Fold(edit, initial, WrittenRequests(past + [e]))
  {
    EventTells(past, e);
    if e.Write? {
      assert Told(past, s, e.i);
      var requests, r := WrittenRequests(past), s.processes[e.i].request;
      assert (requests + [r])[..|requests|] == requests;
    } else {
      assert WrittenRequests(past + [e]) == WrittenRequests(past);
    }
  }

  lemma {:induction false} StepKeeps(edit: Edit, initial: seq<string>, past: seq<Event>, s: State, e: Event)
    requires Kept(edit, initial, past, s) && Timely(s) && Enabled(s, e)
    ensures Kept(edit, initial, past + [e], Apply(edit, s, e))
  {
    StepKeepsInv(edit, s, e);
    StepAllTold(edit, past, s, e);
    StepFolds(edit, initial, past, s, e);
  }

  lemma {:induction false} RunFolds(edit: Edit, initial: seq<string>, past: seq<Event>, s: State, es: seq<Event>,
                                    all: seq<Event>)
    requires TimelyRun(edit, s, es) && all == past + es && Kept(edit, initial, past, s)
    ensures Run(edit, s, es).Some? && Kept(edit, initial, all, Run(edit, s, es).value)
    decreases |es|
  {
    if es == [] {
      assert all == past;
    } else {
      var e := es[0];
      StepKeeps(edit, initial, past, s, e);
      RunFolds(edit, initial, past + [e], Apply(edit, s, e), es[1..], all);
    }
  }

  lemma {:induction false} NothingYet(initial: seq<string>)
    ensures Inv(Init(initial)) && AllTold([], Init(initial))
  {
    assert forall i :: !Holds(Init(initial), i);
  }

  /** A finished process has written once, unless it gave up, and only the processes past their write have written. */
  ghost predicate WroteOnce(es: seq<Event>, s: State, i: nat) {
    && (i in s.processes ==> Asked(es, i) == Some(s.processes[i].request))
    && (i in s.processes && s.processes[i].phase.Finished? ==>
          multiset(Writers(es))[i] == if Abort(i) in es then 0 else 1)
    && (i in Writers(es) ==>
          multiset(Writers(es))[i] == 1 && i in s.processes
          && (s.processes[i].phase.Leaving? || s.processes[i].phase.Finished?))
  }

  lemma {:induction false} ToldIsOnce(es: seq<Event>, s: State, i: nat)
    requires Told(es, s, i)
    ensures WroteOnce(es, s, i)
  {
    assert i in Writers(es) <==> multiset(Writers(es))[i] > 0;
  }

  /**
    While no holder overstays the staleness bound, critical sections never overlap, and the file holds the requests
    of the writes folded in the order of the writes: the request of every process that has finished is among them
    exactly once, unless it gave up, and no other. So no update is lost, and none is made twice.
   */
  lemma {:induction false} NoUpdateIsLost(edit: Edit, initial: seq<string>, es: seq<Event>)
    requires TimelyRun(edit, Init(initial), es)
    ensures Run(edit, Init(initial), es).Some?
    ensures var s := Run(edit, Init(initial), es).value;
            && AtMostOneHolder(s) && s.skills == Fold(edit, initial, WrittenRequests(es))
            && forall i: nat :: WroteOnce(es, s, i)
    ensures Paired(es)
  {
    var s := Init(initial);
    NothingYet(initial);
    RunKeepsInv(edit, s, es);
    RunTold(edit, [], s, es, es);
    RunFolds(edit, initial, [], s, es, es);
    WritersAlong(edit, [], s, es, es);
    forall i: nat ensures WroteOnce(es, Run(edit, s, es).value, i) {
      ToldIsOnce(es, Run(edit, s, es).value, i);
    }
  }

  /** The written requests are those the writers were started with, one each. */
  ghost predicate Paired(past: seq<Event>) {
    && |WrittenRequests(past)| == |Writers(past)|
    && forall k :: 0 <= k < |Writers(past)| ==> Asked(past, Writers(past)[k]) == Some(WrittenRequests(past)[k])
  }

  lemma {:induction false} StepPairs(past: seq<Event>, s: State, e: Event)
    requires Enabled(s, e) && AllTold(past, s) && Paired(past)
    ensures Paired(past + [e])
  {
    EventTells(past, e);
    forall k | 0 <= k < |Writers(past)| && e.Begin? ensures Writers(past)[k] != e.i {
      assert Told(past, s, e.i);
      assert multiset(Writers(past))[Writers(past)[k]] > 0;
    }
    if e.Write? { assert Told(past, s, e.i); }
  }

  lemma {:induction false} WritersAlong(edit: Edit, past: seq<Event>, s: State, es: seq<Event>, all: seq<Event>)
    requires TimelyRun(edit, s, es) && Paired(past) && AllTold(past, s) && all == past + es
    ensures Paired(all)
    decreases |es|
  {
    if es == [] {
      assert all == past;
    } else {
      StepPairs(past, s, es[0]);
      StepAllTold(edit, past, s, es[0]);
      WritersAlong(edit, past + [es[0]], Apply(edit, s, es[0]), es[1..], all);
    }
  }

  // ---------------------------------------------------------------- giving up

  /** How often a process has tried to make the lock directory, by what it is doing now. */
  ghost predicate Tried(past: seq<Event>, s: State, i: nat) {
    var tries := multiset(past)[Mkdir(i)];
    if i !in s.processes then tries == 0
    else
      match s.processes[i].phase
      case Waiting(attempt) => tries == attempt < 750
      case Checking(attempt) => tries == attempt + 1 <= 750
      case Clearing(attempt) => tries == attempt + 1 <= 750
      case TimedOut => tries == 750
      case _ => 1 <= tries <= 750
  }

  lemma {:induction false} StepTried(edit: Edit, past: seq<Event>, s: State, e: Event, i: nat)
    requires Enabled(s, e) && Tried(past, s, i)
    ensures Tried(past + [e], Apply(edit, s, e), i)
  {
    assert multiset(past + [e])[Mkdir(i)] == if e == Mkdir(i) then multiset(past)[Mkdir(i)] + 1 else multiset(past)[Mkdir(i)];
  }

  lemma {:induction false} TriesAlong(edit: Edit, past: seq<Event>, s: State, es: seq<Event>, all: seq<Event>, i: nat)
    requires Run(edit, s, es).Some? && Tried(past, s, i) && all == past + es
    ensures Tried(all, Run(edit, s, es).value, i)
    decreases |es|
  {
    if es == [] {
      assert all == past;
    } else {
      StepTried(edit, past, s, es[0], i);
      TriesAlong(edit, past + [es[0]], Apply(edit, s, es[0]), es[1..], all, i);
    }
  }

  /** In any run, timely or not, a process gives up behind exactly 750 tries, and none tries more often. */
  lemma {:induction false} GivesUpAfter750Tries(edit: Edit, initial: seq<string>, es: seq<Event>, i: nat)
    requires Run(edit, Init(initial), es).Some?
    ensures multiset(es)[Mkdir(i)] <= 750
    ensures var s := Run(edit, Init(initial), es).value;
            i in s.processes && s.processes[i].phase.TimedOut? ==> multiset(es)[Mkdir(i)] == 750
  {
    TriesAlong(edit, [], Init(initial), es, es, i);
  }

  /** A process that meets no other gets through: its request is written, once. */
  lemma {:induction false} AloneItGetsThrough(edit: Edit, initial: seq<string>, i: nat, r: Request)
    ensures var es := [Begin(i, r), Mkdir(i), Read(i), Write(i), Rmdir(i)];
            && TimelyRun(edit, Init(initial), es)
            && Run(edit, Init(initial), es) == Some(State(0, None, edit(initial, r), map[i := Process(r, Finished)]))
  {
    var es := [Begin(i, r), Mkdir(i), Read(i), Write(i), Rmdir(i)];
    var s1 := Apply(edit, Init(initial), es[0]);
    var s2 := Apply(edit, s1, es[1]);
    var s3 := Apply(edit, s2, es[2]);
    var s4 := Apply(edit, s3, es[3]);
    var s5 := Apply(edit, s4, es[4]);
    assert s1.processes == map[i := Process(r, Waiting(0))] && s2.processes == map[i := Process(r, Entered(0))];
    assert s3.processes == map[i := Process(r, Loaded(0, initial))] && s4.processes == map[i := Process(r, Leaving(0))];
    assert s5.processes == map[i := Process(r, Finished)];
    OneMore(edit, s5, [], s5);
    OneMore(edit, s4, [Rmdir(i)], s5);
    OneMore(edit, s3, [Write(i)] + [Rmdir(i)], s5);
    OneMore(edit, s2, [Read(i)] + ([Write(i)] + [Rmdir(i)]), s5);
    OneMore(edit, s1, [Mkdir(i)] + ([Read(i)] + ([Write(i)] + [Rmdir(i)])), s5);
    OneMore(edit, Init(initial), [Begin(i, r)] + ([Mkdir(i)] + ([Read(i)] + ([Write(i)] + [Rmdir(i)]))), s5);
    assert es == [Begin(i, r)] + ([Mkdir(i)] + ([Read(i)] + ([Write(i)] + [Rmdir(i)])));
  }

  /** A timely run from `s` to `t`, found from its back. */
  lemma {:induction false} OneMore(edit: Edit, s: State, es: seq<Event>, t: State)
    requires Timely(s) && (es == [] ==> s == t)
    requires es != [] ==> Enabled(s, es[0])
    requires es != [] ==> TimelyRun(edit, Apply(edit, s, es[0]), es[1..]) && Run(edit, Apply(edit, s, es[0]), es[1..]) == Some(t)
    ensures TimelyRun(edit, s, es) && Run(edit, s, es) == Some(t)
  {
  }

  /** With the skill editor as the critical section: a skill whose disabling was written last is judged disabled. */
  lemma {:induction false} LastDisableHolds(env: Env, initial: seq<string>, es: seq<Event>, item: Item)
    requires TimelyRun(Toggling(env), Init(initial), es) && ItemOk(env, item)
    requires WrittenRequests(es) != [] && WrittenRequests(es)[|WrittenRequests(es)| - 1] == Request(Skill(item), false)
    ensures Run(Toggling(env), Init(initial), es).Some?
    ensures !IsEnabled(env, ContextOf(item), Run(Toggling(env), Init(initial), es).value.skills)
  {
    NoUpdateIsLost(Toggling(env), initial, es);
    var requests := WrittenRequests(es);
    DisableSkillDisables(env, Fold(Toggling(env), initial, requests[..|requests| - 1]), item);
  }

  /**
    The bound is exact: as soon as a holder overstays it, anyone waiting with three attempts left can take the lock
    from under it, and both are in their critical sections.
   */
  lemma OverstayingIsUnsafe(edit: Edit, s: State, h: nat, w: nat)
    requires Holds(s, h) && s.lockDir == Some(s.processes[h].phase.since) && s.processes[h].phase.since + 10000 < s.now
    requires w in s.processes && s.processes[w].phase.Waiting? && s.processes[w].phase.attempt + 1 < 750
    ensures var t := Run(edit, s, [Mkdir(w), Stat(w), ClearStale(w), Mkdir(w)]);
            t.Some? && h != w && Holds(t.value, h) && Holds(t.value, w)
  {
    var es := [Mkdir(w), Stat(w), ClearStale(w), Mkdir(w)];
    var s1 := Apply(edit, s, es[0]);
    var s2 := Apply(edit, s1, es[1]);
    var s3 := Apply(edit, s2, es[2]);
    var s4 := Apply(edit, s3, es[3]);
    assert es[1..] == [Stat(w), ClearStale(w), Mkdir(w)];
    assert es[1..][1..] == [ClearStale(w), Mkdir(w)];
    assert es[1..][1..][1..] == [Mkdir(w)];
    assert es[1..][1..][1..][1..] == [];
    assert Run(edit, s4, []) == Some(s4);
    assert Run(edit, s3, [Mkdir(w)]) == Some(s4);
    assert Run(edit, s2, [ClearStale(w), Mkdir(w)]) == Some(s4);
    assert Run(edit, s1, [Stat(w), ClearStale(w), Mkdir(w)]) == Some(s4);
  }
}
