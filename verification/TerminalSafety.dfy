/** What a terminal tab shows, under loss, duplication, overlap and reordering of everything the server sends. */
module TerminalSafety {
  import opened TerminalReplay
  import opened Wrappers

  type Log = seq<Chunk>

  /** The log of every terminal and generation, and which of them some list flagged. */
  type Logs = (TerminalId, nat) -> Log
  type Flags = (TerminalId, nat) -> bool

  ghost predicate ValidBatch(log: Log, b: Batch) {
    1 <= b.firstSequence <= b.lastSequence <= |log| && b.data == log[b.firstSequence - 1..b.lastSequence]
  }

  ghost predicate ValidDescriptor(log: Log, d: Descriptor) {
    && (HasCheckpoint(d) ==> d.checkpointWatermark <= |log| && d.checkpoint.value.chunks == log[..d.checkpointWatermark])
    && (d.journal.Some? ==> ValidBatch(log, d.journal.value))
  }

  /** The screen is the server's log up to exactly the last applied sequence. */
  ghost predicate Exact(log: Log, e: Entry) {
    e.lastAppliedSequence <= |log| && e.screen == log[..e.lastAppliedSequence]
  }

  lemma BatchKeepsExact(log: Log, e: Entry, b: Batch)
    requires ValidBatch(log, b) && Exact(log, e) && !e.historyGap
    ensures Exact(log, AfterBatch(e, b)) && !AfterBatch(e, b).historyGap
    // An acknowledgement names the prefix that is on screen.
    ensures forall n :: TerminalAck(e.terminalId, e.generation, n) in BatchCommand(e, b) ==>
              n == AfterBatch(e, b).lastAppliedSequence
    // A batch that cannot be placed pauses the tab and asks for a fresh list.
    ensures AfterBatch(e, b).paused && !e.paused <==> TerminalList in BatchCommand(e, b) && !e.paused
    ensures TerminalList in BatchCommand(e, b) <==> b.firstSequence > e.lastAppliedSequence + 1
    // The next batch is shown and acknowledged.
    ensures b.firstSequence == e.lastAppliedSequence + 1 ==>
              && AfterBatch(e, b).lastAppliedSequence == b.lastSequence && AfterBatch(e, b).paused == e.paused
              && BatchCommand(e, b) == [TerminalAck(e.terminalId, e.generation, b.lastSequence)]
  {
    if b.firstSequence == e.lastAppliedSequence + 1 {
      assert log[..b.firstSequence - 1] + log[b.firstSequence - 1..b.lastSequence] == log[..b.lastSequence];
    }
  }

  lemma SnapshotKeepsExact(log: Log, e: Entry, d: Descriptor)
    requires ValidDescriptor(log, d) && !d.historyGap && Exact(log, e)
    ensures Exact(log, AfterSnapshot(e, d)) && !AfterSnapshot(e, d).historyGap
  {
    if d.journal.Some? { BatchKeepsExact(log, Restored(e, d), d.journal.value); }
  }

  // ---------------------------------------------------------------- runs

  datatype Message =
    | Listed(descriptors: seq<Descriptor>)
    | Output(terminalId: TerminalId, generation: nat, batch: Batch)
    | Removed(terminalId: TerminalId, removedGeneration: Option<nat>)

  function Step(online: bool, v: View, m: Message): View {
    match m
    case Listed(ds) => OnListed(online, v, ds)
    case Output(id, g, b) => OnOutput(online, v, id, g, b)
    case Removed(id, g) => OnRemove(v, id, g)
  }

  function Run(online: bool, v: View, ms: seq<Message>): View {
    if ms == [] then v else Step(online, Run(online, v, ms[..|ms| - 1]), ms[|ms| - 1])
  }

  /** Whatever the server sends about a terminal is taken from that terminal's log. */
  ghost predicate ValidMessage(logs: Logs, m: Message) {
    match m
    case Listed(ds) => forall d <- ds :: ValidDescriptor(logs(d.terminalId, d.generation), d)
    case Output(id, g, b) => ValidBatch(logs(id, g), b)
    case Removed(_, _) => true
  }

  /** Some list flagged this terminal as having lost history. */
  predicate Flagged(ms: seq<Message>, id: TerminalId, g: nat) {
    exists m <- ms :: m.Listed? && FlaggedIn(m.descriptors, id, g)
  }

  predicate FlaggedIn(ds: seq<Descriptor>, id: TerminalId, g: nat) {
    exists d <- ds :: d.terminalId == id && d.generation == g && d.historyGap && !d.restoredMetadata
  }

  /** A tab in order: its ranges never overlap, and unless its terminal was flagged it shows the log exactly. */
  ghost predicate TabOk(logs: Logs, flagged: Flags, id: TerminalId, e: Entry) {
    && e.terminalId == id && RunsOk(e)
    && (!flagged(id, e.generation) ==> Exact(logs(id, e.generation), e) && !e.historyGap)
  }

  /** Every tab is in order. */
  ghost predicate ViewOk(logs: Logs, flagged: Flags, v: View) {
    forall id <- v.tabs :: TabOk(logs, flagged, id, v.tabs[id])
  }

  lemma BatchStep(logs: Logs, flagged: Flags, id: TerminalId, e: Entry, b: Batch)
    requires TabOk(logs, flagged, id, e) && ValidBatch(logs(id, e.generation), b)
    ensures TabOk(logs, flagged, id, AfterBatch(e, b)) && AfterBatch(e, b).generation == e.generation
  {
    if !flagged(id, e.generation) { BatchKeepsExact(logs(id, e.generation), e, b); }
    RunsAfterBatch(e, b);
  }

  lemma {:induction false} SnapshotEntryOk(logs: Logs, flagged: Flags, base: Entry, d: Descriptor)
    requires TabOk(logs, flagged, d.terminalId, base) && base.generation == d.generation
    requires ValidDescriptor(logs(d.terminalId, d.generation), d)
    requires d.historyGap ==> flagged(d.terminalId, d.generation)
    ensures TabOk(logs, flagged, d.terminalId, AfterSnapshot(base, d))
  {
    var r := Restored(base, d);
    assert TabOk(logs, flagged, d.terminalId, r);
    if d.journal.Some? { BatchStep(logs, flagged, d.terminalId, r, d.journal.value); }
  }

  lemma {:induction false} SnapshotSteps(logs: Logs, flagged: Flags, online: bool, v: View, ds: seq<Descriptor>)
    requires ViewOk(logs, flagged, v)
    requires forall d <- ds :: ValidDescriptor(logs(d.terminalId, d.generation), d)
    requires forall d <- ds :: d.historyGap ==> flagged(d.terminalId, d.generation)
    ensures ViewOk(logs, flagged, OnSnapshots(online, v, ds))
  {
    if ds != [] {
      var init, d := ds[..|ds| - 1], ds[|ds| - 1];
      assert ds == init + [d] && d in ds && forall x <- init :: x in ds;
      SnapshotSteps(logs, flagged, online, v, init);
      var w := OnSnapshots(online, v, init);
      var base := BaseEntry(w.tabs, d);
      SnapshotEntryOk(logs, flagged, base, d);
      StoredOk(logs, flagged, w, AfterSnapshot(base, d), OnSnapshot(online, w, d));
    }
  }

  lemma {:induction false} StoredOk(logs: Logs, flagged: Flags, v: View, e: Entry, next: View)
    requires ViewOk(logs, flagged, v) && TabOk(logs, flagged, e.terminalId, e)
    requires next.tabs == v.tabs[e.terminalId := e]
    ensures ViewOk(logs, flagged, next)
  {
  }

  lemma {:induction false} LiveTabsMembers(ds: seq<Descriptor>)
    ensures forall d :: d in LiveTabs(ds) <==> d in ds && !d.restoredMetadata
  {
    if ds != [] {
      assert ds == ds[..|ds| - 1] + [ds[|ds| - 1]];
      LiveTabsMembers(ds[..|ds| - 1]);
    }
  }

  lemma OutputStep(logs: Logs, flagged: Flags, online: bool, v: View, id: TerminalId, g: nat, b: Batch)
    requires ViewOk(logs, flagged, v) && ValidBatch(logs(id, g), b)
    ensures ViewOk(logs, flagged, OnOutput(online, v, id, g, b))
  {
    if id in v.tabs && v.tabs[id].generation == g && !v.tabs[id].paused {
      BatchStep(logs, flagged, id, v.tabs[id], b);
    }
  }

  lemma {:induction false} ListedStep(logs: Logs, flagged: Flags, online: bool, v: View, ds: seq<Descriptor>)
    requires ViewOk(logs, flagged, v)
    requires forall d <- ds :: ValidDescriptor(logs(d.terminalId, d.generation), d)
    requires forall d <- ds :: d.historyGap && !d.restoredMetadata ==> flagged(d.terminalId, d.generation)
    ensures ViewOk(logs, flagged, OnListed(online, v, ds))
  {
    var live := LiveTabs(ds);
    LiveTabsMembers(ds);
    SnapshotSteps(logs, flagged, online, v.(tabs := Reported(v.tabs, live)), live);
  }

  lemma {:induction false} RunKeepsView(logs: Logs, flagged: Flags, online: bool, ms: seq<Message>)
    requires forall m <- ms :: ValidMessage(logs, m)
    requires forall id, g :: Flagged(ms, id, g) ==> flagged(id, g)
    ensures ViewOk(logs, flagged, Run(online, View(map[], []), ms))
  {
    if ms != [] {
      var init, m := ms[..|ms| - 1], ms[|ms| - 1];
      assert ms == init + [m];
      forall id, g | Flagged(init, id, g) ensures flagged(id, g) {
        assert Flagged(ms, id, g);
      }
      RunKeepsView(logs, flagged, online, init);
      var v := Run(online, View(map[], []), init);
      assert ValidMessage(logs, m);
      match m {
        case Listed(ds) =>
          forall d | d in ds && d.historyGap && !d.restoredMetadata ensures flagged(d.terminalId, d.generation) {
            assert FlaggedIn(ds, d.terminalId, d.generation);
            assert Flagged(ms, d.terminalId, d.generation);
          }
          ListedStep(logs, flagged, online, v, ds);
        case Output(id, g, b) => OutputStep(logs, flagged, online, v, id, g, b);
        case Removed(id, g) =>
      }
    }
  }

  /** Even while history is flagged as lost, what is written between resets never overlaps and never goes back. */
  lemma WrittenRangesNeverOverlap(logs: Logs, online: bool, ms: seq<Message>, id: TerminalId)
    requires forall m <- ms :: ValidMessage(logs, m)
    requires id in Run(online, View(map[], []), ms).tabs
    ensures RunsOk(Run(online, View(map[], []), ms).tabs[id])
  {
    RunKeepsView(logs, (i: TerminalId, g: nat) => true, online, ms);
  }

  /**
    After any sequence of lists, snapshots, live outputs and removals, lost, repeated or reordered at will, a tab
    that no list ever flagged shows exactly the server's log up to its last applied sequence.
   */
  lemma TabsShowExactPrefixes(logs: Logs, online: bool, ms: seq<Message>, id: TerminalId)
    requires forall m <- ms :: ValidMessage(logs, m)
    requires var v := Run(online, View(map[], []), ms); id in v.tabs && !Flagged(ms, id, v.tabs[id].generation)
    ensures var e := Run(online, View(map[], []), ms).tabs[id];
            e.terminalId == id && Exact(logs(id, e.generation), e)
  {
    RunKeepsView(logs, (i: TerminalId, g: nat) => Flagged(ms, i, g), online, ms);
  }

  // ---------------------------------------------------------------- acknowledgements

  /** A command, and the tab it is about as it stands when the command goes out. */
  datatype Moment = Moment(command: Command, tab: Entry)

  function MomentsOfBatch(e: Entry, b: Batch): seq<Moment> {
    if BatchCommand(e, b) == [] then [] else [Moment(BatchCommand(e, b)[0], AfterBatch(e, b))]
  }

  function MomentsOfSnapshot(e: Entry, d: Descriptor): seq<Moment> {
    if d.journal.Some? then MomentsOfBatch(Restored(e, d), d.journal.value) else []
  }

  function MomentsOfSnapshots(online: bool, v: View, ds: seq<Descriptor>): seq<Moment> {
    if ds == [] then []
    else
      var init, d := ds[..|ds| - 1], ds[|ds| - 1];
      MomentsOfSnapshots(online, v, init) + MomentsOfSnapshot(BaseEntry(OnSnapshots(online, v, init).tabs, d), d)
  }

  /** The commands a message makes the client send, in order, each with the tab at that moment. */
  function MomentsOf(online: bool, v: View, m: Message): seq<Moment> {
    if !online then []
    else
      match m
      case Listed(ds) => MomentsOfSnapshots(online, v.(tabs := Reported(v.tabs, LiveTabs(ds))), LiveTabs(ds))
      case Output(id, g, b) =>
        if id !in v.tabs || v.tabs[id].generation != g || v.tabs[id].paused then [] else MomentsOfBatch(v.tabs[id], b)
      case Removed(_, _) => []
  }

  /** The tab shows the log up to exactly the acknowledged sequence. */
  ghost predicate OnScreen(logs: Logs, p: Moment) {
    && p.command.TerminalAck?
    && p.tab.terminalId == p.command.terminalId && p.tab.generation == p.command.generation
    && p.tab.lastAppliedSequence == p.command.sequence
    && Exact(logs(p.command.terminalId, p.command.generation), p.tab)
  }

  ghost predicate MomentsOk(logs: Logs, flagged: Flags, ps: seq<Moment>) {
    forall p <- ps :: p.command.TerminalAck? && !flagged(p.command.terminalId, p.command.generation) ==> OnScreen(logs, p)
  }

  lemma {:induction false} BatchMoments(logs: Logs, flagged: Flags, id: TerminalId, e: Entry, b: Batch)
    requires TabOk(logs, flagged, id, e) && ValidBatch(logs(id, e.generation), b)
    ensures MomentsOk(logs, flagged, MomentsOfBatch(e, b))
  {
    BatchStep(logs, flagged, id, e, b);
  }

  lemma {:induction false} SnapshotMoments(logs: Logs, flagged: Flags, base: Entry, d: Descriptor)
    requires TabOk(logs, flagged, d.terminalId, base) && base.generation == d.generation
    requires ValidDescriptor(logs(d.terminalId, d.generation), d)
    requires d.historyGap ==> flagged(d.terminalId, d.generation)
    ensures MomentsOk(logs, flagged, MomentsOfSnapshot(base, d))
  {
    var r := Restored(base, d);
    assert TabOk(logs, flagged, d.terminalId, r);
    if d.journal.Some? { BatchMoments(logs, flagged, d.terminalId, r, d.journal.value); }
  }

  lemma {:induction false} SnapshotsMoments(logs: Logs, flagged: Flags, online: bool, v: View, ds: seq<Descriptor>)
    requires ViewOk(logs, flagged, v)
    requires forall d <- ds :: ValidDescriptor(logs(d.terminalId, d.generation), d)
    requires forall d <- ds :: d.historyGap ==> flagged(d.terminalId, d.generation)
    ensures MomentsOk(logs, flagged, MomentsOfSnapshots(online, v, ds))
  {
    if ds != [] {
      var init, d := ds[..|ds| - 1], ds[|ds| - 1];
      assert ds == init + [d] && d in ds && forall x <- init :: x in ds;
      SnapshotsMoments(logs, flagged, online, v, init);
      SnapshotSteps(logs, flagged, online, v, init);
      SnapshotMoments(logs, flagged, BaseEntry(OnSnapshots(online, v, init).tabs, d), d);
    }
  }

  lemma {:induction false} MessageMoments(logs: Logs, flagged: Flags, online: bool, v: View, m: Message)
    requires ViewOk(logs, flagged, v) && ValidMessage(logs, m)
    requires m.Listed? ==>
      forall d <- m.descriptors :: d.historyGap && !d.restoredMetadata ==> flagged(d.terminalId, d.generation)
    ensures MomentsOk(logs, flagged, MomentsOf(online, v, m))
  {
    if online {
      match m
      case Listed(ds) =>
        LiveTabsMembers(ds);
        SnapshotsMoments(logs, flagged, online, v.(tabs := Reported(v.tabs, LiveTabs(ds))), LiveTabs(ds));
      case Output(id, g, b) =>
        if id in v.tabs && v.tabs[id].generation == g { BatchMoments(logs, flagged, id, v.tabs[id], b); }
      case Removed(_, _) =>
    }
  }

  /** Every tab is stored under its own id. */
  ghost predicate Keyed(v: View) { forall id <- v.tabs :: v.tabs[id].terminalId == id }

  /** The view once the list is applied up to and with its `k`-th live tab. */
  function PartWay(online: bool, v: View, live: seq<Descriptor>, k: nat): View
    requires k < |live|
  {
    OnSnapshots(online, v.(tabs := Reported(v.tabs, live)), live[..k + 1])
  }

  ghost predicate HasTab(v: View, e: Entry) { e.terminalId in v.tabs && v.tabs[e.terminalId] == e }

  /** The tab of the moment is the one the view has then, and keeps unless the same list goes on about it. */
  ghost predicate InView(online: bool, v: View, m: Message, e: Entry) {
    match m
    case Listed(ds) =>
      exists k :: 0 <= k < |LiveTabs(ds)| && HasTab(PartWay(online, v, LiveTabs(ds), k), e)
                  && (NotAbout(LiveTabs(ds)[k + 1..], e.terminalId) ==> HasTab(Step(online, v, m), e))
    case Output(_, _, _) => HasTab(Step(online, v, m), e)
    case Removed(_, _) => false
  }

  predicate NotAbout(ds: seq<Descriptor>, id: TerminalId) { forall d <- ds :: d.terminalId != id }

  lemma {:induction false} KeyedSnapshots(online: bool, v: View, ds: seq<Descriptor>)
    requires Keyed(v)
    ensures Keyed(OnSnapshots(online, v, ds))
  {
    if ds != [] { KeyedSnapshots(online, v, ds[..|ds| - 1]); }
  }

  lemma {:induction false} KeyedRun(online: bool, ms: seq<Message>)
    ensures Keyed(Run(online, View(map[], []), ms))
  {
    if ms != [] {
      var v, m := Run(online, View(map[], []), ms[..|ms| - 1]), ms[|ms| - 1];
      KeyedRun(online, ms[..|ms| - 1]);
      if m.Listed? {
        KeyedSnapshots(online, v.(tabs := Reported(v.tabs, LiveTabs(m.descriptors))), LiveTabs(m.descriptors));
      }
    }
  }

  lemma {:induction false} LaterTabsLeave(online: bool, v: View, ds: seq<Descriptor>, k: nat, e: Entry)
    requires k <= |ds| && HasTab(OnSnapshots(online, v, ds[..k]), e) && NotAbout(ds[k..], e.terminalId)
    ensures HasTab(OnSnapshots(online, v, ds), e)
  {
    if k == |ds| {
      assert ds[..k] == ds;
    } else {
      var init, d := ds[..|ds| - 1], ds[|ds| - 1];
      assert d in ds[k..] && init[..k] == ds[..k] && forall x <- init[k..] :: x in ds[k..];
      LaterTabsLeave(online, v, init, k, e);
    }
  }

  /** A moment of a list belongs to the tab one of its descriptors has just been applied to. */
  lemma {:induction false} SnapshotMomentInView(online: bool, v: View, ds: seq<Descriptor>, p: Moment) returns (k: nat)
    requires Keyed(v) && p in MomentsOfSnapshots(online, v, ds)
    ensures k < |ds| && HasTab(OnSnapshots(online, v, ds[..k + 1]), p.tab)
  {
    var init, d := ds[..|ds| - 1], ds[|ds| - 1];
    if p in MomentsOfSnapshots(online, v, init) {
      k := SnapshotMomentInView(online, v, init, p);
      assert init[..k + 1] == ds[..k + 1];
    } else {
      k := |ds| - 1;
      KeyedSnapshots(online, v, init);
      OneMomentInView(online, OnSnapshots(online, v, init), d, p);
      assert ds[..k + 1] == ds;
    }
  }

  lemma {:induction false} OneMomentInView(online: bool, w: View, d: Descriptor, p: Moment)
    requires Keyed(w) && p in MomentsOfSnapshot(BaseEntry(w.tabs, d), d)
    ensures HasTab(OnSnapshot(online, w, d), p.tab)
  {
  }

  /** The moments are the view's: each tab in them is the one on screen when the command goes out. */
  lemma {:induction false} MomentsAreInView(online: bool, v: View, m: Message, p: Moment)
    requires Keyed(v) && p in MomentsOf(online, v, m)
    ensures InView(online, v, m, p.tab)
  {
    if m.Listed? {
      var live := LiveTabs(m.descriptors);
      var w := v.(tabs := Reported(v.tabs, live));
      var k := SnapshotMomentInView(online, w, live, p);
      assert HasTab(PartWay(online, v, live, k), p.tab);
      if NotAbout(live[k + 1..], p.tab.terminalId) { LaterTabsLeave(online, w, live, k + 1, p.tab); }
    }
  }

  /**
    Whenever, along any run, an acknowledgement of a terminal goes out that no list has flagged up to then, the
    acknowledged prefix of the log is exactly what its tab in the view shows at that moment.
   */
  lemma {:induction false} AcknowledgementsNameTheScreen(logs: Logs, online: bool, ms: seq<Message>, m: Message, p: Moment)
    requires (forall x <- ms :: ValidMessage(logs, x)) && ValidMessage(logs, m)
    requires p in MomentsOf(online, Run(online, View(map[], []), ms), m) && p.command.TerminalAck?
    requires !Flagged(ms + [m], p.command.terminalId, p.command.generation)
    ensures OnScreen(logs, p) && InView(online, Run(online, View(map[], []), ms), m, p.tab)
  {
    var flagged := (i: TerminalId, g: nat) => Flagged(ms + [m], i, g);
    forall id, g | Flagged(ms, id, g) ensures flagged(id, g) {
      var x :| x in ms && x.Listed? && FlaggedIn(x.descriptors, id, g);
      assert x in ms + [m];
    }
    RunKeepsView(logs, flagged, online, ms);
    if m.Listed? {
      forall d | d in m.descriptors && d.historyGap && !d.restoredMetadata ensures flagged(d.terminalId, d.generation) {
        assert FlaggedIn(m.descriptors, d.terminalId, d.generation) && m in ms + [m];
      }
    }
    MessageMoments(logs, flagged, online, Run(online, View(map[], []), ms), m);
    KeyedRun(online, ms);
    MomentsAreInView(online, Run(online, View(map[], []), ms), m, p);
  }

  function CommandsOf(ps: seq<Moment>): seq<Command> {
    if ps == [] then [] else CommandsOf(ps[..|ps| - 1]) + [ps[|ps| - 1].command]
  }

  lemma {:induction false} CommandsConcat(a: seq<Moment>, b: seq<Moment>)
    ensures CommandsOf(a + b) == CommandsOf(a) + CommandsOf(b)
  {
    if b == [] {
      assert a + b == a;
    } else {
      assert (a + b)[..|a + b| - 1] == a + b[..|b| - 1];
      CommandsConcat(a, b[..|b| - 1]);
    }
  }

  lemma {:induction false} SnapshotsSend(online: bool, v: View, ds: seq<Descriptor>)
    requires online
    ensures OnSnapshots(online, v, ds).sent == v.sent + CommandsOf(MomentsOfSnapshots(online, v, ds))
  {
    if ds != [] {
      var init, d := ds[..|ds| - 1], ds[|ds| - 1];
      SnapshotsSend(online, v, init);
      var w, before := OnSnapshots(online, v, init), MomentsOfSnapshots(online, v, init);
      assert OnSnapshots(online, v, ds).sent == w.sent + SnapshotCommand(BaseEntry(w.tabs, d), d);
      assert MomentsOfSnapshots(online, v, ds) == before + MomentsOfSnapshot(BaseEntry(w.tabs, d), d);
      SentAlong(v.sent, before, BaseEntry(w.tabs, d), d, w.sent);
    }
  }

  lemma {:induction false} SentAlong(sent: seq<Command>, before: seq<Moment>, base: Entry, d: Descriptor, now: seq<Command>)
    requires now == sent + CommandsOf(before)
    ensures now + SnapshotCommand(base, d) == sent + CommandsOf(before + MomentsOfSnapshot(base, d))
  {
    CommandsConcat(before, MomentsOfSnapshot(base, d));
    OneSnapshotSends(base, d);
  }

  lemma {:induction false} OneBatchSends(e: Entry, b: Batch)
    ensures CommandsOf(MomentsOfBatch(e, b)) == BatchCommand(e, b)
  {
    assert CommandsOf([]) == [];
    if BatchCommand(e, b) != [] {
      var ps := MomentsOfBatch(e, b);
      assert ps[..0] == [];
      assert BatchCommand(e, b) == [BatchCommand(e, b)[0]];
    }
  }

  lemma {:induction false} OneSnapshotSends(e: Entry, d: Descriptor)
    ensures CommandsOf(MomentsOfSnapshot(e, d)) == SnapshotCommand(e, d)
  {
    if d.journal.Some? { OneBatchSends(Restored(e, d), d.journal.value); }
  }

  /** The moments are complete: handling a message sends exactly their commands, in their order. */
  lemma {:induction false} MomentsAreWhatIsSent(online: bool, v: View, m: Message)
    ensures Step(online, v, m).sent == v.sent + CommandsOf(MomentsOf(online, v, m))
  {
    match m
    case Listed(ds) =>
      var w := v.(tabs := Reported(v.tabs, LiveTabs(ds)));
      if online { SnapshotsSend(online, w, LiveTabs(ds)); } else { OfflineSendsNothing(w, LiveTabs(ds)); }
    case Output(id, g, b) => if id in v.tabs { OneBatchSends(v.tabs[id], b); }
    case Removed(_, _) =>
  }

  lemma {:induction false} OfflineSendsNothing(v: View, ds: seq<Descriptor>)
    ensures OnSnapshots(false, v, ds).sent == v.sent
  {
    if ds != [] { OfflineSendsNothing(v, ds[..|ds| - 1]); }
  }

  // ---------------------------------------------------------------- catching up

  /** What the server lists at length `n` when it still has everything past the watermark. */
  ghost predicate FullDescriptor(log: Log, d: Descriptor, n: nat) {
    && n <= |log| && ValidDescriptor(log, d) && d.checkpointWatermark <= n
    && (if d.journal.Some?
        then d.journal.value.firstSequence == d.checkpointWatermark + 1 && d.journal.value.lastSequence == n
        else d.checkpointWatermark == n)
  }

  /**
    A full descriptor brings a tab to at least `n`, unpaused, exactly when it carries a usable checkpoint, or the
    tab stands right at the watermark (below it, if history is flagged), or it is at `n` already. In every other
    case the batch is ignored as a whole (an overlap) or the tab pauses again (a gap).
   */
  lemma CatchesUpExactlyWhen(log: Log, d: Descriptor, n: nat, e: Entry)
    requires FullDescriptor(log, d, n)
    ensures var e' := AfterSnapshot(e, d);
            var last, w := e.lastAppliedSequence, d.checkpointWatermark;
            (e'.lastAppliedSequence >= n && !e'.paused) <==>
            HasCheckpoint(d) || last == w || last >= n || (d.historyGap && d.journal.Some? && last < w)
  {
  }

  /** With a checkpoint the tab is resynchronized to exactly `n`, whatever it showed before, flagged or not. */
  lemma CheckpointResynchronizes(log: Log, d: Descriptor, n: nat, e: Entry)
    requires FullDescriptor(log, d, n) && HasCheckpoint(d)
    ensures var e' := AfterSnapshot(e, d);
            e'.lastAppliedSequence == n && e'.screen == log[..n] && !e'.paused
  {
    assert d.journal.Some? ==> log[..d.checkpointWatermark] + log[d.checkpointWatermark..n] == log[..n];
  }

  /** What is listed of the tab starts at or before its end and can neither reset it nor be appended. */
  predicate Overlaps(d: Descriptor, e: Entry) {
    && d.generation == e.generation && !HasCheckpoint(d) && !d.historyGap
    && d.journal.Some? && d.journal.value.firstSequence <= e.lastAppliedSequence
  }

  /** The tab is there and shows what `e` shows; only a pause may come or go. */
  ghost predicate Stands(v: View, e: Entry) {
    e.terminalId in v.tabs && v.tabs[e.terminalId].(paused := e.paused) == e
  }

  /** A message after the loss of the batch behind the tab's end that brings neither that batch nor a checkpoint. */
  ghost predicate Unhelpful(m: Message, e: Entry) {
    match m
    case Listed(ds) =>
      && e.terminalId in Ids(LiveTabs(ds))
      && forall d <- LiveTabs(ds) :: d.terminalId == e.terminalId ==> Overlaps(d, e)
    case Output(id, g, b) => id == e.terminalId && g == e.generation ==> b.firstSequence != e.lastAppliedSequence + 1
    case Removed(id, _) => id != e.terminalId
  }

  lemma {:induction false} OverlapLeaves(online: bool, v: View, ds: seq<Descriptor>, e: Entry)
    requires Stands(v, e) && !e.historyGap
    requires forall d <- ds :: d.terminalId == e.terminalId ==> Overlaps(d, e)
    ensures Stands(OnSnapshots(online, v, ds), e)
  {
    if ds != [] {
      var init, d := ds[..|ds| - 1], ds[|ds| - 1];
      assert d in ds && forall x <- init :: x in ds;
      OverlapLeaves(online, v, init, e);
    }
  }

  /**
    A tab that lost a batch does not move again, whatever number of lists and outputs follow, until one of them
    brings a checkpoint, a flagged gap or the lost batch itself: a list that overlaps the screen is ignored, although
    it ends the pause, and later output is a gap that only asks for the next such list.
   */
  lemma {:induction false} NoOverlappingListMovesATab(online: bool, v: View, ms: seq<Message>, e: Entry)
    requires Stands(v, e) && !e.historyGap && forall m <- ms :: Unhelpful(m, e)
    ensures Stands(Run(online, v, ms), e)
  {
    if ms != [] {
      var init, m := ms[..|ms| - 1], ms[|ms| - 1];
      assert m in ms && forall x <- init :: x in ms;
      NoOverlappingListMovesATab(online, v, init, e);
      if m.Listed? {
        var w, live := Run(online, v, init), LiveTabs(m.descriptors);
        OverlapLeaves(online, w.(tabs := Reported(w.tabs, live)), live, e);
      }
    }
  }

  function Journal(log: Log, first: nat, last: nat): Batch
    requires 1 <= first <= last <= |log|
  {
    Batch(first, last, log[first - 1..last])
  }

  function Described(b: Batch): Descriptor { Descriptor(0, 0, false, None, 0, false, Some(b)) }

  lemma {:induction false} OneIsLive(d: Descriptor)
    requires !d.restoredMetadata
    ensures LiveTabs([d]) == [d] && Ids([d]) == {d.terminalId}
  {
    assert [d][..0] == [] && LiveTabs([]) == [];
  }

  lemma {:induction false} ListedAlone(online: bool, v: View, d: Descriptor)
    requires !d.restoredMetadata && v.tabs.Keys <= {d.terminalId}
    ensures OnListed(online, v, [d]).tabs == v.tabs[d.terminalId := AfterSnapshot(BaseEntry(v.tabs, d), d)]
  {
    OneIsLive(d);
    assert Reported(v.tabs, [d]) == v.tabs;
    assert [d][..0] == [] && OnSnapshots(online, v, []) == v;
    assert OnSnapshots(online, v, [d]) == OnSnapshot(online, v, d);
  }

  /** The tab of the run below: it shows the first output. */
  function First(log: Log, paused: bool): Entry
    requires log != []
  {
    Entry(0, 0, log[..1], 1, paused, false, [(1, 1)])
  }

  /** It occurs: the first output is listed, the second is lost, and the list that the third asks for is ignored. */
  lemma {:induction false} LostBatchStaysLost(log: Log)
    requires |log| >= 3
    ensures var (a, b, c) := Losing(log);
            && (forall m <- [a, b, c] :: ValidMessage((i, g) => log, m))
            && Run(true, View(map[], []), [a, b]).tabs == map[0 := First(log, true)]
            && Run(true, View(map[], []), [a, b, c]).tabs == map[0 := First(log, false)]
  {
    var (a, b, c) := Losing(log);
    var v := View(map[], []);
    RunOn(v, [], a, [a]);
    RunOn(v, [a], b, [a, b]);
    RunOn(v, [a, b], c, [a, b, c]);
    FirstIsShown(log, v);
    ThirdPauses(log, Step(true, v, a));
    ListIsIgnored(log, Run(true, v, [a, b]));
  }

  function Losing(log: Log): (Message, Message, Message)
    requires |log| >= 3
  {
    (Listed([Described(Journal(log, 1, 1))]), Output(0, 0, Journal(log, 3, 3)), Listed([Described(Journal(log, 1, 3))]))
  }

  lemma {:induction false} RunOn(v: View, ms: seq<Message>, m: Message, all: seq<Message>)
    requires all == ms + [m]
    ensures Run(true, v, all) == Step(true, Run(true, v, ms), m)
  {
    assert all[..|all| - 1] == ms;
  }

  lemma {:induction false} FirstIsShown(log: Log, v: View)
    requires |log| >= 3 && v.tabs == map[]
    ensures OnListed(true, v, [Described(Journal(log, 1, 1))]).tabs == map[0 := First(log, false)]
  {
    var d := Described(Journal(log, 1, 1));
    ListedAlone(true, v, d);
    assert BaseEntry(v.tabs, d) == NewEntry(0, 0);
    assert [] + log[0..1] == log[..1] && [] + [(1, 1)] == [(1, 1)];
    assert AfterSnapshot(NewEntry(0, 0), d) == First(log, false);
  }

  lemma {:induction false} ThirdPauses(log: Log, v: View)
    requires |log| >= 3 && v.tabs == map[0 := First(log, false)]
    ensures OnOutput(true, v, 0, 0, Journal(log, 3, 3)).tabs == map[0 := First(log, true)]
  {
    assert map[0 := First(log, false)][0 := First(log, true)] == map[0 := First(log, true)];
  }

  lemma {:induction false} ListIsIgnored(log: Log, v: View)
    requires |log| >= 3 && v.tabs == map[0 := First(log, true)]
    ensures OnListed(true, v, [Described(Journal(log, 1, 3))]).tabs == map[0 := First(log, false)]
  {
    ListedAlone(true, v, Described(Journal(log, 1, 3)));
    assert map[0 := First(log, true)][0 := First(log, false)] == map[0 := First(log, false)];
  }

  /** What is about another terminal or an older generation leaves the tab alone. */
  predicate Elsewhere(m: Message, e: Entry) {
    (m.Output? && (m.terminalId != e.terminalId || m.generation != e.generation))
    || (m.Removed? && m.terminalId != e.terminalId)
  }

  /** Live output of a tab as the server emits it after `n`, with applied batches repeated and others' between. */
  ghost predicate InOrder(log: Log, n: nat, e: Entry, ms: seq<Message>)
    decreases |ms|
  {
    ms == [] ||
    if Elsewhere(ms[0], e) then InOrder(log, n, e, ms[1..])
    else
      && ms[0].Output? && ValidBatch(log, ms[0].batch)
      && (ms[0].batch.firstSequence == n + 1 || ms[0].batch.lastSequence <= n)
      && InOrder(log, Max(n, ms[0].batch.lastSequence), e, ms[1..])
  }

  function Max(a: nat, b: nat): nat { if a < b then b else a }

  /** The end of the newest batch, `n` when all are older. */
  function Reached(n: nat, e: Entry, ms: seq<Message>): nat
    decreases |ms|
  {
    if ms == [] then n
    else Reached(if Elsewhere(ms[0], e) || !ms[0].Output? then n else Max(n, ms[0].batch.lastSequence), e, ms[1..])
  }

  lemma {:induction false} RunCons(online: bool, v: View, ms: seq<Message>)
    requires ms != []
    ensures Run(online, v, ms) == Run(online, Step(online, v, ms[0]), ms[1..])
  {
    if |ms| == 1 {
      assert ms[..0] == [] && ms[1..] == [];
    } else {
      var init := ms[..|ms| - 1];
      RunCons(online, v, init);
      assert ms[1..][..|ms| - 2] == init[1..];
    }
  }

  /** A caught-up tab of the view follows the live output: it never pauses and shows every batch. */
  lemma {:induction false} CaughtUpTabFollows(online: bool, log: Log, v: View, e: Entry, ms: seq<Message>)
    requires HasTab(v, e) && Exact(log, e) && !e.historyGap && !e.paused
    requires InOrder(log, e.lastAppliedSequence, e, ms)
    ensures var w := Run(online, v, ms);
            && e.terminalId in w.tabs
            && var f := w.tabs[e.terminalId];
               !f.paused && f.lastAppliedSequence == Reached(e.lastAppliedSequence, e, ms) && Exact(log, f)
    decreases |ms|
  {
    if ms != [] {
      RunCons(online, v, ms);
      var w := Step(online, v, ms[0]);
      if Elsewhere(ms[0], e) {
        CaughtUpTabFollows(online, log, w, e, ms[1..]);
      } else {
        BatchKeepsExact(log, e, ms[0].batch);
        var f := w.tabs[e.terminalId];
        SameTerminal(log, f.lastAppliedSequence, e, f, ms[1..]);
        CaughtUpTabFollows(online, log, w, f, ms[1..]);
      }
    }
  }

  lemma {:induction false} SameTerminal(log: Log, n: nat, e: Entry, f: Entry, ms: seq<Message>)
    requires e.terminalId == f.terminalId && e.generation == f.generation
    ensures InOrder(log, n, e, ms) <==> InOrder(log, n, f, ms)
    ensures Reached(n, e, ms) == Reached(n, f, ms)
    decreases |ms|
  {
    if ms != [] {
      SameTerminal(log, n, e, f, ms[1..]);
      if ms[0].Output? { SameTerminal(log, Max(n, ms[0].batch.lastSequence), e, f, ms[1..]); }
    }
  }

  // ---------------------------------------------------------------- which tabs there are

  /** A list decides which tabs there are: the live ones it names, each in the generation it is listed with. */
  lemma {:induction false} ListDecidesTabs(online: bool, v: View, ds: seq<Descriptor>)
    ensures var w := Step(online, v, Listed(ds));
            && (forall id :: id in w.tabs <==> exists d <- ds :: d.terminalId == id && !d.restoredMetadata)
            && (Keyed(v) ==> forall id <- w.tabs ::
                  exists d <- ds :: d.terminalId == id && !d.restoredMetadata && d.generation == w.tabs[id].generation)
  {
    var live := LiveTabs(ds);
    LiveTabsMembers(ds);
    var start := v.(tabs := Reported(v.tabs, live));
    forall id ensures id in OnListed(online, v, ds).tabs <==> id in start.tabs || exists d <- live :: d.terminalId == id {
      SnapshotTabs(online, start, live, id);
    }
    forall id | id in OnListed(online, v, ds).tabs ensures exists d <- ds :: d.terminalId == id && !d.restoredMetadata {
      if id !in start.tabs {
        var d :| d in live && d.terminalId == id;
      } else {
        assert id in Ids(live);
        var d :| d in live && d.terminalId == id;
      }
    }
    forall d | d in ds && !d.restoredMetadata ensures d.terminalId in OnListed(online, v, ds).tabs {
      assert d in live;
    }
    forall id | id in OnListed(online, v, ds).tabs
      ensures exists d <- ds :: d.terminalId == id && !d.restoredMetadata && d.generation == OnListed(online, v, ds).tabs[id].generation
    {
      var x :| x in ds && x.terminalId == id && !x.restoredMetadata;
      SnapshotTabs(online, start, live, id);
      assert x in live;
      var d :| d in live && d.terminalId == id && d.generation == OnListed(online, v, ds).tabs[id].generation;
      assert d in ds;
    }
  }

  lemma {:induction false} SnapshotTabs(online: bool, v: View, ds: seq<Descriptor>, id: TerminalId)
    ensures var w := OnSnapshots(online, v, ds);
            && (id in w.tabs <==> id in v.tabs || exists d <- ds :: d.terminalId == id)
            && (id in w.tabs && (exists d <- ds :: d.terminalId == id) ==>
                  exists d <- ds :: d.terminalId == id && d.generation == w.tabs[id].generation)
  {
    if ds != [] {
      var init, d := ds[..|ds| - 1], ds[|ds| - 1];
      assert d in ds && forall x :: x in ds <==> x in init || x == d;
      SnapshotTabs(online, v, init, id);
      if d.terminalId == id {
        BatchKeepsGeneration(BaseEntry(OnSnapshots(online, v, init).tabs, d), d);
      }
    }
  }

  lemma {:induction false} BatchKeepsGeneration(e: Entry, d: Descriptor)
    ensures AfterSnapshot(e, d).generation == e.generation
  {
  }

  /** Output for a tab that is not there, is of another generation, or is paused changes and sends nothing. */
  lemma {:induction false} OutputElsewhereIsIgnored(online: bool, v: View, id: TerminalId, g: nat, b: Batch)
    requires id !in v.tabs || v.tabs[id].generation != g || v.tabs[id].paused
    ensures Step(online, v, Output(id, g, b)) == v
  {
  }

  /** A removal takes away the tab it names, if it names the generation or none, and no other. */
  lemma {:induction false} RemovalTakesOneTab(online: bool, v: View, id: TerminalId, g: Option<nat>, other: TerminalId)
    ensures var w := Step(online, v, Removed(id, g));
            && w.sent == v.sent
            && (id in w.tabs <==> id in v.tabs && g.Some? && g.value != v.tabs[id].generation)
            && (other != id || other in w.tabs ==> (other in w.tabs <==> other in v.tabs))
            && (other in w.tabs ==> w.tabs[other] == v.tabs[other])
  {
  }

  /** A checkpoint whose serialized screen is empty counts for none. */
  lemma {:induction false} EmptyCheckpointIsNone(e: Entry, d: Descriptor)
    requires d.checkpoint.Some? && d.checkpoint.value.empty
    ensures AfterSnapshot(e, d) == AfterSnapshot(e, d.(checkpoint := None))
    ensures SnapshotCommand(e, d) == SnapshotCommand(e, d.(checkpoint := None))
  {
  }

  // ---------------------------------------------------------------- lost history

  /** The ranges written since the last reset are disjoint and increasing, and end at the last applied sequence. */
  ghost predicate RunsOk(e: Entry) {
    && (forall i :: 0 <= i < |e.runs| ==> e.runs[i].0 <= e.runs[i].1 <= e.lastAppliedSequence)
    && (forall i, j :: 0 <= i < j < |e.runs| ==> e.runs[i].1 < e.runs[j].0)
  }

  lemma RunsAfterBatch(e: Entry, b: Batch)
    requires RunsOk(e)
    ensures b.firstSequence <= b.lastSequence ==> RunsOk(AfterBatch(e, b))
  {
  }
}
