/** The terminal replay client: checkpoints, journals and live batches, in whatever order they arrive. */
module TerminalReplay {
  import opened Wrappers

  /** One output chunk of a terminal; the server numbers them 1, 2, 3, ... */
  type Chunk = seq<bv8>

  /** Terminal ids are only ever compared. */
  type TerminalId = nat

  /** A serialized screen: the one the given chunks produce. */
  datatype Snapshot = Snapshot(chunks: seq<Chunk>, empty: bool)

  datatype Batch = Batch(firstSequence: nat, lastSequence: nat, data: seq<Chunk>)

  datatype Descriptor = Descriptor(
    terminalId: TerminalId, generation: nat, restoredMetadata: bool,
    checkpoint: Option<Snapshot>, checkpointWatermark: nat, historyGap: bool, journal: Option<Batch>)

  datatype Command =
    | TerminalList
    | TerminalAck(terminalId: TerminalId, generation: nat, sequence: nat)

  /** One tab. `screen` is what its terminal shows, `runs` the ranges written since its screen was last reset. */
  datatype Entry = Entry(
    terminalId: TerminalId, generation: nat, screen: seq<Chunk>, lastAppliedSequence: nat,
    paused: bool, historyGap: bool, runs: seq<(nat, nat)>)

  function NewEntry(terminalId: TerminalId, generation: nat): Entry {
    Entry(terminalId, generation, [], 0, false, false, [])
  }

  function Write(e: Entry, b: Batch): Entry {
    e.(screen := e.screen + b.data, lastAppliedSequence := b.lastSequence,
       runs := e.runs + [(b.firstSequence, b.lastSequence)])
  }

  function AfterBatch(e: Entry, b: Batch): Entry {
    if b.firstSequence <= e.lastAppliedSequence then e
    else if e.historyGap || b.firstSequence == e.lastAppliedSequence + 1 then Write(e, b)
    else e.(paused := true)
  }

  /** What the batch makes the client send: an acknowledgement, a request for a fresh list, or nothing. */
  function BatchCommand(e: Entry, b: Batch): seq<Command> {
    if b.firstSequence <= e.lastAppliedSequence then []
    else if e.historyGap || b.firstSequence == e.lastAppliedSequence + 1 then
      [TerminalAck(e.terminalId, e.generation, b.lastSequence)]
    else [TerminalList]
  }

  /** A checkpoint counts when it is there and its serialization is not empty. */
  predicate HasCheckpoint(d: Descriptor) { d.checkpoint.Some? && !d.checkpoint.value.empty }

  /** The tab a descriptor is applied to: the present one of that generation, or a new one. */
  function BaseEntry(tabs: map<TerminalId, Entry>, d: Descriptor): Entry {
    if d.terminalId in tabs && tabs[d.terminalId].generation == d.generation then tabs[d.terminalId]
    else NewEntry(d.terminalId, d.generation)
  }

  function Restored(e: Entry, d: Descriptor): Entry {
    var e1 := e.(paused := false, historyGap := d.historyGap);
    if HasCheckpoint(d) then
      e1.(screen := d.checkpoint.value.chunks, lastAppliedSequence := d.checkpointWatermark, runs := [])
    else e1
  }

  function AfterSnapshot(e: Entry, d: Descriptor): Entry {
    if d.journal.Some? then AfterBatch(Restored(e, d), d.journal.value) else Restored(e, d)
  }

  function SnapshotCommand(e: Entry, d: Descriptor): seq<Command> {
    if d.journal.Some? then BatchCommand(Restored(e, d), d.journal.value) else []
  }

  datatype View = View(tabs: map<TerminalId, Entry>, sent: seq<Command>)

  /** Commands go out only once the workspace generation is known. */
  function Send(online: bool, v: View, commands: seq<Command>): View {
    if online then v.(sent := v.sent + commands) else v
  }

  function OnSnapshot(online: bool, v: View, d: Descriptor): View {
    var e := BaseEntry(v.tabs, d);
    Send(online, v.(tabs := v.tabs[d.terminalId := AfterSnapshot(e, d)]), SnapshotCommand(e, d))
  }

  function OnSnapshots(online: bool, v: View, ds: seq<Descriptor>): View {
    if ds == [] then v else OnSnapshot(online, OnSnapshots(online, v, ds[..|ds| - 1]), ds[|ds| - 1])
  }

  function LiveTabs(ds: seq<Descriptor>): seq<Descriptor> {
    if ds == [] then []
    else LiveTabs(ds[..|ds| - 1]) + if ds[|ds| - 1].restoredMetadata then [] else [ds[|ds| - 1]]
  }

  function Ids(ds: seq<Descriptor>): set<TerminalId> { set d <- ds :: d.terminalId }

  /** The tabs the host still reports. */
  function Reported(tabs: map<TerminalId, Entry>, live: seq<Descriptor>): map<TerminalId, Entry> {
    map id | id in tabs && id in Ids(live) :: tabs[id]
  }

  function OnListed(online: bool, v: View, ds: seq<Descriptor>): View {
    var live := LiveTabs(ds);
    OnSnapshots(online, v.(tabs := Reported(v.tabs, live)), live)
  }

  function OnOutput(online: bool, v: View, terminalId: TerminalId, generation: nat, b: Batch): View {
    if terminalId !in v.tabs || v.tabs[terminalId].generation != generation || v.tabs[terminalId].paused then v
    else
      var e := v.tabs[terminalId];
      Send(online, v.(tabs := v.tabs[terminalId := AfterBatch(e, b)]), BatchCommand(e, b))
  }

  predicate Removes(v: View, terminalId: TerminalId, generation: Option<nat>) {
    terminalId in v.tabs && (generation.Some? ==> v.tabs[terminalId].generation == generation.value)
  }

  function OnRemove(v: View, terminalId: TerminalId, generation: Option<nat>): View {
    if Removes(v, terminalId, generation) then v.(tabs := v.tabs - {terminalId}) else v
  }

  // ---------------------------------------------------------------- the client object

  class TerminalClient {
    var tabs: map<TerminalId, Entry>
    var sent: seq<Command>
    var workspaceGeneration: Option<nat>

    ghost function Now(): View
      reads this
    {
      View(tabs, sent)
    }

    constructor () ensures Now() == View(map[], []) && workspaceGeneration == None {
      tabs, sent, workspaceGeneration := map[], [], None;
    }

    method SendCommand(c: Command)
      modifies this`sent
      ensures Now() == Send(workspaceGeneration.Some?, old(Now()), [c])
    {
      if workspaceGeneration.None? { return; }
      sent := sent + [c];
    }

    /** Applies one batch to a tab, which the caller stores back. */
    method ApplyBatch(entry0: Entry, batch: Batch) returns (entry: Entry)
      modifies this`sent
      ensures entry == AfterBatch(entry0, batch)
      ensures Now() == Send(workspaceGeneration.Some?, old(Now()), BatchCommand(entry0, batch))
    {
      entry := entry0;
      if batch.firstSequence <= entry.lastAppliedSequence { return; }
      if entry.historyGap {
        entry := Write(entry, batch);
        SendCommand(TerminalAck(entry.terminalId, entry.generation, batch.lastSequence));
        return;
      }
      if batch.firstSequence != entry.lastAppliedSequence + 1 {
        entry := entry.(paused := true);
        SendCommand(TerminalList);
        return;
      }
      entry := Write(entry, batch);
      SendCommand(TerminalAck(entry.terminalId, entry.generation, batch.lastSequence));
    }

    method ApplySnapshot(d: Descriptor)
      modifies this`tabs, this`sent
      ensures Now() == OnSnapshot(workspaceGeneration.Some?, old(Now()), d)
    {
      var entry: Entry;
      if d.terminalId !in tabs || tabs[d.terminalId].generation != d.generation {
        entry := NewEntry(d.terminalId, d.generation).(historyGap := d.historyGap);
      } else {
        entry := tabs[d.terminalId];
      }
      entry := entry.(paused := false, historyGap := d.historyGap);
      if d.checkpoint.Some? && !d.checkpoint.value.empty {
        entry := entry.(screen := d.checkpoint.value.chunks, lastAppliedSequence := d.checkpointWatermark, runs := []);
      }
      if d.journal.Some? { entry := ApplyBatch(entry, d.journal.value); }
      tabs := tabs[d.terminalId := entry];
    }

    method ApplyListed(ds: seq<Descriptor>)
      modifies this`tabs, this`sent
      ensures Now() == OnListed(workspaceGeneration.Some?, old(Now()), ds)
    {
      var live := LiveTabs(ds);
      var stale := tabs.Keys - Ids(live);
      ghost var start, gone := tabs, {};
      while stale != {}
        invariant stale + gone == start.Keys - Ids(live) && stale !! gone
        invariant tabs == start - gone && sent == old(sent)
        decreases stale
      {
        var id :| id in stale;
        var removed := RemoveTab(id, None);
        stale, gone := stale - {id}, gone + {id};
      }
      assert tabs == Reported(start, live);
      for k := 0 to |live|
        invariant Now() == OnSnapshots(workspaceGeneration.Some?, View(Reported(start, live), old(sent)), live[..k])
      {
        assert live[..k + 1][..k] == live[..k];
        ApplySnapshot(live[k]);
      }
      assert live[..|live|] == live;
    }

    method ApplyOutput(terminalId: TerminalId, generation: nat, batch: Batch)
      modifies this`tabs, this`sent
      ensures Now() == OnOutput(workspaceGeneration.Some?, old(Now()), terminalId, generation, batch)
    {
      if terminalId !in tabs || tabs[terminalId].generation != generation || tabs[terminalId].paused { return; }
      var entry := ApplyBatch(tabs[terminalId], batch);
      tabs := tabs[terminalId := entry];
    }

    method RemoveTab(terminalId: TerminalId, generation: Option<nat>) returns (removed: bool)
      modifies this`tabs
      ensures removed == Removes(old(Now()), terminalId, generation)
      ensures Now() == OnRemove(old(Now()), terminalId, generation)
    {
      if terminalId !in tabs { return false; }
      if generation.Some? && tabs[terminalId].generation != generation.value { return false; }
      tabs := tabs - {terminalId};
      return true;
    }
  }
}
