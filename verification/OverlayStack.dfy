/**
  Overlay panels of extensions, shown one at a time by a remote view. A factory, the arrival of its component, the
  deferred first paint and the handling of a keystroke are separate events, so whatever callbacks do in between
  appears as further events. Settling a panel is one step: a component's `dispose` runs in the middle of it and is
  taken to leave the other panels alone.
 */
module OverlayStack {
  import opened Wrappers

  datatype Frame = Open(id: nat) | Update(id: nat) | Close(id: nat) | Error(id: nat)

  datatype Bridge = Bridge(
    stack: seq<nat>, hidden: set<nat>, nextPanelId: nat, shown: Option<nat>, frames: seq<Frame>,
    creating: set<nat>,     // the factory's component has not arrived yet
    panels: set<nat>,       // the component arrived in time and became a panel
    settled: set<nat>,
    paints: set<nat>,       // deferred first paints that have not run yet
    components: set<nat>,   // every component a factory ever produced
    disposed: multiset<nat>, resolved: multiset<nat>)

  function Init(): Bridge { Bridge([], {}, 0, None, [], {}, {}, {}, {}, {}, multiset{}, multiset{}) }

  /** The topmost panel that is not hidden. */
  function Top(stack: seq<nat>, hidden: set<nat>): Option<nat> {
    if stack == [] then None
    else if stack[|stack| - 1] !in hidden then Some(stack[|stack| - 1])
    else Top(stack[..|stack| - 1], hidden)
  }

  function Emit(b: Bridge, frame: Frame): Bridge { b.(frames := b.frames + [frame]) }

  function Repaint(b: Bridge, id: nat): Bridge {
    if b.shown == Some(id) then Emit(b, Update(id)) else b
  }

  function SyncVisible(b: Bridge): Bridge {
    var next := Top(b.stack, b.hidden);
    if next == b.shown then b
    else
      var closed := if b.shown.Some? then Emit(b, Close(b.shown.value)) else b;
      var moved := closed.(shown := next);
      if next.Some? then Emit(moved, Open(next.value)) else moved
  }

  function Without(stack: seq<nat>, id: nat): seq<nat> {
    if stack == [] then []
    else if stack[0] == id then stack[1..]
    else [stack[0]] + Without(stack[1..], id)
  }

  function Raised(stack: seq<nat>, id: nat): seq<nat> {
    if id in stack then Without(stack, id) + [id] else stack
  }

  function Lowered(stack: seq<nat>, id: nat): seq<nat> {
    if id in stack then [id] + Without(stack, id) else stack
  }

  function Settle(b: Bridge, id: nat): Bridge {
    if id in b.settled then b
    else
      var off := b.(settled := b.settled + {id}, stack := Without(b.stack, id),
                    disposed := if id in b.panels then b.disposed + multiset{id} else b.disposed);
      SyncVisible(off).(resolved := b.resolved + multiset{id})
  }

  datatype Event =
    | Custom                             // custom() is called: a new id, its factory starts
    | Arrived(id: nat)                   // the factory's component is there
    | Failed(id: nat)                    // the factory, or onHandle, threw or rejected
    | Paint(id: nat)                     // the deferred first paint runs
    | Done(id: nat)                      // the component calls done, or its handle's hide
    | SetHidden(id: nat, value: bool)
    | Focus(id: nat)
    | Unfocus(id: nat)
    | RequestRender(id: nat)
    | InputHandled(id: nat, threw: bool, cancel: bool)   // a keystroke's handler returned
    | Shutdown

  predicate Enabled(b: Bridge, e: Event) {
    match e
    case Custom => true
    case Arrived(id) => id in b.creating
    case Failed(id) => id < b.nextPanelId
    case Paint(id) => id in b.paints
    case Done(id) => id < b.nextPanelId
    case SetHidden(id, _) => id in b.panels
    case Focus(id) => id in b.panels
    case Unfocus(id) => id in b.panels
    case RequestRender(id) => id < b.nextPanelId
    case InputHandled(id, _, _) => id in b.panels
    case Shutdown => true
  }

  function SettleAll(b: Bridge, ids: seq<nat>): Bridge
    decreases |ids|
  {
    if ids == [] then b else SettleAll(Settle(b, ids[|ids| - 1]), ids[..|ids| - 1])
  }

  function Step(b: Bridge, e: Event): Bridge {
    match e
    case Custom => b.(nextPanelId := b.nextPanelId + 1, creating := b.creating + {b.nextPanelId})
    case Arrived(id) =>
      var c := b.(creating := b.creating - {id}, components := b.components + {id});
      if id in b.settled then c.(disposed := b.disposed + multiset{id})
      else c.(panels := b.panels + {id}, stack := b.stack + [id], paints := b.paints + {id})
    case Failed(id) => Settle(Emit(b.(creating := b.creating - {id}), Error(id)), id)
    case Paint(id) =>
      var c := b.(paints := b.paints - {id});
      if id in b.settled then c else SyncVisible(c)
    case Done(id) => Settle(b, id)
    case SetHidden(id, value) =>
      if (id in b.hidden) == value then b
      else SyncVisible(b.(hidden := if value then b.hidden + {id} else b.hidden - {id}))
    case Focus(id) => SyncVisible(b.(hidden := b.hidden - {id}, stack := Raised(b.stack, id)))
    case Unfocus(id) => SyncVisible(b.(stack := Lowered(b.stack, id)))
    case RequestRender(id) => if id in b.settled || id !in b.panels then b else Repaint(b, id)
    case InputHandled(id, threw, cancel) =>
      if threw then Settle(Emit(b, Error(id)), id)
      else if id !in b.stack then b
      else if cancel then Settle(b, id)
      else Repaint(b, id)
    case Shutdown => SettleAll(b, b.stack)
  }

  function Run(b: Bridge, es: seq<Event>): Bridge {
    if es == [] then b else Step(Run(b, es[..|es| - 1]), es[|es| - 1])
  }

  ghost predicate Possible(b: Bridge, es: seq<Event>) {
    es == [] || (Possible(b, es[..|es| - 1]) && Enabled(Run(b, es[..|es| - 1]), es[|es| - 1]))
  }

  // ---------------------------------------------------------------- the remote view

  /** The remote view: which panel it shows after a trace, or nothing at all if the trace breaks its protocol. */
  datatype Remote = Broken | Showing(panel: Option<nat>)

  function Observe(r: Remote, f: Frame): Remote {
    match f
    case Open(id) => if r == Showing(None) then Showing(Some(id)) else Broken
    case Update(id) => if r == Showing(Some(id)) then r else Broken
    case Close(id) => if r == Showing(Some(id)) then Showing(None) else Broken
    case Error(_) => r
  }

  function RemoteAfter(frames: seq<Frame>): Remote {
    if frames == [] then Showing(None) else Observe(RemoteAfter(frames[..|frames| - 1]), frames[|frames| - 1])
  }

  // ---------------------------------------------------------------- what every run keeps

  ghost predicate Distinct(s: seq<nat>) { forall i, j :: 0 <= i < j < |s| ==> s[i] != s[j] }

  ghost predicate PanelsOk(b: Bridge) {
    && Distinct(b.stack)
    && (forall id :: id in b.stack <==> id in b.panels && id !in b.settled)
    && b.panels <= b.components && b.creating !! b.components
    && (forall id | id in b.components :: id < b.nextPanelId)
    && (forall id | id in b.creating :: id < b.nextPanelId)
    && (forall id | id in b.components - b.panels :: id in b.settled)
    && b.paints <= b.panels
  }

  /** Each caller resolves once it is settled, once; each component is disposed once it is off the stack, once. */
  ghost predicate CountsOk(b: Bridge) {
    && (forall id: nat :: b.resolved[id] == if id in b.settled then 1 else 0)
    && (forall id: nat :: b.disposed[id] == if id in b.components && id !in b.stack then 1 else 0)
  }

  /** Some panel still waits for its first paint. */
  ghost predicate PaintDue(b: Bridge) { exists id | id in b.paints :: id !in b.settled }

  ghost predicate Inv(b: Bridge) {
    && PanelsOk(b) && CountsOk(b)
    && RemoteAfter(b.frames) == Showing(b.shown)
    && (PaintDue(b) || b.shown == Top(b.stack, b.hidden))
  }
}
