/** What the overlay bridge keeps over every run of panels, handles, keystrokes and shutdowns. */
module OverlayTheorems {
  import opened OverlayStack
  import opened Wrappers

  lemma {:induction false} WithoutMembers(s: seq<nat>, id: nat)
    requires Distinct(s)
    ensures forall x :: x in Without(s, id) <==> x in s && x != id
    ensures Distinct(Without(s, id))
    ensures id !in s ==> Without(s, id) == s
  {
    if s != [] {
      assert s == [s[0]] + s[1..];
      WithoutMembers(s[1..], id);
      if s[0] != id {
        var rest := Without(s[1..], id);
        assert forall j :: 0 <= j < |rest| ==> rest[j] in s[1..];
      }
    }
  }

  lemma EmitRemote(b: Bridge, f: Frame)
    ensures RemoteAfter(Emit(b, f).frames) == Observe(RemoteAfter(b.frames), f)
  {
    assert (b.frames + [f])[..|b.frames|] == b.frames;
  }

  lemma SyncOk(b: Bridge)
    requires RemoteAfter(b.frames) == Showing(b.shown)
    ensures var c := SyncVisible(b);
            && c.shown == Top(b.stack, b.hidden) && RemoteAfter(c.frames) == Showing(c.shown)
            && c == b.(shown := c.shown, frames := c.frames)
  {
    var next := Top(b.stack, b.hidden);
    if next != b.shown {
      if b.shown.Some? { EmitRemote(b, Close(b.shown.value)); }
      var moved := (if b.shown.Some? then Emit(b, Close(b.shown.value)) else b).(shown := next);
      if next.Some? { EmitRemote(moved, Open(next.value)); }
    }
  }

  lemma RepaintOk(b: Bridge, id: nat)
    requires RemoteAfter(b.frames) == Showing(b.shown)
    ensures var c := Repaint(b, id);
            RemoteAfter(c.frames) == Showing(b.shown) && c == b.(frames := c.frames)
  {
    EmitRemote(b, Update(id));
  }

  lemma SettleOk(b: Bridge, id: nat)
    requires Inv(b) && id < b.nextPanelId
    ensures Inv(Settle(b, id)) && Settle(b, id).nextPanelId == b.nextPanelId
    ensures Settle(b, id).settled == b.settled + {id} && Settle(b, id).panels == b.panels
  {
    if id !in b.settled {
      WithoutMembers(b.stack, id);
      SyncOk(b.(settled := b.settled + {id}, stack := Without(b.stack, id),
                disposed := if id in b.panels then b.disposed + multiset{id} else b.disposed));
    }
  }

  lemma {:induction false} SettleAllOk(b: Bridge, ids: seq<nat>)
    requires Inv(b) && forall id <- ids :: id < b.nextPanelId
    ensures Inv(SettleAll(b, ids)) && SettleAll(b, ids).panels == b.panels
    ensures SettleAll(b, ids).settled == b.settled + set id <- ids
    decreases |ids|
  {
    if ids != [] {
      var init, id := ids[..|ids| - 1], ids[|ids| - 1];
      assert ids == init + [id] && id in ids && forall x <- init :: x in ids;
      SettleOk(b, id);
      SettleAllOk(Settle(b, id), init);
    }
  }

  lemma ErrorThenSettleOk(b: Bridge, id: nat)
    requires Inv(b) && id < b.nextPanelId
    ensures Inv(Settle(Emit(b, Error(id)), id))
  {
    EmitRemote(b, Error(id));
    SettleOk(Emit(b, Error(id)), id);
  }

  lemma {:induction false} TopIsStacked(stack: seq<nat>, hidden: set<nat>)
    ensures var t := Top(stack, hidden); t.Some? ==> t.value in stack && t.value !in hidden
    ensures Top(stack, hidden).None? ==> forall id <- stack :: id in hidden
  {
    if stack != [] {
      assert stack == stack[..|stack| - 1] + [stack[|stack| - 1]];
      TopIsStacked(stack[..|stack| - 1], hidden);
    }
  }

  lemma ArrivedOk(b: Bridge, id: nat)
    requires Inv(b) && id in b.creating
    ensures Inv(Step(b, Arrived(id)))
  {
    var c := Step(b, Arrived(id));
    if id !in b.settled {
      assert id in c.paints && id !in c.settled;
    }
  }

  lemma RestackOk(b: Bridge, stack: seq<nat>, hidden: set<nat>)
    requires Inv(b) && Distinct(stack) && (forall x :: x in stack <==> x in b.stack)
    ensures Inv(SyncVisible(b.(stack := stack, hidden := hidden)))
  {
    SyncOk(b.(stack := stack, hidden := hidden));
  }

  lemma HandleOk(b: Bridge, e: Event)
    requires Inv(b) && Enabled(b, e) && (e.SetHidden? || e.Focus? || e.Unfocus?)
    ensures Inv(Step(b, e))
  {
    WithoutMembers(b.stack, e.id);
    var rest := Without(b.stack, e.id);
    match e
    case SetHidden(id, value) =>
      if (id in b.hidden) != value { RestackOk(b, b.stack, if value then b.hidden + {id} else b.hidden - {id}); }
    case Focus(id) => RestackOk(b, if id in b.stack then rest + [id] else b.stack, b.hidden - {id});
    case Unfocus(id) => RestackOk(b, if id in b.stack then [id] + rest else b.stack, b.hidden);
  }

  lemma {:induction false} InputOk(b: Bridge, e: Event)
    requires Inv(b) && Enabled(b, e) && e.InputHandled?
    ensures Inv(Step(b, e))
  {
    if e.threw { ErrorThenSettleOk(b, e.id); }
    else if e.cancel { SettleOk(b, e.id); }
    else { RepaintOk(b, e.id); }
  }

  lemma StepOk(b: Bridge, e: Event)
    requires Inv(b) && Enabled(b, e)
    ensures Inv(Step(b, e))
  {
    match e
    case Custom =>
    case Arrived(id) => ArrivedOk(b, id);
    case Failed(id) => ErrorThenSettleOk(b.(creating := b.creating - {id}), id);
    case Paint(id) => PaintOk(b, id);
    case Done(id) => SettleOk(b, id);
    case SetHidden(_, _) => HandleOk(b, e);
    case Focus(_) => HandleOk(b, e);
    case Unfocus(_) => HandleOk(b, e);
    case RequestRender(id) => RepaintOk(b, id);
    case InputHandled(_, _, _) => InputOk(b, e);
    case Shutdown => SettleAllOk(b, b.stack);
  }

  lemma PaintOk(b: Bridge, id: nat)
    requires Inv(b) && id in b.paints
    ensures Inv(Step(b, Paint(id)))
  {
    var c := b.(paints := b.paints - {id});
    if id in b.settled {
      if PaintDue(b) {
        var other :| other in b.paints && other !in b.settled;
        assert other in c.paints;
      }
    } else {
      SyncOk(c);
    }
  }

  lemma {:induction false} RunOk(es: seq<Event>)
    requires Possible(Init(), es)
    ensures Inv(Run(Init(), es))
  {
    if es != [] {
      RunOk(es[..|es| - 1]);
      StepOk(Run(Init(), es[..|es| - 1]), es[|es| - 1]);
    }
  }

  // ---------------------------------------------------------------- the promises

  /** The remote view never sees a frame out of turn, and it always shows what the bridge thinks it shows. */
  lemma TraceIsWellFormed(es: seq<Event>)
    requires Possible(Init(), es)
    ensures RemoteAfter(Run(Init(), es).frames) == Showing(Run(Init(), es).shown)
  {
    RunOk(es);
  }

  /** Once no first paint is pending, the view shows the topmost panel that is not hidden, or none if all are. */
  lemma QuiescentViewShowsTop(es: seq<Event>)
    requires Possible(Init(), es) && Run(Init(), es).paints == {}
    ensures var b := Run(Init(), es);
            && RemoteAfter(b.frames) == Showing(Top(b.stack, b.hidden))
            && (b.shown.Some? ==> b.shown.value in b.stack && b.shown.value !in b.hidden)
            && (b.shown.None? ==> forall id <- b.stack :: id in b.hidden)
  {
    RunOk(es);
    var b := Run(Init(), es);
    TopIsStacked(b.stack, b.hidden);
  }

  /** Each caller is resolved at most once, and each component is either still stacked or disposed exactly once. */
  lemma OneResolutionOneDisposal(es: seq<Event>, id: nat)
    requires Possible(Init(), es)
    ensures var b := Run(Init(), es);
            && b.resolved[id] <= 1 && (b.resolved[id] == 1 <==> id in b.settled)
            && (id in b.components ==> (b.disposed[id] == 1 && id !in b.stack) || (b.disposed[id] == 0 && id in b.stack))
            && (id in b.components && id in b.settled ==> b.disposed[id] == 1)
            && (id !in b.components ==> b.disposed[id] == 0)
  {
    RunOk(es);
  }

  lemma HasMember(s: seq<nat>)
    ensures s != [] ==> exists x :: x in s
  {
    if s != [] { assert s[0] in s; }
  }

  /** Every issued caller waits for its component, has it, or is settled. */
  ghost predicate Accounted(b: Bridge) {
    forall id :: 0 <= id < b.nextPanelId ==> id in b.creating || id in b.components || id in b.settled
  }

  lemma SettleFrame(b: Bridge, id: nat)
    ensures var c := Settle(b, id);
            c.creating == b.creating && c.components == b.components && c.nextPanelId == b.nextPanelId
            && c.settled == b.settled + {id}
  {
  }

  lemma {:induction false} SettleAllFrame(b: Bridge, ids: seq<nat>)
    ensures var c := SettleAll(b, ids);
            c.creating == b.creating && c.components == b.components && c.nextPanelId == b.nextPanelId
            && b.settled <= c.settled
    decreases |ids|
  {
    if ids != [] {
      SettleFrame(b, ids[|ids| - 1]);
      SettleAllFrame(Settle(b, ids[|ids| - 1]), ids[..|ids| - 1]);
    }
  }

  lemma StepAccounted(b: Bridge, e: Event)
    requires Accounted(b) && Enabled(b, e)
    ensures Accounted(Step(b, e))
  {
    match e
    case Failed(id) => SettleFrame(Emit(b.(creating := b.creating - {id}), Error(id)), id);
    case Done(id) => SettleFrame(b, id);
    case InputHandled(id, _, _) =>
      SettleFrame(Emit(b, Error(id)), id);
      SettleFrame(b, id);
    case Shutdown => SettleAllFrame(b, b.stack);
    case _ =>
  }

  lemma {:induction false} RunAccounted(es: seq<Event>)
    requires Possible(Init(), es)
    ensures Accounted(Run(Init(), es))
  {
    if es != [] {
      RunAccounted(es[..|es| - 1]);
      StepAccounted(Run(Init(), es[..|es| - 1]), es[|es| - 1]);
    }
  }

  /** Somebody's factory has not answered yet, and nothing else has settled that caller. */
  ghost predicate AwaitsComponent(b: Bridge, id: nat) { id in b.creating && id !in b.settled }

  /**
    Shutdown always leaves nothing stacked and nothing on screen, with every component disposed once. It releases
    every caller exactly when no unsettled one still waits for its component: those are not on the stack.
   */
  lemma {:induction false} ShutdownReleasesExactlyTheStacked(es: seq<Event>)
    requires Possible(Init(), es)
    ensures var b := Step(Run(Init(), es), Shutdown);
            && b.stack == [] && RemoteAfter(b.frames) == Showing(None)
            && (forall id <- b.components :: b.resolved[id] == 1 && b.disposed[id] == 1)
            && (forall id: nat :: id < b.nextPanelId ==> (b.resolved[id] == 1 <==> !AwaitsComponent(b, id)))
            && (forall id: nat :: AwaitsComponent(b, id) <==> AwaitsComponent(Run(Init(), es), id))
  {
    RunOk(es);
    RunAccounted(es);
    var b := Run(Init(), es);
    SettleAllOk(b, b.stack);
    SettleAllFrame(b, b.stack);
    var c := SettleAll(b, b.stack);
    HasMember(c.stack);
    assert c.stack == [];
    forall id: nat | AwaitsComponent(b, id) ensures id !in b.stack {
      assert id !in b.components;
    }
  }

  /** A caller whose factory is still at work when the session shuts down stays waiting. */
  lemma ShutdownLeavesAnEarlyCallerWaiting()
    ensures Possible(Init(), [Custom, Shutdown])
    ensures var b := Run(Init(), [Custom, Shutdown]); AwaitsComponent(b, 0) && b.resolved[0] == 0
  {
    var es := [Custom, Shutdown];
    assert es[..1] == [Custom] && [Custom][..0] == [];
    var b := Step(Init(), Custom);
    assert Run(Init(), []) == Init() && Run(Init(), [Custom]) == b;
    assert Possible(Init(), []) && Possible(Init(), [Custom]);
    assert SettleAll(b, b.stack) == b;
  }

  lemma {:induction false} TopOfAppended(stack: seq<nat>, id: nat, hidden: set<nat>)
    requires id !in hidden
    ensures Top(stack + [id], hidden) == Some(id)
  {
    assert (stack + [id])[..|stack|] == stack;
  }

  lemma {:induction false} TopOfPrepended(stack: seq<nat>, id: nat, hidden: set<nat>)
    ensures Top([id] + stack, hidden) ==
            if Top(stack, hidden).Some? then Top(stack, hidden) else if id in hidden then None else Some(id)
  {
    var all := [id] + stack;
    if stack == [] {
      assert all[..0] == [];
    } else {
      assert all[..|all| - 1] == [id] + stack[..|stack| - 1];
      TopOfPrepended(stack[..|stack| - 1], id, hidden);
    }
  }

  lemma FocusShows(b: Bridge, id: nat)
    requires Inv(b) && id in b.stack
    ensures Step(b, Focus(id)).shown == Some(id)
  {
    var c := b.(hidden := b.hidden - {id}, stack := Without(b.stack, id) + [id]);
    TopOfAppended(Without(b.stack, id), id, b.hidden - {id});
    SyncOk(c);
    assert Step(b, Focus(id)) == SyncVisible(c);
  }

  lemma UnfocusYields(b: Bridge, id: nat)
    requires Inv(b) && id in b.stack
    ensures var others := Top(Without(b.stack, id), b.hidden);
            Step(b, Unfocus(id)).shown == if others.Some? then others else if id in b.hidden then None else Some(id)
  {
    var c := b.(stack := [id] + Without(b.stack, id));
    TopOfPrepended(Without(b.stack, id), id, b.hidden);
    SyncOk(c);
    assert Step(b, Unfocus(id)) == SyncVisible(c);
  }

  /** Focus brings a stacked panel on screen; unfocus yields to any other visible panel and only then keeps it. */
  lemma FocusAndUnfocus(es: seq<Event>, id: nat)
    requires Possible(Init(), es) && id in Run(Init(), es).stack
    ensures var b := Run(Init(), es);
            && Step(b, Focus(id)).shown == Some(id)
            && (var others := Top(Without(b.stack, id), b.hidden);
                Step(b, Unfocus(id)).shown == if others.Some? then others else if id in b.hidden then None else Some(id))
  {
    RunOk(es);
    FocusShows(Run(Init(), es), id);
    UnfocusYields(Run(Init(), es), id);
  }
}
