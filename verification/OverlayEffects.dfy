/** What each event does for the panel it is about, and what it leaves alone. */
module OverlayEffects {
  import opened OverlayStack
  import opened OverlayTheorems
  import opened Wrappers

  // ---------------------------------------------------------------- hiding

  /** Whether the last word on a panel's visibility was to hide it. */
  predicate HiddenLast(es: seq<Event>, id: nat) {
    if es == [] then false
    else
      match es[|es| - 1]
      case SetHidden(x, value) => if x == id then value else HiddenLast(es[..|es| - 1], id)
      case Focus(x) => if x == id then false else HiddenLast(es[..|es| - 1], id)
      case _ => HiddenLast(es[..|es| - 1], id)
  }

  lemma {:induction false} SettleAllHides(b: Bridge, ids: seq<nat>)
    ensures SettleAll(b, ids).hidden == b.hidden
    decreases |ids|
  {
    if ids != [] { SettleAllHides(Settle(b, ids[|ids| - 1]), ids[..|ids| - 1]); }
  }

  lemma {:induction false} StepHides(b: Bridge, e: Event, id: nat)
    ensures id in Step(b, e).hidden <==>
            if e.SetHidden? && e.id == id then e.value else if e.Focus? && e.id == id then false else id in b.hidden
  {
    match e
    case SetHidden(x, value) => SyncHides(b.(hidden := if value then b.hidden + {x} else b.hidden - {x}));
    case Focus(x) => SyncHides(b.(hidden := b.hidden - {x}, stack := Raised(b.stack, x)));
    case Unfocus(x) => SyncHides(b.(stack := Lowered(b.stack, x)));
    case Paint(x) => SyncHides(b.(paints := b.paints - {x}));
    case Done(x) => SettleHides(b, x);
    case Failed(x) => SettleHides(Emit(b.(creating := b.creating - {x}), Error(x)), x);
    case InputHandled(x, _, _) =>
      SettleHides(Emit(b, Error(x)), x);
      SettleHides(b, x);
    case Shutdown => SettleAllHides(b, b.stack);
    case _ =>
  }

  lemma {:induction false} SyncHides(b: Bridge)
    ensures SyncVisible(b).hidden == b.hidden
  {
  }

  lemma {:induction false} SettleHides(b: Bridge, id: nat)
    ensures Settle(b, id).hidden == b.hidden
  {
  }

  /** A panel is hidden exactly when the last setHidden or focus of it said so. */
  lemma {:induction false} HiddenIsTheLastWord(es: seq<Event>, id: nat)
    requires Possible(Init(), es)
    ensures id in Run(Init(), es).hidden <==> HiddenLast(es, id)
  {
    if es != [] {
      var init := es[..|es| - 1];
      HiddenIsTheLastWord(init, id);
      StepHides(Run(Init(), init), es[|es| - 1], id);
    }
  }

  /** The view shows the highest stacked panel whose last word was not to hide it. */
  lemma {:induction false} HighestVisibleIsShown(es: seq<Event>)
    requires Possible(Init(), es) && Run(Init(), es).paints == {}
    ensures var b := Run(Init(), es);
            match b.shown
            case Some(id) => exists k :: 0 <= k < |b.stack| && b.stack[k] == id && !HiddenLast(es, id)
                                         && forall j :: k < j < |b.stack| ==> HiddenLast(es, b.stack[j])
            case None => forall x <- b.stack :: HiddenLast(es, x)
  {
    RunOk(es);
    var b := Run(Init(), es);
    forall x: nat ensures x in b.hidden <==> HiddenLast(es, x) { HiddenIsTheLastWord(es, x); }
    TopIsHighest(b.stack, b.hidden);
  }

  lemma {:induction false} TopIsHighest(stack: seq<nat>, hidden: set<nat>)
    ensures match Top(stack, hidden)
            case Some(id) => exists k :: 0 <= k < |stack| && stack[k] == id && id !in hidden
                                         && forall j :: k < j < |stack| ==> stack[j] in hidden
            case None => forall x <- stack :: x in hidden
  {
    if stack != [] {
      var init, last := stack[..|stack| - 1], stack[|stack| - 1];
      assert stack == init + [last];
      TopIsHighest(init, hidden);
      if last !in hidden {
        assert stack[|stack| - 1] == last;
      } else if Top(init, hidden).Some? {
        var k :| 0 <= k < |init| && init[k] == Top(init, hidden).value && forall j :: k < j < |init| ==> init[j] in hidden;
        assert stack[k] == init[k] && forall j :: k < j < |stack| ==> stack[j] in hidden;
      }
    }
  }

  // ---------------------------------------------------------------- settling and repainting

  /** Every call leads to a fresh id, which can fail or be done from then on; a panel can be handled while it lasts. */
  lemma {:induction false} CallsAndHandles(es: seq<Event>, id: nat, value: bool)
    requires Possible(Init(), es)
    ensures var b := Run(Init(), es);
            var c := Step(b, Custom);
            && Enabled(b, Custom) && c.nextPanelId == b.nextPanelId + 1 && c.creating == b.creating + {b.nextPanelId}
            && b.nextPanelId !in b.creating && b.nextPanelId !in b.components
            && (id < c.nextPanelId ==> Enabled(c, Done(id)) && Enabled(c, Failed(id)))
            && (id in c.creating ==> Enabled(c, Arrived(id)))
            && (id in c.stack ==> Enabled(c, SetHidden(id, value)) && Enabled(c, Focus(id)) && Enabled(c, Unfocus(id)))
  {
    RunOk(es);
  }

  /** The event ends the panel or its creation: done, a failure, an error, or a cancelling keystroke. */
  predicate Ends(b: Bridge, e: Event, id: nat) {
    || e == Done(id) || e == Failed(id)
    || (e.InputHandled? && e.id == id && (e.threw || (e.cancel && id in b.stack)))
  }

  predicate IsError(e: Event) { e.Failed? || (e.InputHandled? && e.threw) }

  /**
    After any run an event that ends a panel leaves it settled, off the stack and off the screen, its caller resolved
    once and its component disposed once; an error is reported before that.
   */
  lemma {:induction false} EndingSettles(es: seq<Event>, e: Event, id: nat)
    requires Possible(Init(), es) && Enabled(Run(Init(), es), e) && Ends(Run(Init(), es), e, id)
    ensures var b := Run(Init(), es);
            var c := Step(b, e);
            && id in c.settled && id !in c.stack && c.resolved[id] == 1 && (id in c.components ==> c.disposed[id] == 1)
            && (id !in b.settled ==> c.shown != Some(id))
            && (IsError(e) ==> b.frames + [Error(id)] <= c.frames)
  {
    RunOk(es);
    var b := Run(Init(), es);
    StepOk(b, e);
    SettleGrows(Emit(b.(creating := b.creating - {id}), Error(id)), id);
    SettleGrows(Emit(b, Error(id)), id);
    SettleGrows(b, id);
  }

  lemma {:induction false} SettleGrows(b: Bridge, id: nat)
    ensures var c := Settle(b, id);
            b.frames <= c.frames && id in c.settled && (id !in b.settled ==> c.shown == Top(c.stack, c.hidden))
    ensures Distinct(b.stack) && id !in b.settled ==> Settle(b, id).shown != Some(id)
  {
    if Distinct(b.stack) { WithoutMembers(b.stack, id); }
    TopIsStacked(Without(b.stack, id), b.hidden);
  }

  /** A keystroke that is handled, or a request to render, repaints the shown panel and nothing else. */
  lemma {:induction false} HandlingRepaints(es: seq<Event>, id: nat)
    requires Possible(Init(), es) && id in Run(Init(), es).stack
    ensures var b := Run(Init(), es);
            && Enabled(b, InputHandled(id, false, false)) && Enabled(b, RequestRender(id))
            && Step(b, RequestRender(id)) == Step(b, InputHandled(id, false, false))
            && Step(b, RequestRender(id)) == if b.shown == Some(id) then b.(frames := b.frames + [Update(id)]) else b
  {
    RunOk(es);
  }

  /** A component that arrives in time is put on top, waiting for its paint; a late one is disposed at once. */
  lemma {:induction false} ArrivalStacks(es: seq<Event>, id: nat)
    requires Possible(Init(), es) && id in Run(Init(), es).creating
    ensures var b := Run(Init(), es);
            var c := Step(b, Arrived(id));
            && id in c.components && id !in c.creating && c.frames == b.frames && c.shown == b.shown
            && (if id in b.settled then c.stack == b.stack && c.disposed[id] == 1
                else c.stack == b.stack + [id] && id in c.paints && c.disposed[id] == 0)
  {
    RunOk(es);
    StepOk(Run(Init(), es), Arrived(id));
  }

  // ---------------------------------------------------------------- the order of the others

  /** One panel stands somewhere below the other. */
  ghost predicate Below(stack: seq<nat>, x: nat, y: nat) {
    exists i, j :: 0 <= i < j < |stack| && stack[i] == x && stack[j] == y
  }

  lemma {:induction false} BelowCons(head: nat, tail: seq<nat>, x: nat, y: nat)
    ensures Below([head] + tail, x, y) <==> (head == x && y in tail) || Below(tail, x, y)
  {
    var stack := [head] + tail;
    if Below(stack, x, y) {
      var i, j :| 0 <= i < j < |stack| && stack[i] == x && stack[j] == y;
      assert stack[j] == tail[j - 1];
      if i > 0 { assert tail[i - 1] == x && tail[j - 1] == y; }
    }
    if head == x && y in tail {
      var j :| 0 <= j < |tail| && tail[j] == y;
      assert stack[0] == x && stack[j + 1] == y;
    }
    if Below(tail, x, y) {
      var i, j :| 0 <= i < j < |tail| && tail[i] == x && tail[j] == y;
      assert stack[i + 1] == x && stack[j + 1] == y;
    }
  }

  lemma {:induction false} BelowSnoc(init: seq<nat>, last: nat, x: nat, y: nat)
    requires last != x && last != y
    ensures Below(init + [last], x, y) <==> Below(init, x, y)
  {
    var stack := init + [last];
    if Below(stack, x, y) {
      var i, j :| 0 <= i < j < |stack| && stack[i] == x && stack[j] == y;
      assert init[i] == x && init[j] == y;
    }
    if Below(init, x, y) {
      var i, j :| 0 <= i < j < |init| && init[i] == x && init[j] == y;
      assert stack[i] == x && stack[j] == y;
    }
  }

  lemma {:induction false} BelowWithout(stack: seq<nat>, id: nat, x: nat, y: nat)
    requires id != x && id != y
    ensures Below(Without(stack, id), x, y) <==> Below(stack, x, y)
    ensures y in Without(stack, id) <==> y in stack
  {
    if stack != [] {
      var head, tail := stack[0], stack[1..];
      assert stack == [head] + tail;
      BelowWithout(tail, id, x, y);
      BelowCons(head, tail, x, y);
      if head != id { BelowCons(head, Without(tail, id), x, y); }
    }
  }

  lemma {:induction false} StacksOf(b: Bridge, e: Event, rest: seq<nat>)
    requires Enabled(b, e) && !e.Shutdown? && !e.Custom? && rest == Without(b.stack, e.id)
    ensures Step(b, e).stack in [b.stack, rest, rest + [e.id], [e.id] + rest, b.stack + [e.id]]
  {
  }

  /** Every event but a shutdown keeps the order of the panels it is not about. */
  lemma {:induction false} OthersKeepTheirOrder(b: Bridge, e: Event, x: nat, y: nat)
    requires Enabled(b, e) && !e.Shutdown? && (!e.Custom? ==> e.id != x && e.id != y)
    ensures Below(Step(b, e).stack, x, y) <==> Below(b.stack, x, y)
  {
    if !e.Custom? {
      var rest := Without(b.stack, e.id);
      StacksOf(b, e, rest);
      BelowWithout(b.stack, e.id, x, y);
      BelowSnoc(rest, e.id, x, y);
      BelowSnoc(b.stack, e.id, x, y);
      BelowCons(e.id, rest, x, y);
    }
  }
}
