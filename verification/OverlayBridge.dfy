/** The bridge object in the source's imperative form: one shared stack, spliced and searched in place. */
module OverlayBridge {
  import opened OverlayStack
  import opened Wrappers

  lemma {:induction false} WithoutAt(stack: seq<nat>, k: nat)
    requires k < |stack| && stack[k] !in stack[..k]
    ensures Without(stack, stack[k]) == stack[..k] + stack[k + 1..]
  {
    if k > 0 {
      assert stack[0] in stack[..k] && stack[1..][..k - 1] == stack[..k][1..];
      WithoutAt(stack[1..], k - 1);
    }
  }

  lemma {:induction false} WithoutAbsent(stack: seq<nat>, id: nat)
    requires id !in stack
    ensures Without(stack, id) == stack
  {
    if stack != [] { WithoutAbsent(stack[1..], id); }
  }

  class CustomUiBridge {
    var stack: seq<nat>
    var hidden: set<nat>
    var nextPanelId: nat
    var shownId: Option<nat>
    var frames: seq<Frame>
    var creating: set<nat>
    var panels: set<nat>
    var settled: set<nat>
    var paints: set<nat>
    var components: set<nat>
    var disposed: multiset<nat>
    var resolved: multiset<nat>

    ghost function Now(): Bridge
      reads this
    {
      Bridge(stack, hidden, nextPanelId, shownId, frames, creating, panels, settled, paints, components, disposed, resolved)
    }

    constructor () ensures Now() == Init() {
      stack, hidden, nextPanelId, shownId, frames := [], {}, 0, None, [];
      creating, panels, settled, paints, components := {}, {}, {}, {}, {};
      disposed, resolved := multiset{}, multiset{};
    }

    method FindTop() returns (panel: Option<nat>)
      ensures panel == Top(stack, hidden)
    {
      var index := |stack|;
      assert stack[..index] == stack;
      while index > 0
        invariant 0 <= index <= |stack| && Top(stack, hidden) == Top(stack[..index], hidden)
      {
        assert stack[..index][..index - 1] == stack[..index - 1];
        index := index - 1;
        if stack[index] !in hidden { return Some(stack[index]); }
      }
      return None;
    }

    method EmitFrame(frame: Frame)
      modifies this`frames
      ensures frames == old(frames) + [frame]
    {
      frames := frames + [frame];
    }

    method Sync()
      modifies this`shownId, this`frames
      ensures Now() == SyncVisible(old(Now()))
    {
      var next := FindTop();
      if next == shownId { return; }
      if shownId.Some? { EmitFrame(Close(shownId.value)); }
      shownId := next;
      if next.Some? { EmitFrame(Open(next.value)); }
    }

    method RepaintPanel(id: nat)
      modifies this`frames
      ensures Now() == Repaint(old(Now()), id)
    {
      if shownId != Some(id) { return; }
      EmitFrame(Update(id));
    }

    method IndexOf(id: nat) returns (index: Option<nat>)
      ensures index.None? <==> id !in stack
      ensures index.Some? ==> index.value < |stack| && stack[index.value] == id && id !in stack[..index.value]
    {
      for k := 0 to |stack|
        invariant id !in stack[..k]
      {
        if stack[k] == id { return Some(k); }
      }
      return None;
    }

    /** Splices the panel out of the stack, wherever it is. */
    method Splice(id: nat)
      modifies this`stack
      ensures stack == Without(old(stack), id)
    {
      var index := IndexOf(id);
      if index.Some? {
        WithoutAt(stack, index.value);
        stack := stack[..index.value] + stack[index.value + 1..];
      } else {
        WithoutAbsent(stack, id);
      }
    }

    method SettlePanel(id: nat)
      modifies this
      ensures Now() == Settle(old(Now()), id)
    {
      if id in settled { return; }
      ghost var b := Now();
      settled := settled + {id};
      Splice(id);
      if id in panels { disposed := disposed + multiset{id}; }
      ghost var off := Now();
      assert off == b.(settled := b.settled + {id}, stack := Without(b.stack, id),
                       disposed := if id in b.panels then b.disposed + multiset{id} else b.disposed);
      Sync();
      assert Now() == SyncVisible(off) && resolved == b.resolved;
      resolved := resolved + multiset{id};
    }

    method HandleSetHidden(id: nat, value: bool)
      modifies this
      ensures Now() == Step(old(Now()), SetHidden(id, value))
    {
      if (id in hidden) == value { return; }
      hidden := if value then hidden + {id} else hidden - {id};
      Sync();
    }

    /** Splices the panel out and pushes it, unless it is on top already. */
    method Raise(id: nat)
      modifies this`stack
      ensures stack == Raised(old(stack), id)
    {
      var index := IndexOf(id);
      if index.None? { return; }
      WithoutAt(stack, index.value);
      if index.value == |stack| - 1 { return; }
      stack := stack[..index.value] + stack[index.value + 1..];
      stack := stack + [id];
    }

    /** Splices the panel out and puts it at the bottom. */
    method Lower(id: nat)
      modifies this`stack
      ensures stack == Lowered(old(stack), id)
    {
      var index := IndexOf(id);
      if index.None? { return; }
      WithoutAt(stack, index.value);
      stack := stack[..index.value] + stack[index.value + 1..];
      stack := [id] + stack;
    }

    method HandleFocus(id: nat)
      modifies this
      ensures Now() == Step(old(Now()), Focus(id))
    {
      hidden := hidden - {id};
      Raise(id);
      Sync();
    }

    method HandleUnfocus(id: nat)
      modifies this
      ensures Now() == Step(old(Now()), Unfocus(id))
    {
      Lower(id);
      Sync();
    }

    method ComponentArrived(id: nat)
      modifies this
      ensures Now() == Step(old(Now()), Arrived(id))
    {
      creating, components := creating - {id}, components + {id};
      if id in settled {
        disposed := disposed + multiset{id};
        return;
      }
      panels := panels + {id};
      stack := stack + [id];
      paints := paints + {id};
    }

    method RunPaint(id: nat)
      modifies this
      ensures Now() == Step(old(Now()), Paint(id))
    {
      paints := paints - {id};
      if id !in settled { Sync(); }
    }

    /** The panel a keystroke goes to: the one addressed, if it is stacked, otherwise the topmost visible one. */
    method InputTarget(addressed: Option<nat>) returns (panel: Option<nat>)
      ensures addressed.None? ==> panel == Top(stack, hidden)
      ensures addressed.Some? ==> panel == if addressed.value in stack then addressed else None
    {
      if addressed.Some? {
        var index := IndexOf(addressed.value);
        return if index.Some? then addressed else None;
      }
      panel := FindTop();
    }

    method FinishInput(id: nat, threw: bool, cancel: bool)
      modifies this
      ensures Now() == Step(old(Now()), InputHandled(id, threw, cancel))
    {
      if threw {
        EmitFrame(Error(id));
        SettlePanel(id);
        return;
      }
      var index := IndexOf(id);
      if index.None? { return; }
      if cancel {
        SettlePanel(id);
        return;
      }
      RepaintPanel(id);
    }

    /** Settles a snapshot of the stack from the top down. */
    method ShutDown()
      modifies this
      ensures Now() == Step(old(Now()), Shutdown)
    {
      var order := stack;
      var k := |order|;
      assert order[..k] == order;
      while k > 0
        invariant 0 <= k <= |order|
        invariant SettleAll(old(Now()), order) == SettleAll(Now(), order[..k])
      {
        assert order[..k][..k - 1] == order[..k - 1];
        k := k - 1;
        SettlePanel(order[k]);
      }
    }
  }
}
