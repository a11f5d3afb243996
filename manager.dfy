/**
 * The master/stack layout manager of one workspace, as an object that keeps
 * the master id and the stack ids as fields and updates them in place.
 * Every compositor command it issues is appended to `commands`. Each method
 * is proved against the operation of the same name in `MasterStack` or
 * `Reconcile`, so the lemmas proved there hold of the object's state.
 */
module Manager {
  import opened Wrappers
  import opened Commands
  import opened MasterStack
  import opened Windows
  import opened Reconcile
  import MasterStackProperties

  class MasterStackLayoutManager {
    /** The master window's id; 0 while the workspace has no window. */
    var masterId: int
    /** The stack, bottom first and top last. */
    var stackIds: seq<int>
    /** Every command issued to the compositor, oldest first. */
    var commands: seq<Command>
    /** The options the manager was created with. */
    const config: Config

    function Model(): Layout
      reads this`masterId, this`stackIds
    {
      Layout(masterId, stackIds)
    }

    /** The model tracks each window once and has no master gap. */
    ghost predicate Consistent()
      reads this
    {
      Valid(Model())
    }

    /**
     * A new manager starts empty and then reconciles. `nodes` are the
     * children of the workspace of the focused window, which need not be
     * the workspace this manager is created for.
     */
    constructor (config: Config, nodes: seq<Node>)
      ensures this.config == config
      ensures Model() == Arrange(config, Empty, CollectUntracked(nodes)).layout
      ensures commands == Arrange(config, Empty, CollectUntracked(nodes)).cmds
      ensures NonzeroIds(nodes) ==> Consistent()
    {
      this.config := config;
      masterId := 0;
      stackIds := [];
      commands := [];
      new;
      ArrangeExistingLayout(nodes);
      if NonzeroIds(nodes) {
        ArrangeExistingTracksTopLevel(config, nodes);
      }
    }

    /** One command sent to the compositor. */
    method Emit(c: Command)
      modifies this`commands
      ensures commands == old(commands) + [c]
    {
      commands := commands + [c];
    }

    /**
     * The top of the stack is popped and swapped with the master, which
     * goes on top; shared by moving up and swapping with the master.
     */
    method ExchangeMasterWithTop()
      requires stackIds != []
      modifies this
      ensures Model() == ExchangeTop(old(Model()))
      ensures commands == old(commands) + [SwapWith(Top(old(Model())), old(masterId))]
    {
      var targetId := stackIds[|stackIds| - 1];
      stackIds := stackIds[..|stackIds| - 1];
      Emit(SwapWith(targetId, masterId));
      stackIds := stackIds + [masterId];
      masterId := targetId;
    }

    /** The scan the navigation operations make over the stack, bottom first, for the focused window. */
    method FindInStack(f: int) returns (found: Option<nat>)
      ensures found == IndexOf(stackIds, f)
    {
      for i := 0 to |stackIds|
        invariant forall j :: 0 <= j < i ==> stackIds[j] != f
      {
        if stackIds[i] == f {
          return Some(i);
        }
      }
      return None;
    }

    /** The stack window at `i` and its neighbour at `j` exchange places. */
    method ExchangeWithNeighbour(i: nat, j: nat)
      requires i < |stackIds| && j < |stackIds|
      modifies this
      ensures masterId == old(masterId)
      ensures stackIds == old(stackIds)[i := old(stackIds)[j]][j := old(stackIds)[i]]
      ensures commands == old(commands) + [SwapWith(old(stackIds)[i], old(stackIds)[j])]
    {
      var f, other := stackIds[i], stackIds[j];
      Emit(SwapWith(f, other));
      stackIds := stackIds[i := other];
      stackIds := stackIds[j := f];
    }

    /** Moves window `moveId` next to window `targetId` through a temporary mark. */
    method MoveWindow(moveId: int, targetId: int)
      modifies this`commands
      ensures commands == old(commands) + Relocate(moveId, targetId)
    {
      Emit(MarkTarget(targetId));
      Emit(MoveToMark(moveId));
      Emit(UnmarkTarget(targetId));
    }

    /** Resizes the master when a width is configured. */
    method SetMasterWidth()
      modifies this`commands
      ensures commands == old(commands) + MasterWidthCommands(config, masterId)
    {
      if config.masterWidth.Some? {
        Emit(ResizeWidth(masterId, config.masterWidth.value));
      }
    }

    /** Re-applies the stack's split and layout, or the master's when the stack is empty. */
    method SetStackLayout()
      modifies this`commands
      ensures commands == old(commands) + StackLayoutCommands(config, Model())
    {
      if |stackIds| != 0 {
        var layout := StackLayoutKind(config);
        var bottom := stackIds[0];
        Emit(SplitVertical(bottom));
        Emit(SetLayout(bottom, layout));
      } else {
        Emit(SplitHorizontal(masterId));
        Emit(SetLayout(masterId, "splith"));
      }
    }

    /** A new window becomes master; the previous master goes on top of the stack. */
    method PushWindow(windowId: int)
      modifies this
      ensures Model() == Push(config, old(Model()), windowId).layout
      ensures commands == old(commands) + Push(config, old(Model()), windowId).cmds
    {
      ghost var l0 := Model();
      ghost var c0 := commands;
      if masterId == 0 {
        masterId := windowId;
      } else if |stackIds| == 0 {
        MoveWindow(windowId, masterId);
        stackIds := stackIds + [masterId];
        Emit(MoveFocusedLeft);
        ghost var placement := Relocate(windowId, l0.master) + [MoveFocusedLeft];
        AppendAssoc(c0, Relocate(windowId, l0.master), [MoveFocusedLeft]);
        masterId := windowId;
        SetMasterWidth();
        AppendAssoc(c0, placement, MasterWidthCommands(config, windowId));
      } else {
        var targetId := stackIds[|stackIds| - 1];
        MoveWindow(windowId, targetId);
        Emit(Focus(windowId));
        Emit(MoveFocusedUp);
        var prevMasterId := masterId;
        Emit(SwapWith(windowId, prevMasterId));
        ghost var placement := Relocate(windowId, targetId) + [Focus(windowId), MoveFocusedUp, SwapWith(windowId, l0.master)];
        assert commands == c0 + placement;
        stackIds := stackIds + [masterId];
        masterId := windowId;
        SetMasterWidth();
        AppendAssoc(c0, placement, MasterWidthCommands(config, windowId));
      }
    }

    /** The master closed: the top of the stack takes its place and is focused. */
    method PopWindow()
      modifies this
      ensures Model() == Pop(config, old(Model())).layout
      ensures commands == old(commands) + Pop(config, old(Model())).cmds
    {
      if |stackIds| == 0 {
        masterId := 0;
        return;
      }
      masterId := stackIds[|stackIds| - 1];
      stackIds := stackIds[..|stackIds| - 1];
      Emit(Focus(masterId));
      if |stackIds| != 0 {
        Emit(MoveFocusedLeft);
        SetMasterWidth();
      }
    }

    /**
     * A window closed: the master is popped; otherwise its first occurrence
     * leaves the stack, and an untracked id is tolerated.
     */
    method RemoveWindow(windowId: int)
      modifies this
      ensures Model() == Remove(config, old(Model()), windowId).layout
      ensures commands == old(commands) + Remove(config, old(Model()), windowId).cmds
      ensures old(Consistent()) ==> Consistent()
      ensures old(Consistent()) && windowId != 0 ==> Tracked(Model()) == old(Tracked(Model())) - multiset{windowId}
    {
      ghost var l0 := Model();
      if masterId == windowId {
        PopWindow();
      } else {
        stackIds := RemoveFirst(stackIds, windowId);
      }
      if Valid(l0) {
        MasterStackProperties.RemoveKeepsValid(config, l0, windowId);
        if windowId != 0 {
          MasterStackProperties.RemoveForgets(config, l0, windowId);
        }
      }
    }

    /**
     * Moves the focused window up, scanning the stack for it. With an empty
     * stack and a focused window the exchange's pop fails, reported as a
     * fault with the state unchanged.
     */
    method MoveUp(focused: Option<int>) returns (fault: Option<Fault>)
      modifies this
      ensures fault.Some? <==> MasterStack.MoveUp(old(Model()), focused).Err?
      ensures fault.Some? ==> Model() == old(Model()) && commands == old(commands)
      ensures fault.None? ==> Model() == MasterStack.MoveUp(old(Model()), focused).value.layout
      ensures fault.None? ==> commands == old(commands) + MasterStack.MoveUp(old(Model()), focused).value.cmds
    {
      ghost var l0 := Model();
      if focused.None? {
        return None;
      }
      var f := focused.value;
      if |stackIds| < 2 || f == stackIds[|stackIds| - 1] {
        if |stackIds| == 0 {
          return Some(PopFromEmptyStack);
        }
        assert MasterStack.MoveUp(l0, focused) == Ok(Outcome(ExchangeTop(l0), [SwapWith(Top(l0), l0.master)]));
        ExchangeMasterWithTop();
        return None;
      }
      var found := FindInStack(f);
      if found.Some? {
        var i := found.value;
        assert MasterStack.MoveUp(l0, focused) ==
          Ok(Outcome(Layout(l0.master, l0.stack[i := l0.stack[i + 1]][i + 1 := f]), [SwapWith(f, l0.stack[i + 1])]));
        ExchangeWithNeighbour(i, i + 1);
      } else {
        assert MasterStack.MoveUp(l0, focused) == Ok(Outcome(l0, []));
      }
      return None;
    }

    /** Moves the focused window down, scanning the stack for it. */
    method MoveDown(focused: Option<int>)
      modifies this
      ensures Model() == MasterStack.MoveDown(old(Model()), focused).layout
      ensures commands == old(commands) + MasterStack.MoveDown(old(Model()), focused).cmds
    {
      ghost var l0 := Model();
      if |stackIds| < 2 {
        return;
      }
      if focused.None? {
        return;
      }
      var f := focused.value;
      if f == stackIds[0] {
        return;
      }
      if f == masterId {
        Emit(SwapWith(f, stackIds[|stackIds| - 1]));
        masterId := stackIds[|stackIds| - 1];
        stackIds := stackIds[..|stackIds| - 1];
        stackIds := stackIds + [f];
        return;
      }
      var found := FindInStack(f);
      if found.Some? {
        var i := found.value;
        assert MasterStack.MoveDown(l0, focused) ==
          Outcome(Layout(l0.master, l0.stack[i := l0.stack[i - 1]][i - 1 := f]), [SwapWith(f, l0.stack[i - 1])]);
        ExchangeWithNeighbour(i, i - 1);
      }
    }

    /** The top becomes master and the previous master goes to the bottom. */
    method RotateCCW()
      modifies this
      ensures Model() == MasterStack.RotateCCW(old(Model())).layout
      ensures commands == old(commands) + MasterStack.RotateCCW(old(Model())).cmds
    {
      if |stackIds| < 2 {
        return;
      }
      var newMasterId := stackIds[|stackIds| - 1];
      stackIds := stackIds[..|stackIds| - 1];
      var prevMasterId := masterId;
      var bottomId := stackIds[0];
      Emit(SwapWith(newMasterId, prevMasterId));
      MoveWindow(prevMasterId, bottomId);
      masterId := newMasterId;
      stackIds := [prevMasterId] + stackIds;
    }

    /** The bottom becomes master and the previous master goes to the top. */
    method RotateCW()
      modifies this
      ensures Model() == MasterStack.RotateCW(old(Model())).layout
      ensures commands == old(commands) + MasterStack.RotateCW(old(Model())).cmds
    {
      if |stackIds| < 2 {
        return;
      }
      var newMasterId := stackIds[0];
      stackIds := stackIds[1..];
      var prevMasterId := masterId;
      var topId := stackIds[|stackIds| - 1];
      Emit(SwapWith(newMasterId, prevMasterId));
      MoveWindow(prevMasterId, topId);
      Emit(Focus(prevMasterId));
      Emit(MoveFocusedUp);
      Emit(Focus(newMasterId));
      masterId := newMasterId;
      stackIds := stackIds + [prevMasterId];
    }

    /** Swaps the focused window with the master, scanning the stack for it. */
    method SwapMaster(focused: Option<int>)
      modifies this
      ensures Model() == MasterStack.SwapMaster(old(Model()), focused).layout
      ensures commands == old(commands) + MasterStack.SwapMaster(old(Model()), focused).cmds
    {
      ghost var l0 := Model();
      if |stackIds| == 0 {
        return;
      }
      if focused.None? {
        return;
      }
      var f := focused.value;
      if f == masterId {
        assert MasterStack.SwapMaster(l0, focused) == Outcome(ExchangeTop(l0), [SwapWith(Top(l0), l0.master)]);
        ExchangeMasterWithTop();
        return;
      }
      var found := FindInStack(f);
      if found.Some? {
        var i := found.value;
        assert MasterStack.SwapMaster(l0, focused) ==
          Outcome(Layout(f, l0.stack[i := l0.master]), [SwapWith(f, l0.master), Focus(l0.master)]);
        Emit(SwapWith(f, masterId));
        Emit(Focus(masterId));
        stackIds := stackIds[i := masterId];
        masterId := f;
      }
    }

    /**
     * The first half of reconciling: the candidate ids, in workspace order,
     * collected from the workspace's children as the source does.
     */
    static method FindUntracked(nodes: seq<Node>) returns (untracked: seq<int>)
      ensures untracked == CollectUntracked(nodes)
    {
      untracked := [];
      for k := 0 to |nodes|
        invariant untracked == CollectUntracked(nodes[..k])
      {
        assert nodes[..k + 1][..k] == nodes[..k];
        var node := nodes[k];
        if |node.children| == 0 {
          if IsExcluded(Some(node.window)) {
            continue;
          }
          untracked := untracked + [node.window.id];
        } else {
          ghost var before := untracked;
          for c := 0 to |node.children|
            invariant untracked == before + (if IsExcluded(Some(node.window)) then [] else Repeat(node.window.id, c))
          {
            // As written, the exclusion test and the collected id are the container's, not the child's.
            if IsExcluded(Some(node.window)) {
              continue;
            }
            assert Repeat(node.window.id, c + 1) == Repeat(node.window.id, c) + [node.window.id];
            untracked := untracked + [node.window.id];
          }
        }
      }
      assert nodes[..|nodes|] == nodes;
    }

    /**
     * One candidate of the reconciling pass: a window not yet tracked is
     * inserted as a new window would be, after the stack layout is set and
     * the window focused.
     */
    method AdoptWindow(windowId: int)
      modifies this
      ensures Model() == FoldStep(config, old(Model()), windowId).layout
      ensures commands == old(commands) + FoldStep(config, old(Model()), windowId).cmds
    {
      if windowId != masterId && windowId !in stackIds {
        ghost var l0 := Model();
        ghost var c0 := commands;
        SetStackLayout();
        Emit(Focus(windowId));
        ghost var prefix := StackLayoutCommands(config, l0) + [Focus(windowId)];
        AppendAssoc(c0, StackLayoutCommands(config, l0), [Focus(windowId)]);
        PushWindow(windowId);
        AppendAssoc(c0, prefix, Push(config, l0, windowId).cmds);
      }
    }

    /** The second half of reconciling: adopts each candidate in order. */
    method AdoptAll(untracked: seq<int>)
      modifies this
      ensures Model() == FoldIn(config, old(Model()), untracked).layout
      ensures commands == old(commands) + FoldIn(config, old(Model()), untracked).cmds
    {
      ghost var l0 := Model();
      ghost var c0 := commands;
      for k := 0 to |untracked|
        invariant Model() == FoldIn(config, l0, untracked[..k]).layout
        invariant commands == c0 + FoldIn(config, l0, untracked[..k]).cmds
      {
        ghost var before := FoldIn(config, l0, untracked[..k]);
        ghost var step := FoldStep(config, before.layout, untracked[k]);
        FoldInSnoc(config, l0, untracked, k);
        AdoptWindow(untracked[k]);
        AppendAssoc(c0, before.cmds, step.cmds);
      }
      assert untracked[..|untracked|] == untracked;
    }

    /**
     * Reconciles with the windows already on the workspace of the focused
     * window, which need not be this manager's own: collects the
     * candidates, adopts each one in order, then sets the stack layout once
     * more.
     */
    method ArrangeExistingLayout(nodes: seq<Node>)
      modifies this
      ensures Model() == Arrange(config, old(Model()), CollectUntracked(nodes)).layout
      ensures commands == old(commands) + Arrange(config, old(Model()), CollectUntracked(nodes)).cmds
    {
      var untracked := FindUntracked(nodes);
      ghost var c0 := commands;
      AdoptAll(untracked);
      ghost var folded := FoldIn(config, old(Model()), untracked);
      SetStackLayout();
      AppendAssoc(c0, folded.cmds, StackLayoutCommands(config, folded.layout));
    }

    /** A window appeared: unless it is excluded, it is pushed as the new master. */
    method WindowAdded(window: Option<Window>)
      modifies this
      ensures IsExcluded(window) ==> Model() == old(Model()) && commands == old(commands)
      ensures !IsExcluded(window) ==> Model() == Push(config, old(Model()), window.value.id).layout
      ensures !IsExcluded(window) ==> commands == old(commands) + Push(config, old(Model()), window.value.id).cmds
      ensures !IsExcluded(window) && window.value.id != 0 ==>
        Tracked(Model()) == old(Tracked(Model())) + multiset{window.value.id}
      ensures old(Consistent()) && (IsExcluded(window) || (window.value.id != 0 && window.value.id !in old(Tracked(Model())))) ==>
        Consistent()
    {
      if IsExcluded(window) {
        return;
      }
      ghost var l0 := Model();
      PushWindow(window.value.id);
      if window.value.id != 0 {
        PushTracks(config, l0, window.value.id);
        if Valid(l0) && window.value.id !in Tracked(l0) {
          MasterStackProperties.PushKeepsValid(config, l0, window.value.id);
        }
      }
    }

    /** A window closed. */
    method WindowRemoved(windowId: int)
      modifies this
      ensures Model() == Remove(config, old(Model()), windowId).layout
      ensures commands == old(commands) + Remove(config, old(Model()), windowId).cmds
      ensures old(Consistent()) ==> Consistent()
      ensures old(Consistent()) && windowId != 0 ==> Tracked(Model()) == old(Tracked(Model())) - multiset{windowId}
    {
      RemoveWindow(windowId);
    }

    /** Focus changed: unless the focused window is excluded, the stack layout is re-applied. */
    method WindowFocused(window: Option<Window>)
      modifies this
      ensures Model() == old(Model())
      ensures IsExcluded(window) ==> commands == old(commands)
      ensures !IsExcluded(window) ==> commands == old(commands) + StackLayoutCommands(config, Model())
    {
      if IsExcluded(window) {
        return;
      }
      SetStackLayout();
    }

    /**
     * A key binding: a recognised command runs its navigation operation on
     * the focused window; any other command changes nothing.
     */
    method OnBinding(command: string, focused: Option<int>) returns (fault: Option<Fault>)
      modifies this
      ensures Binding(command).None? ==> fault.None? && Model() == old(Model()) && commands == old(commands)
      ensures Binding(command).Some? ==>
        (fault.Some? <==> Navigate(old(Model()), Binding(command).value, focused).Err?)
      ensures Binding(command).Some? && fault.None? ==>
        Model() == Navigate(old(Model()), Binding(command).value, focused).value.layout &&
        commands == old(commands) + Navigate(old(Model()), Binding(command).value, focused).value.cmds
      ensures fault.Some? ==> Model() == old(Model()) && commands == old(commands)
      ensures old(Consistent()) ==> Consistent()
    {
      ghost var l0 := Model();
      fault := None;
      var nav := Binding(command);
      if nav == Some(Up) {
        fault := MoveUp(focused);
      } else if nav == Some(Down) {
        MoveDown(focused);
      } else if nav == Some(CounterClockwise) {
        RotateCCW();
      } else if nav == Some(Clockwise) {
        RotateCW();
      } else if nav == Some(SwapWithMaster) {
        SwapMaster(focused);
      }
      if Valid(l0) && nav.Some? {
        MasterStackProperties.NavigateKeepsValid(l0, nav.value, focused);
      }
    }
  }
}
