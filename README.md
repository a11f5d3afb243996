# swlm master/stack layout manager in Dafny

This project models the master/stack layout manager of swlm, a layout daemon
for tiling compositors. The manager runs once per workspace. It tracks one
window as the *master* (`masterId`, where 0 means "no window") and the other
windows as a *stack* (`stackIds`). `stack[0]` is the bottom of the stack, next
to the master; the last element is the top. Each operation updates these two
fields in place and sends fire-and-forget commands to the compositor.

The project has five parts:

- `master_stack.dfy` (module `MasterStack`) describes every operation as a
  pure function. The function returns an `Outcome`: the new `Layout(master,
  stack)` and the commands issued, in order. It also holds the case lemmas
  that state what each operation does.
- `properties.dfy` (module `MasterStackProperties`) proves facts about
  several operations together. The model's invariant (`Valid`: no stack
  without a master, no 0 in the stack, no window tracked twice) is kept by
  insertion of a fresh window, by removal and by every navigation. No
  operation adds or drops a window except as intended. The operations have
  inverses: remove undoes push, the two rotations undo each other, move down
  undoes move up, and swapping twice with the master restores the layout.
- `reconcile.dfy` (module `Reconcile`) models how a new manager takes over
  windows that are already laid out. It first collects candidate ids from
  the nodes of the focused window's workspace, which need not be the
  manager's own workspace (line 174). Then it folds each untracked
  candidate in as a new window.
- `windows.dfy` (module `Windows`) models the node record the manager reads
  and the exclusion test.
- `commands.dfy` (module `Commands`) defines the command datatype and its
  textual form. `manager.dfy` (module `Manager`) holds the class
  `MasterStackLayoutManager`. Its fields `masterId`, `stackIds` and the
  command log `commands` are updated in place. It has the same loops over
  the stack as the source. Each method is proved to leave exactly the state
  and the commands the matching `MasterStack`/`Reconcile` function describes.
  Because of that, every lemma above also holds of the object.

The focused window (`utils.findFocused`) and the node list of the focused
window's workspace (`utils.findFocused(self.con).workspace().nodes`) are
inputs to the methods. The configuration (master
width, stack layout kind) is a constant of the object.

Two facts about `moveUp` that the model keeps:

- With a focused window and an empty stack, `moveUp` pops an empty deque and
  raises (line 227). The model returns `Err(PopFromEmptyStack)` there and
  leaves the state unchanged.
- With exactly one stack window, `moveUp` exchanges the master and that
  window (line 226). It does not count as too few windows the way `moveDown`
  and the rotations do. The model does the same.

## Model

| member | source | states |
|---|---|---|
| Commands.Render | managers/MasterStackLayoutManager.py:97-104 | the literal command string of each command, as the format strings at lines 97, 102-104, 122, 131-132, 136, 151, 155, 166-170, 228, 237, 261, 270, 287, 307, 310-312, 335, 345 and 348 write it (its samples are in the three Render lemmas below) |
| Commands.RenderRelocationSamples | managers/MasterStackLayoutManager.py:102-104 | the mark, move-to-mark and unmark commands for sample ids read as those format strings with the ids in decimal |
| Commands.RenderNavigationSamples | managers/MasterStackLayoutManager.py:228-237 | "move left", "move up", a focus and a swap for sample ids read as the source's format strings with the ids in decimal |
| Commands.RenderLayoutSamples | managers/MasterStackLayoutManager.py:166-170 | the resize, split vertical, split horizontal and layout commands for sample ids and width read as the source's format strings (lines 97 and 166-170) |
| Windows.IsExcluded | managers/MasterStackLayoutManager.py:79-92 | a window is left alone unless it is present, of type "con", on a workspace and not floating (both directions) |
| Windows.FloatingStates | managers/MasterStackLayoutManager.py:89-90 | floating states containing "on" ("user_on", "auto_on") exclude a window; "user_off", "auto_off" and no state do not; a non-"con" type excludes |
| MasterStack.Binding | managers/MasterStackLayoutManager.py:66-76 | each of the seven binding strings selects its navigation ("move left" is counter-clockwise, "move right" clockwise), each iff the string matches; every other string selects nothing |
| MasterStack.Navigate | managers/MasterStackLayoutManager.py:66-76 | a bound navigation fails exactly when it is move up, with a focused window, on an empty stack |
| MasterStack.IndexOf | managers/MasterStackLayoutManager.py:234-235 | the scan finds nothing iff the window is absent; otherwise it finds a position holding it with no earlier one |
| MasterStack.RemoveFirst | managers/MasterStackLayoutManager.py:212 | deque removal takes away exactly one occurrence of a present id, and leaves the stack unchanged when the id is absent |
| MasterStack.Relocate | managers/MasterStackLayoutManager.py:101-105 | the mark, move and unmark commands that move one window to another's position (the class's MoveWindow is proved to issue them) |
| MasterStack.MasterWidthCommands | managers/MasterStackLayoutManager.py:95-98 | one resize of the master to the configured width, and nothing when no width is set |
| MasterStack.StackLayoutKind | managers/MasterStackLayoutManager.py:164 | the configured stack layout, or "splitv" when it is absent or empty; never empty |
| MasterStack.StackLayoutCommands | managers/MasterStackLayoutManager.py:161-170 | split vertical and the stack layout on the bottom of a non-empty stack; split horizontal and "splith" on the master otherwise |
| MasterStack.ExchangeTop | managers/MasterStackLayoutManager.py:227-230 | popping the top and pushing the master exchanges the first and last positions of master, bottom, ..., top |
| MasterStack.Push | managers/MasterStackLayoutManager.py:108-139 | the inserted window always becomes master |
| MasterStack.PushCases | managers/MasterStackLayoutManager.py:108-139 | on an empty model the stack is unchanged and no command is issued; otherwise the previous master goes on top with the rest in order. The commands are relocation next to the master plus "move left" (empty stack), or relocation onto the top, focus, "move up" and a swap with the master; in both cases exactly the master resize follows and nothing else |
| MasterStack.PushTracks | managers/MasterStackLayoutManager.py:108-139 | after inserting a real window the model tracks exactly what it tracked before plus that window |
| MasterStack.Pop | managers/MasterStackLayoutManager.py:142-158 | popping: the top of the stack becomes master and is focused; "move left" and the resize follow when windows remain; an empty stack leaves master 0 (its properties are in MasterStack.PopCases) |
| MasterStack.PopCases | managers/MasterStackLayoutManager.py:142-158 | with an empty stack the master becomes 0 silently; otherwise the top becomes master with the rest of the stack in order, it is focused, and "move left" and the resize follow only when windows remain in the stack |
| MasterStack.Remove | managers/MasterStackLayoutManager.py:205-215 | closing a window: the master is popped, any other id leaves the stack by its first occurrence, with no commands (its properties are in MasterStack.RemoveCases) |
| MasterStack.RemoveCases | managers/MasterStackLayoutManager.py:205-215 | closing the master pops; closing a stack window removes its first occurrence and keeps the others in order, with no commands; closing an untracked window changes nothing and does not fail |
| MasterStack.MoveUp | managers/MasterStackLayoutManager.py:218-241 | move up fails exactly when a window is focused and the stack is empty |
| MasterStack.MoveUpWithinStack | managers/MasterStackLayoutManager.py:234-241 | a focused stack window below the top exchanges places with the window above it, with one swap command |
| MasterStack.MoveUpCases | managers/MasterStackLayoutManager.py:218-241 | no focus: nothing; fewer than two stack windows or the top focused: master and top exchange with one swap; an untracked window: nothing; every success only rearranges the windows |
| MasterStack.MoveDown | managers/MasterStackLayoutManager.py:244-274 | move down: the no-op cases in the source's order, the master's exchange with the top, and a stack window's exchange with the one below (its properties are in MasterStack.MoveDownCases and MasterStack.MoveDownWithinStack) |
| MasterStack.MoveDownWithinStack | managers/MasterStackLayoutManager.py:267-274 | a focused stack window above the bottom exchanges places with the window below it, with one swap command |
| MasterStack.MoveDownCases | managers/MasterStackLayoutManager.py:244-265 | fewer than two stack windows, no focus, the bottom focused or an untracked window: nothing; the master focused: master and top exchange |
| MasterStack.MoveDownRearranges | managers/MasterStackLayoutManager.py:244-274 | move down keeps the same windows and the stack length |
| MasterStack.RotateCCW | managers/MasterStackLayoutManager.py:277-294 | counter-clockwise rotation: the top becomes master and the previous master goes to the bottom, after a swap and a relocation onto the bottom (its properties are in MasterStack.RotateCCWCases) |
| MasterStack.RotateCCWCases | managers/MasterStackLayoutManager.py:277-294 | with two or more stack windows the top becomes master and the previous master the bottom, so master, bottom, ..., top turns one place, after a swap and a relocation onto the bottom; otherwise nothing |
| MasterStack.RotateCW | managers/MasterStackLayoutManager.py:297-317 | clockwise rotation: the bottom becomes master and the previous master goes to the top, after a swap, a relocation onto the top, "move up" and a focus back on the new master (its properties are in MasterStack.RotateCWCases) |
| MasterStack.RotateCWCases | managers/MasterStackLayoutManager.py:297-317 | with two or more stack windows the bottom becomes master and the previous master the top, the cycle turning the other way, with seven commands: the swap of bottom and master, the relocation of the previous master onto the top, a focus on it, "move up", and a focus on the new master; otherwise nothing |
| MasterStack.SwapMaster | managers/MasterStackLayoutManager.py:320-354 | swapping with the master: the no-op cases, the master's exchange with the top, and a stack window's exchange with the master followed by a refocus (its properties are in MasterStack.SwapMasterCases and MasterStack.SwapMasterWithStack) |
| MasterStack.SwapMasterWithStack | managers/MasterStackLayoutManager.py:341-354 | a focused stack window and the master exchange places, every other position is unchanged, and the previous master is refocused |
| MasterStack.SwapMasterCases | managers/MasterStackLayoutManager.py:320-339 | an empty stack, no focus or an untracked window: nothing; the master focused: master and top exchange; every case only rearranges the windows |
| MasterStack.NavigateRearranges | managers/MasterStackLayoutManager.py:218-354 | every navigation that succeeds keeps the same windows and the stack length |
| MasterStackProperties.RearrangementKeepsValid | managers/MasterStackLayoutManager.py:218-354 | any rearrangement of a valid model is valid |
| MasterStackProperties.PushKeepsValid | managers/MasterStackLayoutManager.py:108-139 | inserting a non-zero window that is not yet tracked keeps the invariant |
| MasterStackProperties.PopKeepsValid | managers/MasterStackLayoutManager.py:142-158 | popping keeps the invariant |
| MasterStackProperties.RemoveKeepsValid | managers/MasterStackLayoutManager.py:205-215 | closing any window, tracked or not, keeps the invariant |
| MasterStackProperties.RemoveFromStackKeepsValid | managers/MasterStackLayoutManager.py:209-215 | closing a window other than the master keeps the invariant |
| MasterStackProperties.NavigateKeepsValid | managers/MasterStackLayoutManager.py:66-76 | every binding, whatever is focused, keeps the invariant |
| MasterStackProperties.PopForgetsMaster | managers/MasterStackLayoutManager.py:142-158 | popping forgets the master and nothing else |
| MasterStackProperties.RemoveFromStackForgets | managers/MasterStackLayoutManager.py:209-215 | closing a non-master window forgets that window and nothing else |
| MasterStackProperties.RemoveForgets | managers/MasterStackLayoutManager.py:205-215 | in a valid model closing a window forgets exactly that window |
| MasterStackProperties.RemoveUndoesPush | managers/MasterStackLayoutManager.py:108-158 | closing the window just inserted restores the model |
| MasterStackProperties.RotateCWUndoesRotateCCW | managers/MasterStackLayoutManager.py:277-317 | a clockwise rotation undoes a counter-clockwise one |
| MasterStackProperties.RotateCCWUndoesRotateCW | managers/MasterStackLayoutManager.py:277-317 | a counter-clockwise rotation undoes a clockwise one |
| MasterStackProperties.ExchangeTopTwice | managers/MasterStackLayoutManager.py:227-230 | exchanging master and top twice restores the model |
| MasterStackProperties.MoveDownUndoesMoveUpAtTop | managers/MasterStackLayoutManager.py:218-265 | moving the top up makes it master, and moving it down again restores the model |
| MasterStackProperties.MoveDownUndoesMoveUpBelowTop | managers/MasterStackLayoutManager.py:234-274 | moving a window below the top up, then down, restores the model |
| MasterStackProperties.MoveDownUndoesMoveUp | managers/MasterStackLayoutManager.py:218-274 | in a valid model with two or more stack windows, move up then move down on any stack window restores the model |
| MasterStackProperties.SwapMasterTwiceFromMaster | managers/MasterStackLayoutManager.py:332-339 | swapping from the master twice restores the model |
| MasterStackProperties.SwapMasterTwiceFromStack | managers/MasterStackLayoutManager.py:341-354 | swapping a stack window with the master, then swapping again from the refocused previous master, restores the model |
| MasterStackProperties.SwapMasterTwiceRestores | managers/MasterStackLayoutManager.py:320-354 | whichever tracked window is focused, two swaps with the master (the second from where the first leaves focus) restore the model |
| MasterStackProperties.InsertRemoveScenario | managers/MasterStackLayoutManager.py:108-215 | three insertions into an empty model and two removals give the expected model at each step |
| MasterStackProperties.SwapMasterScenario | managers/MasterStackLayoutManager.py:341-354 | swapping the bottom of [3 \| 1, 2] with the master gives [1 \| 3, 2] and issues a swap and a refocus of 3 |
| Reconcile.NodeCandidates | managers/MasterStackLayoutManager.py:177-191 | as written: a leaf gives its own id unless excluded; a container is tested itself and gives its own id once per child (its properties are in Reconcile.NodeCandidatesMembers) |
| Reconcile.CollectUntracked | managers/MasterStackLayoutManager.py:175-191 | as written: the candidates of the top-level nodes in workspace order (its properties are in Reconcile.CollectUntrackedMembers) |
| Reconcile.ChildCandidates | managers/MasterStackLayoutManager.py:185-191 | corrected: the ids of a container's direct children that are not excluded, in order (its properties are in Reconcile.ChildCandidatesMembers) |
| Reconcile.PerChildCandidates | managers/MasterStackLayoutManager.py:177-191 | corrected: a node without children gives its own id unless excluded; a container gives its non-excluded direct children (its properties are in Reconcile.PerChildCandidatesMembers) |
| Reconcile.CollectPerChild | managers/MasterStackLayoutManager.py:175-191 | corrected: the per-child candidates of the top-level nodes in workspace order (its properties are in Reconcile.CollectPerChildMembers) |
| Reconcile.FoldStep | managers/MasterStackLayoutManager.py:194-199 | one candidate: a tracked id is skipped; any other gets the stack layout, a focus and an insertion (its properties are in Reconcile.FoldStepCases) |
| Reconcile.FoldIn | managers/MasterStackLayoutManager.py:193-199 | the candidates folded in one at a time, in order (its properties are in Reconcile.FoldInTracks and Reconcile.FoldInKeepsValid) |
| Reconcile.Arrange | managers/MasterStackLayoutManager.py:193-202 | the fold followed by setting the stack layout once more (its properties are in Reconcile.ArrangeEndsWithStackLayout) |
| Reconcile.NodeCandidatesMembers | managers/MasterStackLayoutManager.py:176-191 | as written, a top-level node contributes its own id, unless excluded, whether it is a leaf or a container |
| Reconcile.CollectUntrackedMembers | managers/MasterStackLayoutManager.py:176-191 | as written, the candidates are exactly the non-excluded top-level nodes |
| Reconcile.ChildCandidatesMembers | managers/MasterStackLayoutManager.py:185-191 | collected per child, a container's candidates are exactly its non-excluded children |
| Reconcile.PerChildCandidatesMembers | managers/MasterStackLayoutManager.py:176-191 | collected per child, a node contributes itself when it has no children and is not excluded, else its non-excluded direct children |
| Reconcile.CollectPerChildMembers | managers/MasterStackLayoutManager.py:176-191 | collected per child, the candidates are exactly the non-excluded top-level nodes without children and the non-excluded direct children of containers (a child container included) |
| Reconcile.FoldStepCases | managers/MasterStackLayoutManager.py:193-199 | a tracked candidate is skipped; an untracked one is inserted as master, and its commands are the stack layout commands, a focus, and then exactly the insertion's commands |
| Reconcile.FoldStepKeepsValid | managers/MasterStackLayoutManager.py:193-199 | one fold step keeps a valid model valid |
| Reconcile.FoldStepTracks | managers/MasterStackLayoutManager.py:193-199 | one fold step adds the candidate to the tracked windows and nothing else |
| Reconcile.FoldInKeepsValid | managers/MasterStackLayoutManager.py:193-199 | folding non-zero candidates keeps the model valid, so no window is pushed twice |
| Reconcile.FoldInTracks | managers/MasterStackLayoutManager.py:193-199 | after the fold the model tracks exactly what it tracked before plus the candidates |
| Reconcile.ArrangeEndsWithStackLayout | managers/MasterStackLayoutManager.py:193-202 | reconciling changes the model only through the fold, and its last commands set the stack layout for the resulting model |
| Reconcile.ArrangeExistingTracksTopLevel | managers/MasterStackLayoutManager.py:173-202 | as written, reconciling into an empty model gives a valid model that tracks exactly the non-excluded top-level nodes |
| Reconcile.ArrangePerChildTracksChildren | managers/MasterStackLayoutManager.py:173-202 | collected per child, reconciling into an empty model gives a valid model that tracks exactly the per-child candidates |
| Reconcile.NestedCollectedAsWritten | managers/MasterStackLayoutManager.py:185-191 | as written, a container with two children contributes its own id twice |
| Reconcile.NestedCollectedPerChild | managers/MasterStackLayoutManager.py:185-191 | collected per child, the same container contributes its two children |
| Reconcile.FoldContainerTwice | managers/MasterStackLayoutManager.py:193-199 | folding the container's id twice tracks it once, as master |
| Reconcile.FoldTwoChildren | managers/MasterStackLayoutManager.py:193-199 | folding the two children tracks both, the second as master |
| Reconcile.NestedContainerCounterexample | managers/MasterStackLayoutManager.py:185-191 | on that workspace, as written, the container becomes master and its two windows stay untracked; collected per child both windows are tracked |
| Manager.MasterStackLayoutManager.constructor | managers/MasterStackLayoutManager.py:27-38 | a new manager starts empty and then reconciles, leaving exactly the model and commands of the reconciling pass, and a valid model when every node id is non-zero |
| Manager.MasterStackLayoutManager.Emit | managers/MasterStackLayoutManager.py:97 | sending one command to the compositor appends it to the log and changes nothing else |
| Manager.MasterStackLayoutManager.MoveWindow | managers/MasterStackLayoutManager.py:101-105 | mark the target, move the window to the mark, unmark the target, in that order |
| Manager.MasterStackLayoutManager.SetMasterWidth | managers/MasterStackLayoutManager.py:95-98 | appends the master resize only when a width is configured |
| Manager.MasterStackLayoutManager.SetStackLayout | managers/MasterStackLayoutManager.py:161-170 | appends the stack layout commands for the current model and changes nothing else |
| Manager.MasterStackLayoutManager.ExchangeMasterWithTop | managers/MasterStackLayoutManager.py:227-230 | pops the top, swaps it with the master and pushes the master: the exchange of master and top, with one swap command |
| Manager.MasterStackLayoutManager.FindInStack | managers/MasterStackLayoutManager.py:234-235 | the loop over the stack finds the first position of the focused window, or none |
| Manager.MasterStackLayoutManager.ExchangeWithNeighbour | managers/MasterStackLayoutManager.py:237-239 | the two stack positions exchange contents in place, with one swap command |
| Manager.MasterStackLayoutManager.PushWindow | managers/MasterStackLayoutManager.py:108-139 | leaves exactly the model and commands of insertion |
| Manager.MasterStackLayoutManager.PopWindow | managers/MasterStackLayoutManager.py:142-158 | leaves exactly the model and commands of popping |
| Manager.MasterStackLayoutManager.RemoveWindow | managers/MasterStackLayoutManager.py:205-215 | leaves exactly the model and commands of removal, keeps the invariant, and in a valid model forgets exactly the closed non-zero window |
| Manager.MasterStackLayoutManager.MoveUp | managers/MasterStackLayoutManager.py:218-241 | reports the empty-stack fault exactly when move up fails, with state and log untouched; otherwise leaves exactly the model and commands of move up |
| Manager.MasterStackLayoutManager.MoveDown | managers/MasterStackLayoutManager.py:244-274 | leaves exactly the model and commands of move down |
| Manager.MasterStackLayoutManager.RotateCCW | managers/MasterStackLayoutManager.py:277-294 | leaves exactly the model and commands of counter-clockwise rotation |
| Manager.MasterStackLayoutManager.RotateCW | managers/MasterStackLayoutManager.py:297-317 | leaves exactly the model and commands of clockwise rotation |
| Manager.MasterStackLayoutManager.SwapMaster | managers/MasterStackLayoutManager.py:320-354 | leaves exactly the model and commands of swapping with the master |
| Manager.MasterStackLayoutManager.FindUntracked | managers/MasterStackLayoutManager.py:175-191 | the nested collection loops produce exactly the as-written candidate list |
| Manager.MasterStackLayoutManager.AdoptWindow | managers/MasterStackLayoutManager.py:194-199 | leaves exactly the model and commands of one fold step |
| Manager.MasterStackLayoutManager.AdoptAll | managers/MasterStackLayoutManager.py:193-199 | the loop over the candidates leaves exactly the model and commands of the fold |
| Manager.MasterStackLayoutManager.ArrangeExistingLayout | managers/MasterStackLayoutManager.py:173-202 | leaves exactly the model and commands of the whole reconciling pass |
| Manager.MasterStackLayoutManager.WindowAdded | managers/MasterStackLayoutManager.py:40-49 | an excluded window changes nothing; any other is inserted, a non-zero one is then tracked besides the others, and a fresh non-zero one keeps the invariant |
| Manager.MasterStackLayoutManager.WindowRemoved | managers/MasterStackLayoutManager.py:52-54 | a closed window is removed; the invariant is kept, and in a valid model exactly the closed non-zero window is forgotten |
| Manager.MasterStackLayoutManager.WindowFocused | managers/MasterStackLayoutManager.py:57-63 | the model never changes; unless the focused window is excluded, the stack layout is re-applied |
| Manager.MasterStackLayoutManager.OnBinding | managers/MasterStackLayoutManager.py:66-76 | a recognised binding does exactly its navigation and keeps the invariant; it faults exactly when move up finds the focused window on an empty stack (line 227), and then the model and the log stay as they were; any other string changes nothing |

## Left out

- The compositor connection and what the commands do on screen are left out. Commands are kept only as an ordered log, because the manager never reads a reply.
- `utils.findFocused` and `window.workspace()` are calls into code that is not part of this model. Their results are inputs: the focused id, the optional focused window record, and the top-level nodes, with their direct children, of the focused window's workspace.
- The constructor reconciles with the focused window's workspace (line 174), not with the workspace it is created for; `workspaceId` (line 29) is never consulted. When swlm.py creates managers for several workspaces while one of them has focus, each manager folds in that workspace's windows. The model takes the node list as given and does not relate it to the manager's workspace.
- Inside `arrangeExistingLayout` the source raises an attribute error when `findFocused` returns nothing (line 174), and also when the focused window's `workspace()` returns nothing (`workspace.nodes` at line 176). The model always receives a node list, so neither failure is represented.
- `log`, `logCaller` and the debug flag only print, so they are left out. `workspaceId` and `workspaceNum` are stored but never read by the core, so they are left out too.
- The swlm.py event loop, the routing of events to one manager per workspace, and the restart policy are I/O glue outside the core.
- Commands.Render: only sample commands are proved to read as the source's format strings; the rest of the model works on the command datatype.
- MasterStack.Push: its own contract states only that the new window becomes master. The full effect (model and every command) is stated in MasterStack.PushCases and MasterStack.PushTracks.
- The master width is taken to be an integer. The source writes it with `%s` into the resize command (line 97) and then with `%d` into a log message that is always built (line 98), so a non-numeric width would raise a type error after the resize has been sent; that error is not modelled.
- Window ids are unbounded integers. The source's ids are compositor container ids, and no wrap-around enters any operation.
- Manager.MasterStackLayoutManager.WindowAdded: like the source, it does not check that the window is new. The invariant is proved only for a fresh non-zero id (MasterStackProperties.PushKeepsValid).

## Findings

| source | as written | input that shows it | evidently intended | confidence | as-written member | corrected member |
|---|---|---|---|---|---|---|
| managers/MasterStackLayoutManager.py:185-191 | inside the loop over a container's children, the exclusion test and the appended id use the parent `node`, not the child `conNode` | a workspace whose only top-level node is a tiled container 10 holding tiled windows 1 and 2: the container's id is collected twice, 10 becomes the master, and windows 1 and 2 stay untracked | each child is tested and collected by itself, so windows 1 and 2 are tracked (2 as master, 1 on the stack) | not executed | Reconcile.NestedContainerCounterexample | Reconcile.ArrangePerChildTracksChildren |

The class `Manager.MasterStackLayoutManager` keeps the as-written collection
(`FindUntracked`, `CollectUntracked`), so that the object does what the
source does. The per-child collection `Reconcile.CollectPerChild` and its
properties state the intended behaviour.
