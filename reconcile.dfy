/**
 * Reconciliation: when a manager is created, folding into its empty model
 * the windows already laid out on the workspace of the focused window,
 * which need not be the workspace the manager is created for.
 */
module Reconcile {
  import opened Wrappers
  import opened Commands
  import opened MasterStack
  import opened Windows
  import MasterStackProperties

  function Repeat(x: int, k: nat): (r: seq<int>)
    ensures |r| == k && forall i :: 0 <= i < k ==> r[i] == x
  {
    seq(k, _ => x)
  }

  // ---------------------------------------------------------------------
  // Collecting candidates
  // ---------------------------------------------------------------------

  /**
   * The ids one top-level node contributes, as the source collects them: a
   * leaf contributes its own id unless it is excluded; a container is
   * tested for exclusion itself and then contributes its OWN id once per
   * child, so its children are never candidates.
   */
  function NodeCandidates(n: Node): seq<int> {
    if |n.children| == 0 then
      if IsExcluded(Some(n.window)) then [] else [n.window.id]
    else
      if IsExcluded(Some(n.window)) then [] else Repeat(n.window.id, |n.children|)
  }

  /** The candidate ids in workspace order, as the source collects them. */
  function CollectUntracked(nodes: seq<Node>): seq<int>
    decreases |nodes|
  {
    if nodes == [] then []
    else CollectUntracked(nodes[..|nodes| - 1]) + NodeCandidates(nodes[|nodes| - 1])
  }

  /** `x` is the id of a top-level node that is not excluded, leaf or container. */
  ghost predicate IsTopLevelCandidate(nodes: seq<Node>, x: int) {
    exists k :: 0 <= k < |nodes| && nodes[k].window.id == x && !IsExcluded(Some(nodes[k].window))
  }

  lemma TopLevelCandidateSnoc(nodes: seq<Node>, x: int)
    requires nodes != []
    ensures IsTopLevelCandidate(nodes, x) <==>
      IsTopLevelCandidate(nodes[..|nodes| - 1], x) ||
      (nodes[|nodes| - 1].window.id == x && !IsExcluded(Some(nodes[|nodes| - 1].window)))
  {
    var front := nodes[..|nodes| - 1];
    if IsTopLevelCandidate(front, x) {
      var k :| 0 <= k < |front| && front[k].window.id == x && !IsExcluded(Some(front[k].window));
      assert nodes[k] == front[k];
    }
    if IsTopLevelCandidate(nodes, x) {
      var k :| 0 <= k < |nodes| && nodes[k].window.id == x && !IsExcluded(Some(nodes[k].window));
      if k < |front| {
        assert front[k] == nodes[k];
      }
    }
  }

  /** A node contributes its own id, unless excluded, however many children it has. */
  lemma NodeCandidatesMembers(n: Node)
    ensures forall x :: x in NodeCandidates(n) <==> n.window.id == x && !IsExcluded(Some(n.window))
  {
    if |n.children| > 0 && !IsExcluded(Some(n.window)) {
      assert Repeat(n.window.id, |n.children|)[0] == n.window.id;
    }
  }

  /** As the source collects them, the candidates are exactly the non-excluded top-level nodes. */
  lemma {:induction false} CollectUntrackedMembers(nodes: seq<Node>)
    ensures forall x :: x in CollectUntracked(nodes) <==> IsTopLevelCandidate(nodes, x)
    decreases |nodes|
  {
    if nodes != [] {
      CollectUntrackedMembers(nodes[..|nodes| - 1]);
      NodeCandidatesMembers(nodes[|nodes| - 1]);
      forall x ensures x in CollectUntracked(nodes) <==> IsTopLevelCandidate(nodes, x) {
        TopLevelCandidateSnoc(nodes, x);
      }
    }
  }

  /** The ids of the children of a container that are not excluded, in order. */
  function ChildCandidates(children: seq<Window>): seq<int>
    decreases |children|
  {
    if children == [] then []
    else
      var last := children[|children| - 1];
      ChildCandidates(children[..|children| - 1]) + (if IsExcluded(Some(last)) then [] else [last.id])
  }

  /**
   * The per-child collection: a container contributes each of its direct
   * children that is not excluded, a child container included.
   */
  function PerChildCandidates(n: Node): seq<int> {
    if |n.children| == 0 then
      if IsExcluded(Some(n.window)) then [] else [n.window.id]
    else
      ChildCandidates(n.children)
  }

  /** The candidate ids in workspace order, each direct child of a container tested by itself. */
  function CollectPerChild(nodes: seq<Node>): seq<int>
    decreases |nodes|
  {
    if nodes == [] then []
    else CollectPerChild(nodes[..|nodes| - 1]) + PerChildCandidates(nodes[|nodes| - 1])
  }

  /** `x` is the id of a child that is not excluded. */
  ghost predicate IsChildCandidate(children: seq<Window>, x: int) {
    exists j :: 0 <= j < |children| && children[j].id == x && !IsExcluded(Some(children[j]))
  }

  lemma ChildCandidateSnoc(children: seq<Window>, x: int)
    requires children != []
    ensures IsChildCandidate(children, x) <==>
      IsChildCandidate(children[..|children| - 1], x) ||
      (children[|children| - 1].id == x && !IsExcluded(Some(children[|children| - 1])))
  {
    var front := children[..|children| - 1];
    if IsChildCandidate(front, x) {
      var j :| 0 <= j < |front| && front[j].id == x && !IsExcluded(Some(front[j]));
      assert children[j] == front[j];
    }
    if IsChildCandidate(children, x) {
      var j :| 0 <= j < |children| && children[j].id == x && !IsExcluded(Some(children[j]));
      if j < |front| {
        assert front[j] == children[j];
      }
    }
  }

  /** The children collected are exactly the children that are not excluded. */
  lemma {:induction false} ChildCandidatesMembers(children: seq<Window>)
    ensures forall x :: x in ChildCandidates(children) <==> IsChildCandidate(children, x)
    decreases |children|
  {
    if children != [] {
      ChildCandidatesMembers(children[..|children| - 1]);
      forall x ensures x in ChildCandidates(children) <==> IsChildCandidate(children, x) {
        ChildCandidateSnoc(children, x);
      }
    }
  }

  /** `x` is an id one node contributes when each of its children is tested by itself. */
  ghost predicate IsNodePerChild(n: Node, x: int) {
    if |n.children| == 0 then n.window.id == x && !IsExcluded(Some(n.window))
    else IsChildCandidate(n.children, x)
  }

  lemma PerChildCandidatesMembers(n: Node)
    ensures forall x :: x in PerChildCandidates(n) <==> IsNodePerChild(n, x)
  {
    if |n.children| != 0 {
      ChildCandidatesMembers(n.children);
    }
  }

  /** `x` is a non-excluded top-level node without children, or a non-excluded direct child of a container. */
  ghost predicate IsPerChildCandidate(nodes: seq<Node>, x: int) {
    exists k :: 0 <= k < |nodes| && IsNodePerChild(nodes[k], x)
  }

  lemma PerChildCandidateSnoc(nodes: seq<Node>, x: int)
    requires nodes != []
    ensures IsPerChildCandidate(nodes, x) <==>
      IsPerChildCandidate(nodes[..|nodes| - 1], x) || IsNodePerChild(nodes[|nodes| - 1], x)
  {
    var front := nodes[..|nodes| - 1];
    if IsPerChildCandidate(front, x) {
      var k :| 0 <= k < |front| && IsNodePerChild(front[k], x);
      assert nodes[k] == front[k];
    }
    if IsPerChildCandidate(nodes, x) {
      var k :| 0 <= k < |nodes| && IsNodePerChild(nodes[k], x);
      if k < |front| {
        assert front[k] == nodes[k];
      }
    }
  }

  /** Collected per child, the candidates are exactly those nodes and children. */
  lemma {:induction false} CollectPerChildMembers(nodes: seq<Node>)
    ensures forall x :: x in CollectPerChild(nodes) <==> IsPerChildCandidate(nodes, x)
    decreases |nodes|
  {
    if nodes != [] {
      CollectPerChildMembers(nodes[..|nodes| - 1]);
      PerChildCandidatesMembers(nodes[|nodes| - 1]);
      forall x ensures x in CollectPerChild(nodes) <==> IsPerChildCandidate(nodes, x) {
        PerChildCandidateSnoc(nodes, x);
      }
    }
  }

  // ---------------------------------------------------------------------
  // Folding candidates into the model
  // ---------------------------------------------------------------------

  /**
   * One candidate: an id the model already tracks is skipped; any other is
   * inserted as a new window would be, after the stack layout is set and
   * the window focused.
   */
  function FoldStep(cfg: Config, l: Layout, id: int): Outcome {
    if id != l.master && id !in l.stack then
      var pushed := Push(cfg, l, id);
      Outcome(pushed.layout, StackLayoutCommands(cfg, l) + [Focus(id)] + pushed.cmds)
    else
      Outcome(l, [])
  }

  /** A tracked candidate is skipped; an untracked one is pushed after the stack layout is set and it is focused. */
  lemma FoldStepCases(cfg: Config, l: Layout, id: int)
    ensures id == l.master || id in l.stack ==> FoldStep(cfg, l, id) == Outcome(l, [])
    ensures id != l.master && id !in l.stack ==>
      var r := FoldStep(cfg, l, id);
      r.layout == Push(cfg, l, id).layout && r.layout.master == id &&
      |r.cmds| >= 3 && r.cmds[..3] == StackLayoutCommands(cfg, l) + [Focus(id)] &&
      r.cmds[3..] == Push(cfg, l, id).cmds
  {
    if id != l.master && id !in l.stack {
      var prefix := StackLayoutCommands(cfg, l) + [Focus(id)];
      assert (prefix + Push(cfg, l, id).cmds)[..3] == prefix;
      assert (prefix + Push(cfg, l, id).cmds)[3..] == Push(cfg, l, id).cmds;
    }
  }

  /** The candidates folded in one at a time, in order. */
  function FoldIn(cfg: Config, l: Layout, ids: seq<int>): Outcome
    decreases |ids|
  {
    if ids == [] then Outcome(l, [])
    else
      var before := FoldIn(cfg, l, ids[..|ids| - 1]);
      var step := FoldStep(cfg, before.layout, ids[|ids| - 1]);
      Outcome(step.layout, before.cmds + step.cmds)
  }

  /** Folding one more candidate in is one more step after the others. */
  lemma FoldInSnoc(cfg: Config, l: Layout, ids: seq<int>, k: nat)
    requires k < |ids|
    ensures FoldIn(cfg, l, ids[..k + 1]) ==
      Outcome(FoldStep(cfg, FoldIn(cfg, l, ids[..k]).layout, ids[k]).layout,
              FoldIn(cfg, l, ids[..k]).cmds + FoldStep(cfg, FoldIn(cfg, l, ids[..k]).layout, ids[k]).cmds)
  {
    assert ids[..k + 1][..k] == ids[..k];
  }

  /**
   * The whole pass: fold in the candidates, then set the stack layout once
   * more, so the workspace is in the master/stack arrangement even when
   * nothing was inserted.
   */
  function Arrange(cfg: Config, l: Layout, ids: seq<int>): Outcome {
    var folded := FoldIn(cfg, l, ids);
    Outcome(folded.layout, folded.cmds + StackLayoutCommands(cfg, folded.layout))
  }

  /** The pass leaves the model the fold produced and always ends by setting the stack layout for it. */
  lemma ArrangeEndsWithStackLayout(cfg: Config, l: Layout, ids: seq<int>)
    ensures Arrange(cfg, l, ids).layout == FoldIn(cfg, l, ids).layout
    ensures var r := Arrange(cfg, l, ids);
      |r.cmds| >= 2 && r.cmds[|r.cmds| - 2..] == StackLayoutCommands(cfg, r.layout)
  {
  }

  /** One step of the fold keeps a valid model valid. */
  lemma FoldStepKeepsValid(cfg: Config, l: Layout, id: int)
    requires Valid(l) && id != 0
    ensures Valid(FoldStep(cfg, l, id).layout)
  {
    if id != l.master && id !in l.stack {
      MasterStackProperties.PushKeepsValid(cfg, l, id);
    }
  }

  /** One step of the fold adds the candidate to what the model tracks. */
  lemma FoldStepTracks(cfg: Config, l: Layout, id: int, x: int)
    requires id != 0
    ensures x in Tracked(FoldStep(cfg, l, id).layout) <==> x in Tracked(l) || x == id
  {
    assert Cycle(l) == [l.master] + l.stack;
    if id != l.master && id !in l.stack {
      PushTracks(cfg, l, id);
    } else {
      assert id in Tracked(l);
    }
  }

  /** Folding non-zero ids into a valid model keeps it valid. */
  lemma {:induction false} FoldInKeepsValid(cfg: Config, l: Layout, ids: seq<int>)
    requires Valid(l)
    requires forall i :: 0 <= i < |ids| ==> ids[i] != 0
    ensures Valid(FoldIn(cfg, l, ids).layout)
    decreases |ids|
  {
    if ids != [] {
      var front := ids[..|ids| - 1];
      FoldInKeepsValid(cfg, l, front);
      FoldStepKeepsValid(cfg, FoldIn(cfg, l, front).layout, ids[|ids| - 1]);
    }
  }

  /** An element of a non-empty sequence is in its front or is its last element. */
  lemma InAllButLast(s: seq<int>, x: int)
    requires s != []
    ensures x in s <==> x in s[..|s| - 1] || x == s[|s| - 1]
  {
    assert s == s[..|s| - 1] + [s[|s| - 1]];
  }

  /**
   * After folding non-zero ids in, the model tracks exactly what it tracked
   * before and the candidates; together with validity, which counts each
   * window once, no window was pushed twice.
   */
  lemma {:induction false} FoldInTracks(cfg: Config, l: Layout, ids: seq<int>, x: int)
    requires forall i :: 0 <= i < |ids| ==> ids[i] != 0
    ensures x in Tracked(FoldIn(cfg, l, ids).layout) <==> x in Tracked(l) || x in ids
    decreases |ids|
  {
    if ids != [] {
      var front, id := ids[..|ids| - 1], ids[|ids| - 1];
      var before := FoldIn(cfg, l, front).layout;
      FoldInTracks(cfg, l, front, x);
      FoldStepTracks(cfg, before, id, x);
      assert FoldIn(cfg, l, ids).layout == FoldStep(cfg, before, id).layout;
      InAllButLast(ids, x);
    }
  }

  /** All ids of the workspace's nodes and of their children are real window ids. */
  predicate NonzeroIds(nodes: seq<Node>) {
    forall k :: 0 <= k < |nodes| ==>
      nodes[k].window.id != 0 && forall j :: 0 <= j < |nodes[k].children| ==> nodes[k].children[j].id != 0
  }

  lemma CollectUntrackedNonzero(nodes: seq<Node>)
    requires NonzeroIds(nodes)
    ensures forall i :: 0 <= i < |CollectUntracked(nodes)| ==> CollectUntracked(nodes)[i] != 0
  {
    CollectUntrackedMembers(nodes);
    forall i | 0 <= i < |CollectUntracked(nodes)| ensures CollectUntracked(nodes)[i] != 0 {
      assert IsTopLevelCandidate(nodes, CollectUntracked(nodes)[i]);
    }
  }

  lemma CollectPerChildNonzero(nodes: seq<Node>)
    requires NonzeroIds(nodes)
    ensures forall i :: 0 <= i < |CollectPerChild(nodes)| ==> CollectPerChild(nodes)[i] != 0
  {
    CollectPerChildMembers(nodes);
    forall i | 0 <= i < |CollectPerChild(nodes)| ensures CollectPerChild(nodes)[i] != 0 {
      assert IsPerChildCandidate(nodes, CollectPerChild(nodes)[i]);
    }
  }

  /**
   * As the source reconciles: starting from the empty model, the result is
   * valid and tracks exactly the non-excluded top-level nodes, containers
   * included and their children left out.
   */
  lemma ArrangeExistingTracksTopLevel(cfg: Config, nodes: seq<Node>)
    requires NonzeroIds(nodes)
    ensures Valid(Arrange(cfg, Empty, CollectUntracked(nodes)).layout)
    ensures forall x :: x in Tracked(Arrange(cfg, Empty, CollectUntracked(nodes)).layout) <==>
      IsTopLevelCandidate(nodes, x)
  {
    CollectUntrackedMembers(nodes);
    CollectUntrackedNonzero(nodes);
    FoldInKeepsValid(cfg, Empty, CollectUntracked(nodes));
    forall x
      ensures x in Tracked(Arrange(cfg, Empty, CollectUntracked(nodes)).layout) <==> IsTopLevelCandidate(nodes, x)
    {
      FoldInTracks(cfg, Empty, CollectUntracked(nodes), x);
    }
  }

  /**
   * With each child tested by itself: starting from the empty model, the
   * result is valid and tracks exactly the per-child candidates.
   */
  lemma ArrangePerChildTracksChildren(cfg: Config, nodes: seq<Node>)
    requires NonzeroIds(nodes)
    ensures Valid(Arrange(cfg, Empty, CollectPerChild(nodes)).layout)
    ensures forall x :: x in Tracked(Arrange(cfg, Empty, CollectPerChild(nodes)).layout) <==>
      IsPerChildCandidate(nodes, x)
  {
    CollectPerChildMembers(nodes);
    CollectPerChildNonzero(nodes);
    FoldInKeepsValid(cfg, Empty, CollectPerChild(nodes));
    forall x
      ensures x in Tracked(Arrange(cfg, Empty, CollectPerChild(nodes)).layout) <==> IsPerChildCandidate(nodes, x)
    {
      FoldInTracks(cfg, Empty, CollectPerChild(nodes), x);
    }
  }

  /** A workspace holding one split container (id 10) with two tiled windows (ids 1 and 2). */
  const NestedWorkspace := [Node(Window(10, "con", true, None),
                                 [Window(1, "con", true, None), Window(2, "con", true, None)])]

  lemma NestedCollectedAsWritten()
    ensures CollectUntracked(NestedWorkspace) == [10, 10]
  {
    assert NestedWorkspace[..0] == [];
    assert !IsExcluded(Some(Window(10, "con", true, None)));
  }

  lemma NestedCollectedPerChild()
    ensures CollectPerChild(NestedWorkspace) == [1, 2]
  {
    var a, b := Window(1, "con", true, None), Window(2, "con", true, None);
    assert NestedWorkspace[..0] == [];
    assert !IsExcluded(Some(a)) && !IsExcluded(Some(b));
    assert [a, b][..1] == [a] && [a][..0] == [];
    assert ChildCandidates([a]) == [1];
  }

  lemma FoldContainerTwice(cfg: Config)
    ensures FoldIn(cfg, Empty, [10, 10]).layout == Layout(10, [])
  {
    assert [10, 10][..1] == [10] && [10][..0] == [];
    assert FoldIn(cfg, Empty, [10]).layout == Layout(10, []);
  }

  lemma FoldTwoChildren(cfg: Config)
    ensures FoldIn(cfg, Empty, [1, 2]).layout == Layout(2, [1])
  {
    assert [1, 2][..1] == [1] && [1][..0] == [];
    assert FoldIn(cfg, Empty, [1]).layout == Layout(1, []);
  }

  /**
   * On that workspace, as written, the container's id is collected once per
   * child and the container becomes the master while the two windows stay
   * untracked; collected per child, both windows are tracked.
   */
  lemma NestedContainerCounterexample(cfg: Config)
    ensures Arrange(cfg, Empty, CollectUntracked(NestedWorkspace)).layout == Layout(10, [])
    ensures Arrange(cfg, Empty, CollectPerChild(NestedWorkspace)).layout == Layout(2, [1])
  {
    NestedCollectedAsWritten();
    NestedCollectedPerChild();
    FoldContainerTwice(cfg);
    FoldTwoChildren(cfg);
  }
}
