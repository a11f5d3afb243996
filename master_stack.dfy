/**
 * The master/stack model of one workspace, and for every operation of the
 * manager the model it leaves behind together with the commands it issues.
 * The manager class (module Manager) is proved to compute exactly these.
 */
module MasterStack {
  import opened Wrappers
  import opened Commands

  /** The manager's read-only options: master width in percentage points, stack layout kind. */
  datatype Config = Config(masterWidth: Option<int>, stackLayout: Option<string>)

  /**
   * `master` is the master window, 0 when the workspace holds none; `stack`
   * holds the other windows, `stack[0]` the bottom (next to the master) and
   * the last element the top.
   */
  datatype Layout = Layout(master: int, stack: seq<int>)

  /** What one operation leaves: the new model and the commands issued, in order. */
  datatype Outcome = Outcome(layout: Layout, cmds: seq<Command>)

  /** The one error an operation can raise: popping the top of an empty stack. */
  datatype Fault = PopFromEmptyStack

  /** The five navigation bindings. */
  datatype Nav = Up | Down | CounterClockwise | Clockwise | SwapWithMaster

  const Empty := Layout(0, [])

  /** The positions in order master, bottom, ..., top. */
  function Cycle(l: Layout): seq<int> {
    [l.master] + l.stack
  }

  /** The windows the model tracks, each as often as it occurs. */
  function Tracked(l: Layout): multiset<int> {
    if l.master == 0 then multiset(l.stack) else multiset(Cycle(l))
  }

  predicate Distinct(s: seq<int>) {
    forall i, j :: 0 <= i < j < |s| ==> s[i] != s[j]
  }

  /**
   * The model's invariant: a non-empty stack has a master, 0 never stands
   * for a window in the stack, and no window is tracked twice.
   */
  ghost predicate Valid(l: Layout) {
    (l.master == 0 ==> l.stack == []) && 0 !in l.stack && Distinct(Cycle(l))
  }

  function Top(l: Layout): int
    requires l.stack != []
  {
    l.stack[|l.stack| - 1]
  }

  /** The first position of `x` in `s`, the linear scan the navigation operations do. */
  function IndexOf(s: seq<int>, x: int): (r: Option<nat>)
    ensures r.None? <==> x !in s
    ensures r.Some? ==> r.value < |s| && s[r.value] == x
    ensures r.Some? ==> forall j :: 0 <= j < r.value ==> s[j] != x
    decreases |s|
  {
    if |s| == 0 then None
    else if s[0] == x then Some(0)
    else match IndexOf(s[1..], x)
      case None => None
      case Some(i) => Some(i + 1)
  }

  /** Deletion of the first occurrence of `x`, as a deque's `remove` does; absent `x` changes nothing. */
  function RemoveFirst(s: seq<int>, x: int): (r: seq<int>)
    ensures x !in s ==> r == s
    ensures x in s ==> |r| == |s| - 1
    ensures multiset(r) == multiset(s) - multiset{x}
  {
    match IndexOf(s, x)
    case None => s
    case Some(i) =>
      assert s == s[..i] + [x] + s[i + 1..];
      s[..i] + s[i + 1..]
  }

  /** The mark-based relocation of `moveId` onto the position of `targetId`. */
  function Relocate(moveId: int, targetId: int): seq<Command> {
    [MarkTarget(targetId), MoveToMark(moveId), UnmarkTarget(targetId)]
  }

  /** The resize command for the master, issued only when a master width is configured. */
  function MasterWidthCommands(cfg: Config, master: int): (r: seq<Command>)
    ensures cfg.masterWidth.None? ==> r == []
    ensures cfg.masterWidth.Some? ==> r == [ResizeWidth(master, cfg.masterWidth.value)]
  {
    match cfg.masterWidth
    case None => []
    case Some(w) => [ResizeWidth(master, w)]
  }

  /** The configured stack layout; an absent or empty setting falls back to "splitv". */
  function StackLayoutKind(cfg: Config): (k: string)
    ensures cfg.stackLayout.Some? && cfg.stackLayout.value != "" ==> k == cfg.stackLayout.value
    ensures cfg.stackLayout.None? || cfg.stackLayout.value == "" ==> k == "splitv"
  {
    if cfg.stackLayout.None? || cfg.stackLayout.value == "" then "splitv" else cfg.stackLayout.value
  }

  /**
   * The split and layout commands that put the workspace into the
   * master/stack arrangement: on the bottom of the stack when there is one,
   * else on the master.
   */
  function StackLayoutCommands(cfg: Config, l: Layout): (r: seq<Command>)
    ensures |r| == 2
    ensures l.stack != [] ==> r == [SplitVertical(l.stack[0]), SetLayout(l.stack[0], StackLayoutKind(cfg))]
    ensures l.stack == [] ==> r == [SplitHorizontal(l.master), SetLayout(l.master, "splith")]
  {
    if |l.stack| != 0 then
      var bottom := l.stack[0];
      [SplitVertical(bottom), SetLayout(bottom, StackLayoutKind(cfg))]
    else
      [SplitHorizontal(l.master), SetLayout(l.master, "splith")]
  }

  /** `c` with the entries at positions `i` and `j` exchanged. */
  function Transposed(c: seq<int>, i: nat, j: nat): (r: seq<int>)
    requires i < j < |c|
    ensures multiset(r) == multiset(c)
  {
    c[i := c[j]][j := c[i]]
  }

  /** Master and top of the stack exchange places. */
  function ExchangeTop(l: Layout): (r: Layout)
    requires l.stack != []
    ensures Cycle(r) == Transposed(Cycle(l), 0, |l.stack|)
  {
    Layout(Top(l), l.stack[..|l.stack| - 1] + [l.master])
  }

  /**
   * Insertion of a new window: it always becomes the master. In an empty
   * model nothing else happens; otherwise the previous master goes on top
   * of the stack, below it the stack keeps its order.
   */
  function Push(cfg: Config, l: Layout, id: int): (r: Outcome)
    ensures r.layout.master == id
  {
    if l.master == 0 then
      Outcome(Layout(id, l.stack), [])
    else
      var placement := if |l.stack| == 0 then Relocate(id, l.master) + [MoveFocusedLeft]
                       else Relocate(id, Top(l)) + [Focus(id), MoveFocusedUp, SwapWith(id, l.master)];
      Outcome(Layout(id, l.stack + [l.master]), placement + MasterWidthCommands(cfg, id))
  }

  /**
   * What inserting does: into an empty model the window just becomes
   * master; otherwise the previous master goes on top of the stack, after
   * the new window is placed left of the master (empty stack) or above the
   * top and swapped with the master.
   */
  lemma PushCases(cfg: Config, l: Layout, id: int)
    ensures l.master == 0 ==> Push(cfg, l, id).layout.stack == l.stack && Push(cfg, l, id).cmds == []
    ensures l.master != 0 ==>
      var r := Push(cfg, l, id);
      |r.layout.stack| == |l.stack| + 1 && r.layout.stack[..|l.stack|] == l.stack && Top(r.layout) == l.master
    ensures l.master != 0 && l.stack == [] ==>
      var r := Push(cfg, l, id);
      |r.cmds| >= 4 && r.cmds[..4] == Relocate(id, l.master) + [MoveFocusedLeft] &&
      r.cmds[4..] == MasterWidthCommands(cfg, id)
    ensures l.master != 0 && l.stack != [] ==>
      var r := Push(cfg, l, id);
      |r.cmds| >= 6 && r.cmds[..6] == Relocate(id, Top(l)) + [Focus(id), MoveFocusedUp, SwapWith(id, l.master)] &&
      r.cmds[6..] == MasterWidthCommands(cfg, id)
  {
    if l.master != 0 {
      var placement := if |l.stack| == 0 then Relocate(id, l.master) + [MoveFocusedLeft]
                       else Relocate(id, Top(l)) + [Focus(id), MoveFocusedUp, SwapWith(id, l.master)];
      var r := Push(cfg, l, id);
      assert r == Outcome(Layout(id, l.stack + [l.master]), placement + MasterWidthCommands(cfg, id));
      assert r.cmds[..|placement|] == placement;
      assert r.cmds[|placement|..] == MasterWidthCommands(cfg, id);
      assert r.layout.stack[..|l.stack|] == l.stack;
    }
  }

  /** After inserting a real window the model tracks it besides what it tracked before. */
  lemma PushTracks(cfg: Config, l: Layout, id: int)
    requires id != 0
    ensures Tracked(Push(cfg, l, id).layout) == Tracked(l) + multiset{id}
  {
    if l.master == 0 {
      assert Cycle(Layout(id, l.stack)) == [id] + l.stack;
    } else {
      assert Cycle(Layout(id, l.stack + [l.master])) == [id] + l.stack + [l.master];
      assert Cycle(l) == [l.master] + l.stack;
    }
  }

  /**
   * The master closed: the top of the stack becomes master and is focused;
   * an empty stack leaves an empty model.
   */
  function Pop(cfg: Config, l: Layout): Outcome {
    if |l.stack| == 0 then
      Outcome(Layout(0, l.stack), [])
    else
      var newMaster := Top(l);
      var rest := l.stack[..|l.stack| - 1];
      Outcome(Layout(newMaster, rest),
              [Focus(newMaster)] + (if |rest| != 0 then [MoveFocusedLeft] + MasterWidthCommands(cfg, newMaster) else []))
  }

  /** What popping promises: the top of the stack takes the master place and is focused. */
  lemma PopCases(cfg: Config, l: Layout)
    ensures l.stack == [] ==> Pop(cfg, l) == Outcome(Empty, [])
    ensures l.stack != [] ==>
      var r := Pop(cfg, l);
      r.layout.master == Top(l) && r.layout.stack == l.stack[..|l.stack| - 1] &&
      |r.cmds| >= 1 && r.cmds[0] == Focus(Top(l)) &&
      (r.layout.stack != [] ==> r.cmds[1..] == [MoveFocusedLeft] + MasterWidthCommands(cfg, Top(l))) &&
      (r.layout.stack == [] ==> r.cmds == [Focus(Top(l))])
  {
  }

  /**
   * A window closed. The master is popped; a stack window is deleted with
   * the rest of the stack kept in order; an untracked window is tolerated
   * and changes nothing.
   */
  function Remove(cfg: Config, l: Layout, id: int): Outcome {
    if l.master == id then Pop(cfg, l)
    else Outcome(Layout(l.master, RemoveFirst(l.stack, id)), [])
  }

  /** What closing a window does in each case. */
  lemma RemoveCases(cfg: Config, l: Layout, id: int)
    ensures id == l.master ==> Remove(cfg, l, id) == Pop(cfg, l)
    ensures id != l.master ==> Remove(cfg, l, id).cmds == [] && Remove(cfg, l, id).layout.master == l.master
    ensures id != l.master && id in l.stack ==>
      var i := IndexOf(l.stack, id).value;
      Remove(cfg, l, id).layout.stack == l.stack[..i] + l.stack[i + 1..]
    ensures id != l.master && id !in l.stack ==> Remove(cfg, l, id) == Outcome(l, [])
  {
  }

  /** A navigation result keeps the same windows and the same stack length. */
  predicate IsRearrangement(l: Layout, r: Layout) {
    multiset(Cycle(r)) == multiset(Cycle(l)) && |r.stack| == |l.stack|
  }

  /**
   * Move the focused window up. With fewer than two stack windows, or the
   * top focused, master and top exchange; an empty stack makes that pop
   * raise. A stack window below the top exchanges with the one above it;
   * any other window changes nothing.
   */
  function MoveUp(l: Layout, focused: Option<int>): (r: Result<Outcome, Fault>)
    ensures r.Err? <==> focused.Some? && l.stack == []
  {
    if focused.None? then Ok(Outcome(l, []))
    else if |l.stack| < 2 || focused.value == Top(l) then
      if |l.stack| == 0 then Err(PopFromEmptyStack)
      else Ok(Outcome(ExchangeTop(l), [SwapWith(Top(l), l.master)]))
    else
      var f := focused.value;
      match IndexOf(l.stack, f)
      case None => Ok(Outcome(l, []))
      case Some(i) =>
        var above := l.stack[i + 1];
        Ok(Outcome(Layout(l.master, l.stack[i := above][i + 1 := f]), [SwapWith(f, above)]))
  }

  /** Exchanging a stack entry with the one above it transposes the matching positions of the cycle. */
  lemma SwapWithAboveTransposes(l: Layout, i: nat, f: int)
    requires i + 1 < |l.stack| && l.stack[i] == f
    ensures Cycle(Layout(l.master, l.stack[i := l.stack[i + 1]][i + 1 := f])) == Transposed(Cycle(l), i + 1, i + 2)
  {
    var u := l.stack[i := l.stack[i + 1]][i + 1 := f];
    var t := Transposed(Cycle(l), i + 1, i + 2);
    var cu := Cycle(Layout(l.master, u));
    forall k | 0 <= k < |t|
      ensures cu[k] == t[k]
    {
      if k > 0 {
        assert cu[k] == u[k - 1];
      }
    }
    assert cu == t;
  }

  /** Exchanging a stack entry with the one below it transposes the matching positions of the cycle. */
  lemma SwapWithBelowTransposes(l: Layout, i: nat, f: int)
    requires 0 < i < |l.stack| && l.stack[i] == f
    ensures Cycle(Layout(l.master, l.stack[i := l.stack[i - 1]][i - 1 := f])) == Transposed(Cycle(l), i, i + 1)
  {
    var u := l.stack[i := l.stack[i - 1]][i - 1 := f];
    var t := Transposed(Cycle(l), i, i + 1);
    var cu := Cycle(Layout(l.master, u));
    forall k | 0 <= k < |t|
      ensures cu[k] == t[k]
    {
      if k > 0 {
        assert cu[k] == u[k - 1];
      }
    }
    assert cu == t;
  }

  /** A stack window below the top moves up by exchanging places with the window above it. */
  lemma MoveUpWithinStack(l: Layout, f: int)
    requires |l.stack| >= 2 && f != Top(l) && f in l.stack
    ensures var i := IndexOf(l.stack, f).value;
      i + 1 < |l.stack| && MoveUp(l, Some(f)).Ok? &&
      Cycle(MoveUp(l, Some(f)).value.layout) == Transposed(Cycle(l), i + 1, i + 2) &&
      MoveUp(l, Some(f)).value.cmds == [SwapWith(f, l.stack[i + 1])]
  {
    var i := IndexOf(l.stack, f).value;
    var r := Layout(l.master, l.stack[i := l.stack[i + 1]][i + 1 := f]);
    assert MoveUp(l, Some(f)) == Ok(Outcome(r, [SwapWith(f, l.stack[i + 1])]));
    SwapWithAboveTransposes(l, i, f);
  }

  /** What moving up does in the other cases, and that it only rearranges the windows. */
  lemma MoveUpCases(l: Layout, focused: Option<int>)
    ensures MoveUp(l, focused).Ok? ==> IsRearrangement(l, MoveUp(l, focused).value.layout)
    ensures focused.None? ==> MoveUp(l, focused) == Ok(Outcome(l, []))
    ensures focused.Some? && l.stack != [] && (|l.stack| < 2 || focused.value == Top(l)) ==>
      MoveUp(l, focused) == Ok(Outcome(ExchangeTop(l), [SwapWith(Top(l), l.master)]))
    ensures focused.Some? && |l.stack| >= 2 && focused.value != Top(l) && focused.value !in l.stack ==>
      MoveUp(l, focused) == Ok(Outcome(l, []))
  {
    if focused.Some? && |l.stack| >= 2 && focused.value != Top(l) && focused.value in l.stack {
      MoveUpWithinStack(l, focused.value);
    }
  }

  /**
   * Move the focused window down. Nothing happens with fewer than two stack
   * windows, without focus, with the bottom focused or an untracked window
   * focused; the master exchanges with the top; a stack window exchanges
   * with the one below it.
   */
  function MoveDown(l: Layout, focused: Option<int>): Outcome {
    if |l.stack| < 2 then Outcome(l, [])
    else if focused.None? then Outcome(l, [])
    else if focused.value == l.stack[0] then Outcome(l, [])
    else if focused.value == l.master then Outcome(ExchangeTop(l), [SwapWith(l.master, Top(l))])
    else
      var f := focused.value;
      match IndexOf(l.stack, f)
      case None => Outcome(l, [])
      case Some(i) =>
        var below := l.stack[i - 1];
        Outcome(Layout(l.master, l.stack[i := below][i - 1 := f]), [SwapWith(f, below)])
  }

  /** A stack window above the bottom moves down by exchanging places with the window below it. */
  lemma MoveDownWithinStack(l: Layout, f: int)
    requires |l.stack| >= 2 && f != l.stack[0] && f != l.master && f in l.stack
    ensures var i := IndexOf(l.stack, f).value;
      0 < i && Cycle(MoveDown(l, Some(f)).layout) == Transposed(Cycle(l), i, i + 1) &&
      MoveDown(l, Some(f)).cmds == [SwapWith(f, l.stack[i - 1])]
  {
    var i := IndexOf(l.stack, f).value;
    var r := Layout(l.master, l.stack[i := l.stack[i - 1]][i - 1 := f]);
    assert MoveDown(l, Some(f)) == Outcome(r, [SwapWith(f, l.stack[i - 1])]);
    SwapWithBelowTransposes(l, i, f);
  }

  /** What moving down does in the other cases. */
  lemma MoveDownCases(l: Layout, focused: Option<int>)
    ensures |l.stack| < 2 || focused.None? ==> MoveDown(l, focused) == Outcome(l, [])
    ensures |l.stack| >= 2 && focused == Some(l.stack[0]) ==> MoveDown(l, focused) == Outcome(l, [])
    ensures |l.stack| >= 2 && focused == Some(l.master) && l.master != l.stack[0] ==>
      MoveDown(l, focused) == Outcome(ExchangeTop(l), [SwapWith(l.master, Top(l))])
    ensures |l.stack| >= 2 && focused.Some? && focused.value != l.master && focused.value !in l.stack ==>
      MoveDown(l, focused) == Outcome(l, [])
  {
  }

  /** Moving down only rearranges the windows. */
  lemma MoveDownRearranges(l: Layout, focused: Option<int>)
    ensures IsRearrangement(l, MoveDown(l, focused).layout)
  {
    if |l.stack| >= 2 && focused.Some? && focused.value != l.stack[0] {
      if focused.value == l.master {
        assert MoveDown(l, focused).layout == ExchangeTop(l);
      } else if focused.value in l.stack {
        MoveDownWithinStack(l, focused.value);
      }
    }
  }

  /** The cycle turned one place: its last position moves to the front. */
  function RotatedRight(c: seq<int>): (r: seq<int>)
    requires c != []
    ensures |r| == |c| && multiset(r) == multiset(c)
  {
    assert c == c[..|c| - 1] + [c[|c| - 1]];
    [c[|c| - 1]] + c[..|c| - 1]
  }

  /** The cycle turned one place the other way: its first position moves to the back. */
  function RotatedLeft(c: seq<int>): (r: seq<int>)
    requires c != []
    ensures |r| == |c| && multiset(r) == multiset(c)
  {
    assert c == [c[0]] + c[1..];
    c[1..] + [c[0]]
  }

  /**
   * Counter-clockwise rotation: the top becomes master and the previous
   * master goes to the bottom, so every window moves one place along the
   * cycle master, bottom, ..., top. Fewer than two stack windows: nothing.
   */
  function RotateCCW(l: Layout): Outcome {
    if |l.stack| < 2 then Outcome(l, [])
    else
      var newMaster := Top(l);
      var rest := l.stack[..|l.stack| - 1];
      var bottomId := rest[0];
      Outcome(Layout(newMaster, [l.master] + rest), [SwapWith(newMaster, l.master)] + Relocate(l.master, bottomId))
  }

  /** Counter-clockwise rotation turns the cycle right and issues a swap and a move. */
  lemma RotateCCWCases(l: Layout)
    ensures IsRearrangement(l, RotateCCW(l).layout)
    ensures |l.stack| < 2 ==> RotateCCW(l) == Outcome(l, [])
    ensures |l.stack| >= 2 ==> Cycle(RotateCCW(l).layout) == RotatedRight(Cycle(l))
    ensures |l.stack| >= 2 ==> RotateCCW(l).cmds == [SwapWith(Top(l), l.master)] + Relocate(l.master, l.stack[0])
  {
    if |l.stack| >= 2 {
      var c, rest := Cycle(l), l.stack[..|l.stack| - 1];
      assert c[..|c| - 1] == [l.master] + rest;
      assert RotatedRight(c) == [Top(l)] + ([l.master] + rest);
      assert RotateCCW(l).layout == Layout(Top(l), [l.master] + rest);
    }
  }

  /**
   * Clockwise rotation: the bottom becomes master and the previous master
   * goes to the top, then focus returns to the new master. Fewer than two
   * stack windows: nothing.
   */
  function RotateCW(l: Layout): Outcome {
    if |l.stack| < 2 then Outcome(l, [])
    else
      var newMaster := l.stack[0];
      var rest := l.stack[1..];
      var topId := rest[|rest| - 1];
      Outcome(Layout(newMaster, rest + [l.master]),
              [SwapWith(newMaster, l.master)] + Relocate(l.master, topId) +
              [Focus(l.master), MoveFocusedUp, Focus(newMaster)])
  }

  /** Clockwise rotation turns the cycle left and ends with focus on the new master. */
  lemma RotateCWCases(l: Layout)
    ensures IsRearrangement(l, RotateCW(l).layout)
    ensures |l.stack| < 2 ==> RotateCW(l) == Outcome(l, [])
    ensures |l.stack| >= 2 ==> Cycle(RotateCW(l).layout) == RotatedLeft(Cycle(l))
    ensures |l.stack| >= 2 ==>
      RotateCW(l).cmds == [SwapWith(l.stack[0], l.master)] + Relocate(l.master, Top(l)) +
                          [Focus(l.master), MoveFocusedUp, Focus(RotateCW(l).layout.master)]
  {
    if |l.stack| >= 2 {
      var c, rest := Cycle(l), l.stack[1..];
      assert rest[|rest| - 1] == Top(l);
      assert c[1..] == l.stack;
      assert RotatedLeft(c) == (l.stack + [l.master]);
      assert RotateCW(l).layout == Layout(l.stack[0], rest + [l.master]);
      assert l.stack + [l.master] == [l.stack[0]] + (rest + [l.master]);
    }
  }

  /**
   * Swap the focused window with the master. The master focused: master and
   * top exchange. A stack window focused: it takes the master's place, the
   * previous master takes its position in the stack and is refocused. An
   * empty stack, no focus or an untracked window: nothing.
   */
  function SwapMaster(l: Layout, focused: Option<int>): Outcome {
    if |l.stack| == 0 then Outcome(l, [])
    else if focused.None? then Outcome(l, [])
    else if focused.value == l.master then Outcome(ExchangeTop(l), [SwapWith(Top(l), l.master)])
    else
      var f := focused.value;
      match IndexOf(l.stack, f)
      case None => Outcome(l, [])
      case Some(i) => Outcome(Layout(f, l.stack[i := l.master]), [SwapWith(f, l.master), Focus(l.master)])
  }

  /** A focused stack window and the master exchange places, and the previous master is refocused. */
  lemma SwapMasterWithStack(l: Layout, f: int)
    requires f != l.master && f in l.stack
    ensures var i := IndexOf(l.stack, f).value;
      Cycle(SwapMaster(l, Some(f)).layout) == Transposed(Cycle(l), 0, i + 1) &&
      SwapMaster(l, Some(f)).cmds == [SwapWith(f, l.master), Focus(l.master)]
  {
    var i := IndexOf(l.stack, f).value;
    var r := Layout(f, l.stack[i := l.master]);
    assert SwapMaster(l, Some(f)) == Outcome(r, [SwapWith(f, l.master), Focus(l.master)]);
    SwapWithMasterTransposes(l, i, f);
  }

  /** Exchanging the master with a stack entry transposes the matching positions of the cycle. */
  lemma SwapWithMasterTransposes(l: Layout, i: nat, f: int)
    requires i < |l.stack| && l.stack[i] == f
    ensures Cycle(Layout(f, l.stack[i := l.master])) == Transposed(Cycle(l), 0, i + 1)
  {
    var u := l.stack[i := l.master];
    var t := Transposed(Cycle(l), 0, i + 1);
    var cu := Cycle(Layout(f, u));
    forall k | 0 <= k < |t|
      ensures cu[k] == t[k]
    {
      if k > 0 {
        assert cu[k] == u[k - 1];
      }
    }
    assert cu == t;
  }

  /** What swapping with the master does in the other cases, and that it only rearranges the windows. */
  lemma SwapMasterCases(l: Layout, focused: Option<int>)
    ensures IsRearrangement(l, SwapMaster(l, focused).layout)
    ensures l.stack == [] || focused.None? ==> SwapMaster(l, focused) == Outcome(l, [])
    ensures l.stack != [] && focused == Some(l.master) ==>
      SwapMaster(l, focused) == Outcome(ExchangeTop(l), [SwapWith(Top(l), l.master)])
    ensures l.stack != [] && focused.Some? && focused.value != l.master && focused.value !in l.stack ==>
      SwapMaster(l, focused) == Outcome(l, [])
  {
    if l.stack == [] || focused.None? {
    } else if focused.value == l.master {
      assert SwapMaster(l, focused) == Outcome(ExchangeTop(l), [SwapWith(Top(l), l.master)]);
    } else if focused.value in l.stack {
      SwapMasterWithStack(l, focused.value);
    } else {
      assert IndexOf(l.stack, focused.value) == None;
    }
  }

  /** The navigation operation bound to `nav`, run with the focused window `focused`. */
  function Navigate(l: Layout, nav: Nav, focused: Option<int>): (r: Result<Outcome, Fault>)
    ensures r.Err? <==> nav == Up && focused.Some? && l.stack == []
  {
    match nav
    case Up => MoveUp(l, focused)
    case Down => Ok(MoveDown(l, focused))
    case CounterClockwise => Ok(RotateCCW(l))
    case Clockwise => Ok(RotateCW(l))
    case SwapWithMaster => Ok(SwapMaster(l, focused))
  }

  /** Whatever is bound and focused, a navigation that succeeds only rearranges the windows. */
  lemma NavigateRearranges(l: Layout, nav: Nav, focused: Option<int>)
    ensures Navigate(l, nav, focused).Ok? ==> IsRearrangement(l, Navigate(l, nav, focused).value.layout)
  {
    match nav
    case Up => MoveUpCases(l, focused);
    case Down => MoveDownRearranges(l, focused);
    case CounterClockwise => RotateCCWCases(l);
    case Clockwise => RotateCWCases(l);
    case SwapWithMaster => SwapMasterCases(l, focused);
  }

  /** The binding strings the manager answers to; any other string is ignored. */
  function Binding(command: string): (r: Option<Nav>)
    ensures r == Some(Up) <==> command == "nop swlm move up"
    ensures r == Some(Down) <==> command == "nop swlm move down"
    ensures r == Some(CounterClockwise) <==> command == "nop swlm rotate ccw" || command == "nop swlm move left"
    ensures r == Some(Clockwise) <==> command == "nop swlm rotate cw" || command == "nop swlm move right"
    ensures r == Some(SwapWithMaster) <==> command == "nop swlm swap master"
  {
    if command == "nop swlm move up" then Some(Up)
    else if command == "nop swlm move down" then Some(Down)
    else if command == "nop swlm rotate ccw" || command == "nop swlm move left" then Some(CounterClockwise)
    else if command == "nop swlm rotate cw" || command == "nop swlm move right" then Some(Clockwise)
    else if command == "nop swlm swap master" then Some(SwapWithMaster)
    else None
  }
}
