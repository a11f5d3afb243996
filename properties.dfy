/**
 * What the master/stack operations promise together: the model's invariant
 * is kept by every operation, and insertion, rotation, moving and swapping
 * each have an inverse.
 */
module MasterStackProperties {
  import opened Wrappers
  import opened Commands
  import opened MasterStack

  // ---------------------------------------------------------------------
  // Distinctness through multiplicities
  // ---------------------------------------------------------------------

  lemma {:induction false} DistinctHasSingleOccurrences(s: seq<int>)
    requires Distinct(s)
    ensures forall x :: multiset(s)[x] <= 1
  {
    if s != [] {
      var t := s[1..];
      assert s == [s[0]] + t;
      assert Distinct(t) by {
        forall i, j | 0 <= i < j < |t| ensures t[i] != t[j] {
          assert t[i] == s[i + 1] && t[j] == s[j + 1];
        }
      }
      DistinctHasSingleOccurrences(t);
      assert s[0] !in t by {
        forall k | 0 <= k < |t| ensures t[k] != s[0] {
          assert t[k] == s[k + 1];
        }
      }
      assert multiset(s) == multiset{s[0]} + multiset(t);
    }
  }

  lemma SingleOccurrencesAreDistinct(s: seq<int>)
    requires forall x :: multiset(s)[x] <= 1
    ensures Distinct(s)
  {
    forall i, j | 0 <= i < j < |s| ensures s[i] != s[j] {
      var x := s[i];
      assert multiset(s)[x] <= 1;
      assert s == s[..i] + [s[i]] + s[i + 1..j] + [s[j]] + s[j + 1..];
      assert multiset{s[i], s[j]} <= multiset(s);
      assert multiset{s[i], s[j]}[s[i]] <= 1;
    }
  }

  /** A sequence whose windows all occur in a distinct sequence at least as often is distinct. */
  lemma SubMultisetKeepsDistinct(a: seq<int>, b: seq<int>)
    requires multiset(a) <= multiset(b) && Distinct(b)
    ensures Distinct(a)
  {
    DistinctHasSingleOccurrences(b);
    SingleOccurrencesAreDistinct(a);
  }

  /** In a distinct sequence the scan finds the one position holding `x`. */
  lemma IndexOfDistinct(s: seq<int>, k: nat)
    requires Distinct(s) && k < |s|
    ensures IndexOf(s, s[k]) == Some(k)
  {
  }

  /** The scan stops at the first position holding `x`. */
  lemma IndexOfFirst(s: seq<int>, x: int, k: nat)
    requires k < |s| && s[k] == x
    requires forall j :: 0 <= j < k ==> s[j] != x
    ensures IndexOf(s, x) == Some(k)
  {
  }

  lemma TransposedTwice(c: seq<int>, i: nat, j: nat)
    requires i < j < |c|
    ensures Transposed(Transposed(c, i, j), i, j) == c
  {
    var u := c[i := c[j]][j := c[i]];
    var t := u[i := u[j]][j := u[i]];
    assert |t| == |c|;
    forall k | 0 <= k < |c|
      ensures t[k] == c[k]
    {
      if k == i {
      } else if k == j {
      }
    }
  }

  lemma CycleDeterminesLayout(a: Layout, b: Layout)
    requires Cycle(a) == Cycle(b)
    ensures a == b
  {
    assert a.master == Cycle(a)[0] && a.stack == Cycle(a)[1..];
  }

  // ---------------------------------------------------------------------
  // The invariant is kept by every operation
  // ---------------------------------------------------------------------

  /** Any rearrangement of a valid model is valid: this covers all navigation. */
  lemma RearrangementKeepsValid(l: Layout, r: Layout)
    requires Valid(l) && IsRearrangement(l, r)
    ensures Valid(r)
  {
    SubMultisetKeepsDistinct(Cycle(r), Cycle(l));
    if l.stack == [] {
      assert multiset(Cycle(r)) == multiset{r.master};
    } else {
      assert 0 !in multiset(Cycle(l));
      assert 0 !in Cycle(r);
      assert r.master == Cycle(r)[0];
      assert forall k :: 0 <= k < |r.stack| ==> r.stack[k] == Cycle(r)[k + 1];
    }
  }

  /** Inserting a window that is not 0 and not yet tracked keeps the invariant. */
  lemma PushKeepsValid(cfg: Config, l: Layout, id: int)
    requires Valid(l) && id != 0 && id !in Tracked(l)
    ensures Valid(Push(cfg, l, id).layout)
  {
    var r := Push(cfg, l, id).layout;
    if l.master != 0 {
      assert Cycle(r) == [id] + l.stack + [l.master];
      DistinctHasSingleOccurrences(Cycle(l));
      assert multiset(Cycle(r)) == multiset(Cycle(l)) + multiset{id};
      SingleOccurrencesAreDistinct(Cycle(r));
    }
  }

  /** Closing the master keeps the invariant. */
  lemma PopKeepsValid(cfg: Config, l: Layout)
    requires Valid(l)
    ensures Valid(Pop(cfg, l).layout)
  {
    if l.stack != [] {
      var r := Pop(cfg, l).layout;
      var rest := l.stack[..|l.stack| - 1];
      assert l.stack == rest + [Top(l)];
      assert Cycle(r) == [Top(l)] + rest;
      assert multiset(Cycle(r)) == multiset(l.stack);
      assert multiset(Cycle(l)) == multiset{l.master} + multiset(l.stack);
      SubMultisetKeepsDistinct(Cycle(r), Cycle(l));
    }
  }

  /** Removing any window, tracked or not, keeps the invariant. */
  lemma RemoveKeepsValid(cfg: Config, l: Layout, id: int)
    requires Valid(l)
    ensures Valid(Remove(cfg, l, id).layout)
  {
    if id == l.master {
      PopKeepsValid(cfg, l);
    } else {
      RemoveFromStackKeepsValid(cfg, l, id);
    }
  }

  /** Closing a window other than the master keeps the invariant. */
  lemma RemoveFromStackKeepsValid(cfg: Config, l: Layout, id: int)
    requires Valid(l) && id != l.master
    ensures Valid(Remove(cfg, l, id).layout)
  {
    var s := RemoveFirst(l.stack, id);
    var r := Layout(l.master, s);
    assert Remove(cfg, l, id).layout == r;
    assert multiset(s) <= multiset(l.stack);
    assert 0 !in multiset(s);
    assert Cycle(r) == [l.master] + s;
    assert Cycle(l) == [l.master] + l.stack;
    SubMultisetKeepsDistinct(Cycle(r), Cycle(l));
  }

  /** Every navigation binding keeps the invariant, whatever window is focused. */
  lemma NavigateKeepsValid(l: Layout, nav: Nav, focused: Option<int>)
    requires Valid(l)
    ensures Navigate(l, nav, focused).Ok? ==> Valid(Navigate(l, nav, focused).value.layout)
  {
    var r := Navigate(l, nav, focused);
    NavigateRearranges(l, nav, focused);
    if r.Ok? {
      RearrangementKeepsValid(l, r.value.layout);
    }
  }

  /** Closing the master of a valid model forgets the master and nothing else. */
  lemma PopForgetsMaster(cfg: Config, l: Layout)
    requires Valid(l) && l.master != 0
    ensures Tracked(Pop(cfg, l).layout) == Tracked(l) - multiset{l.master}
  {
    var r := Pop(cfg, l).layout;
    if l.stack != [] {
      var rest := l.stack[..|l.stack| - 1];
      assert l.stack == rest + [Top(l)];
      assert Top(l) != 0;
      calc {
        Tracked(r);
        multiset([Top(l)] + rest);
        { assert [Top(l)] + rest == Cycle(r); }
        multiset(l.stack);
        (multiset{l.master} + multiset(l.stack)) - multiset{l.master};
        { assert [l.master] + l.stack == Cycle(l); }
        Tracked(l) - multiset{l.master};
      }
    }
  }

  /** Closing a window that is not the master forgets that window and nothing else. */
  lemma RemoveFromStackForgets(cfg: Config, l: Layout, id: int)
    requires Valid(l) && id != 0 && id != l.master
    ensures Tracked(Remove(cfg, l, id).layout) == Tracked(l) - multiset{id}
  {
    if l.master != 0 {
      var r := Remove(cfg, l, id).layout;
      assert r == Layout(l.master, RemoveFirst(l.stack, id));
      var ms := multiset(l.stack);
      assert Tracked(r) == multiset{l.master} + (ms - multiset{id}) by {
        assert Cycle(r) == [l.master] + RemoveFirst(l.stack, id);
      }
      assert Tracked(l) == multiset{l.master} + ms by {
        assert Cycle(l) == [l.master] + l.stack;
      }
      RemoveOther(l.master, ms, id);
    }
  }

  /** Taking away one window leaves another window's occurrence alone. */
  lemma RemoveOther(m: int, ms: multiset<int>, id: int)
    requires m != id
    ensures (multiset{m} + ms) - multiset{id} == multiset{m} + (ms - multiset{id})
  {
  }

  /** In a valid model removal forgets exactly the removed window. */
  lemma RemoveForgets(cfg: Config, l: Layout, id: int)
    requires Valid(l) && id != 0
    ensures Tracked(Remove(cfg, l, id).layout) == Tracked(l) - multiset{id}
  {
    if id == l.master {
      PopForgetsMaster(cfg, l);
    } else {
      RemoveFromStackForgets(cfg, l, id);
    }
  }

  // ---------------------------------------------------------------------
  // Inverses
  // ---------------------------------------------------------------------

  /** Closing the window just inserted restores the model, in every valid state. */
  lemma RemoveUndoesPush(cfg: Config, l: Layout, id: int)
    requires Valid(l) && id != 0 && id !in Tracked(l)
    ensures Remove(cfg, Push(cfg, l, id).layout, id).layout == l
  {
    var p := Push(cfg, l, id).layout;
    if l.master != 0 {
      assert p.stack == l.stack + [l.master];
    }
  }

  lemma RotationsCancel(c: seq<int>)
    requires c != []
    ensures RotatedLeft(RotatedRight(c)) == c && RotatedRight(RotatedLeft(c)) == c
  {
    assert c == c[..|c| - 1] + [c[|c| - 1]];
    assert c == [c[0]] + c[1..];
  }

  /** A clockwise rotation undoes a counter-clockwise one. */
  lemma RotateCWUndoesRotateCCW(l: Layout)
    ensures RotateCW(RotateCCW(l).layout).layout == l
  {
    if |l.stack| >= 2 {
      RotateCCWCases(l);
      RotateCWCases(RotateCCW(l).layout);
      RotationsCancel(Cycle(l));
      CycleDeterminesLayout(RotateCW(RotateCCW(l).layout).layout, l);
    }
  }

  /** A counter-clockwise rotation undoes a clockwise one. */
  lemma RotateCCWUndoesRotateCW(l: Layout)
    ensures RotateCCW(RotateCW(l).layout).layout == l
  {
    if |l.stack| >= 2 {
      RotateCWCases(l);
      RotateCCWCases(RotateCW(l).layout);
      RotationsCancel(Cycle(l));
      CycleDeterminesLayout(RotateCCW(RotateCW(l).layout).layout, l);
    }
  }

  /** In a valid model the stack holds no window twice, and no stack window is the master. */
  lemma StackOfValidIsDistinct(l: Layout)
    requires Valid(l)
    ensures Distinct(l.stack)
    ensures forall k :: 0 <= k < |l.stack| ==> l.stack[k] != l.master
  {
    forall a, b | 0 <= a < b < |l.stack| ensures l.stack[a] != l.stack[b] {
      assert Cycle(l)[a + 1] != Cycle(l)[b + 1];
    }
    forall k | 0 <= k < |l.stack| ensures l.stack[k] != l.master {
      assert Cycle(l)[0] != Cycle(l)[k + 1];
    }
  }

  lemma ExchangeTopTwice(l: Layout)
    requires l.stack != []
    ensures ExchangeTop(ExchangeTop(l)) == l
  {
    TransposedTwice(Cycle(l), 0, |l.stack|);
    CycleDeterminesLayout(ExchangeTop(ExchangeTop(l)), l);
  }

  lemma BottomIsNotTop(l: Layout)
    requires Valid(l) && |l.stack| >= 2
    ensures l.stack[0] != Top(l)
  {
    assert Cycle(l)[1] != Cycle(l)[|l.stack|];
  }

  /** Moving the top window up makes it master; moving the master down puts it back. */
  lemma MoveDownUndoesMoveUpAtTop(l: Layout)
    requires Valid(l) && |l.stack| >= 2
    ensures MoveUp(l, Some(Top(l))).Ok?
    ensures MoveDown(MoveUp(l, Some(Top(l))).value.layout, Some(Top(l))).layout == l
  {
    var up := ExchangeTop(l);
    MoveUpCases(l, Some(Top(l)));
    assert MoveUp(l, Some(Top(l))).value.layout == up;
    BottomIsNotTop(l);
    assert up.stack[0] == l.stack[0] && up.master == Top(l);
    MoveDownCases(up, Some(Top(l)));
    assert MoveDown(up, Some(Top(l))).layout == ExchangeTop(up);
    ExchangeTopTwice(l);
  }

  /** Moving a window below the top up one place and down again restores the model. */
  lemma MoveDownUndoesMoveUpBelowTop(l: Layout, i: nat)
    requires Valid(l) && i + 1 < |l.stack|
    ensures MoveUp(l, Some(l.stack[i])).Ok?
    ensures MoveDown(MoveUp(l, Some(l.stack[i])).value.layout, Some(l.stack[i])).layout == l
  {
    var s, f, g := l.stack, l.stack[i], l.stack[i + 1];
    StackOfValidIsDistinct(l);
    IndexOfDistinct(s, i);
    assert f != Top(l) && f != g && f != l.master;
    var u := s[i := g][i + 1 := f];
    assert MoveUp(l, Some(f)) == Ok(Outcome(Layout(l.master, u), [SwapWith(f, g)]));
    assert f != u[0] by {
      if i > 0 {
        assert s[0] != s[i];
      }
    }
    IndexOfFirst(u, f, i + 1);
    assert MoveDown(Layout(l.master, u), Some(f)).layout == Layout(l.master, u[i + 1 := u[i]][i := f]);
    UndoAdjacentSwap(s, i);
  }

  /** Exchanging two neighbours twice gives back the sequence. */
  lemma UndoAdjacentSwap(s: seq<int>, i: nat)
    requires i + 1 < |s|
    ensures var u := s[i := s[i + 1]][i + 1 := s[i]]; u[i + 1 := u[i]][i := s[i]] == s
  {
    var u := s[i := s[i + 1]][i + 1 := s[i]];
    assert u[i + 1 := u[i]][i := s[i]] == s;
  }

  /** Moving any stack window up and then down again restores the model. */
  lemma MoveDownUndoesMoveUp(l: Layout, f: int)
    requires Valid(l) && |l.stack| >= 2 && f in l.stack
    ensures MoveUp(l, Some(f)).Ok?
    ensures MoveDown(MoveUp(l, Some(f)).value.layout, Some(f)).layout == l
  {
    var i := IndexOf(l.stack, f).value;
    if i + 1 == |l.stack| {
      MoveDownUndoesMoveUpAtTop(l);
    } else {
      MoveDownUndoesMoveUpBelowTop(l, i);
    }
  }

  /** Swapping with the master focused, then with the previous master focused, restores the model. */
  lemma SwapMasterTwiceFromMaster(l: Layout)
    requires Valid(l) && l.stack != []
    ensures SwapMaster(SwapMaster(l, Some(l.master)).layout, Some(l.master)).layout == l
  {
    var n := |l.stack|;
    SwapMasterCases(l, Some(l.master));
    var once := SwapMaster(l, Some(l.master)).layout;
    assert Cycle(once) == Transposed(Cycle(l), 0, n);
    RearrangementKeepsValid(l, once);
    StackOfValidIsDistinct(once);
    assert once.stack[n - 1] == l.master by { assert Cycle(once)[n] == l.master; }
    IndexOfDistinct(once.stack, n - 1);
    SwapMasterWithStack(once, l.master);
    var twice := SwapMaster(once, Some(l.master)).layout;
    assert Cycle(twice) == Transposed(Cycle(once), 0, n);
    TransposedTwice(Cycle(l), 0, n);
    CycleDeterminesLayout(twice, l);
  }

  /** Swapping a stack window with the master, then the refocused previous master, restores the model. */
  lemma SwapMasterTwiceFromStack(l: Layout, i: nat)
    requires Valid(l) && i < |l.stack|
    ensures SwapMaster(SwapMaster(l, Some(l.stack[i])).layout, Some(l.master)).layout == l
  {
    var f := l.stack[i];
    StackOfValidIsDistinct(l);
    IndexOfDistinct(l.stack, i);
    SwapMasterCases(l, Some(f));
    SwapMasterWithStack(l, f);
    var once := SwapMaster(l, Some(f)).layout;
    assert Cycle(once) == Transposed(Cycle(l), 0, i + 1);
    RearrangementKeepsValid(l, once);
    StackOfValidIsDistinct(once);
    assert once.stack[i] == l.master by { assert Cycle(once)[i + 1] == l.master; }
    IndexOfDistinct(once.stack, i);
    SwapMasterWithStack(once, l.master);
    var twice := SwapMaster(once, Some(l.master)).layout;
    assert Cycle(twice) == Transposed(Cycle(once), 0, i + 1);
    TransposedTwice(Cycle(l), 0, i + 1);
    CycleDeterminesLayout(twice, l);
  }

  /**
   * Swapping the focused window with the master and then swapping again with
   * focus on the previous master (where the operation leaves focus)
   * restores the model.
   */
  lemma SwapMasterTwiceRestores(l: Layout, f: int)
    requires Valid(l) && l.stack != [] && f in Cycle(l)
    ensures SwapMaster(SwapMaster(l, Some(f)).layout, Some(l.master)).layout == l
  {
    if f == l.master {
      SwapMasterTwiceFromMaster(l);
    } else {
      SwapMasterTwiceFromStack(l, IndexOf(l.stack, f).value);
    }
  }

  // ---------------------------------------------------------------------
  // Scenarios
  // ---------------------------------------------------------------------

  /** Three insertions and two removals, with the model after each step. */
  lemma InsertRemoveScenario(cfg: Config)
    ensures Push(cfg, Empty, 1).layout == Layout(1, [])
    ensures Push(cfg, Layout(1, []), 2).layout == Layout(2, [1])
    ensures Push(cfg, Layout(2, [1]), 3).layout == Layout(3, [1, 2])
    ensures Remove(cfg, Layout(3, [1, 2]), 3).layout == Layout(2, [1])
    ensures Remove(cfg, Layout(2, [1]), 1).layout == Layout(2, [])
  {
    assert [1] + [2] == [1, 2];
    assert [1, 2][..1] == [1];
    assert IndexOf([1], 1) == Some(0);
  }

  /** Swapping the bottom window with the master, and the commands issued. */
  lemma SwapMasterScenario()
    ensures SwapMaster(Layout(3, [1, 2]), Some(1)) == Outcome(Layout(1, [3, 2]), [SwapWith(1, 3), Focus(3)])
  {
    assert IndexOf([1, 2], 1) == Some(0);
  }
}
