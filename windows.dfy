/** What the manager reads of a compositor node, and which nodes it leaves alone. */
module Windows {
  import opened Wrappers

  /**
   * A container as the manager sees it: its id, its node type ("con" for a
   * tiled container), whether it belongs to a workspace, and its floating
   * state, a string such as "user_on" or "auto_off" when the compositor
   * reports one.
   */
  datatype Window = Window(id: int, nodeType: string, hasWorkspace: bool, floating: Option<string>)

  /** A top-level node of a workspace together with the nodes directly inside it. */
  datatype Node = Node(window: Window, children: seq<Window>)

  /** `s` has "on" as a substring. */
  predicate ContainsOn(s: string) {
    exists i :: 0 <= i < |s| - 1 && s[i] == 'o' && s[i + 1] == 'n'
  }

  /** A floating state with "on" in it means the window floats. */
  predicate IsFloating(w: Window) {
    w.floating.Some? && ContainsOn(w.floating.value)
  }

  /**
   * A candidate is left alone when there is none, when it is not a tiled
   * container, when it has no workspace, or when it floats.
   */
  function IsExcluded(w: Option<Window>): (r: bool)
    ensures !r <==> w.Some? && w.value.nodeType == "con" && w.value.hasWorkspace && !IsFloating(w.value)
  {
    if w.None? then true
    else if w.value.nodeType != "con" then true
    else if !w.value.hasWorkspace then true
    else if w.value.floating.Some? && ContainsOn(w.value.floating.value) then true
    else false
  }

  /** The floating states the compositor reports: the "_on" ones exclude, the "_off" ones do not. */
  lemma FloatingStates(id: int)
    ensures IsExcluded(Some(Window(id, "con", true, Some("user_on"))))
    ensures IsExcluded(Some(Window(id, "con", true, Some("auto_on"))))
    ensures !IsExcluded(Some(Window(id, "con", true, Some("user_off"))))
    ensures !IsExcluded(Some(Window(id, "con", true, Some("auto_off"))))
    ensures !IsExcluded(Some(Window(id, "con", true, None)))
    ensures IsExcluded(Some(Window(id, "floating_con", true, None)))
  {
    assert "user_on"[5] == 'o' && "user_on"[6] == 'n';
    assert "auto_on"[5] == 'o' && "auto_on"[6] == 'n';
  }
}
