/**
 * The commands the manager sends to the compositor. Each is addressed by
 * container id and is fire-and-forget: the manager never reads a reply, so
 * the model records them only as an ordered log.
 */
module Commands {

  /** The mark name used by every mark-based relocation. */
  const MoveMark := "move_target"

  datatype Command =
    | MarkTarget(target: int)             // add the relocation mark to `target`
    | MoveToMark(id: int)                 // move container `id` to the relocation mark
    | UnmarkTarget(target: int)           // remove the relocation mark from `target`
    | MoveFocusedLeft                     // move the focused container one place to the left
    | MoveFocusedUp                       // move the focused container one place up
    | Focus(id: int)
    | SwapWith(id: int, other: int)       // exchange the on-screen positions of two containers
    | ResizeWidth(id: int, percent: int)  // set the width of `id` in percentage points
    | SplitVertical(id: int)
    | SplitHorizontal(id: int)
    | SetLayout(id: int, kind: string)

  /** The textual form the compositor's command language expects. */
  function Render(c: Command): string {
    match c
    case MarkTarget(t) => Addressed(t) + "mark --add " + MoveMark
    case MoveToMark(m) => Addressed(m) + "move container to mark " + MoveMark
    case UnmarkTarget(t) => Addressed(t) + "unmark " + MoveMark
    case MoveFocusedLeft => "move left"
    case MoveFocusedUp => "move up"
    case Focus(w) => Addressed(w) + "focus"
    case SwapWith(a, b) => Addressed(a) + "swap container with con_id " + IntToString(b)
    case ResizeWidth(m, p) => Addressed(m) + "resize set " + IntToString(p) + " 0 ppt"
    case SplitVertical(w) => Addressed(w) + "split vertical"
    case SplitHorizontal(w) => Addressed(w) + "split horizontal"
    case SetLayout(w, kind) => Addressed(w) + "layout " + kind
  }

  /** The criteria prefix that addresses one container. */
  function Addressed(id: int): string {
    "[con_id=" + IntToString(id) + "] "
  }

  /** Decimal notation, as Python's `%d` writes an integer. */
  function IntToString(n: int): string {
    if n < 0 then "-" + NatToString(-n) else NatToString(n)
  }

  function NatToString(n: nat): string
    decreases n
  {
    if n < 10 then [Digit(n)] else NatToString(n / 10) + [Digit(n % 10)]
  }

  function Digit(d: nat): char
    requires d < 10
  {
    "0123456789"[d]
  }

  /** The decimal forms of the ids and widths used in the samples below. */
  lemma DecimalSamples()
    ensures IntToString(3) == "3" && IntToString(4) == "4" && IntToString(5) == "5" && IntToString(7) == "7"
    ensures IntToString(12) == "12" && IntToString(60) == "60"
  {
    assert NatToString(12) == NatToString(1) + [Digit(2)];
    assert NatToString(60) == NatToString(6) + [Digit(0)];
  }

  /**
   * Sample relocation commands as the compositor receives them, each id
   * and width written in decimal into its place in the format.
   */
  lemma RenderRelocationSamples()
    ensures Render(MarkTarget(12)) == "[con_id=12] " + "mark --add " + MoveMark
    ensures Render(MoveToMark(3)) == "[con_id=3] " + "move container to mark " + MoveMark
    ensures Render(UnmarkTarget(12)) == "[con_id=12] " + "unmark " + MoveMark
  {
    DecimalSamples();
  }

  /**
   * Sample focus, move and swap commands as the compositor receives them, each id
   * and width written in decimal into its place in the format.
   */
  lemma RenderNavigationSamples()
    ensures Render(MoveFocusedLeft) == "move left"
    ensures Render(MoveFocusedUp) == "move up"
    ensures Render(Focus(7)) == "[con_id=7] " + "focus"
    ensures Render(SwapWith(3, 12)) == "[con_id=3] " + "swap container with con_id " + "12"
  {
    DecimalSamples();
  }

  /**
   * Sample resize, split and layout commands as the compositor receives them, each id
   * and width written in decimal into its place in the format.
   */
  lemma RenderLayoutSamples()
    ensures Render(ResizeWidth(5, 60)) == "[con_id=5] " + "resize set " + "60" + " 0 ppt"
    ensures Render(SplitVertical(4)) == "[con_id=4] " + "split vertical"
    ensures Render(SplitHorizontal(4)) == "[con_id=4] " + "split horizontal"
    ensures Render(SetLayout(4, "splitv")) == "[con_id=4] " + "layout " + "splitv"
  {
    DecimalSamples();
  }

  /** Regrouping a command log: used to keep long concatenations cheap for the solver. */
  lemma AppendAssoc<T>(a: seq<T>, b: seq<T>, c: seq<T>)
    ensures a + (b + c) == (a + b) + c
  {
  }
}
