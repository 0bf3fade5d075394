/**
 * The panel side of `src/script.js`: dragging a panel inside the viewport
 * (`dragElement` and its closures), the expand/collapse click installed by
 * `expand`, the text-hover flag and the global keyboard shortcuts.
 *
 * Pixel values are integers. The panel's `offsetLeft`/`offsetTop` are taken
 * to read back the last `style.left`/`style.top` written; the cursor and
 * the panel's bounding rectangle are parameters of the move event. The
 * 10 ms `setTimeout` in `closeDragElement` is the separate event
 * `CloseDrag`: the click that ends a drag arrives before it, while
 * `isDrag` is still set.
 */
module Panel {

  import opened Optional

  // -----------------------------------------------------------------------
  // Dragging

  /** A drag element's position and the four closure variables of `dragElement`. */
  datatype Placement = Placement(left: int, top: int, pos1: int, pos2: int, pos3: int, pos4: int)

  /** A `mousemove`: the cursor, and the right and bottom edges of the element's rectangle. */
  datatype Pointer = Pointer(clientX: int, clientY: int, right: int, bottom: int)

  /** The `transform` set by `resize()` and by the end of a drag. */
  const Lifted := "scale(1.04)"
  const Dropped := "scale(1.0)"

  /**
   * One axis of `elementDrag`: `delta` is the cursor's move towards the
   * origin (`pos1` or `pos2`), `edge` the rectangle's far edge, `extent`
   * the viewport's size and `low` the value written when the candidate is
   * not positive (0 for `left`, -1 for `top`).
   */
  function AxisStep(cur: int, delta: int, edge: int, extent: int, low: int): int {
    var candidate := cur - delta;
    if candidate > 0 then (if edge < extent || delta > 0 then candidate else cur)
    else low
  }

  /** `elementDrag` on the closure state: new deltas, cursor and position. */
  function Step(s: Placement, m: Pointer, width: int, height: int): Placement {
    var pos1 := s.pos3 - m.clientX;
    var pos2 := s.pos4 - m.clientY;
    Placement(AxisStep(s.left, pos1, m.right, width, 0), AxisStep(s.top, pos2, m.bottom, height, -1),
              pos1, pos2, m.clientX, m.clientY)
  }

  /** Where a drag can leave a panel: `left` at least 0, `top` either -1 or positive. */
  predicate Placed(s: Placement) {
    s.left >= 0 && (s.top == -1 || s.top > 0)
  }

  /**
   * A move writes `left` as 0 or a positive value and `top` as -1 or a
   * positive value, so a placed panel stays placed; the next move's deltas
   * are measured from this move's cursor.
   */
  lemma StepBounds(s: Placement, m: Pointer, width: int, height: int)
    ensures Step(s, m, width, height).left != s.left ==> Step(s, m, width, height).left >= 0
    ensures Step(s, m, width, height).top != s.top ==>
              Step(s, m, width, height).top == -1 || Step(s, m, width, height).top > 0
    ensures Placed(s) ==> Placed(Step(s, m, width, height))
    ensures Step(s, m, width, height).pos3 == m.clientX && Step(s, m, width, height).pos4 == m.clientY
  {
  }

  /**
   * Away from the far edges, the panel moves with the cursor as long as
   * the new position stays positive; otherwise it is pinned at 0 (left)
   * or -1 (top).
   */
  lemma StepFollowsCursor(s: Placement, m: Pointer, width: int, height: int)
    ensures m.right < width && s.left + (m.clientX - s.pos3) > 0 ==>
              Step(s, m, width, height).left == s.left + (m.clientX - s.pos3)
    ensures m.bottom < height && s.top + (m.clientY - s.pos4) > 0 ==>
              Step(s, m, width, height).top == s.top + (m.clientY - s.pos4)
    ensures s.left + (m.clientX - s.pos3) <= 0 ==> Step(s, m, width, height).left == 0
    ensures s.top + (m.clientY - s.pos4) <= 0 ==> Step(s, m, width, height).top == -1
  {
  }

  /**
   * The far-edge test only blocks moves away from the origin: a move left
   * (up) is always taken, and a move right (down) while the rectangle
   * reaches the viewport's right (bottom) edge leaves the panel where it
   * is whenever the candidate position is positive, and in particular
   * leaves a placed panel where it is.
   */
  lemma StepAtFarEdge(s: Placement, m: Pointer, width: int, height: int)
    ensures m.clientX < s.pos3 ==>
              Step(s, m, width, height).left == (if s.left + (m.clientX - s.pos3) > 0 then s.left + (m.clientX - s.pos3) else 0)
    ensures m.clientY < s.pos4 ==>
              Step(s, m, width, height).top == (if s.top + (m.clientY - s.pos4) > 0 then s.top + (m.clientY - s.pos4) else -1)
    ensures m.right >= width && m.clientX >= s.pos3 && s.left + (m.clientX - s.pos3) > 0 ==>
              Step(s, m, width, height).left == s.left
    ensures m.bottom >= height && m.clientY >= s.pos4 && s.top + (m.clientY - s.pos4) > 0 ==>
              Step(s, m, width, height).top == s.top
    ensures Placed(s) && m.right >= width && m.clientX >= s.pos3 ==> Step(s, m, width, height).left == s.left
    ensures Placed(s) && m.bottom >= height && m.clientY >= s.pos4 ==> Step(s, m, width, height).top == s.top
  {
  }

  /** The placement after a run of moves. */
  function Trail(s: Placement, ms: seq<Pointer>, width: int, height: int): Placement
    decreases |ms|
  {
    if ms == [] then s else Trail(Step(s, ms[0], width, height), ms[1..], width, height)
  }

  /**
   * Because each move stores its cursor in `pos3`/`pos4`, the deltas add
   * up: after any run of unobstructed moves the panel is displaced by
   * exactly the cursor's displacement since the mouse-down.
   */
  lemma {:induction false} TrailFollowsCursor(s: Placement, ms: seq<Pointer>, width: int, height: int)
    requires ms != []
    requires forall i :: 0 <= i < |ms| ==>
               ms[i].right < width && ms[i].bottom < height &&
               s.left + (ms[i].clientX - s.pos3) > 0 && s.top + (ms[i].clientY - s.pos4) > 0
    ensures Trail(s, ms, width, height).left == s.left + (ms[|ms| - 1].clientX - s.pos3)
    ensures Trail(s, ms, width, height).top == s.top + (ms[|ms| - 1].clientY - s.pos4)
    ensures Trail(s, ms, width, height).pos3 == ms[|ms| - 1].clientX
    ensures Trail(s, ms, width, height).pos4 == ms[|ms| - 1].clientY
    decreases |ms|
  {
    var s1 := Step(s, ms[0], width, height);
    StepFollowsCursor(s, ms[0], width, height);
    if |ms| > 1 {
      var rest := ms[1..];
      assert forall i :: 0 <= i < |rest| ==> rest[i] == ms[i + 1];
      TrailFollowsCursor(s1, rest, width, height);
    }
  }

  /** An element of class `drag`, with the state of its `dragElement` closure. */
  class DragPanel {
    var left: int
    var top: int
    var pos1: int
    var pos2: int
    var pos3: int
    var pos4: int
    var transform: string

    constructor (l: int, t: int)
      ensures State() == Placement(l, t, 0, 0, 0, 0) && transform == ""
    {
      left, top := l, t;
      pos1, pos2, pos3, pos4 := 0, 0, 0, 0;
      transform := "";
    }

    ghost function State(): Placement
      reads this
    {
      Placement(left, top, pos1, pos2, pos3, pos4)
    }

    /** `elementDrag` after it has set `isDrag`: `resize()`, then the step. */
    method ElementDrag(m: Pointer, width: int, height: int)
      modifies this
      ensures State() == Step(old(State()), m, width, height)
      ensures transform == Lifted
    {
      transform := Lifted;
      pos1 := pos3 - m.clientX;
      pos2 := pos4 - m.clientY;
      pos3 := m.clientX;
      pos4 := m.clientY;
      var x := left - pos1;
      var y := top - pos2;
      if x > 0 {
        if m.right < width || pos1 > 0 {
          left := x;
        }
      } else {
        left := 0;
      }
      if y > 0 {
        if m.bottom < height || pos2 > 0 {
          top := y;
        }
      } else {
        top := -1;
      }
    }
  }

  // -----------------------------------------------------------------------
  // Expanding

  /** The parent of a panel header; `maxWidth` is its computed `max-width`. */
  class Box {
    var maxWidth: string

    constructor (w: string)
      ensures maxWidth == w
    {
      maxWidth := w;
    }
  }

  /** The element after a header; `maxHeight` is its inline `max-height`, "" when cleared. */
  class Content {
    var maxHeight: string

    constructor (h: string)
      ensures maxHeight == h
    {
      maxHeight := h;
    }
  }

  /**
   * An element passed to `expand`: `isPanel` tells the `dragpanel` call
   * (`check` true) from the `row` call.
   */
  class Header {
    const isPanel: bool
    const parent: Box
    const content: Content
    var active: bool

    constructor (panel: bool, p: Box, c: Content, a: bool)
      ensures isPanel == panel && parent == p && content == c && active == a
    {
      isPanel := panel;
      parent := p;
      content := c;
      active := a;
    }

    ghost function View(): Expansion
      reads this, parent, content
    {
      Expansion(active, parent.maxWidth, content.maxHeight)
    }
  }

  /** What a click on a header can change: its `active` class, its parent's width, its content's height. */
  datatype Expansion = Expansion(active: bool, maxWidth: string, maxHeight: string)

  const Wide := "150px"
  const Narrow := "107.5px"

  /** The height cap a click sets: 750px for the drag panel, 150px for a row. */
  function Cap(isPanel: bool): string {
    if isPanel then "750px" else "150px"
  }

  /** The body of the click listener of `expand`, when no drag is in progress. */
  function Expand(v: Expansion, isPanel: bool): Expansion {
    Expansion(if isPanel then !v.active else v.active,
              if !isPanel then v.maxWidth else if v.maxWidth == Wide then Narrow else Wide,
              if v.maxHeight != "" then "" else Cap(isPanel))
  }

  /**
   * A click collapses expanded content and expands collapsed content to
   * the cap of its kind; a row click touches neither `active` nor the
   * width; a panel click flips `active` and leaves the width at one of
   * its two values, narrow exactly when it was wide.
   */
  lemma ExpandToggles(v: Expansion, isPanel: bool)
    ensures Expand(v, isPanel).maxHeight == "" <==> v.maxHeight != ""
    ensures Expand(v, isPanel).maxHeight != "" ==> Expand(v, isPanel).maxHeight == Cap(isPanel)
    ensures !isPanel ==> Expand(v, isPanel).active == v.active && Expand(v, isPanel).maxWidth == v.maxWidth
    ensures isPanel ==> Expand(v, isPanel).active != v.active
    ensures isPanel ==> (Expand(v, isPanel).maxWidth == Narrow <==> v.maxWidth == Wide)
    ensures isPanel ==> Expand(v, isPanel).maxWidth in {Wide, Narrow}
  {
  }

  /**
   * Two clicks restore a collapsed header, provided a panel's width is
   * already one of the two the click chooses between.
   */
  lemma ExpandTwiceRestores(v: Expansion, isPanel: bool)
    requires v.maxHeight == ""
    requires isPanel ==> v.maxWidth in {Wide, Narrow}
    ensures Expand(Expand(v, isPanel), isPanel) == v
  {
  }

  /** A panel that is `active` exactly when narrow stays so after a click. */
  lemma ExpandKeepsWidthWithActive(v: Expansion)
    requires v.maxWidth in {Wide, Narrow} && (v.active <==> v.maxWidth == Narrow)
    ensures Expand(v, true).active <==> Expand(v, true).maxWidth == Narrow
  {
  }

  // -----------------------------------------------------------------------
  // Keyboard

  /** The four controls a shortcut can click: `st`, `cl`, `bl` and `th`. */
  datatype Tab = Settings | Clusters | Blacklist | Themes

  /**
   * The keydown listener: nothing while a text area or input has focus;
   * "s" clicks the settings box; "c", "b" and "t" click their tab, but
   * only while the settings box is `active`.
   */
  function Route(key: string, focus: string, open: bool): (r: Option<Tab>)
    ensures focus == "TEXTAREA" || focus == "INPUT" ==> r == None
    ensures r == Some(Settings) <==> key == "s" && focus != "TEXTAREA" && focus != "INPUT"
    ensures r == Some(Clusters) <==> key == "c" && open && focus != "TEXTAREA" && focus != "INPUT"
    ensures r == Some(Blacklist) <==> key == "b" && open && focus != "TEXTAREA" && focus != "INPUT"
    ensures r == Some(Themes) <==> key == "t" && open && focus != "TEXTAREA" && focus != "INPUT"
    ensures key !in {"s", "c", "b", "t"} ==> r == None
  {
    if focus == "TEXTAREA" || focus == "INPUT" then None
    else if key == "s" then Some(Settings)
    else if !open then None
    else if key == "c" then Some(Clusters)
    else if key == "b" then Some(Blacklist)
    else if key == "t" then Some(Themes)
    else None
  }

  // -----------------------------------------------------------------------
  // The page

  /**
   * The script's globals: the viewport size read at load, `isDrag`,
   * `isTextHover`, the document's `onmousemove`/`onmouseup` slots (each
   * holding the drag element whose closure installed it, or null) and the
   * four controls the keyboard reaches.
   */
  class Page {
    const viewportWidth: int
    const viewportHeight: int
    const settings: Header
    const clusters: Header
    const blacklist: Header
    const themes: Header
    var isDrag: bool
    var isTextHover: bool
    var onMouseMove: DragPanel?
    var onMouseUp: DragPanel?

    /**
     * Both document handlers are installed and cleared together, and a
     * drag in progress always has them installed.
     */
    ghost predicate Valid()
      reads this
    {
      onMouseMove == onMouseUp && (isDrag ==> onMouseUp != null)
    }

    constructor (width: int, height: int, st: Header, cl: Header, bl: Header, th: Header)
      ensures Valid()
      ensures viewportWidth == width && viewportHeight == height
      ensures settings == st && clusters == cl && blacklist == bl && themes == th
      ensures !isDrag && !isTextHover && onMouseMove == null && onMouseUp == null
    {
      viewportWidth, viewportHeight := width, height;
      settings, clusters, blacklist, themes := st, cl, bl, th;
      isDrag, isTextHover := false, false;
      onMouseMove, onMouseUp := null, null;
    }

    function Target(t: Tab): Header {
      match t
      case Settings => settings
      case Clusters => clusters
      case Blacklist => blacklist
      case Themes => themes
    }

    /** `mouseover` on a text element. */
    method TextMouseOver()
      modifies this
      ensures isTextHover
      ensures isDrag == old(isDrag) && onMouseMove == old(onMouseMove) && onMouseUp == old(onMouseUp)
    {
      isTextHover := true;
    }

    /** `mouseleave` on a text element. */
    method TextMouseLeave()
      modifies this
      ensures !isTextHover
      ensures isDrag == old(isDrag) && onMouseMove == old(onMouseMove) && onMouseUp == old(onMouseUp)
    {
      isTextHover := false;
    }

    /**
     * `dragMouseDown` of `p`: ignored while the cursor is over a text
     * element; otherwise records the cursor and installs `p`'s move and
     * release handlers on the document.
     */
    method DragMouseDown(p: DragPanel, clientX: int, clientY: int)
      requires Valid()
      modifies this, p
      ensures Valid()
      ensures old(isTextHover) ==> unchanged(this, p)
      ensures !old(isTextHover) ==>
                onMouseMove == p && onMouseUp == p && p.pos3 == clientX && p.pos4 == clientY &&
                p.left == old(p.left) && p.top == old(p.top) && p.pos1 == old(p.pos1) && p.pos2 == old(p.pos2) &&
                p.transform == old(p.transform) && isDrag == old(isDrag) && isTextHover == old(isTextHover)
    {
      if !isTextHover {
        p.pos3 := clientX;
        p.pos4 := clientY;
        onMouseUp := p;
        onMouseMove := p;
      }
    }

    /**
     * A `mousemove` on the document: with a drag handler installed, sets
     * `isDrag` and runs `elementDrag` of that element; otherwise nothing.
     */
    method MouseMove(m: Pointer)
      requires Valid()
      modifies this, onMouseMove
      ensures Valid()
      ensures old(onMouseMove) == null ==> unchanged(this)
      ensures old(onMouseMove) != null ==>
                isDrag && onMouseMove == old(onMouseMove) && onMouseUp == old(onMouseUp) &&
                isTextHover == old(isTextHover) && onMouseMove.transform == Lifted &&
                onMouseMove.State() == Step(old(onMouseMove.State()), m, viewportWidth, viewportHeight)
    {
      var p := onMouseMove;
      if p != null {
        isDrag := true;
        p.ElementDrag(m, viewportWidth, viewportHeight);
      }
    }

    /**
     * The timer `closeDragElement` starts: puts the element down, clears
     * `isDrag` and removes both document handlers.
     */
    method CloseDrag()
      requires Valid()
      modifies this, onMouseUp
      ensures Valid()
      ensures !isDrag && onMouseMove == null && onMouseUp == null && isTextHover == old(isTextHover)
      ensures old(onMouseUp) != null ==>
                old(onMouseUp).transform == Dropped && old(onMouseUp).State() == old(onMouseUp.State())
    {
      var p := onMouseUp;
      if p != null {
        p.transform := Dropped;
        isDrag := false;
        onMouseUp := null;
        onMouseMove := null;
      }
    }

    /** The click listener `expand` installs on `h`: a no-op while a drag is in progress. */
    method Click(h: Header)
      modifies h, h.parent, h.content
      ensures isDrag ==> h.View() == old(h.View())
      ensures !isDrag ==> h.View() == Expand(old(h.View()), h.isPanel)
    {
      if !isDrag {
        if h.isPanel {
          h.active := !h.active;
          if h.parent.maxWidth == Wide {
            h.parent.maxWidth := Narrow;
          } else {
            h.parent.maxWidth := Wide;
          }
        }
        if h.content.maxHeight != "" {
          h.content.maxHeight := "";
        } else if !h.isPanel {
          h.content.maxHeight := "150px";
        } else {
          h.content.maxHeight := "750px";
        }
      }
    }

    /**
     * The window's keydown listener, `focus` being the `nodeName` of the
     * focused element; returns the control it clicked, if any.
     */
    method KeyDown(key: string, focus: string) returns (r: Option<Tab>)
      modifies settings, settings.parent, settings.content
      modifies clusters, clusters.parent, clusters.content
      modifies blacklist, blacklist.parent, blacklist.content
      modifies themes, themes.parent, themes.content
      ensures r == Route(key, focus, old(settings.active))
      ensures r.Some? && isDrag ==> Target(r.value).View() == old(Target(r.value).View())
      ensures r.Some? && !isDrag ==>
                Target(r.value).View() == Expand(old(Target(r.value).View()), Target(r.value).isPanel)
      ensures r.None? ==>
                unchanged(settings, settings.parent, settings.content, clusters, clusters.parent, clusters.content) &&
                unchanged(blacklist, blacklist.parent, blacklist.content, themes, themes.parent, themes.content)
    {
      r := None;
      if focus != "TEXTAREA" && focus != "INPUT" {
        if key == "s" {
          Click(settings);
          r := Some(Settings);
        }
        if settings.active {
          if key == "c" {
            Click(clusters);
            r := Some(Clusters);
          }
          if key == "b" {
            Click(blacklist);
            r := Some(Blacklist);
          }
          if key == "t" {
            Click(themes);
            r := Some(Themes);
          }
        }
      }
    }
  }
}
