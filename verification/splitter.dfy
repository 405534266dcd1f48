/** The draggable divider of `src/components/ResizableSplitter.jsx`: a two-state
    machine (idle, resizing) over the left panel's width in percent, with the
    document-level listeners and body styles its effect installs while resizing.
    Pixel coordinates and percentages are reals; the container rectangle comes
    with each move event. */
module Splitter {
  import opened Wrappers

  /** The component's props. */
  datatype Config = Config(initialLeftWidth: real, minWidth: real, maxWidth: real)

  /** The default props: 50% start, bounds 20% and 80%. */
  const DefaultConfig: Config := Config(50.0, 20.0, 80.0)

  /** The container's bounding rectangle, horizontally. */
  datatype Rect = Rect(left: real, width: real)

  /** `document.body.style.cursor` and `.userSelect`. */
  datatype BodyStyle = BodyStyle(cursor: string, userSelect: string)

  const DraggingStyle: BodyStyle := BodyStyle("col-resize", "none")
  const ResetStyle: BodyStyle := BodyStyle("", "")

  /** Component state plus the document it touches: whether the `mousemove` and
      `mouseup` listeners are attached, and the body style. */
  datatype State = State(leftWidth: real, resizing: bool, listening: bool, body: BodyStyle)

  /** A press on the splitter handle, a release anywhere, or a pointer move with
      the container the move is measured against (`None` when it is not found). */
  datatype Event = MouseDown | MouseUp | MouseMove(clientX: real, container: Option<Rect>)

  /** Containers have positive width. */
  predicate ValidEvent(e: Event) {
    e.MouseMove? && e.container.Some? ==> e.container.value.width > 0.0
  }

  /** The first render: not resizing, the initial width taken as given (it is not
      clamped), no listeners, the body style as the host left it. */
  function Init(cfg: Config, body: BodyStyle): (s: State)
    ensures !s.resizing && !s.listening && s.leftWidth == cfg.initialLeftWidth && s.body == body
  {
    State(cfg.initialLeftWidth, false, false, body)
  }

  function Min(a: real, b: real): real { if a <= b then a else b }
  function Max(a: real, b: real): real { if a >= b then a else b }

  /** `Math.min(Math.max(p, lo), hi)`. */
  function Clamp(p: real, lo: real, hi: real): (r: real)
    ensures lo <= hi ==> lo <= r <= hi
    ensures lo <= p <= hi ==> r == p
    ensures p >= hi ==> r == hi
    ensures p <= lo <= hi ==> r == lo
  {
    Min(Max(p, lo), hi)
  }

  /** The pointer's position as a percentage of the container's width. */
  function PointerPercent(clientX: real, rect: Rect): (p: real)
    requires rect.width > 0.0
    ensures clientX > rect.left + rect.width ==> p > 100.0
    ensures clientX < rect.left ==> p < 0.0
    ensures rect.left <= clientX <= rect.left + rect.width ==> 0.0 <= p <= 100.0
  {
    ProportionBounds(clientX - rect.left, rect.width);
    (clientX - rect.left) / rect.width * 100.0
  }

  lemma ProportionBounds(d: real, w: real)
    requires w > 0.0
    ensures d > w ==> d / w * 100.0 > 100.0
    ensures d < 0.0 ==> d / w * 100.0 < 0.0
    ensures 0.0 <= d <= w ==> 0.0 <= d / w * 100.0 <= 100.0
  {
    var q := d / w;
    assert q * w == d;
    if d > w {
      assert q > 1.0;
    }
    if d < 0.0 {
      assert q < 0.0;
    }
    if 0.0 <= d <= w {
      assert 0.0 <= q <= 1.0;
    }
  }

  /** The effect keyed on `isResizing`: when the flag turns on it attaches the
      listeners and suppresses cursor and selection; when it turns off the cleanup
      detaches them and resets both styles to `""`. An unchanged flag runs nothing. */
  function SyncEffect(s: State, wasResizing: bool): State {
    if s.resizing == wasResizing then s
    else if s.resizing then s.(listening := true, body := DraggingStyle)
    else s.(listening := false, body := ResetStyle)
  }

  /** One event. `mousemove` and `mouseup` reach the component only through the
      document listeners, so they do nothing while those are detached. */
  function Step(cfg: Config, s: State, e: Event): (s': State)
    requires ValidEvent(e)
  {
    match e
    case MouseDown => SyncEffect(s.(resizing := true), s.resizing)
    case MouseUp => if s.listening then SyncEffect(s.(resizing := false), s.resizing) else s
    case MouseMove(x, container) =>
      if !s.listening || !s.resizing then s
      else
        match container
        case None => s
        case Some(rect) => s.(leftWidth := Clamp(PointerPercent(x, rect), cfg.minWidth, cfg.maxWidth))
  }

  /** Listeners are attached exactly while resizing, and while resizing the body
      shows the resize cursor with selection off. */
  predicate Consistent(s: State) {
    && s.listening == s.resizing
    && (s.resizing ==> s.body == DraggingStyle)
  }

  /** The width is the untouched initial value or lies within the bounds. */
  predicate WidthInvariant(cfg: Config, s: State) {
    s.leftWidth == cfg.initialLeftWidth || cfg.minWidth <= s.leftWidth <= cfg.maxWidth
  }

  /** Pressing the handle starts resizing; releasing the pointer anywhere stops it,
      detaching the listeners and resetting the body style. */
  lemma DownThenUp(cfg: Config, s: State)
    requires Consistent(s)
    ensures var d := Step(cfg, s, MouseDown);
            d.resizing && d.listening && d.body == DraggingStyle && d.leftWidth == s.leftWidth
    ensures var u := Step(cfg, Step(cfg, s, MouseDown), MouseUp);
            !u.resizing && !u.listening && u.body == ResetStyle && u.leftWidth == s.leftWidth
  {
  }

  /** A move while idle changes nothing. */
  lemma MoveWhileIdle(cfg: Config, s: State, x: real, container: Option<Rect>)
    requires Consistent(s) && !s.resizing
    requires ValidEvent(MouseMove(x, container))
    ensures Step(cfg, s, MouseMove(x, container)) == s
  {
  }

  /** A move while resizing sets the width to the clamped pointer percentage,
      inside the bounds whenever they are ordered. */
  lemma MoveWhileResizing(cfg: Config, s: State, x: real, rect: Rect)
    requires Consistent(s) && s.resizing && rect.width > 0.0
    ensures var s' := Step(cfg, s, MouseMove(x, Some(rect)));
            && s'.leftWidth == Clamp((x - rect.left) / rect.width * 100.0, cfg.minWidth, cfg.maxWidth)
            && (cfg.minWidth <= cfg.maxWidth ==> cfg.minWidth <= s'.leftWidth <= cfg.maxWidth)
            && s'.resizing && s'.body == s.body
  {
  }

  /** A pointer past the container's right edge gives exactly the maximum, one
      past its left edge exactly the minimum (for bounds within 0..100). */
  lemma PastTheEdges(cfg: Config, s: State, x: real, rect: Rect)
    requires Consistent(s) && s.resizing && rect.width > 0.0
    requires 0.0 <= cfg.minWidth <= cfg.maxWidth <= 100.0
    ensures x > rect.left + rect.width ==> Step(cfg, s, MouseMove(x, Some(rect))).leftWidth == cfg.maxWidth
    ensures x < rect.left ==> Step(cfg, s, MouseMove(x, Some(rect))).leftWidth == cfg.minWidth
  {
  }

  /** Every step keeps both invariants. */
  lemma StepPreserves(cfg: Config, s: State, e: Event)
    requires ValidEvent(e) && cfg.minWidth <= cfg.maxWidth
    requires Consistent(s) && WidthInvariant(cfg, s)
    ensures Consistent(Step(cfg, s, e)) && WidthInvariant(cfg, Step(cfg, s, e))
  {
  }

  /** The state after a sequence of events from the first render. */
  function Run(cfg: Config, body: BodyStyle, events: seq<Event>): State
    requires forall i | 0 <= i < |events| :: ValidEvent(events[i])
    decreases |events|
  {
    if events == [] then Init(cfg, body)
    else Step(cfg, Run(cfg, body, events[..|events| - 1]), events[|events| - 1])
  }

  /** From the first render, any event sequence keeps the listeners and body
      style in step with the resizing flag, keeps the width at its initial value
      or within the bounds, and leaves the body style either as the host set it
      (no drag yet) or reset to `""`. */
  lemma {:induction false} RunInvariant(cfg: Config, body: BodyStyle, events: seq<Event>)
    requires forall i | 0 <= i < |events| :: ValidEvent(events[i])
    requires cfg.minWidth <= cfg.maxWidth
    ensures var s := Run(cfg, body, events);
            && Consistent(s) && WidthInvariant(cfg, s)
            && (!s.resizing ==> s.body == body || s.body == ResetStyle)
    decreases |events|
  {
    if events != [] {
      var init := events[..|events| - 1];
      RunInvariant(cfg, body, init);
      StepPreserves(cfg, Run(cfg, body, init), events[|events| - 1]);
    }
  }

  // ---------------------------------------------------------------------------
  // The move handler as written
  // ---------------------------------------------------------------------------

  /** One event as the code is written. `resize` is attached to `document`, so
      `e.currentTarget` is the document, which has no `closest` method: every move
      that gets past the `isResizing` guard throws a `TypeError` before
      `setLeftWidth`, and a move changes nothing. Presses and releases are as in
      `Step`. */
  function StepAsWritten(cfg: Config, s: State, e: Event): (s': State)
    requires ValidEvent(e)
    ensures e.MouseMove? ==> s' == s
    ensures !e.MouseMove? ==> s' == Step(cfg, s, e)
  {
    match e
    case MouseMove(_, _) => s
    case _ => Step(cfg, s, e)
  }

  function RunAsWritten(cfg: Config, body: BodyStyle, events: seq<Event>): State
    requires forall i | 0 <= i < |events| :: ValidEvent(events[i])
    decreases |events|
  {
    if events == [] then Init(cfg, body)
    else StepAsWritten(cfg, RunAsWritten(cfg, body, events[..|events| - 1]), events[|events| - 1])
  }

  /** As written, no event sequence ever moves the divider: the width stays at
      `initialLeftWidth`. */
  lemma {:induction false} AsWrittenWidthNeverMoves(cfg: Config, body: BodyStyle, events: seq<Event>)
    requires forall i | 0 <= i < |events| :: ValidEvent(events[i])
    ensures RunAsWritten(cfg, body, events).leftWidth == cfg.initialLeftWidth
    decreases |events|
  {
    if events != [] {
      var init := events[..|events| - 1];
      AsWrittenWidthNeverMoves(cfg, body, init);
      var s := RunAsWritten(cfg, body, init);
      var e := events[|events| - 1];
      if !e.MouseMove? {
        assert Step(cfg, s, e).leftWidth == s.leftWidth;
      }
    }
  }

  /** A press and a drag to 30% of a container with the default props: the
      corrected `Run` puts the divider at 30%, the code as written leaves it at 50%. */
  lemma DragLostAsWritten()
    ensures var events := [MouseDown, MouseMove(30.0, Some(Rect(0.0, 100.0)))];
            && Run(DefaultConfig, ResetStyle, events).leftWidth == 30.0
            && RunAsWritten(DefaultConfig, ResetStyle, events).leftWidth == 50.0
  {
    var events := [MouseDown, MouseMove(30.0, Some(Rect(0.0, 100.0)))];
    var down: seq<Event> := [MouseDown];
    assert events[..1] == down && down[..0] == [];
    var s := Run(DefaultConfig, ResetStyle, down);
    assert s == Step(DefaultConfig, Run(DefaultConfig, ResetStyle, []), MouseDown);
    assert s.resizing && s.listening;
    AsWrittenWidthNeverMoves(DefaultConfig, ResetStyle, events);
  }

  /** A panel's CSS width and bounds, in percent, and whether width changes are
      animated. */
  datatype Panel = Panel(width: real, minWidth: real, maxWidth: real, animated: bool)

  /** The two panels around the divider: the right one gets the complements. */
  function Panels(cfg: Config, s: State): (panels: (Panel, Panel))
    ensures panels.0.width + panels.1.width == 100.0
    ensures panels.1.minWidth == 100.0 - panels.0.maxWidth && panels.1.maxWidth == 100.0 - panels.0.minWidth
    ensures panels.0.minWidth <= panels.0.width <= panels.0.maxWidth
            ==> panels.1.minWidth <= panels.1.width <= panels.1.maxWidth
    ensures panels.0.animated == panels.1.animated == !s.resizing
  {
    (Panel(s.leftWidth, cfg.minWidth, cfg.maxWidth, !s.resizing),
     Panel(100.0 - s.leftWidth, 100.0 - cfg.maxWidth, 100.0 - cfg.minWidth, !s.resizing))
  }
}
