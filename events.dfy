/**
 * The event loop's tick (`Processor::process_events` and the handlers it
 * dispatches to).
 *
 * Window-system events are buffered until the platform reports that the
 * batch is complete (`EventsCleared`); the buffered events are then handled
 * in arrival order, font-size and message-bar changes are forwarded to the
 * display as resize signals, and a frame is handed to the renderer when the
 * terminal is dirty and a redraw was asked for.
 *
 * The input processor (key bindings, mouse handling), the window and the
 * pty are outside the model; each call the loop makes on them is recorded.
 * A key press carries what its binding does to the font size, the only
 * effect of `process_key` the loop itself observes.
 */
module Events {
  import opened Geometry
  import opened Fonts
  import Signals

  /** Font size change interval, in points. */
  const FONT_SIZE_STEP: real := 0.5

  // ---------------------------------------------------------------------
  // Events
  // ---------------------------------------------------------------------

  /** What the key binding a key event resolves to does to the font size. */
  datatype FontAction = NoFontAction | ChangeFontSize(delta: real) | ResetFontSize

  /** Events the terminal sends to the event loop. */
  datatype UserEvent =
    | CursorIcon
    | Title(title: string)
    | Wakeup
    | Urgent
    | RedrawRequest
    | Resize(size: SizeInfo)
      /** A configuration reload: the message-bar lines left once the messages about the
        * configuration file are removed, and whether the new file was read. */
    | ConfigReload(remainingLines: nat, reloaded: bool)
    | Exit

  /** Window events; sizes and positions are logical (physical divided by the pixel ratio). */
  datatype WindowEvent =
    | CloseRequested
    | Resized(width: real, height: real)
    | KeyboardInput(pressed: bool, action: FontAction)
    | ReceivedCharacter(c: char)
    | MouseInput(pressed: bool)
    | CursorMoved(x: real, y: real)
    | MouseWheel
    | Focused(focused: bool)
    | DroppedFile(path: string)
    | HiDpiFactorChanged(dpr: PosReal)
    | RedrawRequested
    | TouchpadPressure
    | CursorEntered
    | CursorLeft
    | AxisMotion
    | HoveredFileCancelled
    | Destroyed
    | HoveredFile(file: string)
    | Touch
    | Moved

  /** Events of the windowing library's loop. */
  datatype GlutinEvent =
    | NewEvents
    | WindowEvent(windowEvent: WindowEvent)
    | DeviceEvent
    | UserEvent(userEvent: UserEvent)
    | Suspended
    | EventsCleared
    | LoopDestroyed

  /** `skip_event`: events that are dropped instead of buffered. */
  predicate SkipEvent(e: GlutinEvent) {
    match e
    case UserEvent(u) => u.Exit?
    case WindowEvent(w) =>
      || w.TouchpadPressure? || w.CursorEntered? || w.CursorLeft? || w.AxisMotion?
      || w.HoveredFileCancelled? || w.Destroyed? || w.HoveredFile? || w.Touch? || w.Moved?
    case DeviceEvent => true
    case Suspended => true
    case NewEvents => true
    case EventsCleared => true
    case LoopDestroyed => true
  }

  // ---------------------------------------------------------------------
  // Loop state
  // ---------------------------------------------------------------------

  datatype ControlFlow = Poll | Wait | Exit

  /** A call made on the window, the input processor, the terminal or the pty. */
  datatype Call =
    | SetMouseCursor
    | SetTitle(title: string)
    | SetUrgent(urgent: bool)
    | ResizeTerminal(size: SizeInfo)
    | UpdateImePosition(size: SizeInfo)
    | UpdateConfig
    | TerminalExit
    | ProcessKey(pressed: bool)
    | SetMouseVisible(visible: bool)
    | ReceivedChar(c: char)
    | MouseButton(pressed: bool)
    | MouseMoved(x: int, y: int)
    | MouseWheelMoved
    | ResetUrlHighlight
    | FocusChange(focused: bool)
    | WritePty(bytes: string)

  /** The configuration the handlers read. */
  datatype Env = Env(hideWhenTyping: bool, onMacos: bool, originalFontSize: FontSize)

  /**
   * Everything a tick reads or changes: the processor's font size and
   * geometry, what it has sent to the display and the renderer, the
   * buffered events, the redraw request and control flow, the terminal's
   * dirty, focus and message-bar state, and the calls made so far.
   */
  datatype Loop = Loop(
    fontSize: FontSize,
    sizeInfo: SizeInfo,
    resizeTx: seq<Signals.Resize>,
    renderUpdates: nat,
    queue: seq<GlutinEvent>,
    redrawRequested: bool,
    controlFlow: ControlFlow,
    dirty: bool,
    isFocused: bool,
    messageLines: nat,
    calls: seq<Call>)

  // ---------------------------------------------------------------------
  // Font size and cursor position
  // ---------------------------------------------------------------------

  /**
   * `change_font_size`: the size grown by `delta` points, but never below
   * `FONT_SIZE_STEP`, which is one half point.
   */
  function ChangedFontSize(size: FontSize, delta: real): (r: FontSize)
    ensures r >= 1
    ensures r >= FromPoints(FONT_SIZE_STEP) && r >= Plus(size, FromPoints(delta))
    ensures r == FromPoints(FONT_SIZE_STEP) || r == Plus(size, FromPoints(delta))
  {
    MaxSize(Plus(size, FromPoints(delta)), FromPoints(FONT_SIZE_STEP))
  }

  const I32_MIN: int := -0x8000_0000
  const I32_MAX: int := 0x7fff_ffff

  /** A float-to-`i32` cast of an already integral value: saturating at the bounds. */
  function ToI32(n: int): (r: int)
    ensures I32_MIN <= r <= I32_MAX
    ensures I32_MIN <= n <= I32_MAX ==> r == n
  {
    if n < I32_MIN then I32_MIN else if n > I32_MAX then I32_MAX else n
  }

  /** `limit`: `value` clamped to `min` from below, then to `max` from above. */
  function Limit(value: int, min: int, max: int): (r: int)
    ensures r <= max
    ensures min <= max ==> min <= r
    ensures min <= value <= max ==> r == value
  {
    var low := if value < min then min else value;
    if low > max then max else low
  }

  /**
   * The `CursorMoved` clamp: the logical position scaled to physical pixels,
   * rounded, and limited to the window.
   */
  function CursorPosition(si: SizeInfo, x: real, y: real): (int, int) {
    (Clamped(x * si.dpr, si.width), Clamped(y * si.dpr, si.height))
  }

  /** One coordinate: rounded to an `i32`, then limited to between zero and the window's extent cast to `i32`. */
  function Clamped(physical: real, extent: real): int {
    Limit(ToI32(Round(physical)), 0, ToI32(Trunc(extent)))
  }

  /**
   * A clamped coordinate lies between zero and the window's extent, and one
   * already inside the window is just the rounded physical position.
   */
  lemma ClampedWithinWindow(physical: real, extent: real)
    requires 0.0 <= extent < I32_MAX as real
    ensures 0 <= Clamped(physical, extent) <= extent.Floor
    ensures 0 <= Round(physical) <= extent.Floor ==> Clamped(physical, extent) == Round(physical)
  {
    assert Trunc(extent) == extent.Floor;
    assert extent.Floor <= I32_MAX;
    if 0 <= Round(physical) <= extent.Floor {
      assert ToI32(Round(physical)) == Round(physical);
    }
  }

  // ---------------------------------------------------------------------
  // Handlers
  // ---------------------------------------------------------------------

  /** A key binding's effect on the context's font size; either change marks the terminal dirty. */
  function ApplyFontAction(env: Env, s: Loop, fontSize: FontSize, action: FontAction): (Loop, FontSize) {
    match action
    case NoFontAction => (s, fontSize)
    case ChangeFontSize(delta) => (s.(dirty := true), ChangedFontSize(fontSize, delta))
    case ResetFontSize => (s.(dirty := true), env.originalFontSize)
  }

  /** A logical size converted to physical pixels. */
  function Physical(width: real, height: real, dpr: PosReal): Signals.PhysicalSize {
    Signals.PhysicalSize(width * dpr, height * dpr)
  }

  /** The window events `handle_event` passes on to the input processor. */
  predicate IsInputEvent(w: WindowEvent) {
    w.KeyboardInput? || w.ReceivedCharacter? || w.MouseInput? || w.CursorMoved? || w.MouseWheel?
  }

  /** `handle_event` for an event the terminal sent. */
  function HandleUser(s: Loop, u: UserEvent): Loop {
    match u
    case CursorIcon => s.(calls := s.calls + [SetMouseCursor])
    case Title(title) => s.(calls := s.calls + [SetTitle(title)])
    case Wakeup => s.(dirty := true)
    case Urgent => s.(calls := s.calls + [SetUrgent(!s.isFocused)])
    case RedrawRequest => s.(redrawRequested := true)
    case Resize(size) =>
      s.(calls := s.calls + [ResizeTerminal(size)] + [UpdateImePosition(size)], sizeInfo := size, dirty := true)
    case ConfigReload(remainingLines, reloaded) =>
      if reloaded then s.(messageLines := remainingLines, calls := s.calls + [UpdateConfig], dirty := true)
      else s.(messageLines := remainingLines)
    case Exit => s
  }

  /**
   * `handle_event` for a window event, with the font size of the action
   * context (a copy of the processor's, written back after the drain).
   */
  function HandleWindow(env: Env, s: Loop, fontSize: FontSize, w: WindowEvent): (Loop, FontSize) {
    match w
    case CloseRequested => (s.(calls := s.calls + [TerminalExit]), fontSize)
    case Resized(width, height) =>
      (s.(resizeTx := s.resizeTx + [Signals.Size(Physical(width, height, s.sizeInfo.dpr))], dirty := true), fontSize)
    case KeyboardInput(pressed, action) =>
      var key := ApplyFontAction(env, s.(calls := s.calls + [ProcessKey(pressed)]), fontSize, action);
      if pressed && env.hideWhenTyping then (key.0.(calls := key.0.calls + [SetMouseVisible(false)]), key.1)
      else key
    case ReceivedCharacter(c) => (s.(calls := s.calls + [ReceivedChar(c)]), fontSize)
    case MouseInput(pressed) =>
      if !env.onMacos || s.isFocused then
        (s.(calls := s.calls + [SetMouseVisible(true)] + [MouseButton(pressed)], dirty := true), fontSize)
      else (s, fontSize)
    case CursorMoved(x, y) =>
      var p := CursorPosition(s.sizeInfo, x, y);
      (s.(calls := s.calls + [SetMouseVisible(true)] + [MouseMoved(p.0, p.1)]), fontSize)
    case MouseWheel => (s.(calls := s.calls + [SetMouseVisible(true)] + [MouseWheelMoved]), fontSize)
    case Focused(focused) =>
      var window := if focused then s.calls + [SetUrgent(false)] else s.calls + [ResetUrlHighlight] + [SetMouseVisible(true)];
      (s.(isFocused := focused, dirty := true, calls := window + [FocusChange(focused)]), fontSize)
    case DroppedFile(path) => (s.(calls := s.calls + [WritePty(path)]), fontSize)
    case HiDpiFactorChanged(dpr) =>
      (s.(resizeTx := s.resizeTx + [Signals.DPR(dpr)], sizeInfo := s.sizeInfo.(dpr := dpr), dirty := true), fontSize)
    case RedrawRequested => (s.(dirty := true), fontSize)
    case _ => (s, fontSize)
  }

  /** `handle_event`. */
  function Handle(env: Env, s: Loop, fontSize: FontSize, e: GlutinEvent): (Loop, FontSize) {
    match e
    case UserEvent(u) => (HandleUser(s, u), fontSize)
    case WindowEvent(w) => HandleWindow(env, s, fontSize, w)
    case NewEvents => (s, fontSize)
    case DeviceEvent => (s, fontSize)
    case Suspended => (s, fontSize)
    case EventsCleared => (s, fontSize)
    case LoopDestroyed => (s, fontSize)
  }

  /** The events handled one after the other, in order. */
  function HandleAll(env: Env, s: Loop, fontSize: FontSize, events: seq<GlutinEvent>): (Loop, FontSize)
    decreases |events|
  {
    if events == [] then (s, fontSize)
    else
      var before := HandleAll(env, s, fontSize, events[..|events| - 1]);
      Handle(env, before.0, before.1, events[|events| - 1])
  }

  // ---------------------------------------------------------------------
  // The tick
  // ---------------------------------------------------------------------

  /**
   * The work done on `EventsCleared`: drain the buffer, forward a font-size
   * change and a message-bar change to the display, and hand a frame to the
   * renderer if the terminal is dirty and a redraw was asked for; the dirty
   * flag then stays set only while the visual bell is still running.
   */
  function Process(env: Env, s: Loop, bellCompleted: bool): Loop {
    var drained := HandleAll(env, s.(queue := []), s.fontSize, s.queue);
    Render(ForwardMessageBar(ForwardFontSize(drained.0, drained.1), s.messageLines), bellCompleted)
  }

  /** A font size the drain changed goes to the display, and the processor keeps it. */
  function ForwardFontSize(s: Loop, fontSize: FontSize): Loop {
    if fontSize != s.fontSize then s.(resizeTx := s.resizeTx + [Signals.FontSize(fontSize)], fontSize := fontSize)
    else s
  }

  /** A message bar that changed height during the drain goes to the display. */
  function ForwardMessageBar(s: Loop, messageLines: nat): Loop {
    if s.messageLines != messageLines then s.(resizeTx := s.resizeTx + [Signals.MessageBar(s.messageLines)])
    else s
  }

  /** A frame for the renderer, if the terminal is dirty and a redraw was asked for. */
  function Render(s: Loop, bellCompleted: bool): Loop {
    if s.dirty && s.redrawRequested then
      s.(dirty := !bellCompleted, redrawRequested := false, renderUpdates := s.renderUpdates + 1)
    else s
  }

  /** An exit request: the `Exit` event itself or the child process having exited. */
  predicate ExitRequested(e: GlutinEvent, shouldExit: bool) {
    (e.UserEvent? && e.userEvent.Exit?) || shouldExit
  }

  /** One invocation of the `process_events` callback. */
  function Tick(env: Env, s: Loop, e: GlutinEvent, shouldExit: bool, bellCompleted: bool): Loop {
    if ExitRequested(e, shouldExit) then s.(controlFlow := ControlFlow.Exit)
    else if e.EventsCleared? then Process(env, s.(controlFlow := Wait), bellCompleted)
    else s.(controlFlow := Poll, queue := if SkipEvent(e) then s.queue else s.queue + [e])
  }

  // ---------------------------------------------------------------------
  // Properties of the handlers
  // ---------------------------------------------------------------------

  /** Skipping loses nothing: handling a skipped event would have changed nothing. */
  lemma SkippedEventsAreInert(env: Env, s: Loop, fontSize: FontSize, e: GlutinEvent)
    requires SkipEvent(e)
    ensures Handle(env, s, fontSize, e) == (s, fontSize)
  {
  }

  /** The events that are buffered, in order. */
  function Buffered(events: seq<GlutinEvent>): (r: seq<GlutinEvent>)
    ensures |r| <= |events|
    ensures forall i :: 0 <= i < |r| ==> !SkipEvent(r[i])
    decreases |events|
  {
    if events == [] then []
    else
      var front := Buffered(events[..|events| - 1]);
      if SkipEvent(events[|events| - 1]) then front else front + [events[|events| - 1]]
  }

  lemma {:induction false} HandleAllSnoc(env: Env, s: Loop, fontSize: FontSize, events: seq<GlutinEvent>, e: GlutinEvent)
    ensures var before := HandleAll(env, s, fontSize, events);
            HandleAll(env, s, fontSize, events + [e]) == Handle(env, before.0, before.1, e)
  {
    assert (events + [e])[..|events|] == events;
  }

  /**
   * Dropping the skipped events while buffering changes nothing: handling
   * only the buffered events has the same outcome as handling them all.
   */
  lemma {:induction false} BufferingLosesNothing(env: Env, s: Loop, fontSize: FontSize, events: seq<GlutinEvent>)
    ensures HandleAll(env, s, fontSize, Buffered(events)) == HandleAll(env, s, fontSize, events)
    decreases |events|
  {
    if events != [] {
      var n := |events| - 1;
      BufferingLosesNothing(env, s, fontSize, events[..n]);
      var before := HandleAll(env, s, fontSize, events[..n]);
      if SkipEvent(events[n]) {
        SkippedEventsAreInert(env, before.0, before.1, events[n]);
      } else {
        HandleAllSnoc(env, s, fontSize, Buffered(events[..n]), events[n]);
      }
    }
  }

  /** The signals one handler sends to the display: a size or a ratio, never a font size or a message bar. */
  predicate SentByHandler(r: Signals.Resize) {
    r.Size? || r.DPR?
  }

  /**
   * `r` follows `s` the way handlers allow: the signals sent before are
   * kept, in order, and the ones added are sizes and ratios; the renderer,
   * the buffer, the control flow and the processor's own font size are
   * untouched (handlers see only the context's copy of the font size).
   */
  predicate HandlerStep(s: Loop, r: Loop) {
    && |s.resizeTx| <= |r.resizeTx| && r.resizeTx[..|s.resizeTx|] == s.resizeTx
    && (forall i :: |s.resizeTx| <= i < |r.resizeTx| ==> SentByHandler(r.resizeTx[i]))
    && r.renderUpdates == s.renderUpdates && r.queue == s.queue && r.controlFlow == s.controlFlow
    && r.fontSize == s.fontSize
  }

  lemma HandlerStepTransitive(a: Loop, b: Loop, c: Loop)
    requires HandlerStep(a, b) && HandlerStep(b, c)
    ensures HandlerStep(a, c)
  {
    assert c.resizeTx[..|a.resizeTx|] == c.resizeTx[..|b.resizeTx|][..|a.resizeTx|];
    forall i | |a.resizeTx| <= i < |c.resizeTx| ensures SentByHandler(c.resizeTx[i]) {
      if i < |b.resizeTx| {
        assert c.resizeTx[i] == c.resizeTx[..|b.resizeTx|][i];
      }
    }
  }

  /**
   * One handler sends at most one signal, of the kinds `HandlerStep`
   * allows; only `RedrawRequest` asks for a redraw; and the context's font
   * size stays at or above the smallest one when the configured size is.
   */
  lemma HandleFrame(env: Env, s: Loop, fontSize: FontSize, e: GlutinEvent)
    ensures var r := Handle(env, s, fontSize, e).0;
            && HandlerStep(s, r) && |r.resizeTx| <= |s.resizeTx| + 1
            && r.redrawRequested == (s.redrawRequested || e == UserEvent(RedrawRequest))
    ensures fontSize >= 1 && env.originalFontSize >= 1 ==> Handle(env, s, fontSize, e).1 >= 1
  {
    match e
    case WindowEvent(w) => HandleWindowFrame(env, s, fontSize, w);
    case _ =>
  }

  lemma HandleWindowFrame(env: Env, s: Loop, fontSize: FontSize, w: WindowEvent)
    ensures var r := HandleWindow(env, s, fontSize, w).0;
            && HandlerStep(s, r) && |r.resizeTx| <= |s.resizeTx| + 1 && r.redrawRequested == s.redrawRequested
    ensures fontSize >= 1 && env.originalFontSize >= 1 ==> HandleWindow(env, s, fontSize, w).1 >= 1
  {
    match w
    case Resized(width, height) =>
      var r := HandleWindow(env, s, fontSize, w).0;
      assert r.resizeTx[..|s.resizeTx|] == s.resizeTx;
    case HiDpiFactorChanged(dpr) =>
      var r := HandleWindow(env, s, fontSize, w).0;
      assert r.resizeTx[..|s.resizeTx|] == s.resizeTx;
    case _ =>
  }

  /**
   * Across a whole drain: the display only hears about sizes and ratios, at
   * most one per event, in the order the handlers sent them; nothing is
   * rendered; and the context's font size stays at or above the smallest
   * one.
   */
  lemma {:induction false} HandleAllFrame(env: Env, s: Loop, fontSize: FontSize, events: seq<GlutinEvent>)
    ensures var r := HandleAll(env, s, fontSize, events).0;
            HandlerStep(s, r) && |r.resizeTx| <= |s.resizeTx| + |events|
    ensures fontSize >= 1 && env.originalFontSize >= 1 ==> HandleAll(env, s, fontSize, events).1 >= 1
    decreases |events|
  {
    if events != [] {
      var n := |events| - 1;
      HandleAllFrame(env, s, fontSize, events[..n]);
      var before := HandleAll(env, s, fontSize, events[..n]);
      HandleFrame(env, before.0, before.1, events[n]);
      HandlerStepTransitive(s, before.0, Handle(env, before.0, before.1, events[n]).0);
    }
  }

  // ---------------------------------------------------------------------
  // Properties of the tick
  // ---------------------------------------------------------------------

  /** An exit request wins over everything: the loop is told to exit and nothing else happens. */
  lemma ExitTakesPrecedence(env: Env, s: Loop, e: GlutinEvent, shouldExit: bool, bellCompleted: bool)
    requires ExitRequested(e, shouldExit)
    ensures Tick(env, s, e, shouldExit, bellCompleted) == s.(controlFlow := ControlFlow.Exit)
  {
  }

  /**
   * Any other event before `EventsCleared` is buffered unless skipped, the
   * loop keeps polling, and nothing is handled.
   */
  lemma EventsAreBuffered(env: Env, s: Loop, e: GlutinEvent, shouldExit: bool, bellCompleted: bool)
    requires !ExitRequested(e, shouldExit) && !e.EventsCleared?
    ensures var r := Tick(env, s, e, shouldExit, bellCompleted);
            && r.controlFlow == Poll
            && (r.queue == s.queue + [e] <==> !SkipEvent(e))
            && (r.queue == s.queue <==> SkipEvent(e))
            && r.(queue := s.queue, controlFlow := s.controlFlow) == s
  {
    if SkipEvent(e) {
      assert |s.queue + [e]| != |s.queue|;
    }
  }

  /** Callbacks for `events`, one after the other, while the child process keeps running. */
  function TickAll(env: Env, s: Loop, events: seq<GlutinEvent>, bellCompleted: bool): Loop
    decreases |events|
  {
    if events == [] then s
    else Tick(env, TickAll(env, s, events[..|events| - 1], bellCompleted), events[|events| - 1], false, bellCompleted)
  }

  /**
   * Between two `EventsCleared`, with no exit requested, the buffer grows
   * by exactly the unskipped events, in arrival order; the loop polls and
   * nothing else changes.
   */
  lemma {:induction false} BufferingAcrossTicks(env: Env, s: Loop, events: seq<GlutinEvent>, bellCompleted: bool)
    requires forall i :: 0 <= i < |events| ==> !ExitRequested(events[i], false) && !events[i].EventsCleared?
    ensures TickAll(env, s, events, bellCompleted).queue == s.queue + Buffered(events)
    ensures events != [] ==>
              TickAll(env, s, events, bellCompleted) == s.(queue := s.queue + Buffered(events), controlFlow := Poll)
    decreases |events|
  {
    if events != [] {
      var n := |events| - 1;
      BufferingAcrossTicks(env, s, events[..n], bellCompleted);
      var before := TickAll(env, s, events[..n], bellCompleted);
      EventsAreBuffered(env, before, events[n], false, bellCompleted);
      if n == 0 {
        assert events[..n] == [];
      }
    }
  }

  /**
   * Starting from an empty buffer, what the drain on the next
   * `EventsCleared` handles has the outcome of handling every event that
   * arrived, skipped ones included.
   */
  lemma BufferedQueueLosesNothing(env: Env, s: Loop, events: seq<GlutinEvent>, bellCompleted: bool)
    requires s.queue == []
    requires forall i :: 0 <= i < |events| ==> !ExitRequested(events[i], false) && !events[i].EventsCleared?
    ensures var r := TickAll(env, s, events, bellCompleted);
            HandleAll(env, r.(queue := []), r.fontSize, r.queue) == HandleAll(env, r.(queue := []), r.fontSize, events)
  {
    BufferingAcrossTicks(env, s, events, bellCompleted);
    var r := TickAll(env, s, events, bellCompleted);
    assert r.queue == Buffered(events);
    BufferingLosesNothing(env, r.(queue := []), r.fontSize, events);
  }

  /**
   * On `EventsCleared` the loop waits, the buffer is handled in order and
   * emptied, and then: a `FontSize` signal goes to the display, and the
   * processor takes the size, iff the drain changed the font size; a
   * `MessageBar` signal follows iff the message bar's line count changed;
   * and exactly one frame goes to the renderer iff the terminal is dirty and
   * a redraw was asked for, after which no redraw is pending and the
   * terminal stays dirty only while the visual bell runs.
   */
  lemma ProcessPhase(env: Env, s: Loop, bellCompleted: bool)
    ensures var r := Process(env, s, bellCompleted);
            var drained := HandleAll(env, s.(queue := []), s.fontSize, s.queue);
            var d := drained.0;
            var render := d.dirty && d.redrawRequested;
            && r.queue == [] && r.controlFlow == s.controlFlow
            && r.fontSize == drained.1
            && r.resizeTx == d.resizeTx
                 + (if drained.1 != s.fontSize then [Signals.FontSize(drained.1)] else [])
                 + (if d.messageLines != s.messageLines then [Signals.MessageBar(d.messageLines)] else [])
            && r.renderUpdates == s.renderUpdates + (if render then 1 else 0)
            && (render ==> !r.redrawRequested && r.dirty == !bellCompleted)
            && (!render ==> r.redrawRequested == d.redrawRequested && r.dirty == d.dirty)
            && r.calls == d.calls && r.sizeInfo == d.sizeInfo && r.isFocused == d.isFocused
  {
    HandleAllFrame(env, s.(queue := []), s.fontSize, s.queue);
  }

  /** A tick renders at most one frame and never loses a signal already sent to the display. */
  lemma TickRendersAtMostOnce(env: Env, s: Loop, e: GlutinEvent, shouldExit: bool, bellCompleted: bool)
    ensures var r := Tick(env, s, e, shouldExit, bellCompleted);
            && s.renderUpdates <= r.renderUpdates <= s.renderUpdates + 1
            && |s.resizeTx| <= |r.resizeTx| && r.resizeTx[..|s.resizeTx|] == s.resizeTx
  {
    if !ExitRequested(e, shouldExit) && e.EventsCleared? {
      var s' := s.(controlFlow := Wait);
      ProcessPhase(env, s', bellCompleted);
      HandleAllFrame(env, s'.(queue := []), s'.fontSize, s'.queue);
      var d := HandleAll(env, s'.(queue := []), s'.fontSize, s'.queue).0;
      var r := Tick(env, s, e, shouldExit, bellCompleted);
      assert r.resizeTx[..|d.resizeTx|] == d.resizeTx;
      assert r.resizeTx[..|s.resizeTx|] == r.resizeTx[..|d.resizeTx|][..|s.resizeTx|];
    }
  }

  // ---------------------------------------------------------------------
  // The objects
  // ---------------------------------------------------------------------

  /** The part of the terminal the loop reads and writes. */
  class Term {
    var dirty: bool
    var isFocused: bool
    var messageLines: nat

    constructor (isFocused: bool)
      ensures !dirty && this.isFocused == isFocused && messageLines == 0
    {
      dirty := false;
      this.isFocused := isFocused;
      messageLines := 0;
    }
  }

  /**
   * The event processor: its own fields, the closure locals of
   * `process_events` that live across callbacks (the buffer and the redraw
   * request), the control flow it sets, the channels it sends on and the
   * terminal it locks.
   */
  class Processor {
    var fontSize: FontSize
    var sizeInfo: SizeInfo
    var resizeTx: seq<Signals.Resize>
    var renderUpdates: nat
    var eventQueue: seq<GlutinEvent>
    var redrawRequested: bool
    var controlFlow: ControlFlow
    var calls: seq<Call>
    const terminal: Term
    const env: Env

    /** The loop state the pure model speaks about. */
    function State(): Loop
      reads this, terminal
    {
      Loop(fontSize, sizeInfo, resizeTx, renderUpdates, eventQueue, redrawRequested, controlFlow,
           terminal.dirty, terminal.isFocused, terminal.messageLines, calls)
    }

    /** `Processor::new`, with the loop's locals initialised as `process_events` does. */
    constructor (env: Env, sizeInfo: SizeInfo, terminal: Term)
      ensures this.env == env && this.terminal == terminal
      ensures fontSize == env.originalFontSize && this.sizeInfo == sizeInfo && resizeTx == [] && renderUpdates == 0
      ensures eventQueue == [] && !redrawRequested && controlFlow == Poll && calls == []
    {
      this.env := env;
      this.terminal := terminal;
      fontSize := env.originalFontSize;
      this.sizeInfo := sizeInfo;
      resizeTx := [];
      renderUpdates := 0;
      eventQueue := [];
      redrawRequested := false;
      controlFlow := Poll;
      calls := [];
    }

    /** `ActionContext::change_font_size`, on the context's font size. */
    method ChangeFontSize(fontSize: FontSize, delta: real) returns (newSize: FontSize)
      modifies terminal`dirty
      ensures newSize == ChangedFontSize(fontSize, delta) && terminal.dirty
    {
      newSize := MaxSize(Plus(fontSize, FromPoints(delta)), FromPoints(FONT_SIZE_STEP));
      terminal.dirty := true;
    }

    /** `ActionContext::reset_font_size`. */
    method ResetFontSize() returns (newSize: FontSize)
      modifies terminal`dirty
      ensures newSize == env.originalFontSize && terminal.dirty
    {
      newSize := env.originalFontSize;
      terminal.dirty := true;
    }

    method Record(call: Call)
      modifies this`calls
      ensures calls == old(calls) + [call]
    {
      calls := calls + [call];
    }

    /** `handle_event` for an event the terminal sent. */
    method HandleUserEvent(u: UserEvent)
      modifies this`calls, this`sizeInfo, this`resizeTx, this`redrawRequested, terminal
      ensures State() == HandleUser(old(State()), u)
    {
      match u {
        case CursorIcon => Record(SetMouseCursor);
        case Title(title) => Record(SetTitle(title));
        case Wakeup => terminal.dirty := true;
        case Urgent => Record(SetUrgent(!terminal.isFocused));
        case RedrawRequest => redrawRequested := true;
        case Resize(size) =>
          Record(ResizeTerminal(size));
          Record(UpdateImePosition(size));
          sizeInfo := size;
          terminal.dirty := true;
        case ConfigReload(remainingLines, reloaded) =>
          terminal.messageLines := remainingLines;
          if reloaded {
            Record(UpdateConfig);
            terminal.dirty := true;
          }
        case Exit =>
      }
    }

    /** `handle_event` for a window event, on the context's font size. */
    method HandleWindowEvent(w: WindowEvent, fontSize: FontSize) returns (newSize: FontSize)
      modifies this`calls, this`sizeInfo, this`resizeTx, this`redrawRequested, terminal
      ensures (State(), newSize) == HandleWindow(env, old(State()), fontSize, w)
    {
      if IsInputEvent(w) {
        newSize := HandleInputEvent(w, fontSize);
        return;
      }
      newSize := fontSize;
      match w {
        case CloseRequested => Record(TerminalExit);
        case Resized(width, height) =>
          // the window reports logical sizes; the display works in physical ones
          resizeTx := resizeTx + [Signals.Size(Physical(width, height, sizeInfo.dpr))];
          terminal.dirty := true;
        case Focused(focused) =>
          terminal.isFocused := focused;
          if focused {
            terminal.dirty := true;
            Record(SetUrgent(false));
          } else {
            Record(ResetUrlHighlight);
            terminal.dirty := true;
            Record(SetMouseVisible(true));
          }
          Record(FocusChange(focused));
        case DroppedFile(path) => Record(WritePty(path));
        case HiDpiFactorChanged(dpr) =>
          resizeTx := resizeTx + [Signals.DPR(dpr)];
          sizeInfo := sizeInfo.(dpr := dpr);
          terminal.dirty := true;
        case RedrawRequested => terminal.dirty := true;
        case _ =>
      }
    }

    /** The window events that go to the input processor. */
    method HandleInputEvent(w: WindowEvent, fontSize: FontSize) returns (newSize: FontSize)
      requires IsInputEvent(w)
      modifies this`calls, terminal
      ensures (State(), newSize) == HandleWindow(env, old(State()), fontSize, w)
    {
      newSize := fontSize;
      match w {
        case KeyboardInput(pressed, action) =>
          Record(ProcessKey(pressed));
          match action {
            case NoFontAction =>
            case ChangeFontSize(delta) => newSize := ChangeFontSize(fontSize, delta);
            case ResetFontSize => newSize := ResetFontSize();
          }
          if pressed && env.hideWhenTyping {
            // typing hides the mouse cursor when so configured
            Record(SetMouseVisible(false));
          }
        case ReceivedCharacter(c) => Record(ReceivedChar(c));
        case MouseInput(pressed) =>
          if !env.onMacos || terminal.isFocused {
            Record(SetMouseVisible(true));
            Record(MouseButton(pressed));
            terminal.dirty := true;
          }
        case CursorMoved(x, y) =>
          var p := CursorPosition(sizeInfo, x, y);
          Record(SetMouseVisible(true));
          Record(MouseMoved(p.0, p.1));
        case MouseWheel =>
          Record(SetMouseVisible(true));
          Record(MouseWheelMoved);
      }
    }

    /** `handle_event`. */
    method HandleEvent(e: GlutinEvent, fontSize: FontSize) returns (newSize: FontSize)
      modifies this`calls, this`sizeInfo, this`resizeTx, this`redrawRequested, terminal
      ensures (State(), newSize) == Handle(env, old(State()), fontSize, e)
    {
      newSize := fontSize;
      match e {
        case UserEvent(u) => HandleUserEvent(u);
        case WindowEvent(w) => newSize := HandleWindowEvent(w, fontSize);
        case NewEvents =>
        case DeviceEvent =>
        case Suspended =>
        case EventsCleared =>
        case LoopDestroyed =>
      }
    }

    /** `event_queue.drain(..)`: handle every buffered event in order; the buffer ends empty. */
    method Drain(fontSize: FontSize) returns (newSize: FontSize)
      modifies this`calls, this`sizeInfo, this`resizeTx, this`redrawRequested, this`eventQueue, terminal
      ensures (State(), newSize) == HandleAll(env, old(State()).(queue := []), fontSize, old(eventQueue))
    {
      var events := eventQueue;
      eventQueue := [];
      newSize := fontSize;
      ghost var start := State();
      var i := 0;
      while i < |events|
        invariant 0 <= i <= |events|
        invariant (State(), newSize) == HandleAll(env, start, fontSize, events[..i])
        invariant eventQueue == []
      {
        assert events[..i + 1][..i] == events[..i];
        newSize := HandleEvent(events[i], newSize);
        i := i + 1;
      }
      assert events[..i] == events;
    }

    /** One invocation of the `process_events` callback. */
    method ProcessEvent(e: GlutinEvent, shouldExit: bool, bellCompleted: bool)
      modifies this, terminal
      ensures State() == Tick(env, old(State()), e, shouldExit, bellCompleted)
    {
      if (e.UserEvent? && e.userEvent.Exit?) || shouldExit {
        // an exit request wins over everything else
        controlFlow := ControlFlow.Exit;
        return;
      } else if e.EventsCleared? {
        // the end of a batch: drain the buffer
        controlFlow := Wait;
      } else {
        // anything else waits in the buffer unless skipped
        controlFlow := Poll;
        if !SkipEvent(e) {
          eventQueue := eventQueue + [e];
        }
        return;
      }

      ProcessQueue(bellCompleted);
    }

    /** The work done on `EventsCleared`. */
    method ProcessQueue(bellCompleted: bool)
      modifies this, terminal
      ensures State() == Process(env, old(State()), bellCompleted)
    {
      var messageBarLines := terminal.messageLines;
      var fontSize := Drain(this.fontSize);
      Forward(fontSize, messageBarLines, bellCompleted);
    }

    /** What follows the drain: font size, message bar and render updates. */
    method Forward(fontSize: FontSize, messageBarLines: nat, bellCompleted: bool)
      modifies this`resizeTx, this`fontSize, this`redrawRequested, this`renderUpdates, terminal`dirty
      ensures State() == Render(ForwardMessageBar(ForwardFontSize(old(State()), fontSize), messageBarLines), bellCompleted)
    {
      // a font size the drain changed goes to the display
      if fontSize != this.fontSize {
        resizeTx := resizeTx + [Signals.FontSize(fontSize)];
        this.fontSize := fontSize;
      }
      ghost var forwarded := State();

      // so does a message bar whose height changed
      if terminal.messageLines != messageBarLines {
        resizeTx := resizeTx + [Signals.MessageBar(terminal.messageLines)];
      }
      assert State() == ForwardMessageBar(forwarded, messageBarLines);
      ghost var beforeRender := State();

      // a frame for the renderer when dirty and asked for
      if terminal.dirty && redrawRequested {
        terminal.dirty := !bellCompleted;
        redrawRequested := false;
        renderUpdates := renderUpdates + 1;
      }
    }
  }
}
