# Alacritty display, event loop and decoration model

This project models four parts of the Alacritty terminal emulator in Dafny and proves properties about them.

- **Decoration rectangles** (`Rects`, `create_rect`). The renderer walks the cells of a frame. For each tracked flag (underline, then strikeout) it keeps an open run of same-coloured flagged cells on one line. When the run ends, it emits one rectangle that spans the run.
- **Display resize reconciliation** (`Display::handle_resize`, the padding block of `Display::new`, `update_glyph_cache`).
  - Resize signals (`Size`, `DPR`, `FontSize`, `MessageBar`) queue in a channel.
  - Once per frame the display drains the channel, keeps the last value of each kind, and skips the work when nothing changed.
  - Otherwise it applies one update, in order: refresh the glyph cache and cell size, recompute the padding, tell the pty its size, resize the GL context and the renderer, and send a `Resize` event to the event loop.
- **The event loop's tick** (`Processor::process_events`, `handle_event`, `skip_event`, `change_font_size`, `reset_font_size`).
  - Window-system events are buffered until `EventsCleared`. Then they are handled in order.
  - A font-size or message-bar change is forwarded to the display.
  - A frame goes to the renderer when the terminal is dirty and a redraw was asked for.
- **UI configuration**.
  - `check_bound`, `font` and `basic_font` choose between the main font and the small font.
  - `deserialize_bindings` merges the user's key and mouse bindings with the defaults.

### Shape of the model

Each module follows one source file.

- Code that updates objects in place is modelled as classes with `modifies` clauses:
  - `Rects.Rects`;
  - `Display.Display`;
  - `Events.Processor`;
  - `Events.Term`, the part of the terminal the loop touches.
- Each method of these classes is proved equal to a pure specification function over the old state:
  - `LineStep`/`StepLines`/`Feed` for the rectangles;
  - `Reconcile` (built from `Adopt` and `ApplySize`) for `handle_resize`;
  - `Handle`/`HandleAll`/`Process`/`Tick` for the event loop.
- The lemmas about those functions carry the properties.

The source's loops are kept as loops: `update_lines`, the channel drain, the event-queue drain, and the two loops of `deserialize_bindings`.

### Modelling choices

- **Floats.** They are modelled as exact reals. Three operations are written out in `Geometry`:
  - `Trunc` models an `as` cast;
  - `Round` models `.round()`, with halves rounded away from zero;
  - `FMod` models float `%`, the truncated remainder.

  `Usize` models a cast to `usize`: negative values become zero.
- **Font sizes.** `Fonts.FontSize` is an `i16` count of half points. It is built by a truncating, saturating cast and added with saturation.
- **Collaborators.** The pty, GL context, renderer, glyph cache, window, event proxy and input processor are outside the model.
  - The display records each call it makes on them as an `Effect`.
  - The event loop records each call as a `Call`.
  - The cell size the glyph cache computes is a function parameter (`Rasterizer`).
  - The result of `GlyphCache::calculate_dimensions` is a constructor parameter.
  - Whether the child process has exited, and whether the visual bell has completed, are parameters of a tick.
- **Channels** are sequences:
  - `Display.rx` holds the pending `Resize` signals;
  - `Processor.resizeTx` holds what the loop has sent;
  - `renderUpdates` counts the frames sent to the renderer, whose contents are not modelled.
- **Closure locals.** `process_events` keeps `event_queue` and `redraw_requested` in locals that live across callbacks. They are fields of `Processor`. The action context's copy of the font size is the `fontSize` the handler methods thread through.
- **Key events.** A key event carries the font action its binding resolves to (`FontAction`). `input::Processor::process_key` is not part of this model; it is recorded as a call.
- **Configuration reload.** A `ConfigReload` event carries two things: the message-bar line count left after the configuration-file messages are removed, and whether the new file was read.
- **`deserialize_bindings`** takes two parameters: `Binding::deserialize`, as a partial parser from values to bindings, and `triggers_match`, as a predicate.

### End-of-terminal test

`update_lines` tests for the end of the terminal by comparing a cell's column and line with the grid's column and line counts (alacritty_terminal's rects.rs line 86). `Rects.LineStep` models that comparison as written.

- `Rects.EndTestNeverHoldsInsideGrid` shows the test is false for every cell inside the grid.
- `Rects.LastRunIsNotFlushed` shows the consequence on a two-cell grid: a run that reaches the last cell is still open after the last cell, and no rectangle is emitted for it.
- `Rects.FrameTilesRuns` describes a whole frame of cells inside the grid. The rectangles emitted are exactly those of the maximal runs that a later cell closed. The run through the last cell stays open and is never drawn.

## Model

| member | source | states |
|---|---|---|
| Rects.CreateRect | alacritty_terminal/src/renderer/rects.rs:132-168 | The rectangle starts at the start cell's left edge plus padding and offset. It is (end column + 1 − start column) cells wide and at least one pixel high. Its top never passes the bottom of the cell minus the line height. It has the start cell's colour. |
| Rects.FlagMetrics | alacritty_terminal/src/renderer/rects.rs:144-148 | The font's position and thickness for the flag's line: underline metrics for underline, strikeout metrics for strikeout. |
| Rects.LineHeight | alacritty_terminal/src/renderer/rects.rs:150-151 | The line's thickness, raised to one pixel when thinner. |
| Rects.CellBottom | alacritty_terminal/src/renderer/rects.rs:153 | The bottom edge of a grid line: one more than the line index, times the cell height. |
| Rects.LineTop | alacritty_terminal/src/renderer/rects.rs:153-160 | The line's top before rounding never lies below the cell's bottom minus the line height. |
| Rects.LineStep | alacritty_terminal/src/renderer/rects.rs:77-120 | One tracked line keeps its flag and emits at most one rectangle per cell. |
| Rects.Continues | alacritty_terminal/src/renderer/rects.rs:81-84 | A cell continues a run when it is on the run's line, has the flag, has the start's colour and is at the column after the run's end. |
| Rects.AtTerminalEnd | alacritty_terminal/src/renderer/rects.rs:86 | The end-of-terminal test as written: the cell's column equals the column count and its line the line count. `EndTestNeverHoldsInsideGrid` shows it never holds inside the grid. |
| Rects.LineStepRules | alacritty_terminal/src/renderer/rects.rs:77-120 | A continuing cell extends the run and emits nothing, except at the end-of-terminal test, where it emits the whole run. Any other cell flushes the run as one rectangle, then restarts the run iff the cell has the flag. Without an open run, a flagged cell opens one and an unflagged cell changes nothing. |
| Rects.StepLines | alacritty_terminal/src/renderer/rects.rs:76-121 | Every tracked line takes its own step. The number of lines is kept, and at most one rectangle is emitted per line. |
| Rects.StepLinesSnoc | alacritty_terminal/src/renderer/rects.rs:76-121 | Processing one more tracked line appends that line's new state and its rectangles to those of the lines before it. |
| Rects.LineStepValid | alacritty_terminal/src/renderer/rects.rs:81-119 | A run stays on its start line, with the flag set and end ≥ start. Every rectangle it emits covers at least one whole cell and is at least one pixel high. |
| Rects.StepLinesValid | alacritty_terminal/src/renderer/rects.rs:76-121 | The well-formedness of `LineStepValid` holds over all tracked lines for one cell. |
| Rects.FeedValid | alacritty_terminal/src/renderer/rects.rs:75-122 | The same well-formedness holds across any sequence of cells. |
| Rects.FeedShape | alacritty_terminal/src/renderer/rects.rs:75-122 | Feeding cells keeps the tracked lines and their flags. It emits at most one rectangle per line per cell. |
| Rects.Feed | alacritty_terminal/src/renderer/rects.rs:75-122 | The accumulator's state after a frame: each cell in turn goes through `StepLines`, and the rectangles come out in order. Its properties are `FeedValid`, `FeedShape`, `FeedLines`, `FeedMembers` and `FrameTilesRuns`. |
| Rects.LineFeed | alacritty_terminal/src/renderer/rects.rs:77-120 | One tracked line fed a frame on its own keeps its flag. `FeedLines` and `FeedMembers` show the whole accumulator is these single-line feeds side by side. |
| Rects.RunStart | alacritty_terminal/src/renderer/rects.rs:81-99 | The first cell of the run through a given cell: the earliest cell reachable by stepping back while each cell continues the one before it. |
| Rects.ClosedRuns | alacritty_terminal/src/renderer/rects.rs:81-112 | A reference definition of the runs a frame closes, as index pairs: each ends at a flagged cell that the next cell does not continue. Every pair is in order and is followed by another cell. |
| Rects.OpenRun | alacritty_terminal/src/renderer/rects.rs:77-120 | A reference definition of the run still open after a frame: the run through the last cell, if that cell carries the flag. |
| Rects.RunRects | alacritty_terminal/src/renderer/rects.rs:104 | The rectangles of a list of runs, one `CreateRect` per run, in order. |
| Rects.RunStartChain | alacritty_terminal/src/renderer/rects.rs:81-99 | The run through a flagged cell is a chain: nothing before its start continues into it, and every later cell up to the given one continues its predecessor. All of it is on one line in one colour. |
| Rects.ChainRunStart | alacritty_terminal/src/renderer/rects.rs:81-99 | A chain ending at a cell starts where `RunStart` says. |
| Rects.LineFeedTilesRuns | alacritty_terminal/src/renderer/rects.rs:75-122 | For cells inside the grid, a tracked line that starts without a run emits the rectangles of `ClosedRuns`, in order, and ends holding `OpenRun`. |
| Rects.ClosedRunsMaximal | alacritty_terminal/src/renderer/rects.rs:81-112 | Every closed run is maximal: cells on one line, in one colour, with the flag and at consecutive columns, continued neither from before nor after. The runs come in order without overlapping. |
| Rects.ClosedRunsComplete | alacritty_terminal/src/renderer/rects.rs:81-112 | Every maximal run followed by another cell is among the closed runs. |
| Rects.OpenRunMaximal | alacritty_terminal/src/renderer/rects.rs:77-120 | A run stays open iff the last cell carries the flag. It is then the maximal run through the last cell, and every closed run ends before it starts. |
| Rects.ClosedRunsDisjoint | alacritty_terminal/src/renderer/rects.rs:81-112 | For cells in scan order, two closed runs of one flag on the same line share no column: the earlier one ends left of where the later one starts. |
| Rects.RunRectsAreClosedRuns | alacritty_terminal/src/renderer/rects.rs:104-112 | A rectangle is among a line's emitted ones iff it is the rectangle of a maximal run that a later cell closed. |
| Rects.StepLinesMembers | alacritty_terminal/src/renderer/rects.rs:76-121 | A rectangle is emitted for a cell iff one of the tracked lines emits it. |
| Rects.FeedLines | alacritty_terminal/src/renderer/rects.rs:75-122 | After a frame, each tracked line is in the state it would reach if it were fed the frame alone. |
| Rects.FeedMembers | alacritty_terminal/src/renderer/rects.rs:75-122 | A rectangle is emitted over a frame iff one of the tracked lines, fed the frame alone, emits it. |
| Rects.FrameTilesRuns | alacritty_terminal/src/renderer/rects.rs:56-122 | For a frame whose cells are inside the grid, fed to a fresh accumulator: the rectangles emitted are exactly those of the maximal underline and strikeout runs that a later cell closed. The underline line ends holding the maximal run through the last cell, and so does the strikeout line. |
| Rects.EndTestNeverHoldsInsideGrid | alacritty_terminal/src/renderer/rects.rs:86 | The as-written end-of-terminal test is false for every cell whose column or line is inside the grid. |
| Rects.LastRunIsNotFlushed | alacritty_terminal/src/renderer/rects.rs:81-101 | On a one-line, two-column grid, an underline run that covers both cells is still open after the last cell, and no rectangle has been emitted. |
| Rects.Rects.constructor | alacritty_terminal/src/renderer/rects.rs:56-59 | No rectangles yet. Two tracked lines, underline then strikeout, neither with a run. Metrics and size are kept. |
| Rects.Rects.UpdateLines | alacritty_terminal/src/renderer/rects.rs:75-122 | The tracked lines become their `StepLines` successors. The new rectangles are appended after the old ones, which are unchanged. |
| Rects.Rects.UpdateLine | alacritty_terminal/src/renderer/rects.rs:77-120 | Only the tracked line at the index changes, to its `LineStep` successor. Its rectangles are appended. |
| Rects.Rects.Push | alacritty_terminal/src/renderer/rects.rs:125-127 | Exactly the given rectangle and colour are appended. The tracked lines are untouched. |
| Rects.Rects.Rectangles | alacritty_terminal/src/renderer/rects.rs:62-64 | The rectangles collected so far, which `UpdateLines` and `Push` describe. |
| Display.LastOfIsLast | alacritty/src/display.rs:270-283 | The coalesced value of a kind is absent iff no signal of that kind is pending. Otherwise it comes from a pending signal of that kind with none of that kind after it. |
| Display.LastOf | alacritty/src/display.rs:270-283 | The value of the last pending signal of one kind. `LastOfIsLast` states what it is. |
| Display.Coalesce | alacritty/src/display.rs:270-283 | Draining the channel yields the last size, message-bar count, font size and ratio. The current ratio and font size are used when none is pending. |
| Display.DynamicPaddingFitsWholeCells | alacritty/src/display.rs:325-334 | Dynamic padding adds less than half a cell to the configured padding. What lies between the two paddings is then a whole number of cells. |
| Display.FixedPaddingIgnoresSize | alacritty/src/display.rs:142-143 | Without dynamic padding, the padding is the configured padding times the ratio, floored. It does not depend on the window or cell size. |
| Display.RawPadding | alacritty/src/display.rs:142-161 | The padding before flooring: the configured padding scaled by the ratio, plus half the remainder with dynamic padding. See `DynamicPaddingFitsWholeCells`. |
| Display.Padding | alacritty/src/display.rs:325-334 | The padding floored to whole pixels. `DynamicPaddingFitsWholeCells` and `FixedPaddingIgnoresSize` state its properties. |
| Display.PtySizeDropsMessageBarLines | alacritty/src/display.rs:336-340 | The pty's grid has as many columns as the window's. It has the message bar's lines fewer lines, or none when the bar is taller. |
| Display.NoSignalsNoChange | alacritty/src/display.rs:285-297 | With no pending signal, nothing changes and no collaborator is called. |
| Display.SameSizeReturnsEarly | alacritty/src/display.rs:289-297 | A pending size equal to the current one, with no font-size or ratio change, returns early with nothing done. |
| Display.ChangeWithoutSizeRescales | alacritty/src/display.rs:299-310 | A font, ratio or message-bar change without a new size does three things: it adopts the font size and ratio, and it rescales the current size by new ratio / old ratio. |
| Display.RescalingKeepsLogicalSize | alacritty/src/display.rs:302-305 | The rescaled size has the same logical size (physical size divided by ratio) as before. |
| Display.FontChanged | alacritty/src/display.rs:285-286 | The font size or the ratio differs from the current one. `AdoptEffects` and `ReconcileEffectCounts` tie the glyph-cache refresh to it. |
| Display.Unchanged | alacritty/src/display.rs:289-297 | The early-return condition: a pending size equal to the current one, and no font-size or ratio change. `SameSizeReturnsEarly` and `NoSignalsNoChange` use it. |
| Display.Rescaled | alacritty/src/display.rs:302-305 | The current size over the old ratio, times the new one. `RescalingKeepsLogicalSize` states that it keeps the logical size. |
| Display.Resized | alacritty/src/display.rs:322-334 | The geometry after applying a size: that size, with the padding recomputed at the new ratio and floored. `ApplySizeEffects` states what changes. |
| Display.ApplySizeEffects | alacritty/src/display.rs:316-352 | Applying a size takes that size, keeps the cell size and ratio, and calls each of the GL context, the renderer and the event loop exactly once. It calls the pty once iff `NotifiesPty` holds, and never touches the glyph cache. |
| Display.ApplySize | alacritty/src/display.rs:316-352 | The size-applying half of `handle_resize` as a function. `ApplySizeEffects` states its calls and geometry. |
| Display.Adopt | alacritty/src/display.rs:299-314 | The adoption half of `handle_resize` as a function. `AdoptEffects` states its calls and the size it resolves. |
| Display.Reconcile | alacritty/src/display.rs:263-353 | `handle_resize` as a function of the state and the pending signals. `NoSignalsNoChange`, `SameSizeReturnsEarly`, `ChangeWithoutSizeRescales`, `ReconcileEffectCounts` and `PtyNotification` state its behaviour. |
| Display.AdoptEffects | alacritty/src/display.rs:299-314 | The glyph cache is refreshed exactly when the font size or ratio changed. The cell size changes only then. A size is applied iff one was pending or something changed. |
| Display.ReconcileEffectCounts | alacritty/src/display.rs:285-352 | When it does not return early, `handle_resize` refreshes the glyph cache once iff the font size or ratio changed. It resizes the context and the renderer once each, and sends one `Resize` event, iff a size is resolved: one arrived, or the font, ratio or message bar changed. It calls the pty at most once. A pending size is taken as is, and the cell size changes only with the font. |
| Display.ResendingAppliedSizeIsNoOp | alacritty/src/display.rs:289-297 | Sending again the size just applied leads to the early return. |
| Display.PtyNotification | alacritty/src/display.rs:336-347 | The pty is told exactly the geometry minus the message bar. It is told only when a message-bar count arrived or the grid's columns or lines changed. Conversely, when the call did not return early, a size was resolved and that condition holds, the pty is told. |
| Display.Display.constructor | alacritty/src/display.rs:130-207 | The initial geometry takes one of two sizes, with the padding rule, and the configured font size. The two sizes are:<br>• the size computed from the configured dimensions, which also resizes the window, when there is one and it differs from the window's physical size;<br>• otherwise, the window's size.<br>Dynamic padding applies only when no dimensions are configured. The renderer is resized and the screen cleared. |
| Display.Display.UpdateGlyphCache | alacritty/src/display.rs:241-253 | The glyph cache is reloaded at the current font size and ratio. Only the cell size changes. |
| Display.Display.HandleResize | alacritty/src/display.rs:263-353 | The channel ends empty. The new geometry, the new font size and the calls made are exactly those of `Reconcile`. |
| Display.Display.ApplyNewSize | alacritty/src/display.rs:316-352 | The size-applying half of `handle_resize` performs `ApplySize` on the geometry and the calls. |
| Display.Display.Send | alacritty/src/display.rs:256-258 | A signal sent on the resize channel is queued behind those already pending. |
| Display.DrawDecorations | alacritty/src/display.rs:377-392 | Feeding a frame's cells to the accumulator leaves exactly the state `Feed` describes. |
| Events.ChangedFontSize | alacritty/src/event.rs:203-206 | The new size is the larger of two values: the old size plus the delta, with saturation, and the half-point step. It is never below one half point. |
| Events.Processor.ChangeFontSize | alacritty/src/event.rs:203-206 | The context's font size becomes `ChangedFontSize` and the terminal is marked dirty. |
| Events.Processor.ResetFontSize | alacritty/src/event.rs:208-211 | The context's font size becomes the configured one and the terminal is marked dirty. |
| Events.ApplyFontAction | alacritty/src/event.rs:203-211 | A key binding's font action: a change goes through `ChangedFontSize`, a reset restores the configured size, and either marks the terminal dirty. |
| Events.Physical | alacritty/src/event.rs:405 | A logical size converted to physical pixels by the ratio. |
| Events.ExitRequested | alacritty/src/event.rs:501-506 | An `Exit` event or an exited child process. `ExitTakesPrecedence` states what follows. |
| Events.Processor.Record | alacritty/src/event.rs:367-472 | A call on a collaborator is appended to those made before, which are unchanged. |
| Events.ToI32 | alacritty/src/event.rs:427-429 | A float-to-`i32` cast stays within the `i32` range. It is the identity inside the range. |
| Events.ClampedWithinWindow | alacritty/src/event.rs:426-432 | A cursor coordinate handed on lies between zero and the window's extent. A position already inside the window is just the rounded physical position. |
| Events.Limit | alacritty/src/event.rs:428-429 | The result never exceeds the upper bound. It is at least the lower bound when the bounds are ordered, and it is the value itself when the value lies between them. |
| Events.Clamped | alacritty/src/event.rs:427-429 | One cursor coordinate: rounded, cast to `i32` and limited to the window. `ClampedWithinWindow` states its bounds. |
| Events.CursorPosition | alacritty/src/event.rs:426-432 | Both cursor coordinates, scaled by the ratio and clamped. |
| Events.SkipEvent | alacritty/src/event.rs:299-324 | The events that are dropped instead of buffered. `SkippedEventsAreInert` shows that handling one would change nothing. |
| Events.SkippedEventsAreInert | alacritty/src/event.rs:299-324 | Handling any event that is skipped would change nothing. |
| Events.Buffered | alacritty/src/event.rs:510-516 | The buffer holds no skipped event and is no longer than the events seen. |
| Events.BufferingLosesNothing | alacritty/src/event.rs:299-324 | Handling only the buffered events has the same outcome as handling every event in order. |
| Events.TickAll | alacritty/src/event.rs:496-516 | The callbacks for a sequence of events, one after the other, while the child keeps running. |
| Events.BufferingAcrossTicks | alacritty/src/event.rs:509-516 | Across callbacks with no exit and no `EventsCleared`, the buffer grows by exactly the unskipped events, in arrival order. The loop polls and nothing else changes. |
| Events.BufferedQueueLosesNothing | alacritty/src/event.rs:509-549 | Starting from an empty buffer, draining what those callbacks buffered has the outcome of handling every event that arrived, skipped ones included. |
| Events.HandleFrame | alacritty/src/event.rs:329-479 | A handler sends at most one signal to the display, and only a size or a ratio. It leaves the renderer, the buffer, the control flow and the processor's own font size alone. Only `RedrawRequest` asks for a redraw. The context's font size stays at least one half point when it and the configured size were. |
| Events.HandleWindowFrame | alacritty/src/event.rs:367-472 | The same frame as `HandleFrame`, for window events. No window event asks for a redraw. |
| Events.HandleAllFrame | alacritty/src/event.rs:542-549 | Across a drain, the display hears only sizes and ratios, at most one per event, after what it had before. Nothing is rendered. The font size stays at least one half point. |
| Events.HandleUser | alacritty/src/event.rs:338-366 | `handle_event` for an event from the terminal. `HandleFrame` states its frame. |
| Events.HandleWindow | alacritty/src/event.rs:367-472 | `handle_event` for a window event, with the action context's font size. `HandleWindowFrame` states its frame. |
| Events.Handle | alacritty/src/event.rs:329-479 | `handle_event` for any event. `HandleFrame` and `SkippedEventsAreInert` state its properties. |
| Events.HandleAll | alacritty/src/event.rs:542-549 | The drain: the buffered events are handled in order. `HandleAllFrame`, `HandlerStepTransitive` and `BufferingLosesNothing` state its properties. |
| Events.HandlerStepTransitive | alacritty/src/event.rs:542-549 | Two consecutive handler steps compose into one. |
| Events.ExitTakesPrecedence | alacritty/src/event.rs:501-506 | An `Exit` event or an exited child process sets the control flow to exit and changes nothing else. |
| Events.EventsAreBuffered | alacritty/src/event.rs:509-516 | Any other event before `EventsCleared` makes the loop poll. It is appended to the buffer iff it is not skipped, and nothing else changes. |
| Events.ProcessPhase | alacritty/src/event.rs:519-584 | On `EventsCleared`, the buffer is handled in order and emptied. A `FontSize` signal follows iff the drain changed the font size. A `MessageBar` signal follows iff the message bar's height changed. One frame is rendered iff the terminal is dirty and a redraw was asked for; after that no redraw is pending, and the terminal stays dirty only while the visual bell runs. |
| Events.Process | alacritty/src/event.rs:519-584 | The work done on `EventsCleared` as a function. `ProcessPhase` states its behaviour. |
| Events.ForwardFontSize | alacritty/src/event.rs:552-555 | A font size the drain changed is sent to the display, and the processor keeps it. |
| Events.ForwardMessageBar | alacritty/src/event.rs:558-567 | A message-bar height the drain changed is sent to the display. |
| Events.Render | alacritty/src/event.rs:570-583 | A frame is rendered iff the terminal is dirty and a redraw was asked for. |
| Events.Tick | alacritty/src/event.rs:496-585 | One callback of `process_events` as a function. `ExitTakesPrecedence`, `EventsAreBuffered`, `ProcessPhase` and `TickRendersAtMostOnce` state its behaviour. |
| Events.TickRendersAtMostOnce | alacritty/src/event.rs:496-585 | A tick renders at most one frame and never retracts a signal already sent. |
| Events.Processor.constructor | alacritty/src/event.rs:280-295 | The processor starts with the configured font size, the given geometry, nothing sent, an empty buffer and no redraw pending. |
| Events.Processor.HandleUserEvent | alacritty/src/event.rs:338-366 | An event from the terminal changes the state exactly as `HandleUser` says. |
| Events.Processor.HandleWindowEvent | alacritty/src/event.rs:367-472 | A window event changes the state and the context's font size exactly as `HandleWindow` says. |
| Events.Processor.HandleInputEvent | alacritty/src/event.rs:409-437 | The events handed to the input processor change the state exactly as `HandleWindow` says. |
| Events.Processor.HandleEvent | alacritty/src/event.rs:329-479 | Any event changes the state exactly as `Handle` says. |
| Events.Processor.Drain | alacritty/src/event.rs:542-549 | The buffered events are handled in order, as `HandleAll` says, and the buffer ends empty. |
| Events.Processor.ProcessEvent | alacritty/src/event.rs:496-585 | One callback changes the state exactly as `Tick` says. |
| Events.Processor.ProcessQueue | alacritty/src/event.rs:519-584 | The work on `EventsCleared` changes the state exactly as `Process` says. |
| Events.Processor.Forward | alacritty/src/event.rs:551-584 | After the drain, the font size and message-bar updates are forwarded, and a frame is rendered as `Render` says. |
| UiConfig.CheckBound | alacritty/src/config/ui_config.rs:29-40 | Yields a font iff an upper bound is set and the size is at or below it. That font is the small font. |
| UiConfig.SelectFont | alacritty/src/config/ui_config.rs:110-118 | The small font when it is configured with a bound the size does not exceed; otherwise the main font. |
| UiConfig.BasicFont | alacritty/src/config/ui_config.rs:122-124 | Exactly the main font, which `font` also returns at every size where the small font does not apply. |
| UiConfig.SmallFontBelowBound | alacritty/src/config/ui_config.rs:29-40 | The sizes that get the small font are closed downwards. |
| UiConfig.DeserializeBindings | alacritty/src/config/ui_config.rs:168-198 | A value that is not a list is an error. Otherwise the result is the parsed user bindings, in input order, followed by the defaults no user binding's triggers match. |
| UiConfig.Parsed | alacritty/src/config/ui_config.rs:180-188 | The values that parse, in order, and never more of them than values. `ParsedConcat`, `ParsedMembers` and `NothingParses` state the rest. |
| UiConfig.Retain | alacritty/src/config/ui_config.rs:192 | The defaults that one user binding's triggers do not match, never more than there were. |
| UiConfig.Surviving | alacritty/src/config/ui_config.rs:191-193 | The defaults that survive retaining against each user binding in turn, never more than there were. `SurvivingMembers` and `SurvivingConcat` state the rest. |
| UiConfig.ParseValues | alacritty/src/config/ui_config.rs:180-188 | Values that do not parse are dropped, and the rest are kept in order. |
| UiConfig.RemoveShadowed | alacritty/src/config/ui_config.rs:191-193 | Retaining the defaults against each user binding in turn leaves exactly the defaults that no user binding matches. |
| UiConfig.RetainOneMore | alacritty/src/config/ui_config.rs:191-193 | Retaining against one more user binding gives the survivors of the longer list. |
| UiConfig.ParsedConcat | alacritty/src/config/ui_config.rs:180-188 | Parsing keeps input order across concatenation. |
| UiConfig.ParsedMembers | alacritty/src/config/ui_config.rs:180-188 | A binding is among the parsed ones iff some value parses to it. |
| UiConfig.NothingParses | alacritty/src/config/ui_config.rs:180-188 | When no value parses, there are no user bindings. |
| UiConfig.SurvivingMembers | alacritty/src/config/ui_config.rs:191-193 | A default survives iff it is a default and no user binding's triggers match it. |
| UiConfig.SurvivingConcat | alacritty/src/config/ui_config.rs:191-195 | The survivors of a concatenation are the survivors of each part, in order. |
| UiConfig.NoUsersKeepsDefaults | alacritty/src/config/ui_config.rs:191-195 | With no user bindings, every default survives. |
| UiConfig.MergeProperties | alacritty/src/config/ui_config.rs:177-197 | The merged list is no longer than values plus defaults and starts with the user bindings. No binding after them is matched by a user binding. When no value parses, the list equals the defaults. |

## Left out

- Floating point: `f32`/`f64` rounding error and the width conversions between them are not modelled. The model computes with reals. The `f64::EPSILON` comparisons in `handle_resize` and `Display::new` are modelled as equality.
- Rasterization, the GPU, and the GL context are outside the model. `Display::draw` is modelled only as the loop that feeds cells to `Rects`.
  - Rasterization covers the glyph cache internals, `compute_cell_size` and `calculate_dimensions`.
  - The GPU covers `QuadRenderer`, `render_cell` and `swap_buffers`.
  - The message bar and visual bell drawing are not modelled.
- Window-system calls are recorded as calls, not modelled: cursor icon, title, urgency, IME position, mouse visibility and inner size.
- The input processor (`input.rs`) is not part of this model.
  - Key, character, mouse and wheel handling are recorded as calls.
  - A key's binding is represented only by its effect on the font size.
  - Selection and scrolling through `ActionContext` are not modelled.
- Events.Processor.HandleWindowEvent: the reference-test dump in `CloseRequested` is not modelled. It writes JSON files when a debug flag is set.
- Events.HandleUser: a successful `ConfigReload` records `UpdateConfig` but does not replace the configuration the loop reads (`Env`). Later events keep the old `mouse.hide_when_typing`, and later ticks keep restoring the old `font.size` on reset.
- Events.Processor.HandleUserEvent: the same; the reloaded `hide_when_typing` and `font.size` do not take effect.
- The `.expect(...)` panics on a failed channel send (event.rs lines 406, 458, 553, 566 and 583) are not modelled; every send succeeds.
- Display.Display.UpdateGlyphCache: the error of `update_font_size`, which the source discards, is not modelled; the reload always succeeds.
- Reloading the configuration from a path is not modelled. The "remove configuration messages" step of `ConfigReload` is represented only by the message-bar line count it leaves.
- The terminal grid, `Term::resize`, and message text wrapping (`Message::text`) are not part of this model. The message bar's height is a number carried by the terminal state. Because `Term` is absent, `cols()`/`lines()` are modelled as `Geometry.Cols`/`Geometry.Lines`, and `PtyResize` is only recorded.
- The `mpsc` channels and the `FairMutex` around the terminal are sequences and a plain object. Concurrency and blocking are not modelled.
- `spawn_new_instance`, the `Error` type's `Display`/`From` implementations, and logging are not modelled.
- Rects.FrameTilesRuns: stated only for cells inside the grid, where the end-of-terminal test never holds. A cell at column `cols()` and line `lines()` would flush a run early; such a cell is not produced by the grid and is not covered.
- Display.DrawDecorations follows the `update_lines` signature in rects.rs, which takes an offset; the call at display.rs:387 passes none.
- Display.Display.ApplyNewSize wraps the part of `handle_resize` after the glyph-cache refresh; in the source that code is inline.
- Events.ClampedWithinWindow: the `x as usize` cast after the clamp is not modelled; the coordinate is kept as an integer. The clamped value can be negative only for a negative window extent, which the lemma's precondition excludes.
- Events.Processor.ProcessEvent: the `RenderUpdate` payload (grid cells, colours, message, configuration) is not modelled; a render is counted.
- UiConfig.Font keeps only a family and a size of the font description; the other options of `config::font::Font` are not modelled.
- `UIConfig::key_bindings`/`mouse_bindings`, the `Deserialize` wrappers, the default binding lists and `background_opacity` are not modelled.
