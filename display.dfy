/**
 * The display's resize reconciliation (`Display::handle_resize`) and the
 * padding rule it shares with start-up (`Display::new`).
 *
 * Resize signals wait in a FIFO channel; once per frame the display drains
 * it, keeps the last value of each kind, decides whether anything changed,
 * and then applies one geometry update: glyph cache, padding, pty size,
 * GPU viewport and a `Resize` event for the event loop. The pty, the GL
 * context, the renderer, the glyph cache and the event proxy are outside
 * the model; every call made on them is recorded as an effect.
 */
module Display {
  import opened Wrappers
  import opened Geometry
  import opened Fonts
  import opened Signals
  import Rects

  /** The window part of the configuration: padding in logical pixels and the padding mode. */
  datatype WindowConfig = WindowConfig(paddingX: nat, paddingY: nat, dynamicPadding: bool)

  /** A cell size as the glyph cache computes it from the font metrics. */
  datatype CellSize = CellSize(width: PosReal, height: PosReal)

  /**
   * The font rasterizer and glyph cache, seen from the display: the cell
   * size they produce for a font size and a device pixel ratio.
   */
  type Rasterizer = (FontSize, PosReal) -> CellSize

  /** A call the display makes on one of its collaborators. */
  datatype Effect =
    | UpdateGlyphCache(fontSize: FontSize, dpr: PosReal)
    | PtyResize(ptySize: SizeInfo)
    | ContextResize(size: PhysicalSize)
    | RendererResize(size: PhysicalSize, paddingX: real, paddingY: real)
    | SendResizeEvent(sizeInfo: SizeInfo)
    | SetInnerSize(size: PhysicalSize)
    | ClearScreen

  // ---------------------------------------------------------------------
  // Coalescing: the last signal of each kind
  // ---------------------------------------------------------------------

  function SizeOf(r: Resize): Option<PhysicalSize> { if r.Size? then Some(r.size) else None }
  function MessageBarOf(r: Resize): Option<nat> { if r.MessageBar? then Some(r.lines) else None }
  function FontSizeOf(r: Resize): Option<FontSize> { if r.FontSize? then Some(r.fontSize) else None }
  function DprOf(r: Resize): Option<PosReal> { if r.DPR? then Some(r.dpr) else None }

  /** The value of the last signal in `signals` that `pick` selects, if there is one. */
  function LastOf<T>(signals: seq<Resize>, pick: Resize -> Option<T>): Option<T>
    decreases |signals|
  {
    if signals == [] then None
    else if pick(signals[|signals| - 1]).Some? then pick(signals[|signals| - 1])
    else LastOf(signals[..|signals| - 1], pick)
  }

  /**
   * `LastOf` is the value of the signal of that kind that arrived last:
   * there is none of the kind iff it is `None`, and otherwise it is the value
   * at some position after which no signal of the kind arrived.
   */
  lemma {:induction false} LastOfIsLast<T>(signals: seq<Resize>, pick: Resize -> Option<T>)
    ensures LastOf(signals, pick).None? <==> forall i :: 0 <= i < |signals| ==> pick(signals[i]).None?
    ensures LastOf(signals, pick).Some? ==>
      exists i :: 0 <= i < |signals| && pick(signals[i]) == LastOf(signals, pick)
        && forall j :: i < j < |signals| ==> pick(signals[j]).None?
    decreases |signals|
  {
    if signals != [] {
      var n := |signals| - 1;
      var front := signals[..n];
      LastOfIsLast(front, pick);
      assert forall i :: 0 <= i < n ==> front[i] == signals[i];
      if pick(signals[n]).None? && LastOf(front, pick).Some? {
        var i :| 0 <= i < n && pick(front[i]) == LastOf(front, pick)
          && forall j :: i < j < n ==> pick(front[j]).None?;
        assert pick(signals[i]) == LastOf(signals, pick);
      }
    }
  }

  /**
   * The drain loop of `handle_resize`: take every pending signal in arrival
   * order, keeping the last value of each kind. Size and message bar default
   * to none, the ratio and the font size to the current ones.
   */
  method Coalesce(signals: seq<Resize>, dpr: PosReal, fontSize: FontSize)
    returns (newSize: Option<PhysicalSize>, newDpr: PosReal, newFontSize: FontSize, messageBarLines: Option<nat>)
    ensures newSize == LastOf(signals, SizeOf)
    ensures newDpr == LastOf(signals, DprOf).GetOr(dpr)
    ensures newFontSize == LastOf(signals, FontSizeOf).GetOr(fontSize)
    ensures messageBarLines == LastOf(signals, MessageBarOf)
  {
    newSize, newDpr, newFontSize, messageBarLines := None, dpr, fontSize, None;
    var i := 0;
    while i < |signals|
      invariant 0 <= i <= |signals|
      invariant newSize == LastOf(signals[..i], SizeOf)
      invariant newDpr == LastOf(signals[..i], DprOf).GetOr(dpr)
      invariant newFontSize == LastOf(signals[..i], FontSizeOf).GetOr(fontSize)
      invariant messageBarLines == LastOf(signals[..i], MessageBarOf)
    {
      assert signals[..i + 1][..i] == signals[..i];
      assert signals[..i + 1][i] == signals[i];
      match signals[i] {
        case MessageBar(lines) => messageBarLines := Some(lines);
        case FontSize(size) => newFontSize := size;
        case Size(size) => newSize := Some(size);
        case DPR(ratio) => newDpr := ratio;
      }
      i := i + 1;
    }
    assert signals[..i] == signals;
  }

  // ---------------------------------------------------------------------
  // Padding
  // ---------------------------------------------------------------------

  /**
   * Padding before flooring: the configured padding scaled by the ratio,
   * plus, with dynamic padding, half of what is left over once whole cells
   * are fitted between the two configured paddings.
   */
  function RawPadding(padding: nat, dpr: PosReal, dim: real, cell: PosReal, dynamic: bool): real {
    var p := padding as real * dpr;
    if dynamic then p + FMod(dim - 2.0 * p, cell) / 2.0 else p
  }

  /** The padding the display uses: `RawPadding` floored to whole pixels. */
  function Padding(padding: nat, dpr: PosReal, dim: real, cell: PosReal, dynamic: bool): real {
    RawPadding(padding, dpr, dim, cell, dynamic).Floor as real
  }

  /**
   * Dynamic padding spreads the remainder evenly: it adds less than half a
   * cell to the configured padding, and what lies between the two paddings
   * is then a whole number of cells.
   */
  lemma DynamicPaddingFitsWholeCells(padding: nat, dpr: PosReal, dim: real, cell: PosReal)
    requires dim >= 2.0 * padding as real * dpr
    ensures var p := padding as real * dpr;
            var raw := RawPadding(padding, dpr, dim, cell, true);
            && p <= raw < p + cell / 2.0
            && dim - 2.0 * raw == ((dim - 2.0 * p) / cell).Floor as real * cell
  {
  }

  /** Fixed padding is the configured padding scaled by the ratio, floored, whatever the size and cell. */
  lemma FixedPaddingIgnoresSize(padding: nat, dpr: PosReal, dim: real, cell: PosReal, dim': real, cell': PosReal)
    ensures Padding(padding, dpr, dim, cell, false) == Padding(padding, dpr, dim', cell', false)
    ensures Padding(padding, dpr, dim, cell, false) == (padding as real * dpr).Floor as real
  {
  }

  // ---------------------------------------------------------------------
  // Reconciliation
  // ---------------------------------------------------------------------

  /** The state `handle_resize` may change, and the calls it made. */
  datatype Outcome = Outcome(sizeInfo: SizeInfo, fontSize: FontSize, effects: seq<Effect>)

  /** The font size or the device pixel ratio differs from the current one. */
  predicate FontChanged(si: SizeInfo, fontSize: FontSize, newFontSize: FontSize, newDpr: PosReal) {
    newFontSize != fontSize || newDpr != si.dpr
  }

  /** The current size rescaled by the ratio between the new and the old device pixel ratio. */
  function Rescaled(si: SizeInfo, newDpr: PosReal): PhysicalSize {
    PhysicalSize(si.width / si.dpr * newDpr, si.height / si.dpr * newDpr)
  }

  /**
   * The pty must hear about the new size when a message-bar count arrived or
   * when its column or line count differs from the previous grid's.
   */
  predicate NotifiesPty(previousCols: nat, previousLines: nat, pty: SizeInfo, messageBarLines: Option<nat>) {
    messageBarLines.Some? || previousCols != Cols(pty) || previousLines != Lines(pty)
  }

  /** The size the pty is told about: the message bar's lines are not part of the terminal grid. */
  function PtySize(si: SizeInfo, messageBarLines: Option<nat>): SizeInfo {
    match messageBarLines
    case Some(lines) => si.(height := si.height - si.cellHeight * lines as real)
    case None => si
  }

  /** The pty's grid has the message bar's lines fewer than the window's, down to none. */
  lemma PtySizeDropsMessageBarLines(si: SizeInfo, lines: nat)
    ensures Lines(PtySize(si, Some(lines))) == if Lines(si) >= lines then Lines(si) - lines else 0
    ensures Cols(PtySize(si, Some(lines))) == Cols(si)
  {
    var t := si.(height := si.height - si.cellHeight * lines as real);
    assert PtySize(si, Some(lines)) == t;
    LinesAfterShrink(si, lines);
  }

  /** The geometry after applying window size `p`: the new size and the padding recomputed for it. */
  function Resized(si: SizeInfo, p: PhysicalSize, config: WindowConfig, dpr: PosReal): SizeInfo {
    si.(width := p.width, height := p.height,
        paddingX := Padding(config.paddingX, dpr, p.width, si.cellWidth, config.dynamicPadding),
        paddingY := Padding(config.paddingY, dpr, p.height, si.cellHeight, config.dynamicPadding))
  }

  /**
   * Applying a resolved window size: the geometry takes it and recomputes the
   * padding, the pty hears of it when `NotifiesPty` says so, then the GL
   * context, the renderer and the event loop are told, in that order.
   */
  function ApplySize(previousCols: nat, previousLines: nat, si: SizeInfo, p: PhysicalSize, messageBarLines: Option<nat>,
                     config: WindowConfig, dpr: PosReal): (SizeInfo, seq<Effect>)
  {
    var si' := Resized(si, p, config, dpr);
    var pty := PtySize(si', messageBarLines);
    (si', (if NotifiesPty(previousCols, previousLines, pty, messageBarLines) then [PtyResize(pty)] else [])
          + [ContextResize(p), RendererResize(p, si'.paddingX, si'.paddingY), SendResizeEvent(si')])
  }

  /** Nothing changed: a size equal to the current one arrived and neither font size nor ratio changed. */
  predicate Unchanged(si: SizeInfo, fontSize: FontSize, signals: seq<Resize>) {
    var newSize := LastOf(signals, SizeOf);
    && newSize.Some? && newSize.value.width == si.width && newSize.value.height == si.height
    && !FontChanged(si, fontSize, LastOf(signals, FontSizeOf).GetOr(fontSize), LastOf(signals, DprOf).GetOr(si.dpr))
  }

  /**
   * The first half of `handle_resize` once it has not returned early: the
   * geometry and font size it has adopted, the window size it is going to
   * apply, if any, and the glyph-cache refresh it made, if any.
   */
  datatype Adopted = Adopted(sizeInfo: SizeInfo, fontSize: FontSize, resolved: Option<PhysicalSize>, glyph: seq<Effect>)

  /**
   * A font, ratio or message-bar change adopts the new font size and ratio
   * and, when no window size arrived, synthesises one by rescaling; a font
   * or ratio change refreshes the glyph cache and takes its cell size.
   */
  function Adopt(si: SizeInfo, fontSize: FontSize, signals: seq<Resize>, rasterizer: Rasterizer): Adopted {
    var newSize := LastOf(signals, SizeOf);
    var newDpr := LastOf(signals, DprOf).GetOr(si.dpr);
    var newFontSize := LastOf(signals, FontSizeOf).GetOr(fontSize);
    var fontChanged := FontChanged(si, fontSize, newFontSize, newDpr);
    var adopt := fontChanged || LastOf(signals, MessageBarOf).Some?;
    var resolved := if adopt && newSize.None? then Some(Rescaled(si, newDpr)) else newSize;
    var si1 := if adopt then si.(dpr := newDpr) else si;
    var fontSize1 := if adopt then newFontSize else fontSize;
    var cell := rasterizer(fontSize1, si1.dpr);
    if fontChanged then
      Adopted(si1.(cellWidth := cell.width, cellHeight := cell.height), fontSize1, resolved,
              [UpdateGlyphCache(fontSize1, si1.dpr)])
    else
      Adopted(si1, fontSize1, resolved, [])
  }

  /**
   * `handle_resize` as a function of the current geometry and font size and
   * of the pending signals: the new geometry and font size and the calls
   * made, in order.
   */
  function Reconcile(si: SizeInfo, fontSize: FontSize, signals: seq<Resize>, config: WindowConfig, rasterizer: Rasterizer)
    : Outcome
  {
    if Unchanged(si, fontSize, signals) then
      Outcome(si, fontSize, [])
    else
      var adopted := Adopt(si, fontSize, signals, rasterizer);
      match adopted.resolved
      case None => Outcome(adopted.sizeInfo, adopted.fontSize, adopted.glyph)
      case Some(p) =>
        var applied := ApplySize(Cols(si), Lines(si), adopted.sizeInfo, p, LastOf(signals, MessageBarOf), config,
                                 LastOf(signals, DprOf).GetOr(si.dpr));
        Outcome(applied.0, adopted.fontSize, adopted.glyph + applied.1)
  }

  /** Number of effects of one kind. */
  function Count(effects: seq<Effect>, kind: Effect -> bool): nat
    decreases |effects|
  {
    if effects == [] then 0
    else Count(effects[..|effects| - 1], kind) + if kind(effects[|effects| - 1]) then 1 else 0
  }

  lemma {:induction false} CountConcat(a: seq<Effect>, b: seq<Effect>, kind: Effect -> bool)
    ensures Count(a + b, kind) == Count(a, kind) + Count(b, kind)
    decreases |b|
  {
    if b == [] {
      assert a + b == a;
    } else {
      var n := |b| - 1;
      assert (a + b)[..|a + b| - 1] == a + b[..n];
      CountConcat(a, b[..n], kind);
    }
  }

  predicate IsGlyphUpdate(e: Effect) { e.UpdateGlyphCache? }
  predicate IsPtyResize(e: Effect) { e.PtyResize? }
  predicate IsContextResize(e: Effect) { e.ContextResize? }
  predicate IsRendererResize(e: Effect) { e.RendererResize? }
  predicate IsResizeEvent(e: Effect) { e.SendResizeEvent? }

  /** Without pending signals nothing changes and no collaborator is called. */
  lemma NoSignalsNoChange(si: SizeInfo, fontSize: FontSize, config: WindowConfig, rasterizer: Rasterizer)
    ensures Reconcile(si, fontSize, [], config, rasterizer) == Outcome(si, fontSize, [])
  {
  }

  /**
   * A size equal to the current one with no font change ends the call with
   * nothing changed, even if a message-bar signal was drained too.
   */
  lemma SameSizeReturnsEarly(si: SizeInfo, fontSize: FontSize, signals: seq<Resize>, config: WindowConfig,
                             rasterizer: Rasterizer)
    requires LastOf(signals, SizeOf) == Some(PhysicalSize(si.width, si.height))
    requires !FontChanged(si, fontSize, LastOf(signals, FontSizeOf).GetOr(fontSize), LastOf(signals, DprOf).GetOr(si.dpr))
    ensures Reconcile(si, fontSize, signals, config, rasterizer) == Outcome(si, fontSize, [])
  {
  }

  /**
   * A font, ratio or message-bar change without a window size rescales the
   * current size by the ratio of the ratios, and the display adopts the new
   * font size and ratio.
   */
  lemma ChangeWithoutSizeRescales(si: SizeInfo, fontSize: FontSize, signals: seq<Resize>, config: WindowConfig,
                                  rasterizer: Rasterizer)
    requires LastOf(signals, SizeOf).None?
    requires FontChanged(si, fontSize, LastOf(signals, FontSizeOf).GetOr(fontSize), LastOf(signals, DprOf).GetOr(si.dpr))
             || LastOf(signals, MessageBarOf).Some?
    ensures var r := Reconcile(si, fontSize, signals, config, rasterizer);
            var newDpr := LastOf(signals, DprOf).GetOr(si.dpr);
            && r.fontSize == LastOf(signals, FontSizeOf).GetOr(fontSize)
            && r.sizeInfo.dpr == newDpr
            && r.sizeInfo.width == Rescaled(si, newDpr).width
            && r.sizeInfo.height == Rescaled(si, newDpr).height
  {
  }

  /** Rescaling keeps the logical size (physical size over ratio) the window had. */
  lemma RescalingKeepsLogicalSize(si: SizeInfo, newDpr: PosReal)
    ensures Rescaled(si, newDpr).width / newDpr == si.width / si.dpr
    ensures Rescaled(si, newDpr).height / newDpr == si.height / si.dpr
  {
  }

  lemma CountOne(e: Effect, kind: Effect -> bool)
    ensures Count([e], kind) == if kind(e) then 1 else 0
  {
    assert [e][..0] == [];
  }

  /**
   * Applying a size tells the GL context, the renderer and the event loop
   * exactly once each, the pty once or not at all as `NotifiesPty` says, and
   * never touches the glyph cache; the geometry takes the size and keeps
   * its cell size and ratio.
   */
  lemma ApplySizeEffects(previousCols: nat, previousLines: nat, si: SizeInfo, p: PhysicalSize, messageBarLines: Option<nat>,
                         config: WindowConfig, dpr: PosReal)
    ensures var r := ApplySize(previousCols, previousLines, si, p, messageBarLines, config, dpr);
            && Count(r.1, IsContextResize) == 1
            && Count(r.1, IsRendererResize) == 1
            && Count(r.1, IsResizeEvent) == 1
            && Count(r.1, IsGlyphUpdate) == 0
            && Count(r.1, IsPtyResize) == (if NotifiesPty(previousCols, previousLines, PtySize(r.0, messageBarLines), messageBarLines) then 1 else 0)
            && r.0.width == p.width && r.0.height == p.height
            && r.0.cellWidth == si.cellWidth && r.0.cellHeight == si.cellHeight && r.0.dpr == si.dpr
  {
    var r := ApplySize(previousCols, previousLines, si, p, messageBarLines, config, dpr);
    var pty := PtySize(r.0, messageBarLines);
    var n: seq<Effect> := if NotifiesPty(previousCols, previousLines, pty, messageBarLines) then [PtyResize(pty)] else [];
    var tail := [ContextResize(p), RendererResize(p, r.0.paddingX, r.0.paddingY), SendResizeEvent(r.0)];
    assert r.1 == n + tail;
    CountThree(n, tail, IsContextResize);
    CountThree(n, tail, IsRendererResize);
    CountThree(n, tail, IsResizeEvent);
    CountThree(n, tail, IsGlyphUpdate);
    CountThree(n, tail, IsPtyResize);
  }

  /** Count over an optional head and three further calls. */
  lemma CountThree(n: seq<Effect>, tail: seq<Effect>, kind: Effect -> bool)
    requires |n| <= 1 && |tail| == 3
    ensures Count(n + tail, kind) == (if n != [] && kind(n[0]) then 1 else 0)
      + (if kind(tail[0]) then 1 else 0) + (if kind(tail[1]) then 1 else 0) + (if kind(tail[2]) then 1 else 0)
  {
    CountConcat(n, tail, kind);
    if n != [] {
      assert n == [n[0]];
      CountOne(n[0], kind);
    }
    assert tail[..2] == [tail[0], tail[1]] && tail[..2][..1] == [tail[0]];
    CountOne(tail[0], kind);
  }

  /**
   * The calls of a reconciliation that did not return early: one glyph
   * cache refresh iff the font size or ratio changed, and, iff a size was
   * resolved (one arrived, or one was synthesised for a font, ratio or
   * message-bar change), exactly one context resize, one renderer resize
   * and one `Resize` event, with the geometry taking that size. The cell
   * size changes only with the font.
   */
  lemma ReconcileEffectCounts(si: SizeInfo, fontSize: FontSize, signals: seq<Resize>,
                              config: WindowConfig, rasterizer: Rasterizer)
    requires !Unchanged(si, fontSize, signals)
    ensures var r := Reconcile(si, fontSize, signals, config, rasterizer);
            var newSize := LastOf(signals, SizeOf);
            var newDpr := LastOf(signals, DprOf).GetOr(si.dpr);
            var fontChanged := FontChanged(si, fontSize, LastOf(signals, FontSizeOf).GetOr(fontSize), newDpr);
            var resolves := newSize.Some? || fontChanged || LastOf(signals, MessageBarOf).Some?;
            && Count(r.effects, IsGlyphUpdate) == (if fontChanged then 1 else 0)
            && Count(r.effects, IsContextResize) == (if resolves then 1 else 0)
            && Count(r.effects, IsRendererResize) == (if resolves then 1 else 0)
            && Count(r.effects, IsResizeEvent) == (if resolves then 1 else 0)
            && Count(r.effects, IsPtyResize) <= (if resolves then 1 else 0)
            && (newSize.Some? ==> r.sizeInfo.width == newSize.value.width && r.sizeInfo.height == newSize.value.height)
            && (!fontChanged ==> r.sizeInfo.cellWidth == si.cellWidth && r.sizeInfo.cellHeight == si.cellHeight)
  {
    var newDpr := LastOf(signals, DprOf).GetOr(si.dpr);
    var messageBarLines := LastOf(signals, MessageBarOf);
    var adopted := Adopt(si, fontSize, signals, rasterizer);
    AdoptEffects(si, fontSize, signals, rasterizer);
    var r := Reconcile(si, fontSize, signals, config, rasterizer);
    if adopted.resolved.Some? {
      var applied := ApplySize(Cols(si), Lines(si), adopted.sizeInfo, adopted.resolved.value, messageBarLines, config, newDpr);
      assert r.effects == adopted.glyph + applied.1;
      ApplySizeEffects(Cols(si), Lines(si), adopted.sizeInfo, adopted.resolved.value, messageBarLines, config, newDpr);
      CountConcatKinds(adopted.glyph, applied.1);
    } else {
      assert r.effects == adopted.glyph;
    }
  }

  lemma CountConcatKinds(a: seq<Effect>, b: seq<Effect>)
    ensures Count(a + b, IsGlyphUpdate) == Count(a, IsGlyphUpdate) + Count(b, IsGlyphUpdate)
    ensures Count(a + b, IsContextResize) == Count(a, IsContextResize) + Count(b, IsContextResize)
    ensures Count(a + b, IsRendererResize) == Count(a, IsRendererResize) + Count(b, IsRendererResize)
    ensures Count(a + b, IsResizeEvent) == Count(a, IsResizeEvent) + Count(b, IsResizeEvent)
    ensures Count(a + b, IsPtyResize) == Count(a, IsPtyResize) + Count(b, IsPtyResize)
  {
    CountConcat(a, b, IsGlyphUpdate);
    CountConcat(a, b, IsContextResize);
    CountConcat(a, b, IsRendererResize);
    CountConcat(a, b, IsResizeEvent);
    CountConcat(a, b, IsPtyResize);
  }

  /**
   * Adoption refreshes the glyph cache once iff the font size or ratio
   * changed and makes no other call; it resolves a window size iff one
   * arrived or there was a font, ratio or message-bar change, and a size
   * that arrived is the one resolved. The cell size changes only with the
   * font.
   */
  lemma AdoptEffects(si: SizeInfo, fontSize: FontSize, signals: seq<Resize>, rasterizer: Rasterizer)
    ensures var a := Adopt(si, fontSize, signals, rasterizer);
            var newSize := LastOf(signals, SizeOf);
            var fontChanged := FontChanged(si, fontSize, LastOf(signals, FontSizeOf).GetOr(fontSize),
                                           LastOf(signals, DprOf).GetOr(si.dpr));
            && Count(a.glyph, IsGlyphUpdate) == (if fontChanged then 1 else 0)
            && Count(a.glyph, IsContextResize) == 0 && Count(a.glyph, IsRendererResize) == 0
            && Count(a.glyph, IsResizeEvent) == 0 && Count(a.glyph, IsPtyResize) == 0
            && (a.resolved.Some? <==> newSize.Some? || fontChanged || LastOf(signals, MessageBarOf).Some?)
            && (newSize.Some? ==> a.resolved == newSize)
            && (!fontChanged ==> a.sizeInfo.cellWidth == si.cellWidth && a.sizeInfo.cellHeight == si.cellHeight)
  {
    var a := Adopt(si, fontSize, signals, rasterizer);
    if a.glyph != [] {
      CountOne(a.glyph[0], IsGlyphUpdate);
      CountOne(a.glyph[0], IsContextResize);
      CountOne(a.glyph[0], IsRendererResize);
      CountOne(a.glyph[0], IsResizeEvent);
      CountOne(a.glyph[0], IsPtyResize);
    }
  }

  /** Re-sending the window size just applied, with nothing else, changes nothing. */
  lemma ResendingAppliedSizeIsNoOp(si: SizeInfo, fontSize: FontSize, p: PhysicalSize, config: WindowConfig,
                                   rasterizer: Rasterizer)
    ensures var r := Reconcile(si, fontSize, [Size(p)], config, rasterizer);
            Reconcile(r.sizeInfo, r.fontSize, [Size(p)], config, rasterizer) == Outcome(r.sizeInfo, r.fontSize, [])
  {
    assert [Size(p)][..0] == [];
  }

  /**
   * The pty is told the new geometry with the message bar's lines taken off
   * the height: only when a message-bar count arrived or its column or
   * line count changed, and always then, once the call has not returned
   * early and a window size was resolved.
   */
  lemma PtyNotification(si: SizeInfo, fontSize: FontSize, signals: seq<Resize>, config: WindowConfig,
                        rasterizer: Rasterizer)
    ensures var r := Reconcile(si, fontSize, signals, config, rasterizer);
            var mb := LastOf(signals, MessageBarOf);
            var pty := PtySize(r.sizeInfo, mb);
            && (PtyResize(pty) in r.effects ==> NotifiesPty(Cols(si), Lines(si), pty, mb))
            && (forall e :: e in r.effects && e.PtyResize? ==> e == PtyResize(pty))
            && (mb.Some? ==> Lines(pty) == if Lines(r.sizeInfo) >= mb.value then Lines(r.sizeInfo) - mb.value else 0)
            && (!Unchanged(si, fontSize, signals)
                && (LastOf(signals, SizeOf).Some? || mb.Some?
                    || FontChanged(si, fontSize, LastOf(signals, FontSizeOf).GetOr(fontSize), LastOf(signals, DprOf).GetOr(si.dpr)))
                && NotifiesPty(Cols(si), Lines(si), pty, mb)
                ==> PtyResize(pty) in r.effects)
  {
    var r := Reconcile(si, fontSize, signals, config, rasterizer);
    var mb := LastOf(signals, MessageBarOf);
    AdoptEffects(si, fontSize, signals, rasterizer);
    if mb.Some? {
      PtySizeDropsMessageBarLines(r.sizeInfo, mb.value);
    }
  }

  // ---------------------------------------------------------------------
  // The display object
  // ---------------------------------------------------------------------

  /** `Display`: the font size and geometry it owns, its resize channel and the calls it has made. */
  class Display {
    var fontSize: FontSize
    var sizeInfo: SizeInfo
    var rx: seq<Resize>
    var effects: seq<Effect>

    /**
     * The padding block of `Display::new`: the window's inner size in
     * physical pixels, or the size computed from configured dimensions when
     * there are some; padding by the same rule as on resize, except that it
     * is never dynamic when dimensions are configured.
     */
    constructor (config: WindowConfig, configFontSize: FontSize, dpr: PosReal, innerSize: PhysicalSize,
                 dimensions: Option<PhysicalSize>, rasterizer: Rasterizer)
      ensures var cell := rasterizer(configFontSize, dpr);
              var physical := PhysicalSize(innerSize.width * dpr, innerSize.height * dpr);
              var resizeWindow := dimensions.Some? && dimensions.value != physical;
              var viewport := if resizeWindow then dimensions.value else physical;
              var dynamic := config.dynamicPadding && dimensions.None?;
              && sizeInfo == SizeInfo(viewport.width, viewport.height, cell.width, cell.height,
                                      Padding(config.paddingX, dpr, viewport.width, cell.width, dynamic),
                                      Padding(config.paddingY, dpr, viewport.height, cell.height, dynamic), dpr)
              && fontSize == configFontSize && rx == []
              && effects == (if resizeWindow then [SetInnerSize(PhysicalSize(viewport.width / dpr, viewport.height / dpr))] else [])
                            + [RendererResize(viewport, sizeInfo.paddingX, sizeInfo.paddingY), ClearScreen]
    {
      var viewportSize := PhysicalSize(innerSize.width * dpr, innerSize.height * dpr);
      var cell := rasterizer(configFontSize, dpr);
      var calls: seq<Effect> := [];
      var dynamic := false;
      match dimensions {
        case Some(dims) =>
          var w := PhysicalSize(innerSize.width * dpr, innerSize.height * dpr);
          if w == dims {
            // the window already has the configured size
          } else {
            viewportSize := dims;
            calls := calls + [SetInnerSize(PhysicalSize(dims.width / dpr, dims.height / dpr))];
          }
        case None =>
          // dynamic padding: half the leftover on each side
          dynamic := config.dynamicPadding;
      }
      var px := Padding(config.paddingX, dpr, viewportSize.width, cell.width, dynamic);
      var py := Padding(config.paddingY, dpr, viewportSize.height, cell.height, dynamic);
      calls := calls + [RendererResize(viewportSize, px, py), ClearScreen];
      sizeInfo := SizeInfo(viewportSize.width, viewportSize.height, cell.width, cell.height, px, py, dpr);
      fontSize := configFontSize;
      rx := [];
      effects := calls;
    }

    /** `resize_channel().send(signal)`: queue a signal behind those already pending. */
    method Send(signal: Resize)
      modifies this`rx
      ensures rx == old(rx) + [signal]
    {
      rx := rx + [signal];
    }

    /**
     * `update_glyph_cache`: refresh the glyph cache for the current font size
     * and ratio, and take the cell size it reports.
     */
    method UpdateGlyphCache(rasterizer: Rasterizer)
      modifies this`sizeInfo, this`effects
      ensures var cell := rasterizer(fontSize, old(sizeInfo).dpr);
              sizeInfo == old(sizeInfo).(cellWidth := cell.width, cellHeight := cell.height)
      ensures effects == old(effects) + [Effect.UpdateGlyphCache(fontSize, old(sizeInfo).dpr)]
    {
      var dpr := sizeInfo.dpr;
      effects := effects + [Effect.UpdateGlyphCache(fontSize, dpr)];
      var cell := rasterizer(fontSize, dpr);
      sizeInfo := sizeInfo.(cellWidth := cell.width, cellHeight := cell.height);
    }

    /** `handle_resize`: drain the channel and apply the coalesced change once. */
    method HandleResize(config: WindowConfig, rasterizer: Rasterizer)
      modifies this
      ensures rx == []
      ensures var r := Reconcile(old(sizeInfo), old(fontSize), old(rx), config, rasterizer);
              sizeInfo == r.sizeInfo && fontSize == r.fontSize && effects == old(effects) + r.effects
    {
      var previousCols := Cols(sizeInfo);
      var previousLines := Lines(sizeInfo);
      var newSize, newDpr, newFontSize, messageBarLines := Coalesce(rx, sizeInfo.dpr, fontSize);
      rx := [];

      var fontChanged := newFontSize != fontSize || newDpr != sizeInfo.dpr;
      assert fontChanged == FontChanged(old(sizeInfo), old(fontSize), newFontSize, newDpr);

      // early return: same size, same font size and ratio
      if newSize.Some? && !fontChanged && newSize.value.width == sizeInfo.width && newSize.value.height == sizeInfo.height {
        return;
      }
      assert !Unchanged(old(sizeInfo), old(fontSize), old(rx));
      ghost var expected := Adopt(old(sizeInfo), old(fontSize), old(rx), rasterizer);

      if fontChanged || messageBarLines.Some? {
        if newSize.None? {
          // a font, ratio or message-bar change synthesises the current size, rescaled
          newSize := Some(Rescaled(sizeInfo, newDpr));
        }
        fontSize := newFontSize;
        sizeInfo := sizeInfo.(dpr := newDpr);
      }

      if fontChanged {
        UpdateGlyphCache(rasterizer);
      }
      assert sizeInfo == expected.sizeInfo && fontSize == expected.fontSize && newSize == expected.resolved;
      assert effects == old(effects) + expected.glyph;

      if newSize.Some? {
        ghost var before := effects;
        ApplyNewSize(newSize.value, newDpr, messageBarLines, previousCols, previousLines, config);
        ghost var applied := ApplySize(previousCols, previousLines, expected.sizeInfo, newSize.value, messageBarLines,
                                       config, newDpr);
        assert effects == before + applied.1;
        assert effects == old(effects) + (expected.glyph + applied.1);
      }
    }

    /** The second half of `handle_resize`: apply a resolved window size. */
    method ApplyNewSize(psize: PhysicalSize, newDpr: PosReal, messageBarLines: Option<nat>,
                        previousCols: nat, previousLines: nat, config: WindowConfig)
      modifies this`sizeInfo, this`effects
      ensures var applied := ApplySize(previousCols, previousLines, old(sizeInfo), psize, messageBarLines, config, newDpr);
              sizeInfo == applied.0 && effects == old(effects) + applied.1
    {
      var cellWidth := sizeInfo.cellWidth;
      var cellHeight := sizeInfo.cellHeight;
      sizeInfo := sizeInfo.(width := psize.width, height := psize.height,
                            paddingX := Padding(config.paddingX, newDpr, psize.width, cellWidth, config.dynamicPadding),
                            paddingY := Padding(config.paddingY, newDpr, psize.height, cellHeight, config.dynamicPadding));

      // the pty sees the grid without the message bar
      var ptySize := sizeInfo;
      if messageBarLines.Some? {
        ptySize := ptySize.(height := ptySize.height - ptySize.cellHeight * messageBarLines.value as real);
      }
      assert ptySize == PtySize(sizeInfo, messageBarLines);

      if messageBarLines.Some? || previousCols != Cols(ptySize) || previousLines != Lines(ptySize) {
        effects := effects + [PtyResize(ptySize)];
      }

      effects := effects + [ContextResize(psize), RendererResize(psize, sizeInfo.paddingX, sizeInfo.paddingY),
                            SendResizeEvent(sizeInfo)];
    }
  }

  /**
   * The decoration part of the grid loop of `draw`: feed every cell, in
   * order, to the accumulator. `draw` passes a fresh one, for which
   * `Rects.FrameTilesRuns` describes the result.
   */
  method DrawDecorations(rects: Rects.Rects, cells: seq<Rects.RenderableCell>, sizeInfo: SizeInfo, offset: Rects.Offset)
    modifies rects
    ensures var r := Rects.Feed(old(rects.activeLines), cells, sizeInfo, rects.metrics, rects.size, offset);
            rects.activeLines == r.0 && rects.inner == old(rects.inner) + r.1
  {
    var i := 0;
    while i < |cells|
      invariant 0 <= i <= |cells|
      invariant var r := Rects.Feed(old(rects.activeLines), cells[..i], sizeInfo, rects.metrics, rects.size, offset);
                rects.activeLines == r.0 && rects.inner == old(rects.inner) + r.1
    {
      ghost var done := Rects.Feed(old(rects.activeLines), cells[..i], sizeInfo, rects.metrics, rects.size, offset);
      ghost var before := rects.inner;
      rects.UpdateLines(sizeInfo, cells[i], offset);
      ghost var step := Rects.StepLines(done.0, sizeInfo, cells[i], rects.metrics, rects.size, offset);
      assert cells[..i + 1][..i] == cells[..i] && cells[..i + 1][i] == cells[i];
      assert Rects.Feed(old(rects.activeLines), cells[..i + 1], sizeInfo, rects.metrics, rects.size, offset)
          == (step.0, done.1 + step.1);
      assert rects.inner == old(rects.inner) + (done.1 + step.1);
      i := i + 1;
    }
    assert cells[..i] == cells;
  }
}
