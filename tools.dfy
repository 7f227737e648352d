/** Pen and eraser state: ink and background colours, eraser mode with its
    stashed pen colour, and the two size tiers. Each handler is modelled
    together with the React effects its state change triggers, run in their
    declaration order: the effect at lines 174-178 (background auto-swap)
    before the effect at lines 180-187 (eraser). Both queue a colour update
    and the later one wins. */
module Tools {
  import opened Wrappers

  datatype Size = Small | Medium | Large

  /** Pen line widths in pixels. */
  function PenWidth(s: Size): (w: nat)
    ensures s == Small ==> w == 2
    ensures s == Medium ==> w == 4
    ensures s == Large ==> w == 8
  {
    match s
    case Small => 2
    case Medium => 4
    case Large => 8
  }

  /** Eraser line widths in pixels. */
  function EraserWidth(s: Size): (w: nat)
    ensures s == Small ==> w == 8
    ensures s == Medium ==> w == 20
    ensures s == Large ==> w == 36
  {
    match s
    case Small => 8
    case Medium => 20
    case Large => 36
  }

  // ---------------------------------------------------------------- colours

  /** ASCII lower-casing of one character. */
  function LowerChar(c: char): (r: char)
    ensures 'A' <= c <= 'Z' ==> r as int == c as int + 32
    ensures !('A' <= c <= 'Z') ==> r == c
  {
    if 'A' <= c <= 'Z' then (c as int + 32) as char else c
  }

  /** `toLowerCase` on colour strings (ASCII letters only). */
  function ToLower(s: string): (r: string)
    ensures |r| == |s|
    ensures forall i :: 0 <= i < |s| ==> r[i] == LowerChar(s[i])
  {
    seq(|s|, i requires 0 <= i < |s| => LowerChar(s[i]))
  }

  predicate SameIgnoringCase(a: string, b: string)
  {
    ToLower(a) == ToLower(b)
  }

  /** A string with no upper-case ASCII letter, as every swatch is. */
  predicate IsLowerCase(s: string)
  {
    forall i :: 0 <= i < |s| ==> !('A' <= s[i] <= 'Z')
  }

  /** The replacement ink chosen when the background would hide the ink:
      black on the exact string "#ffffff", white on every other background. */
  function ContrastingInk(background: string): (ink: string)
    ensures ink == "#000000" || ink == "#ffffff"
    ensures ink == "#000000" <==> background == "#ffffff"
    ensures ink != background
    ensures IsLowerCase(background) ==> !SameIgnoringCase(ink, background)
  {
    if background == "#ffffff" then "#000000" else "#ffffff"
  }

  /** The rule is not "black unless the background is black": a red
      background also gets white ink, and so does "#FFFFFF", which equals the
      ink ignoring case. */
  lemma ContrastRuleExamples()
    ensures ContrastingInk("#ee3333") == "#ffffff"
    ensures ContrastingInk("#000000") == "#ffffff"
    ensures ContrastingInk("#FFFFFF") == "#ffffff"
    ensures SameIgnoringCase(ContrastingInk("#FFFFFF"), "#FFFFFF")
  {
  }

  /** The colour update queued by the auto-swap effect when the background
      becomes `background`; `None` when the ink already differs from it
      ignoring case. */
  function AutoSwap(ink: string, background: string): (update: Option<string>)
    ensures update.Some? <==> SameIgnoringCase(ink, background)
    ensures update.Some? ==> update.value == ContrastingInk(background)
    ensures update.Some? && IsLowerCase(background) ==> !SameIgnoringCase(update.value, background)
  {
    if SameIgnoringCase(ink, background) then Some(ContrastingInk(background)) else None
  }

  // ------------------------------------------------------------- tool state

  datatype ToolState = ToolState(
    color: string,            // the stroke style used by the next move
    backgroundColor: string,
    isErasing: bool,
    lastPenColor: string,     // the ink stashed when eraser mode was entered
    penSize: Size,
    eraserSize: Size)

  /** The state after mount: the initial ink, a black background, pen mode,
      medium sizes. */
  function InitialTools(): (t: ToolState)
    ensures !t.isErasing && t.color == t.lastPenColor && t.color != t.backgroundColor
    ensures t.color == "rgb(255, 255, 255)" && t.backgroundColor == "#000000"
    ensures t.penSize == Medium && t.eraserSize == Medium
  {
    ToolState("rgb(255, 255, 255)", "#000000", false, "rgb(255, 255, 255)", Medium, Medium)
  }

  /** The width of the next stroke segment. */
  function LineWidth(t: ToolState): (w: nat)
    ensures t.isErasing ==> w == EraserWidth(t.eraserSize)
    ensures !t.isErasing ==> w == PenWidth(t.penSize)
  {
    if t.isErasing then EraserWidth(t.eraserSize) else PenWidth(t.penSize)
  }

  /** While erasing, strokes are painted in the background colour. */
  predicate ErasingPaintsBackground(t: ToolState)
  {
    t.isErasing ==> t.color == t.backgroundColor
  }

  /** The eraser effect. Entering eraser mode stashes the ink the render saw
      (`rendered`) and paints with the background; in pen mode it restores
      the stash. */
  function EraserEffect(t: ToolState, rendered: string): (r: ToolState)
    ensures ErasingPaintsBackground(r)
    ensures r.isErasing == t.isErasing && r.backgroundColor == t.backgroundColor
    ensures r.penSize == t.penSize && r.eraserSize == t.eraserSize
    ensures !t.isErasing ==> r.color == t.lastPenColor && r.lastPenColor == t.lastPenColor
    ensures t.isErasing ==> r.lastPenColor == rendered
  {
    if t.isErasing then t.(lastPenColor := rendered, color := t.backgroundColor)
    else t.(color := t.lastPenColor)
  }

  /** Picking a background swatch. Choosing the current background is no
      state change, so no effect runs. Otherwise the auto-swap effect queues
      its update and the eraser effect then queues its own, which wins. */
  function BackgroundPicked(t: ToolState, swatch: string): (r: ToolState)
    ensures r.backgroundColor == swatch
    ensures r.isErasing == t.isErasing && r.penSize == t.penSize && r.eraserSize == t.eraserSize
    ensures swatch == t.backgroundColor ==> r == t
  {
    if swatch == t.backgroundColor then t
    else
      var swapped := match AutoSwap(t.color, swatch)
                     case Some(ink) => ink
                     case None => t.color;
      EraserEffect(t.(backgroundColor := swatch, color := swapped), t.color)
  }

  /** Picking an ink swatch. A swatch equal to the background is disabled.
      Otherwise the ink is set and eraser mode is left; when eraser mode was
      on, leaving it runs the eraser effect, which restores the stash over
      the swatch. */
  function InkPicked(t: ToolState, swatch: string): (r: ToolState)
    ensures r.backgroundColor == t.backgroundColor
    ensures r.penSize == t.penSize && r.eraserSize == t.eraserSize
    ensures r.lastPenColor == t.lastPenColor
  {
    if swatch == t.backgroundColor then t
    else
      var picked := t.(color := swatch, isErasing := false);
      if t.isErasing then EraserEffect(picked, swatch) else picked
  }

  /** Picking a pen size; it also leaves eraser mode. */
  function PenSizePicked(t: ToolState, size: Size): (r: ToolState)
    ensures r.penSize == size && !r.isErasing
    ensures r.backgroundColor == t.backgroundColor && r.eraserSize == t.eraserSize
    ensures r.color == (if t.isErasing then t.lastPenColor else t.color)
    ensures r.lastPenColor == t.lastPenColor
  {
    var picked := t.(penSize := size, isErasing := false);
    if t.isErasing then EraserEffect(picked, t.color) else picked
  }

  /** Pressing the eraser button: enters eraser mode unless already in it. */
  function EraserPressed(t: ToolState): (r: ToolState)
    ensures r.isErasing
    ensures r.backgroundColor == t.backgroundColor
    ensures r.penSize == t.penSize && r.eraserSize == t.eraserSize
    ensures t.isErasing ==> r == t
  {
    if t.isErasing then t else EraserEffect(t.(isErasing := true), t.color)
  }

  /** Picking an eraser size from the eraser menu. */
  function EraserSizePicked(t: ToolState, size: Size): (r: ToolState)
    ensures r.eraserSize == size
    ensures r.isErasing == t.isErasing && r.color == t.color
    ensures r.backgroundColor == t.backgroundColor && r.lastPenColor == t.lastPenColor && r.penSize == t.penSize
  {
    t.(eraserSize := size)
  }

  // ------------------------------------------------------------- properties

  /** Every handler keeps "erasing paints with the background". */
  lemma ErasingPaintsBackgroundPreserved(t: ToolState, swatch: string, size: Size)
    requires ErasingPaintsBackground(t)
    ensures ErasingPaintsBackground(BackgroundPicked(t, swatch))
    ensures ErasingPaintsBackground(InkPicked(t, swatch))
    ensures ErasingPaintsBackground(PenSizePicked(t, size))
    ensures ErasingPaintsBackground(EraserPressed(t))
    ensures ErasingPaintsBackground(EraserSizePicked(t, size))
  {
  }

  /** A background change never keeps the auto-swapped ink: the eraser
      effect runs after it and sets the ink to the new background (eraser
      mode) or to the stashed pen colour (pen mode). While erasing, the
      stash is overwritten by the ink the render saw, which is the old
      background. */
  lemma BackgroundPickedInk(t: ToolState, swatch: string)
    requires swatch != t.backgroundColor
    ensures var r := BackgroundPicked(t, swatch);
            r.color == (if t.isErasing then swatch else t.lastPenColor) &&
            r.lastPenColor == (if t.isErasing then t.color else t.lastPenColor)
  {
  }

  /** A swatch equal to the background is ignored. */
  lemma InkSwatchOnBackgroundIgnored(t: ToolState, swatch: string)
    requires swatch == t.backgroundColor
    ensures InkPicked(t, swatch) == t
  {
  }

  /** Picking an ink swatch leaves eraser mode. In pen mode the swatch
      becomes the ink; in eraser mode the stashed ink comes back instead. */
  lemma InkPickedLeavesEraser(t: ToolState, swatch: string)
    requires swatch != t.backgroundColor
    ensures !InkPicked(t, swatch).isErasing
    ensures InkPicked(t, swatch).color == if t.isErasing then t.lastPenColor else swatch
  {
  }

  /** Entering eraser mode stashes the ink and paints with the background;
      leaving it again, by a pen size or by an ink swatch, brings the ink
      back. */
  lemma EraserRoundTrip(t: ToolState, size: Size, swatch: string)
    requires !t.isErasing
    ensures EraserPressed(t).color == t.backgroundColor
    ensures EraserPressed(t).lastPenColor == t.color
    ensures PenSizePicked(EraserPressed(t), size).color == t.color
    ensures swatch != t.backgroundColor ==> InkPicked(EraserPressed(t), swatch).color == t.color
  {
  }

  /** In pen mode a chosen ink does not survive a background change: the
      eraser effect re-runs and restores the stash, which still holds the
      ink from mount. Red ink picked on the initial black background turns
      back into the initial white when the background becomes white. */
  lemma BackgroundChangeDropsPickedInk()
    ensures var picked := InkPicked(InitialTools(), "#ee3333");
            picked.color == "#ee3333" &&
            BackgroundPicked(picked, "#ffffff").color == "rgb(255, 255, 255)"
  {
  }

  /** In pen mode, after any ink swatch, a background change sets the ink to
      the stash the swatch left untouched. */
  lemma {:induction false} PenModeBackgroundRestoresStash(t: ToolState, ink: string, bg: string)
    requires !t.isErasing && bg != t.backgroundColor
    ensures BackgroundPicked(InkPicked(t, ink), bg).color == t.lastPenColor
  {
    BackgroundPickedInk(InkPicked(t, ink), bg);
  }

  /** Ink equal to the background is reachable from the initial state by
      four clicks: white ink, eraser, white ink again (which restores the
      white stash), then a white background. The auto-swap does fire on
      the last click, but the eraser effect overrides it with the stash. */
  lemma InkCanEqualBackground()
    ensures var t := BackgroundPicked(InkPicked(EraserPressed(InkPicked(InitialTools(), "#ffffff")), "#ffffff"), "#ffffff");
            t.color == t.backgroundColor == "#ffffff" && !t.isErasing
  {
  }
}
