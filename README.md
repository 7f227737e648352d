# Whiteboard controller

A Dafny model of the drawing-and-history engine of the VisioCalc whiteboard
screen (`frontend/src/screens/home/index.tsx`). The React component holds one
controller's worth of state: a canvas, linear-undo history over full-canvas
snapshots, the pen/eraser tool state, the annotation list of recognised
results, the variable bindings and a busy flag. The model writes that state
as one class, `Whiteboard.Controller`, with one method per handler or timer
callback. Each method includes the React effects that its state change
triggers, run in declaration order. Every method is specified by a pure
transition in a per-component module, and the properties are proved about
those transitions:

- `Canvas`: points, the canvas surface, snapshots, and page-to-canvas
  coordinates.
- `Annotations`: appending and deleting results.
- `History`: the two parallel logs, the cursor, and commit, undo and redo.
- `Tools`: ink and background colours, eraser mode, the size tables, and the
  two colour effects.
- `BoundingBox`: the alpha-channel scan and the anchor it yields.
- `Recognition`: requests, replies and the bindings update.
- `Scenarios`: client walk-throughs built only from the handlers' contracts.

Canvas pixels are a value (`Surface`) that records how it was produced:
transparent, filled with one colour, or a path stroked over what was there.
Snapshots (`toDataURL`) are opaque `Snapshot` values. Decoding a snapshot
gives back the surface it encoded.

## Behaviour worth knowing

Each point is a fact about `frontend/src/screens/home/index.tsx` and names
the member that states it.

- A press and release without movement records two history entries:
  `startDrawing` commits, and `stopDrawing` (lines 270-276) commits again
  because it tests `isDrawing`, not whether the pointer moved. The comment at
  line 270 says it should save only when something was drawn
  (`History.TapRecordsTwice`).
- The contrasting ink (line 176) is black only when the background is
  exactly the string `"#ffffff"`. It is white on every other background,
  red included (`Tools.ContrastingInk`, `Tools.ContrastRuleExamples`).
- On a background change the eraser effect (lines 180-187) always queues a
  `setColor`, and the auto-swap effect (lines 174-178) queues one only when
  the ink equals the new background ignoring case. The eraser effect is
  declared second, so its value wins.
  The ink therefore becomes the new background (eraser mode) or the stashed
  pen colour (pen mode), and the auto-swap never survives
  (`Tools.BackgroundPickedInk`). Ink equal to the background is reachable in
  four clicks (`Tools.InkCanEqualBackground`). What holds throughout is that
  eraser mode paints with the background
  (`Tools.ErasingPaintsBackgroundPreserved`).
- In pen mode a chosen ink does not survive a background change. The stash
  is written only when eraser mode is entered (line 182), so picking a
  swatch leaves it alone, and the eraser effect re-runs on the background
  change and restores it (`Tools.PenModeBackgroundRestoresStash`). Red ink
  picked at start turns back into the initial white when the background
  becomes white (`Tools.BackgroundChangeDropsPickedInk`).
- Picking an ink swatch while erasing (lines 533-537) leaves eraser mode.
  The eraser effect then restores the stashed ink over the chosen swatch
  (`Tools.InkPickedLeavesEraser`).
- Each assignment in a reply (lines 303-310) writes
  `{...dictOfVars, [expr]: result}` over the bindings captured when the
  request was made, so only the last assignment survives
  (`Recognition.TwoAssignmentsKeepOnlyLast`). With at most one assignment
  this agrees with merging every item in order
  (`Recognition.SingleAssignmentMerges`).
- Only drawing, deleting and reset commit. A result revealed by its timer
  (lines 334-340, then the result effect at 128-132) and the refill caused
  by a background change are shown but never recorded, so an undo followed
  by a redo replaces such a screen with the entry under the cursor
  (`History.UndoThenRedo`).
- Reset (lines 401-404 and 134-142) commits like any other action: it
  prunes the redo branch and appends the screen, and does not reset the log
  to a single entry. The pre-reset screen stays reachable
  (`History.ResetKeepsPriorState`).
- The scan (lines 311-331) treats a canvas without ink like any other: the
  box is `(width, height, 0, 0)`, whose centre is the image centre
  (`BoundingBox.NoInk`). A canvas filled with the background after a reset
  or a shown result is opaque everywhere, so its box is the whole image.
- The scan reads the canvas as it is when the reply arrives, not the image
  that was sent.
- `renderLatexToCanvas` (lines 78-93) depends on the background colour, so
  the result effect (lines 128-132) re-runs on every background change. It
  appends the last shown result again and refills the canvas
  (`Whiteboard.Controller.PickBackgroundColor`,
  `Scenarios.BackgroundRepeatsResult`).

## Model

| member | source | states |
|---|---|---|
| `Canvas.Capture` | frontend/src/screens/home/index.tsx:210 | decoding a snapshot of the canvas gives back exactly that canvas, so a restored entry shows what was recorded |
| `Canvas.CanvasCoords` | frontend/src/screens/home/index.tsx:218-229 | the canvas point plus the canvas's on-screen origin plus the scroll offset is the page point, for mouse and touch alike |
| `Canvas.CoordsIgnoreScroll` | frontend/src/screens/home/index.tsx:217-229 | for a page point that is a viewport point plus the scroll, the canvas point does not depend on how far the page is scrolled |
| `Annotations.Appended` | frontend/src/screens/home/index.tsx:78-83 | adding a result keeps the list as its prefix and adds exactly one `{expr, result}` at the end |
| `Annotations.RemoveIndex` | frontend/src/screens/home/index.tsx:353 | filtering out position `index` removes exactly that element and keeps the rest in order; an index naming no position leaves the list unchanged |
| `Annotations.RemoveIndexKeepsOthers` | frontend/src/screens/home/index.tsx:351-354 | after a deletion the list is one shorter; elements before the index keep their position and later ones move down by one |
| `History.Initial` | frontend/src/screens/home/index.tsx:189-200 | after mount the latex log is `[[]]`, the canvas log holds the snapshot of the given canvas, and the screen shows the empty list on that canvas; neither undo nor redo is possible |
| `History.Commit` | frontend/src/screens/home/index.tsx:202-215 | the first `cursor+1` entries of both logs are kept; the screen is appended; the cursor is the new last index; the logs stay the same length; no redo is available |
| `History.Undo` | frontend/src/screens/home/index.tsx:357-376 | at cursor 0 nothing changes; otherwise the cursor drops by one and the entry there is shown; the logs are untouched |
| `History.Redo` | frontend/src/screens/home/index.tsx:379-398 | at the last index nothing changes; otherwise the cursor rises by one and the entry there is shown; the logs are untouched |
| `History.UndoThenRedo` | frontend/src/screens/home/index.tsx:357-398 | from a non-zero cursor, undo then redo returns to the same cursor and shows the entry there; from a synced screen nothing changes |
| `History.RedoThenUndo` | frontend/src/screens/home/index.tsx:357-398 | below the last index, redo then undo returns to the same cursor and shows the entry there |
| `History.CommitPrunesRedo` | frontend/src/screens/home/index.tsx:202-215 | after any commit (stroke start, stroke end, delete, reset) redo changes nothing: the redo branch is gone |
| `History.UndoAfterStroke` | frontend/src/screens/home/index.tsx:232-276 | one undo after a completed stroke shows exactly the annotations and canvas from before the stroke, whatever the stroke painted |
| `History.TapRecordsTwice` | frontend/src/screens/home/index.tsx:270-276 | a press and release without movement appends two entries, both equal to the screen |
| `History.ResetKeepsPriorState` | frontend/src/screens/home/index.tsx:401-404 | reset commits like any other action, so the log keeps entries up to the cursor and gains one (the redo branch is pruned, the log is not reset to one entry); undo then redo shows the pre-reset screen; from a synced screen a single undo does |
| `History.NavigationSyncs` | frontend/src/screens/home/index.tsx:357-398 | commit always leaves the screen showing the entry under the cursor; undo and redo keep that so |
| `Tools.ToLower` | frontend/src/screens/home/index.tsx:175 | lower-casing keeps the length and lower-cases each ASCII letter in place |
| `Tools.ContrastingInk` | frontend/src/screens/home/index.tsx:176 | the replacement ink is black exactly when the background is the string `"#ffffff"` and white otherwise; it differs from the background, and from it ignoring case when the background is lower case |
| `Tools.ContrastRuleExamples` | frontend/src/screens/home/index.tsx:174-178 | a red or black background gets white ink; `"#FFFFFF"` also gets white ink, which equals it ignoring case |
| `Tools.AutoSwap` | frontend/src/screens/home/index.tsx:174-178 | the effect queues an ink update exactly when the ink equals the new background ignoring case, and the queued ink is `ContrastingInk` of the background |
| `Tools.InitialTools` | frontend/src/screens/home/index.tsx:22-49 | the tools start with ink `"rgb(255, 255, 255)"` on background `"#000000"`, in pen mode, with medium pen and eraser sizes and the stash equal to the ink |
| `Tools.PenWidth` | frontend/src/screens/home/index.tsx:45-49 | the pen table: small 2, medium 4, large 8 pixels |
| `Tools.EraserWidth` | frontend/src/screens/home/index.tsx:38-42 | the eraser table: small 8, medium 20, large 36 pixels |
| `Tools.LineWidth` | frontend/src/screens/home/index.tsx:262 | a stroke uses the eraser table at the eraser size when erasing, else the pen table at the pen size |
| `Tools.EraserEffect` | frontend/src/screens/home/index.tsx:180-187 | in eraser mode the render's ink is stashed and the background becomes the ink; in pen mode the stash becomes the ink; either way erasing paints with the background |
| `Tools.BackgroundPicked` | frontend/src/screens/home/index.tsx:466-469 | the background becomes the swatch and the mode and sizes do not change; picking the current background changes nothing |
| `Tools.BackgroundPickedInk` | frontend/src/screens/home/index.tsx:174-187 | on a real background change the ink ends as the new background (erasing) or the stashed ink (pen), whatever the auto-swap queued; while erasing the stash becomes the old ink |
| `Tools.InkPicked` | frontend/src/screens/home/index.tsx:533-539 | picking an ink swatch never changes the background, the sizes or the stash |
| `Tools.InkSwatchOnBackgroundIgnored` | frontend/src/screens/home/index.tsx:528-534 | a swatch equal to the background leaves the tools unchanged |
| `Tools.InkPickedLeavesEraser` | frontend/src/screens/home/index.tsx:533-539 | any other swatch leaves eraser mode; in pen mode it becomes the ink, in eraser mode the stash does |
| `Tools.PenSizePicked` | frontend/src/screens/home/index.tsx:560-564 | picking a pen size sets it and leaves eraser mode; the ink stays in pen mode and becomes the stash when erasing; the stash, background and eraser size stay |
| `Tools.EraserPressed` | frontend/src/screens/home/index.tsx:486-491 | the eraser button always ends in eraser mode without changing the background or sizes; pressed while erasing it changes nothing |
| `Tools.EraserSizePicked` | frontend/src/screens/home/index.tsx:503-505 | picking an eraser size sets it and changes nothing else: mode, ink, stash, background and pen size stay |
| `Tools.ErasingPaintsBackgroundPreserved` | frontend/src/screens/home/index.tsx:180-187 | every tool handler keeps "while erasing the ink is the background" |
| `Tools.EraserRoundTrip` | frontend/src/screens/home/index.tsx:180-187 | entering eraser mode stashes the ink and paints with the background; leaving it by a pen size or an ink swatch brings the ink back |
| `Tools.InkCanEqualBackground` | frontend/src/screens/home/index.tsx:174-187 | from the initial tools, white ink, eraser, white ink and a white background leave white ink on a white background in pen mode |
| `Tools.BackgroundChangeDropsPickedInk` | frontend/src/screens/home/index.tsx:180-187 | red ink picked on the initial tools becomes the initial white again after the background changes to white |
| `Tools.PenModeBackgroundRestoresStash` | frontend/src/screens/home/index.tsx:180-187 | in pen mode, any ink swatch (enabled or disabled) followed by a background change leaves the ink equal to the stash held before the swatch |
| `BoundingBox.PixelIndexInRange` | frontend/src/screens/home/index.tsx:320 | the row-major index of an in-image pixel lies inside the buffer |
| `BoundingBox.Scan` | frontend/src/screens/home/index.tsx:311-328 | with ink, the rectangle contains every pixel with alpha > 0 and each side passes through such a pixel; without ink it is `(width, height, 0, 0)` |
| `BoundingBox.Centroid` | frontend/src/screens/home/index.tsx:330-331 | the anchor is the exact midpoint of each side pair, and lies inside a proper rectangle |
| `BoundingBox.InkedBoxInsideImage` | frontend/src/screens/home/index.tsx:313-328 | with ink the rectangle is proper and lies inside the image |
| `BoundingBox.SinglePixel` | frontend/src/screens/home/index.tsx:318-331 | a single inked pixel at (10, 20) gives (10, 20, 10, 20) and the anchor (10, 20) |
| `BoundingBox.NoInk` | frontend/src/screens/home/index.tsx:313-316 | an all-transparent image gives `(width, height, 0, 0)` and the anchor at the image centre |
| `BoundingBox.BoundingBoxUnique` | frontend/src/screens/home/index.tsx:311-328 | the scan's outcome is determined by the image |
| `Recognition.Scheduled` | frontend/src/screens/home/index.tsx:334-341 | one result callback per reply item, in reply order, each carrying that item's expression and value |
| `Recognition.LastAssignment` | frontend/src/screens/home/index.tsx:303-310 | finds an assignment item with no assignment after it, or none exactly when no item assigns |
| `Recognition.UpdatedBindings` | frontend/src/screens/home/index.tsx:303-310 | without assignments the bindings stay; otherwise they are the captured bindings plus the last assignment, and every other captured key keeps its value |
| `Recognition.MergedBindings` | frontend/src/screens/home/index.tsx:303-310 | reference merge of every assignment in order: it keeps every old key and binds every assigned name |
| `Recognition.SingleAssignmentMerges` | frontend/src/screens/home/index.tsx:303-310 | with at most one assignment and unchanged bindings, the reply handling equals the reference merge |
| `Recognition.NoAssignmentKeeps` | frontend/src/screens/home/index.tsx:303-310 | a reply without assignments leaves the bindings as they were |
| `Recognition.TwoAssignmentsKeepOnlyLast` | frontend/src/screens/home/index.tsx:303-310 | the reply `x = 1, y = 2` binds `y` but loses `x`, which the reference merge keeps |
| `Recognition.AssignmentBinds` | frontend/src/screens/home/index.tsx:303-310 | a reply assigning `x = 5` binds `x` to `5` |
| `Whiteboard.Controller.constructor` | frontend/src/screens/home/index.tsx:189-200 | the mounted screen: one history entry for the empty transparent canvas, the initial tools, no gesture, no bindings, not busy |
| `Whiteboard.Controller.SaveToHistory` | frontend/src/screens/home/index.tsx:202-215 | the logs and cursor become `History.Commit` of the old ones, keeping the history invariant |
| `Whiteboard.Controller.RevertToPreviousState` | frontend/src/screens/home/index.tsx:357-376 | the logs, cursor and screen become `History.Undo` of the old ones |
| `Whiteboard.Controller.RedoToNextState` | frontend/src/screens/home/index.tsx:379-398 | the logs, cursor and screen become `History.Redo` of the old ones |
| `Whiteboard.Controller.HandleReset` | frontend/src/screens/home/index.tsx:401-404 | commits, then the reset effect empties the annotations, the shown result and the bindings and fills the canvas with the background |
| `Whiteboard.Controller.StartDrawing` | frontend/src/screens/home/index.tsx:232-246 | commits, starts the path at the pointer's canvas point and enters the drawing state |
| `Whiteboard.Controller.Draw` | frontend/src/screens/home/index.tsx:248-268 | a no-op unless drawing; otherwise extends the path to the pointer and strokes it in the current ink at the tool's width; calls `preventDefault` exactly on touch moves during a gesture |
| `Whiteboard.Controller.StopDrawing` | frontend/src/screens/home/index.tsx:271-276 | commits exactly when a gesture was in progress and always leaves the drawing state |
| `Whiteboard.Controller.DeleteResult` | frontend/src/screens/home/index.tsx:351-354 | commits, then removes the annotation at the index and nothing else |
| `Whiteboard.Controller.RenderLatexToCanvas` | frontend/src/screens/home/index.tsx:78-93 | the result is appended once at the end of the annotations, the earlier ones kept, and the canvas is filled with the background |
| `Whiteboard.Controller.FireResultTimer` | frontend/src/screens/home/index.tsx:334-341 | the oldest scheduled result is removed from the schedule and becomes the shown result; the result effect (lines 128-132) appends it and refills the canvas; with none scheduled nothing changes |
| `Whiteboard.Controller.PickBackgroundColor` | frontend/src/screens/home/index.tsx:466-469 | the tools become `Tools.BackgroundPicked`; on a real change with a shown result that result is appended again and the canvas refilled |
| `Whiteboard.Controller.PickInkColor` | frontend/src/screens/home/index.tsx:533-539 | the tools become `Tools.InkPicked` |
| `Whiteboard.Controller.PickPenSize` | frontend/src/screens/home/index.tsx:560-564 | the tools become `Tools.PenSizePicked` |
| `Whiteboard.Controller.PressEraser` | frontend/src/screens/home/index.tsx:486-491 | the tools become `Tools.EraserPressed` |
| `Whiteboard.Controller.PickEraserSize` | frontend/src/screens/home/index.tsx:503-505 | the tools become `Tools.EraserSizePicked` |
| `Whiteboard.Controller.StartSolve` | frontend/src/screens/home/index.tsx:278-294 | while busy no request is made; otherwise the flag is set and the request carries a snapshot of the canvas and the current bindings |
| `Whiteboard.Controller.SolveFailed` | frontend/src/screens/home/index.tsx:342-346 | a failed request only clears the busy flag |
| `Whiteboard.Controller.ReceiveReply` | frontend/src/screens/home/index.tsx:296-346 | an empty reply changes only the busy flag; otherwise bindings are updated from the captured ones, the anchor is the centre of the scanned bounding box, one callback per item is scheduled; the busy flag is cleared either way |

## Left out

- Rasterisation: `beginPath`, `lineTo`, `stroke`, line caps, antialiasing and
  `drawImage` are browser behaviour. A `Surface` records what was painted,
  not the pixels.
- Snapshot decoding is asynchronous in the source (`img.onload`). Restoration
  is modelled as immediate, so the race between overlapping decodes is not
  modelled.
- The HTTP request, its credentials, `alert` and `console.error` are I/O.
  `StartSolve` returns the request that would be sent. `ReceiveReply` and
  `SolveFailed` take the outcome as input.
- MathJax loading, configuration and typesetting belong to a foreign library.
- The 1000 ms result delay is timing only. Scheduled callbacks are a FIFO
  queue (`timers`). The model does not capture whether React would merge
  several callbacks that fire together into one render. Each callback shows
  its own result.
- Window resizing reallocates and clears the canvas, and DOM measurement
  (`getBoundingClientRect`, scroll offsets) is browser behaviour. Measured
  offsets enter only as integer inputs. Browser coordinates can be
  fractional; the model uses integers.
- The canvas and its 2D context are always present, so the source's null
  guards never fail in the model.
- The state before the mount effects run (cursor −1, empty logs) is left out.
  The constructor is the state after mount.
- The `reset` flag is folded into `HandleReset`, which also runs the effect
  that the flag triggers.
- JSX, palette and menu visibility, draggable annotation positions and
  styling are UI.
- `toLowerCase` is modelled for ASCII letters only. Every colour in the
  source is ASCII.
- The centroid is an exact rational, not a floating-point number.
- Whether a touch move actually scrolls the page is browser behaviour (the
  canvas's `touch-none` class and passive touch listeners). `Draw` reports
  only that the handler calls `preventDefault`.
