/** The whiteboard screen's state and its handlers. Each method is one user
    event or timer callback, run to completion together with the React
    effects its state changes trigger. Every method is specified by the
    pure transitions of the History, Tools, Annotations, Recognition and
    BoundingBox modules, where the properties are proved. */
module Whiteboard {
  import opened Wrappers
  import opened Canvas
  import opened Annotations
  import History
  import Tools
  import opened Recognition
  import opened BoundingBox

  class Controller {
    // history: two parallel logs and the cursor
    var latexLog: seq<seq<Annotation>>
    var canvasLog: seq<Snapshot>
    var cursor: int
    // what is on screen
    var latexExpression: seq<Annotation>
    var canvas: Surface
    var latexPosition: Position
    // the gesture in progress
    var isDrawing: bool
    var path: seq<Point>
    // tool state
    var color: string
    var backgroundColor: string
    var isErasing: bool
    var lastPenColor: string
    var penSize: Tools.Size
    var eraserSize: Tools.Size
    // recognition
    var dictOfVars: map<string, string>
    var loading: bool
    var result: Option<GeneratedResult>
    var timers: seq<GeneratedResult>   // result callbacks scheduled, oldest first

    ghost function Log(): History.Timeline
      reads this
    {
      History.Timeline(latexLog, canvasLog, cursor, History.Workspace(latexExpression, canvas))
    }

    ghost function CurrentTools(): Tools.ToolState
      reads this
    {
      Tools.ToolState(color, backgroundColor, isErasing, lastPenColor, penSize, eraserSize)
    }

    ghost predicate Valid()
      reads this
    {
      && History.Valid(Log())
      && Tools.ErasingPaintsBackground(CurrentTools())
      && (isDrawing ==> path != [])
    }

    /** The screen after mount: an empty transparent canvas recorded as the
        only history entry, the initial tools and no bindings. */
    constructor ()
      ensures Valid()
      ensures Log() == History.Initial(Transparent)
      ensures CurrentTools() == Tools.InitialTools()
      ensures !isDrawing && path == []
      ensures dictOfVars == map[] && !loading && result == None && timers == []
      ensures latexPosition == Position(10.0, 200.0)
    {
      latexLog, canvasLog, cursor := [[]], [Capture(Transparent)], 0;
      latexExpression, canvas := [], Transparent;
      latexPosition := Position(10.0, 200.0);
      isDrawing, path := false, [];
      color, backgroundColor := "rgb(255, 255, 255)", "#000000";
      isErasing, lastPenColor := false, "rgb(255, 255, 255)";
      penSize, eraserSize := Tools.Medium, Tools.Medium;
      dictOfVars, loading, result, timers := map[], false, None, [];
    }

    // ------------------------------------------------------------ history

    /** Records the screen: drops every entry after the cursor, appends the
        annotation list and a snapshot of the canvas, moves the cursor onto
        them. */
    method SaveToHistory()
      requires Valid()
      modifies this`latexLog, this`canvasLog, this`cursor
      ensures Valid()
      ensures Log() == History.Commit(old(Log()))
    {
      latexLog := latexLog[..cursor + 1] + [latexExpression];
      canvasLog := canvasLog[..cursor + 1] + [Capture(canvas)];
      cursor := cursor + 1;
    }

    /** Undo: at entry 0 nothing happens; otherwise the cursor steps back and
        the entry there is put on screen. */
    method RevertToPreviousState()
      requires Valid()
      modifies this`cursor, this`latexExpression, this`canvas
      ensures Valid()
      ensures Log() == History.Undo(old(Log()))
    {
      if cursor > 0 {
        cursor := cursor - 1;
        latexExpression := latexLog[cursor];
        canvas := Decode(canvasLog[cursor]);
      }
    }

    /** Redo: at the last entry nothing happens; otherwise the cursor steps
        forward and the entry there is put on screen. */
    method RedoToNextState()
      requires Valid()
      modifies this`cursor, this`latexExpression, this`canvas
      ensures Valid()
      ensures Log() == History.Redo(old(Log()))
    {
      if cursor < |latexLog| - 1 {
        cursor := cursor + 1;
        latexExpression := latexLog[cursor];
        canvas := Decode(canvasLog[cursor]);
      }
    }

    /** Reset: records the screen, then the reset effect fills the canvas
        with the background and clears the annotations, the shown result and
        the bindings. The commit prunes the redo branch; the log is not
        reset to one entry. */
    method HandleReset()
      requires Valid()
      modifies this`latexLog, this`canvasLog, this`cursor, this`latexExpression, this`canvas
      modifies this`result, this`dictOfVars
      ensures Valid()
      ensures Log() == History.Show(History.Commit(old(Log())), History.Workspace([], Filled(backgroundColor)))
      ensures result == None && dictOfVars == map[]
    {
      SaveToHistory();
      canvas := Filled(backgroundColor);
      latexExpression := [];
      result := None;
      dictOfVars := map[];
    }

    // ----------------------------------------------------------- gestures

    /** Pointer down: records the screen, starts a new path at the pointer
        and enters the drawing state. */
    method StartDrawing(e: PointerEvent, origin: Point, scroll: Point)
      requires Valid()
      modifies this`latexLog, this`canvasLog, this`cursor, this`path, this`isDrawing
      ensures Valid()
      ensures Log() == History.Commit(old(Log()))
      ensures isDrawing && path == [CanvasCoords(e, origin, scroll)]
    {
      SaveToHistory();
      path := [CanvasCoords(e, origin, scroll)];
      isDrawing := true;
    }

    /** Pointer move: outside a gesture nothing happens. Inside one the path
        is extended to the pointer and stroked in the current colour and
        width; on a touch move the handler calls `preventDefault`. */
    method Draw(e: PointerEvent, origin: Point, scroll: Point) returns (defaultPrevented: bool)
      requires Valid()
      modifies this`canvas, this`path
      ensures Valid()
      ensures defaultPrevented <==> isDrawing && e.Touch?
      ensures !isDrawing ==> canvas == old(canvas) && path == old(path)
      ensures isDrawing ==> path == old(path) + [CanvasCoords(e, origin, scroll)]
      ensures isDrawing ==> canvas == Stroked(old(canvas), color, Tools.LineWidth(CurrentTools()), path)
    {
      if !isDrawing {
        return false;
      }
      defaultPrevented := e.Touch?;
      var width := if isErasing then Tools.EraserWidth(eraserSize) else Tools.PenWidth(penSize);
      path := path + [CanvasCoords(e, origin, scroll)];
      canvas := Stroked(canvas, color, width, path);
    }

    /** Pointer up or out: records the screen only when a gesture was in
        progress (also when the pointer never moved), and always leaves the
        drawing state. */
    method StopDrawing()
      requires Valid()
      modifies this`latexLog, this`canvasLog, this`cursor, this`isDrawing
      ensures Valid()
      ensures old(isDrawing) ==> Log() == History.Commit(old(Log()))
      ensures !old(isDrawing) ==> Log() == old(Log())
      ensures !isDrawing
    {
      if isDrawing {
        SaveToHistory();
      }
      isDrawing := false;
    }

    // -------------------------------------------------------- annotations

    /** Deleting a result: records the screen, then drops the element at
        `index` from the annotation list. */
    method DeleteResult(index: int)
      requires Valid()
      modifies this`latexLog, this`canvasLog, this`cursor, this`latexExpression
      ensures Valid()
      ensures Log() == History.Show(History.Commit(old(Log())),
                                    History.Workspace(RemoveIndex(old(latexExpression), index), canvas))
    {
      SaveToHistory();
      latexExpression := RemoveIndex(latexExpression, index);
    }

    /** The render callback: appends the result to the annotations and fills
        the canvas with the background colour of the render it belongs to. */
    method RenderLatexToCanvas(g: GeneratedResult)
      requires Valid()
      modifies this`latexExpression, this`canvas
      ensures Valid()
      ensures latexExpression == Appended(old(latexExpression), g.expression, g.answer)
      ensures canvas == Filled(backgroundColor)
    {
      latexExpression := latexExpression + [Annotation(g.expression, g.answer)];
      canvas := Filled(backgroundColor);
    }

    /** The earliest scheduled result callback fires: its result becomes the
        shown one, and the result effect hands it to the render callback.
        Nothing happens when none is scheduled. */
    method FireResultTimer()
      requires Valid()
      modifies this`timers, this`result, this`latexExpression, this`canvas
      ensures Valid()
      ensures old(timers) == [] ==> timers == [] && latexExpression == old(latexExpression) &&
                                     canvas == old(canvas) && result == old(result)
      ensures old(timers) != [] ==>
                timers == old(timers)[1..] && result == Some(old(timers)[0]) &&
                latexExpression == Appended(old(latexExpression), old(timers)[0].expression, old(timers)[0].answer) &&
                canvas == Filled(backgroundColor)
    {
      if timers != [] {
        var g := timers[0];
        timers := timers[1..];
        result := Some(g);
        RenderLatexToCanvas(g);
      }
    }

    // --------------------------------------------------------- tool state

    /** Picking a background swatch. A change re-runs the result effect
        (its render callback depends on the background), which appends the
        shown result again and refills the canvas; then the auto-swap and the
        eraser effects settle the ink. */
    method PickBackgroundColor(swatch: string)
      requires Valid()
      modifies this`color, this`backgroundColor, this`lastPenColor, this`latexExpression, this`canvas
      ensures Valid()
      ensures CurrentTools() == Tools.BackgroundPicked(old(CurrentTools()), swatch)
      ensures swatch != old(backgroundColor) && result.Some? ==>
                latexExpression == Appended(old(latexExpression), result.value.expression, result.value.answer) &&
                canvas == Filled(swatch)
      ensures swatch == old(backgroundColor) || result.None? ==>
                latexExpression == old(latexExpression) && canvas == old(canvas)
    {
      ghost var before := CurrentTools();
      if swatch == backgroundColor {
        return;
      }
      var rendered := color;
      backgroundColor := swatch;
      if Tools.SameIgnoringCase(rendered, swatch) {
        color := Tools.ContrastingInk(swatch);
      }
      if isErasing {
        lastPenColor := rendered;
        color := backgroundColor;
      } else {
        color := lastPenColor;
      }
      Tools.ErasingPaintsBackgroundPreserved(before, swatch, penSize);
      // The result effect runs first, but it touches neither colour field.
      if result.Some? {
        RenderLatexToCanvas(result.value);
      }
    }

    /** Picking an ink swatch; one equal to the background is disabled. */
    method PickInkColor(swatch: string)
      requires Valid()
      modifies this`color, this`isErasing
      ensures Valid()
      ensures CurrentTools() == Tools.InkPicked(old(CurrentTools()), swatch)
    {
      if swatch != backgroundColor {
        var wasErasing := isErasing;
        color := swatch;
        isErasing := false;
        if wasErasing {
          color := lastPenColor;
        }
      }
    }

    /** Picking a pen size, which also leaves eraser mode. */
    method PickPenSize(size: Tools.Size)
      requires Valid()
      modifies this`penSize, this`isErasing, this`color
      ensures Valid()
      ensures CurrentTools() == Tools.PenSizePicked(old(CurrentTools()), size)
    {
      var wasErasing := isErasing;
      penSize := size;
      isErasing := false;
      if wasErasing {
        color := lastPenColor;
      }
    }

    /** The eraser button: enters eraser mode, stashing the ink, unless
        already in it. */
    method PressEraser()
      requires Valid()
      modifies this`isErasing, this`color, this`lastPenColor
      ensures Valid()
      ensures CurrentTools() == Tools.EraserPressed(old(CurrentTools()))
    {
      if !isErasing {
        isErasing := true;
        lastPenColor := color;
        color := backgroundColor;
      }
    }

    /** Picking an eraser size. */
    method PickEraserSize(size: Tools.Size)
      requires Valid()
      modifies this`eraserSize
      ensures Valid()
      ensures CurrentTools() == Tools.EraserSizePicked(old(CurrentTools()), size)
    {
      eraserSize := size;
    }

    // -------------------------------------------------------- recognition

    /** The "Go" button. While a request is outstanding the button is
        disabled and nothing happens; otherwise the busy flag is set and the
        request carries a snapshot of the canvas and the current bindings. */
    method StartSolve() returns (request: Option<Request>)
      requires Valid()
      modifies this`loading
      ensures Valid()
      ensures old(loading) ==> request == None && loading
      ensures !old(loading) ==> request == Some(Request(Capture(canvas), dictOfVars)) && loading
    {
      if loading {
        return None;
      }
      loading := true;
      request := Some(Request(Capture(canvas), dictOfVars));
    }

    /** The request failed: the error is logged and the busy flag cleared. */
    method SolveFailed()
      requires Valid()
      modifies this`loading
      ensures Valid()
      ensures !loading
    {
      loading := false;
    }

    /** A reply arrived for `request`. An empty reply changes nothing but the
        busy flag. Otherwise the bindings are updated, the bounding box of
        the canvas image `alpha` (its alpha channel, row by row) is scanned,
        its centre becomes the anchor for new annotations, and one result
        callback per item is scheduled. The busy flag is cleared either
        way. */
    method ReceiveReply(request: Request, items: seq<Response>, alpha: array<int>, width: nat, height: nat)
      requires Valid()
      requires alpha.Length == width * height
      modifies this`dictOfVars, this`latexPosition, this`timers, this`loading
      ensures Valid()
      ensures !loading
      ensures items == [] ==> dictOfVars == old(dictOfVars) && latexPosition == old(latexPosition) &&
                              timers == old(timers)
      ensures items != [] ==>
                dictOfVars == UpdatedBindings(old(dictOfVars), request.variables, items) &&
                (exists b :: IsBoundingBox(alpha[..], width, height, b) && latexPosition == Centroid(b)) &&
                timers == old(timers) + Scheduled(items)
    {
      if items != [] {
        dictOfVars := UpdatedBindings(dictOfVars, request.variables, items);
        var b := Scan(alpha, width, height);
        latexPosition := Centroid(b);
        timers := timers + Scheduled(items);
      }
      loading := false;
    }
  }
}
