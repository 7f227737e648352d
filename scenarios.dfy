/** Clients of the controller that walk through whole interactions and check,
    from the handlers' contracts alone, what the screen shows afterwards. */
module Scenarios {
  import opened Wrappers
  import opened Canvas
  import opened Annotations
  import History
  import opened Recognition
  import opened Whiteboard

  /** Draw a diagonal stroke, undo it, redo it. */
  method StrokeUndoRedo()
  {
    var board := new Controller();
    ghost var t0 := board.Log();
    var origin, noScroll := Point(0, 80), Point(0, 0);
    board.StartDrawing(Mouse(10, 90), origin, noScroll);
    var prevented := board.Draw(Mouse(50, 130), origin, noScroll);
    assert !prevented;
    ghost var stroked := board.canvas;
    assert board.Log() == History.Show(History.Commit(t0), History.Workspace([], stroked));
    board.StopDrawing();
    ghost var t1 := board.Log();
    History.UndoAfterStroke(t0, stroked);

    board.RevertToPreviousState();
    assert board.canvas == Transparent && board.latexExpression == [];
    History.UndoThenRedo(t1);
    board.RedoToNextState();
    assert board.Log() == t1;
    assert board.canvas == stroked;
  }

  /** After an undo, a new stroke leaves nothing to redo. */
  method UndoThenStrokePrunes(board: Controller)
    requires board.Valid()
    modifies board
  {
    board.RevertToPreviousState();
    board.StartDrawing(Touch(20, 100), Point(0, 0), Point(0, 0));
    ghost var before := board.Log();
    board.RedoToNextState();
    assert board.Log() == before;
  }

  /** The "Go" button pressed twice before the reply arrives sends one
      request; a reply `2+2 = 4` then schedules one result, and when its
      callback fires exactly one annotation `2+2 = 4` is shown. */
  method SolveOnce(alpha: array<int>, width: nat, height: nat)
    requires alpha.Length == width * height
  {
    var board := new Controller();
    var first := board.StartSolve();
    var second := board.StartSolve();
    assert first.Some? && second == None;
    board.ReceiveReply(first.value, [Response("2+2", "4", false)], alpha, width, height);
    assert !board.loading && board.dictOfVars == map[];
    assert board.timers == [GeneratedResult("2+2", "4")];
    board.FireResultTimer();
    assert board.latexExpression == [Annotation("2+2", "4")];
    assert board.timers == [];
  }

  /** After a reply's result is shown, picking a new background shows that
      result a second time. */
  method BackgroundRepeatsResult(alpha: array<int>, width: nat, height: nat)
    requires alpha.Length == width * height
  {
    var board := new Controller();
    var request := board.StartSolve();
    board.ReceiveReply(request.value, [Response("2+2", "4", false)], alpha, width, height);
    board.FireResultTimer();
    board.PickBackgroundColor("#ffffff");
    assert board.latexExpression == [Annotation("2+2", "4"), Annotation("2+2", "4")];
    assert board.canvas == Filled("#ffffff");
  }
}
