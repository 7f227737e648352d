/** Linear undo over full-canvas snapshots. Two parallel logs hold, entry by
    entry, the annotation list and the canvas snapshot; a cursor names the
    entry undo and redo last restored or commit last wrote. */
module History {
  import opened Canvas
  import opened Annotations

  /** What is on screen: the annotation list and the canvas pixels. */
  datatype Workspace = Workspace(annotations: seq<Annotation>, canvas: Surface)

  /** The two logs, the cursor and the live workspace. */
  datatype Timeline = Timeline(
    latexLog: seq<seq<Annotation>>,
    canvasLog: seq<Snapshot>,
    cursor: int,
    now: Workspace)

  /** The logs have one entry per recorded action and the cursor names one. */
  predicate Valid(t: Timeline)
  {
    |t.latexLog| == |t.canvasLog| && 0 <= t.cursor < |t.latexLog|
  }

  /** The workspace recorded at entry `i`. */
  function Entry(t: Timeline, i: int): Workspace
    requires Valid(t) && 0 <= i < |t.latexLog|
  {
    Workspace(t.latexLog[i], Decode(t.canvasLog[i]))
  }

  /** The screen shows exactly the entry under the cursor. */
  predicate Synced(t: Timeline)
    requires Valid(t)
  {
    t.now == Entry(t, t.cursor)
  }

  predicate CanUndo(t: Timeline)
  {
    t.cursor > 0
  }

  predicate CanRedo(t: Timeline)
  {
    t.cursor < |t.latexLog| - 1
  }

  /** The history right after mount: one entry holding the empty list and the
      blank canvas. */
  function Initial(canvas: Surface): (t: Timeline)
    ensures Valid(t) && Synced(t)
    ensures |t.latexLog| == 1 && !CanUndo(t) && !CanRedo(t)
    ensures t.latexLog == [[]] && t.canvasLog == [Capture(canvas)]
    ensures t.now == Workspace([], canvas)
  {
    Timeline([[]], [Capture(canvas)], 0, Workspace([], canvas))
  }

  /** Recording the live workspace: everything after the cursor is dropped,
      the workspace is appended, and the cursor moves onto it. */
  function Commit(t: Timeline): (r: Timeline)
    requires Valid(t)
    ensures Valid(r) && Synced(r)
    ensures r.cursor == t.cursor + 1 && |r.latexLog| == t.cursor + 2
    ensures r.latexLog[..t.cursor + 1] == t.latexLog[..t.cursor + 1]
    ensures r.canvasLog[..t.cursor + 1] == t.canvasLog[..t.cursor + 1]
    ensures r.latexLog[r.cursor] == t.now.annotations
    ensures r.canvasLog[r.cursor] == Capture(t.now.canvas)
    ensures r.now == t.now
    ensures !CanRedo(r)
  {
    Timeline(
      t.latexLog[..t.cursor + 1] + [t.now.annotations],
      t.canvasLog[..t.cursor + 1] + [Capture(t.now.canvas)],
      t.cursor + 1,
      t.now)
  }

  /** Stepping back one entry and restoring it; nothing happens at entry 0. */
  function Undo(t: Timeline): (r: Timeline)
    requires Valid(t)
    ensures Valid(r)
    ensures r.latexLog == t.latexLog && r.canvasLog == t.canvasLog
    ensures !CanUndo(t) ==> r == t
    ensures CanUndo(t) ==> r.cursor == t.cursor - 1 && Synced(r)
  {
    if t.cursor > 0 then
      t.(cursor := t.cursor - 1, now := Entry(t, t.cursor - 1))
    else
      t
  }

  /** Stepping forward one entry and restoring it; nothing happens at the
      last entry. */
  function Redo(t: Timeline): (r: Timeline)
    requires Valid(t)
    ensures Valid(r)
    ensures r.latexLog == t.latexLog && r.canvasLog == t.canvasLog
    ensures !CanRedo(t) ==> r == t
    ensures CanRedo(t) ==> r.cursor == t.cursor + 1 && Synced(r)
  {
    if t.cursor < |t.latexLog| - 1 then
      t.(cursor := t.cursor + 1, now := Entry(t, t.cursor + 1))
    else
      t
  }

  /** A change to the screen that history does not record (a stroke, a
      deletion, a fill). */
  function Show(t: Timeline, ws: Workspace): (r: Timeline)
    ensures r.latexLog == t.latexLog && r.canvasLog == t.canvasLog && r.cursor == t.cursor
    ensures r.now == ws
  {
    t.(now := ws)
  }

  /** Undo then redo from a non-zero cursor comes back to the same cursor and
      shows the entry there; when the screen already showed that entry,
      nothing at all has changed. */
  lemma UndoThenRedo(t: Timeline)
    requires Valid(t) && CanUndo(t)
    ensures Redo(Undo(t)) == t.(now := Entry(t, t.cursor))
    ensures Synced(t) ==> Redo(Undo(t)) == t
  {
  }

  /** Redo then undo below the last entry is the mirror image. */
  lemma RedoThenUndo(t: Timeline)
    requires Valid(t) && CanRedo(t)
    ensures Undo(Redo(t)) == t.(now := Entry(t, t.cursor))
    ensures Synced(t) ==> Undo(Redo(t)) == t
  {
  }

  /** Whatever was undone, a commit prunes the redo branch: a redo right
      after it changes nothing. */
  lemma CommitPrunesRedo(t: Timeline)
    requires Valid(t)
    ensures Redo(Commit(t)) == Commit(t)
  {
  }

  /** A stroke commits the screen before it starts and again when it ends;
      undoing once afterwards shows exactly what was on screen before the
      stroke, whatever the stroke painted. */
  lemma UndoAfterStroke(t: Timeline, painted: Surface)
    requires Valid(t)
    ensures var ended := Commit(Show(Commit(t), Workspace(t.now.annotations, painted)));
            Undo(ended).now == t.now && Undo(ended).cursor == t.cursor + 1
  {
  }

  /** A tap (press and release without moving) records two entries, both
      equal to what is on screen. */
  lemma TapRecordsTwice(t: Timeline)
    requires Valid(t)
    ensures var r := Commit(Commit(t));
            |r.latexLog| == t.cursor + 3 &&
            Entry(r, t.cursor + 1) == t.now && Entry(r, t.cursor + 2) == t.now
  {
  }

  /** Reset commits the screen and then blanks it; the log is never cut back
      to one entry. The pre-reset screen is the entry under the new cursor,
      so undo followed by redo brings it back, and when the screen was
      synced before the reset a single undo brings it back too. */
  lemma ResetKeepsPriorState(t: Timeline, blank: Surface)
    requires Valid(t)
    ensures var r := Show(Commit(t), Workspace([], blank));
            |r.latexLog| == t.cursor + 2 &&
            Redo(Undo(r)).now == t.now &&
            (Synced(t) ==> Undo(r).now == t.now)
  {
  }

  /** Undo, redo and commit all leave the screen showing the entry under the
      cursor; only `Show` moves the screen away from the log. */
  lemma NavigationSyncs(t: Timeline)
    requires Valid(t)
    ensures Synced(Commit(t))
    ensures Synced(t) ==> Synced(Undo(t)) && Synced(Redo(t))
  {
  }
}
