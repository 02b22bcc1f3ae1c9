/**
 * The undo/redo tests of the editor, replayed against the controller's
 * contracts: each method opens a fresh editor, drives it as the test does and
 * returns what the test observes.
 */
module UndoRedoScenarios {
  import opened UndoHistory
  import opened Controller

  const DAWN_OF_HISTORY := "<h1>Dawn of History</h1>"
  const FOO := "<p>Foo</p>"
  const FOO_BAR := "<p>Foo</p><p>Bar</p>"
  const FOO_ZAD := "<p>Foo</p><p>Zad</p>"
  const FOO_LIST := "<ol><li>Foo</li></ol>"

  /**
   * The round trip every manipulation test performs: select, make that the
   * floor of history, run the command (edit and register), undo, redo. Undo
   * restores the start content together with the selection recorded at the
   * floor; redo restores the command's result. A command that changes nothing
   * leaves both undo and redo with nothing to do.
   */
  method ManipulationRoundTrip(start: string, selection: Selection, result: string)
    returns (afterCommand: Snapshot, afterUndo: Snapshot, afterRedo: Snapshot)
    ensures afterCommand == Snapshot(result, selection)
    ensures afterUndo == Snapshot(start, selection)
    ensures afterRedo == Snapshot(result, selection)
  {
    var e := new Editor(Snapshot(start, NoSelection));
    e.Select(selection);
    // The preparing helper of the tests is not part of this model: it is taken
    // to reset the history after setting up the selection, so that the floor
    // entry holds the prepared selection that undo restores.
    e.ResetHistory();
    e.Edit(result);
    e.RegisterChange();
    afterCommand := e.document;
    e.Undo();
    afterUndo := e.document;
    e.Redo();
    afterRedo := e.document;
  }

  /** No going back before the dawn of history: two undos on a fresh editor change nothing. */
  method NoUndoBeforeDawn() returns (content: string, position: nat, again: string)
    ensures content == DAWN_OF_HISTORY && position == 0 && again == DAWN_OF_HISTORY
  {
    var e := new Editor(Snapshot(DAWN_OF_HISTORY, NoSelection));
    e.RegisterChange();
    e.Undo();
    content, position := e.document.content, e.history.position;
    e.Undo();
    again := e.document.content;
  }

  /** A selection across both paragraphs survives an undo/redo round trip of a no-op manipulation. */
  method RestoresSelection() returns (selection: Selection, content: string)
    ensures selection == Range(Point([0], 0), Point([1], 3))
    ensures content == FOO_BAR
  {
    var e := new Editor(Snapshot(FOO_BAR, NoSelection));
    e.Select(Range(Point([0], 0), Point([1], 3)));
    e.RegisterChange();
    e.Undo();
    e.Redo();
    selection, content := e.document.selection, e.document.content;
  }

  /** Redo when everything has been redone: the second redo is a no-op. */
  method RedoWhenAllRedone()
    returns (afterChange: string, afterUndo: string, afterRedo: string, afterSecondRedo: string)
    ensures afterChange == FOO_BAR && afterUndo == FOO
    ensures afterRedo == FOO_BAR && afterSecondRedo == FOO_BAR
  {
    var e := new Editor(Snapshot(FOO, NoSelection));
    e.ResetHistory();
    e.Edit(FOO_BAR);
    e.RegisterChange();
    afterChange := e.document.content;
    e.Undo();
    afterUndo := e.document.content;
    e.Redo();
    afterRedo := e.document.content;
    e.Redo();
    afterSecondRedo := e.document.content;
  }

  /** Nothing to redo after a change: the undone `<p>Bar</p>` cannot come back. */
  method NothingToRedoAfterChange() returns (afterUndo: string, final: string, canRedo: bool)
    ensures afterUndo == FOO && final == FOO_ZAD && !canRedo
  {
    var e := new Editor(Snapshot(FOO, NoSelection));
    e.ResetHistory();
    e.Edit(FOO_BAR);
    e.RegisterChange();
    e.Undo();
    afterUndo := e.document.content;
    e.Edit(FOO_ZAD);
    e.RegisterChange();
    e.Redo();
    final, canRedo := e.document.content, e.history.CanRedo();
  }

  /** After a reset, one command and one undo give back the content at the reset. */
  method UndoAfterReset() returns (afterCommand: string, afterUndo: string)
    ensures afterCommand == FOO_LIST && afterUndo == FOO
  {
    var e := new Editor(Snapshot(FOO, NoSelection));
    e.ResetHistory();
    e.Edit(FOO_LIST);
    e.RegisterChange();
    afterCommand := e.document.content;
    e.Undo();
    afterUndo := e.document.content;
  }

  /** After a reset, one command, one undo and one redo give back the command's result. */
  method RedoAfterReset() returns (afterUndo: string, afterRedo: string)
    ensures afterUndo == FOO && afterRedo == FOO_LIST
  {
    var e := new Editor(Snapshot(FOO, NoSelection));
    e.ResetHistory();
    e.Edit(FOO_LIST);
    e.RegisterChange();
    e.Undo();
    afterUndo := e.document.content;
    e.Redo();
    afterRedo := e.document.content;
  }
}
