/**
 * The history controller: an editor instance owning the live document (its
 * serialized content and selection) and one `History`. Editing operations
 * change the live document and then call `RegisterChange`; `Undo` and `Redo`
 * replace the live document wholesale with the snapshot the history returns.
 */
module Controller {
  import opened Wrappers
  import opened UndoHistory

  class Editor {
    /** The live document: what the user sees and where the selection is. */
    var document: Snapshot
    const history: History

    ghost predicate Valid()
      reads this, history
    {
      history.Valid()
    }

    /** The current history entry matches the live content. */
    ghost predicate Synced()
      reads this, history
      requires Valid()
    {
      history.Current().content == document.content
    }

    /** An editor opened on `initial`; its history is seeded with it. */
    constructor (initial: Snapshot)
      ensures Valid() && Synced() && fresh(history)
      ensures document == initial && history.Model() == Init(initial)
    {
      document := initial;
      history := new History(initial);
    }

    /** An editing operation replaces the content; the selection stays where it was. */
    method Edit(content: string)
      requires Valid()
      modifies this
      ensures Valid() && history.Model() == old(history.Model())
      ensures document == Snapshot(content, old(document.selection))
    {
      document := Snapshot(content, document.selection);
    }

    /** The user selects something. */
    method Select(selection: Selection)
      requires Valid()
      modifies this
      ensures Valid() && history.Model() == old(history.Model())
      ensures document == Snapshot(old(document.content), selection)
    {
      document := Snapshot(document.content, selection);
    }

    /** Capture the live document into the history (a no-op if the content is unchanged). */
    method RegisterChange()
      requires Valid()
      modifies history
      ensures Valid() && Synced() && document == old(document)
      ensures history.Model() == old(history.Model()).Push(document)
    {
      history.RegisterChange(document);
    }

    /**
     * Undo: at the floor nothing changes, not even the selection; otherwise the
     * previous snapshot's content and selection become the live document.
     */
    method Undo()
      requires Valid()
      modifies this, history
      ensures Valid() && history.Model() == old(history.Model()).Undo()
      ensures document == if old(history.CanUndo()) then history.Current() else old(document)
      ensures old(history.CanUndo()) || old(Synced()) ==> Synced()
    {
      var applied := history.Undo();
      if applied.Some? {
        document := applied.value;
      }
    }

    /** Redo: symmetric to `Undo`, a no-op at the ceiling. */
    method Redo()
      requires Valid()
      modifies this, history
      ensures Valid() && history.Model() == old(history.Model()).Redo()
      ensures document == if old(history.CanRedo()) then history.Current() else old(document)
      ensures old(history.CanRedo()) || old(Synced()) ==> Synced()
    {
      var applied := history.Redo();
      if applied.Some? {
        document := applied.value;
      }
    }

    /** Make the live document the new floor of history. */
    method ResetHistory()
      requires Valid()
      modifies history
      ensures Valid() && Synced() && document == old(document)
      ensures history.Model() == Init(document)
      ensures !history.CanUndo() && !history.CanRedo()
    {
      history.Reset(document);
    }
  }
}
