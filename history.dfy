/**
 * The undo/redo history of one editor instance: a non-empty sequence of
 * snapshots (serialized content plus selection) and a cursor `position`
 * pointing at the snapshot that matches the live document.
 *
 * `Stack` is the value-level specification; `History` is the mutable object
 * the editor owns, whose methods are proved against `Stack`.
 */
module UndoHistory {
  import opened Wrappers

  /** One end of a selection: child indices from the document root, then an offset. */
  datatype Point = Point(path: seq<nat>, offset: nat)

  /** What is recorded of the user's selection; restoring `NoSelection` does nothing. */
  datatype Selection = NoSelection | Range(anchor: Point, focus: Point)

  /** A recorded pairing of serialized document content and selection. */
  datatype Snapshot = Snapshot(content: string, selection: Selection)

  /** The history as a value: the entries and the index of the current one. */
  datatype Stack = Stack(entries: seq<Snapshot>, position: nat) {

    /** The history is never empty and the cursor is always on an entry. */
    predicate Valid() {
      0 < |entries| && position < |entries|
    }

    /** The snapshot matching the live document. */
    function Current(): Snapshot
      requires Valid()
    {
      entries[position]
    }

    /** Something lies below the cursor (the floor is entry 0). */
    predicate CanUndo() {
      0 < position
    }

    /** Something lies above the cursor (the redo branch is not empty). */
    predicate CanRedo() {
      position + 1 < |entries|
    }

    /**
     * Record a change: an unchanged content is ignored; otherwise everything
     * after the cursor is dropped, the snapshot is appended and becomes current.
     */
    function Push(s: Snapshot): (r: Stack)
      requires Valid()
      ensures r.Valid()
      ensures r.Current().content == s.content
      ensures s.content == Current().content ==> r == this
      ensures s.content != Current().content ==>
        r.Current() == s && r.CanUndo() && !r.CanRedo() &&
        r.position == position + 1 &&
        r.entries[..position + 1] == entries[..position + 1]
    {
      if s.content == Current().content then this
      else Stack(entries[..position + 1] + [s], position + 1)
    }

    /** Step the cursor back; at the floor nothing changes. */
    function Undo(): (r: Stack)
      requires Valid()
      ensures r.Valid() && r.entries == entries
      ensures CanUndo() ==> r.position + 1 == position && r.CanRedo()
      ensures !CanUndo() ==> r == this
    {
      if CanUndo() then Stack(entries, position - 1) else this
    }

    /** Step the cursor forward; at the ceiling nothing changes. */
    function Redo(): (r: Stack)
      requires Valid()
      ensures r.Valid() && r.entries == entries
      ensures CanRedo() ==> r.position == position + 1 && r.CanUndo()
      ensures !CanRedo() ==> r == this
    {
      if CanRedo() then Stack(entries, position + 1) else this
    }
  }

  /** A history holding only the seed: nothing to undo and nothing to redo. */
  function Init(seed: Snapshot): (h: Stack)
    ensures h.Valid() && h.Current() == seed
    ensures !h.CanUndo() && !h.CanRedo()
  {
    Stack([seed], 0)
  }

  /** Push each snapshot of `ss` in turn. */
  function PushAll(h: Stack, ss: seq<Snapshot>): (r: Stack)
    requires h.Valid()
    ensures r.Valid()
    decreases |ss|
  {
    if ss == [] then h else PushAll(h.Push(ss[0]), ss[1..])
  }

  /** Undo `n` times. */
  function UndoN(h: Stack, n: nat): (r: Stack)
    requires h.Valid()
    ensures r.Valid()
    decreases n
  {
    if n == 0 then h else UndoN(h.Undo(), n - 1)
  }

  /** Redo `n` times. */
  function RedoN(h: Stack, n: nat): (r: Stack)
    requires h.Valid()
    ensures r.Valid()
    decreases n
  {
    if n == 0 then h else RedoN(h.Redo(), n - 1)
  }

  /** Each snapshot's content differs from the one before it (the first from `c`). */
  predicate EachChanges(c: string, ss: seq<Snapshot>) {
    (ss != [] ==> ss[0].content != c) &&
    forall i :: 0 < i < |ss| ==> ss[i].content != ss[i - 1].content
  }

  /** Undo goes back exactly one entry, selection included, and redo then returns. */
  lemma UndoRestoresPrevious(h: Stack)
    requires h.Valid() && h.CanUndo()
    ensures h.Undo().Current() == h.entries[h.position - 1]
    ensures h.Undo().Redo() == h
  {
  }

  /** Registering a real change and undoing it gives back the previous snapshot. */
  lemma PushThenUndo(h: Stack, s: Snapshot)
    requires h.Valid() && s.content != h.Current().content
    ensures h.Push(s).Undo().Current() == h.Current()
    ensures h.Push(s).Undo().Redo() == h.Push(s)
  {
  }

  /** Redo at the ceiling is a no-op however often it is repeated. */
  lemma {:induction false} RedoNAtCeiling(h: Stack, n: nat)
    requires h.Valid() && !h.CanRedo()
    ensures RedoN(h, n) == h
  {
    if n > 0 {
      RedoNAtCeiling(h.Redo(), n - 1);
    }
  }

  /** Undo at the floor is a no-op however often it is repeated. */
  lemma {:induction false} UndoNAtFloor(h: Stack, n: nat)
    requires h.Valid() && !h.CanUndo()
    ensures UndoN(h, n) == h
  {
    if n > 0 {
      UndoNAtFloor(h.Undo(), n - 1);
    }
  }

  /** `n` undos move the cursor back by `n`, stopping at the floor, and keep the entries. */
  lemma {:induction false} UndoNMoves(h: Stack, n: nat)
    requires h.Valid()
    ensures UndoN(h, n).entries == h.entries
    ensures UndoN(h, n).position == if n <= h.position then h.position - n else 0
    decreases n
  {
    if n > 0 {
      UndoNMoves(h.Undo(), n - 1);
    }
  }

  /** `n` redos move the cursor forward by `n`, stopping at the ceiling, and keep the entries. */
  lemma {:induction false} RedoNMoves(h: Stack, n: nat)
    requires h.Valid()
    ensures RedoN(h, n).entries == h.entries
    ensures RedoN(h, n).position ==
      if h.position + n < |h.entries| then h.position + n else |h.entries| - 1
    decreases n
  {
    if n > 0 {
      RedoNMoves(h.Redo(), n - 1);
    }
  }

  /** Redoing as many steps as were undone returns to the same history. */
  lemma UndoNThenRedoN(h: Stack, n: nat)
    requires h.Valid() && n <= h.position
    ensures RedoN(UndoN(h, n), n) == h
  {
    UndoNMoves(h, n);
    RedoNMoves(UndoN(h, n), n);
  }

  /** Pushing changed snapshots appends them after the cursor and moves the cursor to the last. */
  lemma {:induction false} PushAllAppends(h: Stack, ss: seq<Snapshot>)
    requires h.Valid() && EachChanges(h.Current().content, ss)
    ensures PushAll(h, ss).position == h.position + |ss|
    ensures PushAll(h, ss).entries[..h.position + |ss| + 1] == h.entries[..h.position + 1] + ss
    ensures ss != [] ==> !PushAll(h, ss).CanRedo()
    decreases |ss|
  {
    if ss != [] {
      assert ss[0].content != h.Current().content;
      var h' := h.Push(ss[0]);
      assert EachChanges(h'.Current().content, ss[1..]) by {
        forall i | 0 < i < |ss[1..]|
          ensures ss[1..][i].content != ss[1..][i - 1].content
        {
          assert ss[1..][i] == ss[i + 1];
        }
        assert |ss| > 1 ==> ss[1..][0] == ss[1];
      }
      PushAllAppends(h', ss[1..]);
      assert h'.entries[..h.position + 2] == h.entries[..h.position + 1] + [ss[0]] by {
        assert h'.entries == h.entries[..h.position + 1] + [ss[0]];
      }
      assert [ss[0]] + ss[1..] == ss;
    }
  }

  /** Full unwind: after pushing changed snapshots on a fresh history, as many undos reach the seed. */
  lemma FullUnwind(seed: Snapshot, ss: seq<Snapshot>, n: nat)
    requires EachChanges(seed.content, ss) && |ss| <= n
    ensures UndoN(PushAll(Init(seed), ss), n).Current() == seed
  {
    PushAllAppends(Init(seed), ss);
    UndoNMoves(PushAll(Init(seed), ss), n);
    assert PushAll(Init(seed), ss).entries[..1] == [seed];
  }

  /**
   * A change registered after undos drops the redo branch: the history is the
   * kept prefix plus the new snapshot, and no number of redos brings back
   * what was undone.
   */
  lemma PushAfterUndoDropsRedo(h: Stack, n: nat, s: Snapshot, m: nat)
    requires h.Valid() && n <= h.position
    requires s.content != UndoN(h, n).Current().content
    ensures UndoN(h, n).Push(s).entries == h.entries[..h.position - n + 1] + [s]
    ensures RedoN(UndoN(h, n).Push(s), m) == UndoN(h, n).Push(s)
  {
    UndoNMoves(h, n);
    RedoNAtCeiling(UndoN(h, n).Push(s), m);
  }

  /** The mutable history object an editor owns. */
  class History {
    var entries: seq<Snapshot>
    var position: nat

    ghost predicate Valid()
      reads this
    {
      Model().Valid()
    }

    /** The history as a value. */
    function Model(): Stack
      reads this
    {
      Stack(entries, position)
    }

    /** The snapshot matching the live document. */
    function Current(): Snapshot
      reads this
      requires Valid()
    {
      entries[position]
    }

    /** True when an undo would change something (drives the Undo button). */
    function CanUndo(): (b: bool)
      reads this
      ensures b == Model().CanUndo()
    {
      0 < position
    }

    /** True when a redo would change something (drives the Redo button). */
    function CanRedo(): (b: bool)
      reads this
      ensures b == Model().CanRedo()
    {
      position + 1 < |entries|
    }

    /** A history seeded with the document as it is when the editor starts. */
    constructor (seed: Snapshot)
      ensures Valid() && Model() == Init(seed)
    {
      entries := [seed];
      position := 0;
    }

    /** Make `seed` the single floor entry. */
    method Reset(seed: Snapshot)
      modifies this
      ensures Valid() && Model() == Init(seed)
    {
      entries := [seed];
      position := 0;
    }

    /** Record the live document after an editing operation. */
    method RegisterChange(s: Snapshot)
      requires Valid()
      modifies this
      ensures Valid() && Model() == old(Model()).Push(s)
    {
      if s.content != entries[position].content {
        entries := entries[..position + 1] + [s];
        position := position + 1;
      }
    }

    /** Move back one entry and return the snapshot to apply, or `None` at the floor. */
    method Undo() returns (applied: Option<Snapshot>)
      requires Valid()
      modifies this
      ensures Valid() && Model() == old(Model()).Undo()
      ensures applied == if old(CanUndo()) then Some(Current()) else None
    {
      if 0 < position {
        position := position - 1;
        applied := Some(entries[position]);
      } else {
        applied := None;
      }
    }

    /** Move forward one entry and return the snapshot to apply, or `None` at the ceiling. */
    method Redo() returns (applied: Option<Snapshot>)
      requires Valid()
      modifies this
      ensures Valid() && Model() == old(Model()).Redo()
      ensures applied == if old(CanRedo()) then Some(Current()) else None
    {
      if position + 1 < |entries| {
        position := position + 1;
        applied := Some(entries[position]);
      } else {
        applied := None;
      }
    }
  }
}
