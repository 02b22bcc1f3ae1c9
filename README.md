# WYMeditor undo/redo history and dialog decisions, in Dafny

This project models two parts of the WYMeditor in-browser rich-text editor.

**The undo/redo history.** Each editor instance owns a history. The history is
a non-empty sequence of snapshots plus a cursor `position`. A snapshot pairs
the serialized document content with the user's selection.

- `registerChange` records the live document. If the content is unchanged it
  does nothing. Otherwise it drops every entry after the cursor, appends the
  snapshot and moves the cursor onto it.
- `undo` and `redo` move the cursor one step and hand back the snapshot to
  apply. At the floor (entry 0) and at the ceiling (the last entry) they do
  nothing.
- `reset` makes the current document the single floor entry.

The model has three layers:

- `UndoHistory.Stack` is the history as a value, with `Push`, `Undo` and `Redo`.
- `UndoHistory.History` is the object the editor mutates. Each of its methods
  is proved against `Stack`.
- `Controller.Editor` owns the live document and a `History`.

The test scenarios of `undo_redo.js` are replayed in `UndoRedoScenarios`. Each
is a method that drives a fresh editor and returns what the test observes.

**The dialog decisions of `editor.dialog`.** The model covers:

- the error raised for an unknown dialog with no body;
- the TypeError for a name that bracket lookup finds on `Object.prototype`;
- the `shouldOpen` gate of each built-in dialog (`CreateLink`, `InsertImage`,
  `InsertTable`, `Paste`, `Preview`);
- the four-level precedence for window features;
- the choice of title and body for the dialog document;
- the ordered placeholder replacement loop (direction, then title, then body).

Replace-all on strings is defined in `Strings.ReplaceAll`. It scans left to
right and never rescans text it has just inserted. The lemmas prove that the
default dialog document comes out with exactly the three values in place,
provided the direction holds no `{` and the title does not contain the body
placeholder `{Wym_Dialog_Body}`.

Where JavaScript only tests a value for truthiness, the model uses a string,
and `""` stands for every falsy value. The body argument is an
`Option<string>`, because the source tells `undefined` (not a string) apart
from `""` (a string). A body that is truthy but not a string is not modelled
(see "Left out").

The implementation file of the undo/redo engine is not part of this model. Its
behaviour is taken from the tests. The tests never exercise a capacity bound
or the eviction of old entries, so the model has no bound and never evicts.

## Model

| member | source | states |
|---|---|---|
| `UndoHistory.Stack.Push` | src/test/unit/specific_feature_tests/undo_redo.js:409-414 | registering a change keeps the history up to the cursor, appends the snapshot as the new current entry and leaves nothing to redo; an unchanged content leaves the history as it was |
| `UndoHistory.Stack.Undo` | src/test/unit/specific_feature_tests/undo_redo.js:313-320 | undo moves the cursor back one entry and keeps the entries; at the floor it changes nothing |
| `UndoHistory.Stack.Redo` | src/test/unit/specific_feature_tests/undo_redo.js:322-334 | redo moves the cursor forward one entry and keeps the entries; at the ceiling it changes nothing |
| `UndoHistory.Init` | src/test/unit/specific_feature_tests/undo_redo.js:298-300 | a reset history holds just the seed, with nothing to undo or redo |
| `UndoHistory.UndoRestoresPrevious` | src/test/unit/specific_feature_tests/undo_redo.js:270-292 | undo makes the previous snapshot current, content and selection together, and redo then gives back the same history |
| `UndoHistory.PushThenUndo` | src/test/unit/specific_feature_tests/undo_redo.js:303-329 | after a real change, undo restores the previous snapshot and redo restores the registered one |
| `UndoHistory.RedoNAtCeiling` | src/test/unit/specific_feature_tests/undo_redo.js:331-334 | any number of redos with nothing to redo leave the history unchanged |
| `UndoHistory.UndoNAtFloor` | src/test/unit/specific_feature_tests/undo_redo.js:256-268 | any number of undos at the dawn of history leave the history unchanged |
| `UndoHistory.UndoNMoves` | src/test/unit/specific_feature_tests/undo_redo.js:313-320 | n undos move the cursor back by n, stopping at the floor, and keep the entries |
| `UndoHistory.RedoNMoves` | src/test/unit/specific_feature_tests/undo_redo.js:322-329 | n redos move the cursor forward by n, stopping at the ceiling, and keep the entries |
| `UndoHistory.UndoNThenRedoN` | src/test/unit/specific_feature_tests/undo_redo.js:313-329 | redoing as many steps as were undone returns to exactly the same history |
| `UndoHistory.PushAllAppends` | src/test/unit/specific_feature_tests/undo_redo.js:303-311 | registering a run of changed snapshots appends them after the cursor, in order, and moves the cursor to the last |
| `UndoHistory.FullUnwind` | src/test/unit/specific_feature_tests/undo_redo.js:256-268 | after n changes on a fresh history, n or more undos bring back the seed snapshot |
| `UndoHistory.PushAfterUndoDropsRedo` | src/test/unit/specific_feature_tests/undo_redo.js:380-415 | a change registered after undos leaves the kept prefix plus the new snapshot, and no number of redos brings back the undone entries |
| `UndoHistory.History.CanUndo` | src/test/unit/specific_feature_tests/undo_redo.js:313-320 | true exactly when the cursor is above the floor |
| `UndoHistory.History.CanRedo` | src/test/unit/specific_feature_tests/undo_redo.js:331-334 | true exactly when there are entries after the cursor |
| `UndoHistory.History.constructor` | src/test/unit/specific_feature_tests/undo_redo.js:256-262 | a new history holds just the starting document |
| `UndoHistory.History.Reset` | src/test/unit/specific_feature_tests/undo_redo.js:298-300 | reset leaves the given snapshot as the only entry, with the cursor on it |
| `UndoHistory.History.RegisterChange` | src/test/unit/specific_feature_tests/undo_redo.js:303-304 | the new state is the old history with the snapshot pushed |
| `UndoHistory.History.Undo` | src/test/unit/specific_feature_tests/undo_redo.js:313 | the new state is the old history undone; it returns the snapshot to apply, or nothing at the floor |
| `UndoHistory.History.Redo` | src/test/unit/specific_feature_tests/undo_redo.js:322 | the new state is the old history redone; it returns the snapshot to apply, or nothing at the ceiling |
| `Controller.Editor.constructor` | src/test/unit/specific_feature_tests/undo_redo.js:258-262 | an editor opened on a document has a history seeded with it |
| `Controller.Editor.Edit` | src/test/unit/specific_feature_tests/undo_redo.js:303 | an editing operation replaces the live content, keeps the selection and leaves the history alone |
| `Controller.Editor.Select` | src/test/unit/specific_feature_tests/undo_redo.js:274-282 | making a selection changes only the live selection |
| `Controller.Editor.RegisterChange` | src/test/unit/specific_feature_tests/undo_redo.js:304 | the live document is pushed onto the history, which then matches the live content |
| `Controller.Editor.Undo` | src/test/unit/specific_feature_tests/undo_redo.js:313-320 | the history is undone and the live document becomes the new current snapshot, or stays exactly as it was at the floor |
| `Controller.Editor.Redo` | src/test/unit/specific_feature_tests/undo_redo.js:322-334 | the history is redone and the live document becomes the new current snapshot, or stays exactly as it was at the ceiling |
| `Controller.Editor.ResetHistory` | src/test/unit/specific_feature_tests/undo_redo.js:299 | the live document becomes the single floor entry; nothing can be undone or redone |
| `UndoRedoScenarios.ManipulationRoundTrip` | src/test/unit/specific_feature_tests/undo_redo.js:18-38 | for any command: undo restores the start content and selection, and redo restores the command's result |
| `UndoRedoScenarios.NoUndoBeforeDawn` | src/test/unit/specific_feature_tests/undo_redo.js:256-268 | undo on a fresh editor keeps "<h1>Dawn of History</h1>" and position 0, and a second undo too |
| `UndoRedoScenarios.RestoresSelection` | src/test/unit/specific_feature_tests/undo_redo.js:270-292 | a selection across both paragraphs is the same after undo and redo of a no-op manipulation |
| `UndoRedoScenarios.RedoWhenAllRedone` | src/test/unit/specific_feature_tests/undo_redo.js:294-335 | change, undo, redo and a second redo show "<p>Foo</p><p>Bar</p>", "<p>Foo</p>", then "<p>Foo</p><p>Bar</p>" twice |
| `UndoRedoScenarios.NothingToRedoAfterChange` | src/test/unit/specific_feature_tests/undo_redo.js:380-415 | after change, undo and a new change, redo leaves "<p>Foo</p><p>Zad</p>" with nothing to redo |
| `UndoRedoScenarios.UndoAfterReset` | src/test/unit/specific_feature_tests/undo_redo.js:589-607 | after reset and one command, undo gives back "<p>Foo</p>" |
| `UndoRedoScenarios.RedoAfterReset` | src/test/unit/specific_feature_tests/undo_redo.js:609-628 | after reset, one command and undo, redo gives back "<ol><li>Foo</li></ol>" |
| `Dialogs.Name` | src/wymeditor/editor/dialogs.js:199-476 | the key of each built-in dialog in the dialog table: "CreateLink", "InsertImage", "InsertTable", "Paste", "Preview" |
| `Dialogs.Title` | src/wymeditor/editor/dialogs.js:199-476 | the `title` field of each dialog: "Link", "Image", "Table", "Paste_From_Word", "Preview" |
| `Dialogs.Lookup` | src/wymeditor/editor/dialogs.js:25-30 | the own-property test: a name finds the dialog of that name, and any other name finds none |
| `Dialogs.Index` | src/wymeditor/editor/dialogs.js:32 | bracket lookup finds a table dialog exactly when the own-property test does, and an inherited entry exactly for the members of `Object.prototype` |
| `Dialogs.LookupName` | src/wymeditor/editor/dialogs.js:199-476 | every built-in dialog is found under its own name |
| `Dialogs.ShouldOpen` | src/wymeditor/editor/dialogs.js:202-453 | CreateLink opens iff there is a selection, a selected container, and either a non-collapsed selection or an `a`/`A` container; InsertImage, InsertTable and Paste open iff there is a collapsed selection; Preview always opens |
| `Strings.LowerIsA` | src/wymeditor/editor/dialogs.js:212-215 | a tag name lower-cases to "a" exactly when it is "a" or "A" |
| `Dialogs.DialogWindowFeatures` | src/wymeditor/editor/dialogs.js:458-470 | only Preview has its own window features, and they begin with the default list |
| `Dialogs.WindowFeatures` | src/wymeditor/editor/dialogs.js:43-64 | the features are never empty and are one of the argument, the configured option, the defaults or the Preview features |
| `Dialogs.WindowFeaturesPrecedence` | src/wymeditor/editor/dialogs.js:43-64 | the features are the first given of: the argument, the dialog's own, the configured option; else the fixed default list |
| `Dialogs.GetBodyHtml` | src/wymeditor/editor/dialogs.js:220-457 | for every dialog, the body is its own configured option when that is set, else its built-in body: the form for CreateLink, InsertImage, InsertTable and Paste, the editor's HTML for Preview |
| `Dialogs.BodyReadsOwnOption` | src/wymeditor/editor/dialogs.js:220-457 | a dialog's body depends only on its own option, and only Preview's depends on the editor |
| `Dialogs.RefusedAsWritten` | src/wymeditor/editor/dialogs.js:25-30 | the guard as written: a known dialog is never refused, and a refused call has no usable body |
| `Dialogs.BodyReplacementAsWritten` | src/wymeditor/editor/dialogs.js:110 | the body expression as written has no value exactly when there is no non-empty body and no dialog; a non-empty body is used as it is |
| `Dialogs.Refused` | src/wymeditor/editor/dialogs.js:25-30 | the call is refused exactly when the name is unknown and no non-empty body is given; it refuses everything the written check refuses |
| `Dialogs.EmptyBodyPassesRefusal` | src/wymeditor/editor/dialogs.js:25-110 | an unknown name with body "" passes the written check and then has no body to use; an inherited name such as "toString" with body "" passes it too |
| `Dialogs.BodyReplacement` | src/wymeditor/editor/dialogs.js:108-111 | the body is the non-empty body argument, else the dialog's `getBodyHtml`; it agrees with the written expression wherever that has a value |
| `Dialogs.TitleReplacement` | src/wymeditor/editor/dialogs.js:104-107 | the title is the enclosed dialog title, or "Dialog" when there is no dialog |
| `Dialogs.Page` | src/wymeditor/editor/dialogs.js:88-96 | the default dialog document is the fixed text around a direction, a title and a body: it starts with the doctype and `<html dir="`, and its length is theirs added up |
| `Dialogs.Template` | src/wymeditor/editor/dialogs.js:88-96 | the document before replacement is never empty, and a configured `dialogHtml` replaces the default |
| `Dialogs.ApplyAll` | src/wymeditor/editor/dialogs.js:114-121 | the effect of the replacement loop: each replacement is applied in turn to the result of the previous one (its properties are in `ReplacementsInOrder` and `OpenDialog`) |
| `Dialogs.Replacements` | src/wymeditor/editor/dialogs.js:99-112 | three replacements with non-empty placeholders |
| `Dialogs.ReplacementsInOrder` | src/wymeditor/editor/dialogs.js:114-121 | the passes apply direction first, then title, then body, each to the previous result |
| `Dialogs.FixedTextHasNoBrace` | src/wymeditor/editor/dialogs.js:88-96 | the fixed text of the default dialog document holds no opening brace |
| `Dialogs.DirectionPass` | src/wymeditor/editor/dialogs.js:88-103 | the direction pass over the default document replaces only the direction placeholder |
| `Dialogs.TitlePass` | src/wymeditor/editor/dialogs.js:104-107 | the title pass replaces only the title placeholder |
| `Dialogs.BodyPass` | src/wymeditor/editor/dialogs.js:108-111 | the body pass replaces only the body placeholder |
| `Dialogs.DefaultPageFilled` | src/wymeditor/editor/dialogs.js:88-121 | when the direction holds no `{` and the title does not contain the body placeholder, the default dialog document comes out with the direction, title and body in place of their placeholders |
| `Dialogs.OpenDialog` | src/wymeditor/editor/dialogs.js:8-121 | raises exactly on refusal; fails with a TypeError exactly for an unrefused name inherited from `Object.prototype`; returns false when the dialog may not open or no window was created; otherwise uses the chosen features and the template filled by the three passes in order |
| `Strings.ReplaceAllAbsent` | src/wymeditor/editor/dialogs.js:115-121 | replacing a placeholder that does not occur changes nothing |
| `Strings.ReplaceAllAtFront` | src/wymeditor/editor/dialogs.js:115-121 | an occurrence at the front is replaced and the scan continues after it |
| `Strings.ReplaceAllBySelf` | src/wymeditor/editor/dialogs.js:115-121 | replacing a placeholder by itself changes nothing |
| `Strings.ReplaceAllSkipsPlain` | src/wymeditor/editor/dialogs.js:115-121 | text without the placeholder's first letter passes through unchanged |
| `Strings.ReplaceAllSkipsAbsent` | src/wymeditor/editor/dialogs.js:115-121 | text without the placeholder passes through unchanged when no occurrence can straddle the join |
| `Strings.ReplaceAllSkipsOther` | src/wymeditor/editor/dialogs.js:115-121 | a different placeholder is kept as it is |

## Left out

- The implementation file of the undo/redo engine is not part of this model. The history is modelled from the behaviour its tests assert.
- Capacity bound and eviction of old entries: nothing in the tests or the dialog code evidences one, so the history is unbounded.
- Capturing and restoring the DOM selection, and HTML normalisation: content is an opaque string and the selection an opaque value stored in the snapshot. The text a selection covers ("FooBar") is not modelled; the scenario checks that the stored selection is restored unchanged.
- The editing commands themselves (Bold, lists, links, images, tables, paste): a command is an `Edit` to its result content followed by `RegisterChange`.
- Toolbar-button and keyboard-shortcut wiring (undo_redo.js:337-378 and the shortcut parts of 589-628): it only dispatches onto `undo` and `redo`.
- `window.open`, `focus`, `doc.write`, `onbeforeunload`, `getBodyClass`, field population, and the submit and cancel handlers (dialogs.js:66-173, 253-270 and the like): browser I/O. Whether `window.open` yields a window is the `windowCreated` input of `Dialogs.OpenDialog`.
- The HTML of the built-in dialog forms (for example dialogs.js:220-252): constant markup with no logic. The four bodies are the inputs of `Dialogs.Forms`.
- `wym.replaceStrings` (dialogs.js:123), the translation of `{...}` strings: its source is not part of this model, so `Dialogs.OpenDialog` stops after the placeholder loop.
- `_encloseString` is not part of this model. It is a function parameter `enclose` of `Dialogs.OpenDialog`.
- `WYMeditor.DIRECTION` is defined in the editor core, which is not part of this model. The model gives it the value "{Wym_Direction}"; the lemmas use only its shape.
- `WYMeditor.Helper.replaceAllInStr` is not part of this model. `Strings.ReplaceAll` is a plain left-to-right, non-overlapping replace-all. JavaScript's `$` patterns in replacement strings are not modelled.
- `options.direction` is a string; an unset direction (which JavaScript would print as "undefined") is not modelled.
- `Strings.ToLower`: lower-cases ASCII letters only, where JavaScript's `toLowerCase` covers all of Unicode; only the comparison with "a" depends on it.
- `Dialogs.ShouldOpen` calls `shouldOpen` only on the five built-in dialogs. Dialogs added to the table at run time are not modelled.
- `Dialogs.OpenDialog`: a body argument that is truthy but not a string (a number, an object, a function) is not modelled. For a known dialog the source passes it to the body replacement at dialogs.js:110; the model has only `None` and strings.
- `Dialogs.PROTOTYPE_MEMBERS` lists the members of `Object.prototype` in a standard environment. Properties added to `Object.prototype` or to the dialog table at run time are not modelled.
- `Dialogs.OpenDialog` uses the corrected refusal `Dialogs.Refused`, so it raises "No such dialog and no body HTML provided" for every name outside the table with body "". The code as written lets such a call through. For an inherited name ("toString" and the others in `Dialogs.PROTOTYPE_MEMBERS`) it then raises a TypeError at dialogs.js:38, before any window opens. For any other name it returns false at line 77 when no window is created, and otherwise raises a TypeError at line 110. The finding below records both cases.
- `UndoRedoScenarios.ManipulationRoundTrip`: the `testWymManipulation` helper that the tests prepare and check each command with is not part of this model. The method assumes it resets the history after setting up the selection. Without that reset, undo gives back the start content with no selection, so the selection half of this member's contract rests on the assumption. The Bold test (undo_redo.js:18-38) itself checks only content.

## Findings

| source | as written | input that shows it | evidently intended | confidence | as-written member | corrected member |
|---|---|---|---|---|---|---|
| src/wymeditor/editor/dialogs.js:25-30, 110 | the guard refuses only when the body is not a string, but line 110 falls back to `dialog.getBodyHtml` whenever the body is falsy | `dialog("NoSuchDialog", null, "")`: `""` is a string, so the guard passes; `dialog` is undefined, so if no window is created the call returns false at line 77, and otherwise (line 85 focuses the window first) line 110 raises a TypeError instead of the intended error. `dialog("toString", null, "")` passes the guard too, and line 38 raises a TypeError because the inherited `toString` has no `shouldOpen` | an empty body counts as "no body HTML provided", so the call raises "No such dialog and no body HTML provided" | medium, not executed | `Dialogs.EmptyBodyPassesRefusal` | `Dialogs.Refused` |
