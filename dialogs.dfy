/**
 * The decisions `editor.dialog` takes before and while building a dialog
 * window: whether to refuse the call, whether the named dialog may open,
 * which window features to use, and what the dialog document is after its
 * placeholders are filled in. Opening the window and wiring its form are left
 * to the browser; whether the window could be created is an input.
 *
 * JavaScript values that are only tested for truthiness are strings here,
 * with "" standing for every falsy value (`undefined`, `null`, "").
 */
module Dialogs {
  import opened Wrappers
  import opened Strings

  /** The built-in dialogs, one per entry of the dialog table. */
  datatype DialogKind = CreateLink | InsertImage | InsertTable | Paste | Preview

  /** The key of a dialog in the table. */
  function Name(k: DialogKind): string {
    match k
    case CreateLink => "CreateLink"
    case InsertImage => "InsertImage"
    case InsertTable => "InsertTable"
    case Paste => "Paste"
    case Preview => "Preview"
  }

  /** Look a dialog name up in the table (an own property, so nothing else matches). */
  function Lookup(name: string): (r: Option<DialogKind>)
    ensures r.Some? ==> Name(r.value) == name
    ensures r.None? ==> forall k: DialogKind :: Name(k) != name
  {
    if name == "CreateLink" then Some(CreateLink)
    else if name == "InsertImage" then Some(InsertImage)
    else if name == "InsertTable" then Some(InsertTable)
    else if name == "Paste" then Some(Paste)
    else if name == "Preview" then Some(Preview)
    else None
  }

  /** Every built-in dialog is found under its own name. */
  lemma LookupName(k: DialogKind)
    ensures Lookup(Name(k)) == Some(k)
  {
  }

  /**
   * The names that bracket lookup finds on every object through its prototype
   * chain: the members of `Object.prototype` in a standard environment.
   */
  const PROTOTYPE_MEMBERS: set<string> := {
    "constructor", "hasOwnProperty", "isPrototypeOf", "propertyIsEnumerable",
    "toLocaleString", "toString", "valueOf", "__proto__",
    "__defineGetter__", "__defineSetter__", "__lookupGetter__", "__lookupSetter__"}

  /** What bracket lookup `DIALOGS[name]` finds. */
  datatype Entry =
    | Own(kind: DialogKind)   // a dialog of the table
    | Inherited               // a member of `Object.prototype`, which has no `shouldOpen`
    | Absent                  // `undefined`

  /** Bracket lookup: the table's own dialogs first, then the prototype chain. */
  function Index(name: string): (r: Entry)
    ensures r.Own? <==> Lookup(name).Some?
    ensures r.Own? ==> r.kind == Lookup(name).value
    ensures r.Inherited? <==> name in PROTOTYPE_MEMBERS
  {
    match Lookup(name)
    case Some(k) => Own(k)
    case None => if name in PROTOTYPE_MEMBERS then Inherited else Absent
  }

  /** The window title of each dialog, before it is enclosed for translation. */
  function Title(k: DialogKind): string {
    match k
    case CreateLink => "Link"
    case InsertImage => "Image"
    case InsertTable => "Table"
    case Paste => "Paste_From_Word"
    case Preview => "Preview"
  }

  /** An element of the edited document; only its tag name matters here. */
  datatype Element = Element(tagName: string)

  /**
   * What the dialogs ask of the editor: whether there is a selection, the
   * selected container (`None` where the editor answers `false`), whether the
   * selection is collapsed, and the document's HTML.
   */
  datatype EditorState = EditorState(
    hasSelection: bool,
    selectedContainer: Option<Element>,
    isCollapsed: bool,
    html: string)

  /** Whether the dialog may open for the editor in this state. */
  function ShouldOpen(k: DialogKind, st: EditorState): (r: bool)
    ensures k == CreateLink ==>
      (r <==> st.hasSelection && st.selectedContainer.Some? &&
              (!st.isCollapsed || st.selectedContainer.value.tagName in {"a", "A"}))
    ensures k in {InsertImage, InsertTable, Paste} ==> (r <==> st.hasSelection && st.isCollapsed)
    ensures k == Preview ==> r
  {
    match k
    case CreateLink =>
      if !st.hasSelection then false
      else if st.selectedContainer.None? then false
      else if st.isCollapsed && ToLower(st.selectedContainer.value.tagName) != "a" then
        LowerIsA(st.selectedContainer.value.tagName);
        false
      else
        LowerIsA(st.selectedContainer.value.tagName);
        true
    case InsertImage => st.hasSelection && st.isCollapsed
    case InsertTable => st.hasSelection && st.isCollapsed
    case Paste => st.hasSelection && st.isCollapsed
    case Preview => true
  }

  /** The window features used when nothing else provides any. */
  const DEFAULT_FEATURES := "menubar=no,titlebar=no,toolbar=no,resizable=no,width=560,height=300,top=0,left=0"

  /** The Preview dialog's own features: the defaults plus scroll bars. */
  const PREVIEW_FEATURES := DEFAULT_FEATURES + ",scrollbars=yes"

  /** The optional `getWindowFeatures` capability; only Preview has it. */
  function DialogWindowFeatures(k: DialogKind): (r: Option<string>)
    ensures r.Some? <==> k == Preview
    ensures r.Some? ==> |DEFAULT_FEATURES| <= |r.value| && r.value[..|DEFAULT_FEATURES|] == DEFAULT_FEATURES
  {
    if k == Preview then Some(PREVIEW_FEATURES) else None
  }

  /**
   * The features passed to the window: the caller's argument, else the
   * dialog's own, else the configured option, else the defaults.
   */
  function WindowFeatures(requested: string, dialog: Option<DialogKind>, configured: string): (r: string)
    ensures r != ""
    ensures r in {requested, configured, DEFAULT_FEATURES, PREVIEW_FEATURES}
  {
    if requested != "" then requested
    else if dialog.Some? && DialogWindowFeatures(dialog.value).Some? then
      DialogWindowFeatures(dialog.value).value
    else if configured != "" then configured
    else DEFAULT_FEATURES
  }

  /** The first non-empty candidate, or `fallback` when all are empty. */
  function FirstGiven(candidates: seq<string>, fallback: string): string
    decreases |candidates|
  {
    if candidates == [] then fallback
    else if candidates[0] != "" then candidates[0]
    else FirstGiven(candidates[1..], fallback)
  }

  /** The four sources of window features, tried in order of precedence. */
  lemma WindowFeaturesPrecedence(requested: string, dialog: Option<DialogKind>, configured: string)
    ensures WindowFeatures(requested, dialog, configured) ==
      FirstGiven([requested,
                  if dialog.Some? && DialogWindowFeatures(dialog.value).Some?
                  then DialogWindowFeatures(dialog.value).value else "",
                  configured],
                 DEFAULT_FEATURES)
  {
    var own := if dialog.Some? && DialogWindowFeatures(dialog.value).Some?
               then DialogWindowFeatures(dialog.value).value else "";
    var cs := [requested, own, configured];
    assert cs[1..] == [own, configured] && cs[1..][1..] == [configured] && cs[1..][1..][1..] == [];
    assert FirstGiven([configured], DEFAULT_FEATURES) ==
      if configured != "" then configured else DEFAULT_FEATURES;
    assert own != "" <==> dialog.Some? && DialogWindowFeatures(dialog.value).Some? by {
      assert PREVIEW_FEATURES != "";
    }
  }

  /** The configuration the dialogs read. */
  datatype Options = Options(
    direction: string,
    dialogFeatures: string,
    dialogHtml: string,
    dialogLinkHtml: string,
    dialogImageHtml: string,
    dialogTableHtml: string,
    dialogPasteHtml: string,
    dialogPreviewHtml: string)

  /** The built-in form bodies of the four form dialogs (their markup is not modelled). */
  datatype Forms = Forms(link: string, image: string, table: string, paste: string)

  /** The option that configures a dialog's body, "" when it is not set. */
  function ConfiguredBody(k: DialogKind, opts: Options): string {
    match k
    case CreateLink => opts.dialogLinkHtml
    case InsertImage => opts.dialogImageHtml
    case InsertTable => opts.dialogTableHtml
    case Paste => opts.dialogPasteHtml
    case Preview => opts.dialogPreviewHtml
  }

  /** The body a dialog falls back to: its built-in form, or the editor's HTML for Preview. */
  function BuiltInBody(k: DialogKind, forms: Forms, st: EditorState): string {
    match k
    case CreateLink => forms.link
    case InsertImage => forms.image
    case InsertTable => forms.table
    case Paste => forms.paste
    case Preview => st.html
  }

  /** The `getBodyHtml` capability of each dialog. */
  function GetBodyHtml(k: DialogKind, opts: Options, forms: Forms, st: EditorState): (r: string)
    ensures ConfiguredBody(k, opts) != "" ==> r == ConfiguredBody(k, opts)
    ensures ConfiguredBody(k, opts) == "" ==> r == BuiltInBody(k, forms, st)
  {
    match k
    case CreateLink => if opts.dialogLinkHtml != "" then opts.dialogLinkHtml else forms.link
    case InsertImage => if opts.dialogImageHtml != "" then opts.dialogImageHtml else forms.image
    case InsertTable => if opts.dialogTableHtml != "" then opts.dialogTableHtml else forms.table
    case Paste => if opts.dialogPasteHtml != "" then opts.dialogPasteHtml else forms.paste
    case Preview => if opts.dialogPreviewHtml != "" then opts.dialogPreviewHtml else st.html
  }

  /**
   * A dialog's body reads only its own option: two configurations that agree
   * on it give the same body, and only Preview looks at the editor.
   */
  lemma BodyReadsOwnOption(k: DialogKind, o1: Options, o2: Options, forms: Forms,
                           st1: EditorState, st2: EditorState)
    requires ConfiguredBody(k, o1) == ConfiguredBody(k, o2)
    requires k == Preview ==> st1.html == st2.html
    ensures GetBodyHtml(k, o1, forms, st1) == GetBodyHtml(k, o2, forms, st2)
  {
  }

  /** A body argument counts only when it is a non-empty string. */
  predicate Given(body: Option<string>) {
    body.Some? && body.value != ""
  }

  const NO_SUCH_DIALOG := "No such dialog and no body HTML provided"

  /** The refusal as written: an unknown name with no string body. */
  predicate RefusedAsWritten(name: string, body: Option<string>): (r: bool)
    ensures Lookup(name).Some? ==> !r
    ensures r ==> !Given(body)
  {
    Lookup(name).None? && body.None?
  }

  /** The body replacement as written: `None` where it dereferences the missing dialog. */
  function BodyReplacementAsWritten(body: Option<string>, dialog: Option<DialogKind>,
                                    opts: Options, forms: Forms, st: EditorState): (r: Option<string>)
    ensures r.None? <==> !Given(body) && dialog.None?
    ensures Given(body) ==> r == Some(body.value)
  {
    if Given(body) then Some(body.value)
    else if dialog.Some? then Some(GetBodyHtml(dialog.value, opts, forms, st))
    else None
  }

  /** An unknown name with an empty body passes the refusal and then fails on the missing dialog. */
  lemma EmptyBodyPassesRefusal(opts: Options, forms: Forms, st: EditorState)
    ensures !RefusedAsWritten("NoSuchDialog", Some(""))
    ensures BodyReplacementAsWritten(Some(""), Lookup("NoSuchDialog"), opts, forms, st) == None
    ensures !RefusedAsWritten("toString", Some("")) && Index("toString").Inherited?
  {
  }

  /**
   * The refusal as intended: an unknown name and no usable body. It refuses
   * everything the written check refuses, and what it lets through always has
   * a body.
   */
  predicate Refused(name: string, body: Option<string>): (r: bool)
    ensures RefusedAsWritten(name, body) ==> r
    ensures !r <==> Lookup(name).Some? || Given(body)
  {
    Lookup(name).None? && !Given(body)
  }

  /** The body replacement: a non-empty body argument, else the dialog's own body. */
  function BodyReplacement(body: Option<string>, dialog: Option<DialogKind>,
                           opts: Options, forms: Forms, st: EditorState): (r: string)
    requires Given(body) || dialog.Some?
    ensures BodyReplacementAsWritten(body, dialog, opts, forms, st) == Some(r)
  {
    if Given(body) then body.value else GetBodyHtml(dialog.value, opts, forms, st)
  }

  /** The title replacement: the enclosed dialog title, or "Dialog" for a body-only call. */
  function TitleReplacement(dialog: Option<DialogKind>, enclose: string -> string): (r: string)
    ensures dialog.None? ==> r == "Dialog"
    ensures dialog.Some? ==> r == enclose(Title(dialog.value))
  {
    if dialog.Some? then enclose(Title(dialog.value)) else "Dialog"
  }

  const DIALOG_TITLE := "{Wym_Dialog_Title}"
  const DIALOG_BODY := "{Wym_Dialog_Body}"
  /** The direction placeholder is defined with the editor core, which is not part of this model. */
  const DIRECTION := "{Wym_Direction}"

  const PUBLIC_ID := "\"-//W3C//DTD XHTML 1.0 Strict//EN\""
  const SYSTEM_ID := "\"http://www.w3.org/TR/xhtml1/" + "DTD/xhtml1-strict.dtd\""
  const DOCTYPE := "<!DOCTYPE html PUBLIC " + PUBLIC_ID + " " + SYSTEM_ID + ">"

  /** The default dialog document around a direction `d`, a title `t` and a body `b`. */
  function Page(d: string, t: string, b: string): (r: string)
    ensures |r| == |HEAD| + |d| + |OPEN_TITLE| + |t| + |CLOSE_TITLE| + |b| + |CLOSE_HTML|
    ensures r[..|HEAD|] == HEAD
  {
    HEAD + (d + (OPEN_TITLE + (t + (CLOSE_TITLE + (b + CLOSE_HTML)))))
  }

  /** The dialog document before replacement: the configured one, else the default with placeholders. */
  function Template(opts: Options): (r: string)
    ensures r != ""
    ensures opts.dialogHtml != "" ==> r == opts.dialogHtml
  {
    if opts.dialogHtml != "" then opts.dialogHtml else Page(DIRECTION, DIALOG_TITLE, DIALOG_BODY)
  }

  datatype Replacement = Replacement(placeholder: string, replacement: string)

  predicate Placeholders(reps: seq<Replacement>) {
    forall i :: 0 <= i < |reps| ==> reps[i].placeholder != []
  }

  /** The replacements in the order they are applied: direction, title, body. */
  function Replacements(direction: string, title: string, body: string): (reps: seq<Replacement>)
    ensures Placeholders(reps) && |reps| == 3
  {
    [Replacement(DIRECTION, direction), Replacement(DIALOG_TITLE, title), Replacement(DIALOG_BODY, body)]
  }

  /** Apply each replacement in turn to the result of the previous one. */
  function ApplyAll(s: string, reps: seq<Replacement>): string
    requires Placeholders(reps)
    decreases |reps|
  {
    if reps == [] then s
    else ApplyAll(ReplaceAll(s, reps[0].placeholder, reps[0].replacement), reps[1..])
  }

  /** The three placeholder passes run direction first, then title, then body. */
  lemma ReplacementsInOrder(s: string, d: string, t: string, b: string)
    ensures ApplyAll(s, Replacements(d, t, b)) ==
      ReplaceAll(ReplaceAll(ReplaceAll(s, DIRECTION, d), DIALOG_TITLE, t), DIALOG_BODY, b)
  {
    var reps := Replacements(d, t, b);
    var s1 := ReplaceAll(s, DIRECTION, d);
    var s2 := ReplaceAll(s1, DIALOG_TITLE, t);
    assert reps[1..] == [Replacement(DIALOG_TITLE, t), Replacement(DIALOG_BODY, b)];
    assert reps[1..][1..] == [Replacement(DIALOG_BODY, b)];
    assert reps[1..][1..][1..] == [];
    assert ApplyAll(s2, reps[1..][1..]) == ApplyAll(ReplaceAll(s2, DIALOG_BODY, b), []);
  }

  /** The fixed text around the placeholders of the default document. */
  const HEAD := DOCTYPE + "<html dir=\""
  const OPEN_TITLE := "\"><head><title>"
  const CLOSE_TITLE := "</title></head>"
  const CLOSE_HTML := "</html>"

  lemma PublicIdHasNoBrace()
    ensures '{' !in PUBLIC_ID
  {
  }

  lemma SystemIdHasNoBrace()
    ensures '{' !in SYSTEM_ID
  {
    assert '{' !in "\"http://www.w3.org/TR/xhtml1/";
    assert '{' !in "DTD/xhtml1-strict.dtd\"";
  }

  lemma HeadHasNoBrace()
    ensures '{' !in HEAD
  {
    PublicIdHasNoBrace();
    SystemIdHasNoBrace();
    assert '{' !in "<!DOCTYPE html PUBLIC ";
  }

  /** No opening brace occurs in the fixed text, so only the placeholders can match. */
  lemma FixedTextHasNoBrace()
    ensures '{' !in HEAD && '{' !in OPEN_TITLE && '{' !in CLOSE_TITLE && '{' !in CLOSE_HTML
    ensures CLOSE_TITLE[0] !in DIALOG_BODY
  {
    HeadHasNoBrace();
  }

  /** The direction pass touches only the direction placeholder. */
  lemma DirectionPass(d: string)
    ensures ReplaceAll(Page(DIRECTION, DIALOG_TITLE, DIALOG_BODY), DIRECTION, d) ==
      Page(d, DIALOG_TITLE, DIALOG_BODY)
  {
    FixedTextHasNoBrace();
    var p := DIRECTION;
    assert CLOSE_HTML + [] == CLOSE_HTML;
    ReplaceAllSkipsPlain(CLOSE_HTML, [], p, d);
    ReplaceAllSkipsOther(DIALOG_BODY, CLOSE_HTML, p, d, 7);
    ReplaceAllSkipsPlain(CLOSE_TITLE, DIALOG_BODY + CLOSE_HTML, p, d);
    ReplaceAllSkipsOther(DIALOG_TITLE, CLOSE_TITLE + (DIALOG_BODY + CLOSE_HTML), p, d, 7);
    ReplaceAllSkipsPlain(OPEN_TITLE, DIALOG_TITLE + (CLOSE_TITLE + (DIALOG_BODY + CLOSE_HTML)), p, d);
    ReplaceAllAtFront(OPEN_TITLE + (DIALOG_TITLE + (CLOSE_TITLE + (DIALOG_BODY + CLOSE_HTML))), p, d);
    ReplaceAllSkipsPlain(HEAD, p + (OPEN_TITLE + (DIALOG_TITLE + (CLOSE_TITLE + (DIALOG_BODY + CLOSE_HTML)))), p, d);
  }

  /** The title pass, after a direction without `{`, touches only the title placeholder. */
  lemma TitlePass(d: string, t: string)
    requires '{' !in d
    ensures ReplaceAll(Page(d, DIALOG_TITLE, DIALOG_BODY), DIALOG_TITLE, t) ==
      Page(d, t, DIALOG_BODY)
  {
    FixedTextHasNoBrace();
    var p := DIALOG_TITLE;
    assert CLOSE_HTML + [] == CLOSE_HTML;
    ReplaceAllSkipsPlain(CLOSE_HTML, [], p, t);
    ReplaceAllSkipsOther(DIALOG_BODY, CLOSE_HTML, p, t, 12);
    ReplaceAllSkipsPlain(CLOSE_TITLE, DIALOG_BODY + CLOSE_HTML, p, t);
    ReplaceAllAtFront(CLOSE_TITLE + (DIALOG_BODY + CLOSE_HTML), p, t);
    ReplaceAllSkipsPlain(OPEN_TITLE, p + (CLOSE_TITLE + (DIALOG_BODY + CLOSE_HTML)), p, t);
    ReplaceAllSkipsPlain(d, OPEN_TITLE + (p + (CLOSE_TITLE + (DIALOG_BODY + CLOSE_HTML))), p, t);
    ReplaceAllSkipsPlain(HEAD, d + (OPEN_TITLE + (p + (CLOSE_TITLE + (DIALOG_BODY + CLOSE_HTML)))), p, t);
  }

  /** The body pass touches only the body placeholder when the title does not contain it. */
  lemma BodyPass(d: string, t: string, b: string)
    requires '{' !in d && !Occurs(DIALOG_BODY, t)
    ensures ReplaceAll(Page(d, t, DIALOG_BODY), DIALOG_BODY, b) == Page(d, t, b)
  {
    FixedTextHasNoBrace();
    var p := DIALOG_BODY;
    ReplaceAllAtFront(CLOSE_HTML, p, b);
    ReplaceAllAbsent(CLOSE_HTML, p, b);
    ReplaceAllSkipsPlain(CLOSE_TITLE, p + CLOSE_HTML, p, b);
    ReplaceAllSkipsAbsent(t, CLOSE_TITLE + (p + CLOSE_HTML), p, b);
    ReplaceAllSkipsPlain(OPEN_TITLE, t + (CLOSE_TITLE + (p + CLOSE_HTML)), p, b);
    ReplaceAllSkipsPlain(d, OPEN_TITLE + (t + (CLOSE_TITLE + (p + CLOSE_HTML))), p, b);
    ReplaceAllSkipsPlain(HEAD, d + (OPEN_TITLE + (t + (CLOSE_TITLE + (p + CLOSE_HTML)))), p, b);
  }

  /**
   * With the default document, the passes fill each placeholder with its
   * value, provided the direction holds no `{` and the title does not contain
   * the body placeholder (both are scanned by later passes).
   */
  lemma DefaultPageFilled(d: string, t: string, b: string)
    requires '{' !in d && !Occurs(DIALOG_BODY, t)
    ensures ApplyAll(Page(DIRECTION, DIALOG_TITLE, DIALOG_BODY), Replacements(d, t, b)) == Page(d, t, b)
  {
    ReplacementsInOrder(Page(DIRECTION, DIALOG_TITLE, DIALOG_BODY), d, t, b);
    DirectionPass(d);
    TitlePass(d, t);
    BodyPass(d, t, b);
  }

  /** What a call to `editor.dialog` ends in. */
  datatype Outcome =
    | Thrown(message: string)        // the call raised an error
    | NotOpened                      // the call returned `false`
    | Failed                         // a TypeError: the entry found has no `shouldOpen`
    | Opened(features: string, html: string)  // a window with these features shows this document

  /**
   * `editor.dialog`: refuse an unknown name without a body, fail on a name
   * that bracket lookup finds on the prototype chain (its `shouldOpen` is
   * undefined), return `false` when the dialog may not open or no window
   * could be created, else choose the features and fill the document's
   * placeholders in order.
   */
  method OpenDialog(name: string, requestedFeatures: string, body: Option<string>,
                    st: EditorState, opts: Options, forms: Forms,
                    enclose: string -> string, windowCreated: bool)
    returns (out: Outcome)
    ensures out.Thrown? <==> Refused(name, body)
    ensures out.Thrown? ==> out.message == NO_SUCH_DIALOG
    ensures out.Failed? <==> !Refused(name, body) && name in PROTOTYPE_MEMBERS
    ensures !Refused(name, body) && Lookup(name).Some? && !ShouldOpen(Lookup(name).value, st) ==>
      out == NotOpened
    ensures out.Opened? <==>
      !Refused(name, body) && windowCreated && name !in PROTOTYPE_MEMBERS &&
      (Lookup(name).None? || ShouldOpen(Lookup(name).value, st))
    ensures out.Opened? ==>
      out.features == WindowFeatures(requestedFeatures, Lookup(name), opts.dialogFeatures) &&
      out.html == ApplyAll(Template(opts),
                           Replacements(opts.direction,
                                        TitleReplacement(Lookup(name), enclose),
                                        BodyReplacement(body, Lookup(name), opts, forms, st)))
  {
    if Refused(name, body) {
      return Thrown(NO_SUCH_DIALOG);
    }
    var entry := Index(name);
    if entry.Inherited? {
      return Failed;
    }
    var dialog := if entry.Own? then Some(entry.kind) else None;
    if dialog.Some? && !ShouldOpen(dialog.value, st) {
      return NotOpened;
    }
    var features := WindowFeatures(requestedFeatures, dialog, opts.dialogFeatures);
    if !windowCreated {
      return NotOpened;
    }
    var html := Template(opts);
    var reps := Replacements(opts.direction, TitleReplacement(dialog, enclose),
                             BodyReplacement(body, dialog, opts, forms, st));
    var i := 0;
    while i < |reps|
      invariant 0 <= i <= |reps|
      invariant ApplyAll(html, reps[i..]) == ApplyAll(Template(opts), reps)
    {
      html := ReplaceAll(html, reps[i].placeholder, reps[i].replacement);
      i := i + 1;
    }
    out := Opened(features, html);
  }
}
