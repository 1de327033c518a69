/**
 * The PokeIDE controller: the editor text, the output log and the run button's loading
 * state, with the operations the page's buttons and keyboard listeners invoke.
 */
module PokeIde {
  import opened Wrappers
  import opened JsText
  import opened OutputLog
  import opened Execution
  import opened ExampleCatalog

  /** The parts of a keydown event the listeners test. */
  datatype KeyEvent = KeyEvent(key: string, ctrlKey: bool, metaKey: bool)

  /** Ctrl/Cmd + Enter. */
  predicate IsRunShortcut(e: KeyEvent) {
    (e.ctrlKey || e.metaKey) && e.key == "Enter"
  }

  /** Ctrl/Cmd + k (the key value is the lower-case letter). */
  predicate IsClearShortcut(e: KeyEvent) {
    (e.ctrlKey || e.metaKey) && e.key == "k"
  }

  /** The Tab handler ignores modifier keys. */
  predicate IsTab(e: KeyEvent) {
    e.key == "Tab"
  }

  const Indent: string := "    "

  /** The editor text after Tab: the selection replaced by four spaces. */
  function TabSplice(value: string, start: nat, end: nat): string {
    Substring(value, 0, start) + Indent + Substring(value, end, |value|)
  }

  /**
   * For a selection inside the text, Tab keeps everything before and after the selection,
   * puts four spaces in its place, and the caret after the spaces is within the new text.
   */
  lemma TabSpliceShape(value: string, start: nat, end: nat)
    requires start <= end <= |value|
    ensures var r := TabSplice(value, start, end);
      && |r| == |value| - (end - start) + 4
      && r[..start] == value[..start]
      && r[start..start + 4] == Indent
      && r[start + 4..] == value[end..]
      && start + 4 <= |r|
  {
    var r := TabSplice(value, start, end);
    assert r == value[..start] + Indent + value[end..];
    assert r[..start] == value[..start];
    assert r[start..start + 4] == Indent;
    assert r[start + 4..] == value[end..];
  }

  /** The request a runCode call issued, as a sequence of zero or one. */
  function Sent(r: Option<Request>): (s: seq<Request>)
    ensures |s| <= 1
  {
    if r.Some? then [r.value] else []
  }

  class PokeIDE {
    /** The editor's text (codeEditor.value). */
    var editor: string
    /** The output panel's entries, oldest first. */
    var log: seq<Entry>
    /** The run button is disabled and shows its loading label. */
    var loading: bool
    /** Runs that have started (set loading, issued their request) and whose continuation has not yet run. */
    ghost var inFlight: nat

    /** The button is only ever disabled while some request is outstanding. */
    ghost predicate Valid()
      reads this
    {
      loading ==> inFlight > 0
    }

    /** The page starts with the text the editor was loaded with, an empty log and an enabled button. */
    constructor (text: string)
      ensures Valid()
      ensures editor == text && log == [] && !loading && inFlight == 0
    {
      editor := text;
      log := [];
      loading := false;
      inFlight := 0;
    }

    method SetLoading(isLoading: bool)
      requires Valid() && (isLoading ==> inFlight > 0)
      modifies this`loading
      ensures Valid() && loading == isLoading
    {
      loading := isLoading;
    }

    method ClearOutput()
      modifies this`log
      ensures log == []
    {
      log := [];
    }

    method DisplayOutput(message: string, kind: string := DefaultKind)
      modifies this`log
      ensures log == old(log) + [EntryFor(message, kind)]
    {
      log := log + [EntryFor(message, kind)];
    }

    method ClearCode()
      modifies this`editor
      ensures editor == []
    {
      editor := [];
    }

    /** runCode up to and including the fetch call. */
    method BeginRun() returns (sent: Option<Request>)
      requires Valid()
      modifies this`log, this`loading, this`inFlight
      ensures Valid()
      ensures Submission(sent, log, loading) == Submit(old(editor), old(log), old(loading))
      ensures inFlight == old(inFlight) + |Sent(sent)|
    {
      ghost var spec := Submit(editor, log, loading);
      var code := Trim(editor);
      if code == [] {
        assert spec == Submission(None, log + [EntryFor(NoCodeNotice, "error")], loading);
        DisplayOutput(NoCodeNotice, "error");
        return None;
      }
      assert spec == Submission(Some(ExecuteRequest(code)), [EntryFor(RunningNotice, "info")], true);
      inFlight := inFlight + 1;
      SetLoading(true);
      ClearOutput();
      DisplayOutput(RunningNotice, "info");
      sent := Some(ExecuteRequest(code));
    }

    /** runCode after its fetch settles: the try, catch and finally blocks. */
    method CompleteRun(resp: Response)
      requires Valid() && inFlight > 0
      modifies this`log, this`loading, this`inFlight
      ensures Valid()
      ensures log == [ReplyEntry(resp)] && !loading && inFlight == old(inFlight) - 1
    {
      var caught: Option<string> := None;
      match resp {
        case FetchRejected(reason) =>
          caught := Some(reason);
        case Received(status, body) =>
          if !IsOk(status) {
            caught := Some(HttpErrorPrefix + NumberToString(status));
          } else if body.Malformed? {
            caught := Some(body.reason);
          } else {
            ClearOutput();
            if Truthy(body.error) {
              DisplayOutput(body.error.value, "error");
            } else if Truthy(body.output) {
              DisplayOutput(body.output.value, "success");
            } else {
              DisplayOutput(SuccessNotice, "success");
            }
          }
      }
      if caught.Some? {
        ClearOutput();
        DisplayOutput(NetworkErrorPrefix + caught.value, "error");
      }
      SetLoading(false);
      inFlight := inFlight - 1;
    }

    /** One runCode call whose request settles with resp before any other event runs. */
    method RunCode(resp: Response) returns (sent: Option<Request>)
      requires Valid()
      modifies this`log, this`loading, this`inFlight
      ensures Valid() && inFlight == old(inFlight)
      ensures sent == Submit(old(editor), old(log), old(loading)).request
      ensures sent.None? ==> log == old(log) + [Entry(ErrorMessage, NoCodeNotice)] && loading == old(loading)
      ensures sent.Some? ==> log == [ReplyEntry(resp)] && !loading
    {
      sent := BeginRun();
      if sent.Some? {
        CompleteRun(resp);
      }
    }

    /** A click on the run button; while the button is disabled the browser delivers no click. */
    method ClickRun() returns (sent: Option<Request>)
      requires Valid()
      modifies this`log, this`loading, this`inFlight
      ensures Valid() && inFlight == old(inFlight) + |Sent(sent)|
      ensures old(loading) ==> sent.None? && log == old(log) && loading
      ensures !old(loading) ==> Submission(sent, log, loading) == Submit(old(editor), old(log), old(loading))
    {
      sent := None;
      if !loading {
        sent := BeginRun();
      }
    }

    method LoadExample(name: string)
      modifies this`editor, this`log
      ensures ExampleSource(name).Some? ==>
                editor == ExampleSource(name).value && log == [Entry(InfoMessage, LoadedNotice(name))]
      ensures ExampleSource(name).None? ==> editor == old(editor) && log == old(log)
    {
      var source := ExampleSource(name);
      if source.Some? {
        editor := source.value;
        ClearOutput();
        DisplayOutput(LoadedNotice(name), "info");
      }
    }

    /** The example menu, given the prompt's answer (None when it was cancelled). */
    method ShowExampleMenu(choice: Option<string>)
      modifies this`editor, this`log
      ensures MenuSelection(choice).Some? ==>
                var name := MenuSelection(choice).value;
                editor == ExampleSource(name).value && log == [Entry(InfoMessage, LoadedNotice(name))]
      ensures MenuSelection(choice).None? ==> editor == old(editor) && log == old(log)
    {
      if choice.Some? && choice.value != "" && ToLowerCase(choice.value) in MenuNames {
        LoadExample(ToLowerCase(choice.value));
      }
    }

    /** The Tab handler, given the editor's selection; returns the caret it sets. */
    method InsertTab(start: nat, end: nat) returns (caret: nat)
      modifies this`editor
      ensures editor == TabSplice(old(editor), start, end)
      ensures caret == start + 4
    {
      editor := Substring(editor, 0, start) + Indent + Substring(editor, end, |editor|);
      caret := start + 4;
    }

    /** The document's keydown listener. */
    method DocumentKeyDown(e: KeyEvent) returns (sent: Option<Request>)
      requires Valid()
      modifies this`log, this`loading, this`inFlight
      ensures Valid() && inFlight == old(inFlight) + |Sent(sent)|
      ensures IsRunShortcut(e) ==>
                Submission(sent, log, loading) == Submit(old(editor), old(log), old(loading))
      ensures IsClearShortcut(e) ==> sent.None? && log == [] && loading == old(loading)
      ensures !IsRunShortcut(e) && !IsClearShortcut(e) ==>
                sent.None? && log == old(log) && loading == old(loading)
    {
      sent := None;
      if IsRunShortcut(e) {
        sent := BeginRun();
      }
      if IsClearShortcut(e) {
        ClearOutput();
      }
    }

    /**
     * A keydown in the editor: the editor's run listener, then the Tab listener, then the
     * event bubbles to the document's listener. Ctrl/Cmd + Enter therefore runs the code twice.
     */
    method EditorKeyDown(e: KeyEvent, start: nat, end: nat) returns (sent: seq<Request>, caret: Option<nat>)
      requires Valid()
      modifies this`editor, this`log, this`loading, this`inFlight
      ensures Valid() && inFlight == old(inFlight) + |sent|
      ensures IsRunShortcut(e) ==>
                var first := Submit(old(editor), old(log), old(loading));
                var second := Submit(old(editor), first.log, first.loading);
                && sent == Sent(first.request) + Sent(second.request)
                && log == second.log && loading == second.loading
                && editor == old(editor) && caret.None?
      ensures IsTab(e) ==>
                && editor == TabSplice(old(editor), start, end) && caret == Some(start + 4)
                && sent == [] && log == old(log) && loading == old(loading)
      ensures IsClearShortcut(e) ==>
                && editor == old(editor) && caret.None?
                && sent == [] && log == [] && loading == old(loading)
      ensures !IsRunShortcut(e) && !IsTab(e) && !IsClearShortcut(e) ==>
                && editor == old(editor) && caret.None?
                && sent == [] && log == old(log) && loading == old(loading)
    {
      var first: Option<Request> := None;
      if IsRunShortcut(e) {
        first := BeginRun();
      }
      caret := None;
      if IsTab(e) {
        var c := InsertTab(start, end);
        caret := Some(c);
      }
      var second := DocumentKeyDown(e);
      sent := Sent(first) + Sent(second);
    }
  }

  /**
   * One Ctrl+Enter inside the editor holding non-blank text, then both requests settle in
   * turn. The first settlement re-enables the button although the second request is still
   * outstanding, and the log ends up showing the second reply only.
   */
  method CtrlEnterInEditor(text: string, first: Response, second: Response)
    returns (requests: seq<Request>, busyBetween: bool, ghost outstandingBetween: nat, shown: seq<Entry>)
    requires !AllTrimmable(text)
    ensures |requests| == 2 && requests[0] == requests[1] == ExecuteRequest(Trim(text))
    ensures !busyBetween && outstandingBetween == 1
    ensures shown == [ReplyEntry(second)]
  {
    var ide := new PokeIDE(text);
    var caret;
    requests, caret := ide.EditorKeyDown(KeyEvent("Enter", true, false), 0, 0);
    ide.CompleteRun(first);
    busyBetween, outstandingBetween := ide.loading, ide.inFlight;
    ide.CompleteRun(second);
    shown := ide.log;
  }
}
