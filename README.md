# Poke playground controller, modelled in Dafny

This project models the browser controller of the Poke programming-language playground
(`PokeIDE` in `static/script.js`). The controller owns four things: the editor text, the
output panel's log of styled entries, the run button's loading state, and a fixed table of
example programs. Its operations are:

- submitting the editor text to the `/execute` service and interpreting the reply;
- clearing the editor and the log, and appending to the log;
- loading an example by name, directly or through the prompt-driven menu;
- the keyboard shortcuts: Ctrl/Cmd+Enter runs, Ctrl/Cmd+k clears the log, and Tab inserts four spaces.

Modules:

- `Wrappers`: `Option`, for JavaScript values that may be absent.
- `JsText`: the string built-ins the controller calls.
  - `trim` is modelled over the exact ECMAScript whitespace and line-terminator set.
  - `toLowerCase` is modelled over ASCII letters.
  - `substring` clamps and swaps its indices, as JavaScript's does.
  - Numbers are rendered as decimal text, and `DecimalValue` reads them back.
- `OutputLog`: a log entry is its text plus the CSS class `displayOutput` picks for it.
- `Execution`: the request that is sent and the abstract `Response`.
  - `Submit` is the synchronous half of `runCode`.
  - `ReplyEntry` is the single entry a settled request leaves in the log.
- `ExampleCatalog`: the example table, its lookup and the menu's case-insensitive filter.
- `PokeIde`: the `PokeIDE` class.
  - Its fields are `editor`, `log` and `loading`.
  - A ghost counter `inFlight` counts started runs (loading set, request issued) whose continuation has not yet run.
  - Its methods model the source's methods and the keydown listeners.

`runCode` is split at its `await fetch(...)`:

- `BeginRun` is everything up to and including the fetch call.
- `CompleteRun(resp)` is the continuation: the `try`, `catch` and `finally` blocks.

No log or button state changes between the fetch settling and the final turn of the
continuation, so the continuation is one atomic step. `RunCode` is the two halves run
back to back.

Because the halves are separate, submissions can interleave:

- A single Ctrl/Cmd+Enter typed in the editor reaches both the editor's listener and the
  document's listener, so `runCode` starts twice (`EditorKeyDown`).
- `Valid()` (`loading ==> inFlight > 0`) is required and kept by every method that changes
  `loading` or `inFlight`, `SetLoading` included; the other methods change neither. So the
  button is never left disabled once all requests have settled. `BeginRun` counts its run
  just before setting `loading`.
- The converse fails: the first completion clears `loading` while the second request is
  still outstanding (`CtrlEnterInEditor`).

Three behaviours of the code are easy to misread:

- Reply fields are tested for JavaScript truthiness, not presence. An empty `error` string
  falls through to the output. This is what the service sends on success: `error` is `""`.
  An empty `output` gets the same fixed success notice as an absent one.
- Nothing stops a second submission while one is in flight.
- Blank text appends its error entry without clearing the log first.

## Model

| member | source | states |
|---|---|---|
| `JsText.TrimStart` | static/script.js:58 | The result is a suffix of the input; it is empty or starts with a non-whitespace character; everything dropped is whitespace. |
| `JsText.TrimEnd` | static/script.js:58 | The result is a prefix of the input; it is empty or ends with a non-whitespace character; everything dropped is whitespace. |
| `JsText.Trim` | static/script.js:58 | The trimmed text has no whitespace at either end and is never longer than the input. |
| `JsText.TrimmedIsFixed` | static/script.js:58 | Text with no whitespace at its ends is returned unchanged by trim. |
| `JsText.TrimIdempotent` | static/script.js:58 | Trimming twice equals trimming once. |
| `JsText.TrimStartOfPadded` | static/script.js:58 | Leading whitespace followed by a core that starts with a non-whitespace character trims back to exactly that core. |
| `JsText.TrimEndOfPadded` | static/script.js:58 | A core that ends with a non-whitespace character, followed by trailing whitespace, trims back to exactly that core. |
| `JsText.TrimOfPadded` | static/script.js:58 | For any whitespace padding on both sides of a trimmed core, trim returns exactly the core. |
| `JsText.TrimEmptyIffAllTrimmable` | static/script.js:58-60 | The trimmed text is empty exactly when every character of the input is whitespace, which is when `!code` holds. |
| `JsText.ToLowerCase` | static/script.js:259 | Length is preserved; each character is lower-cased individually; no ASCII upper-case letter remains. |
| `JsText.ToLowerCaseIdempotent` | static/script.js:259 | Lower-casing twice equals lower-casing once. |
| `JsText.Substring` | static/script.js:313 | The result is never longer than the text; for in-range indices it is the slice between them, in either argument order. |
| `JsText.NumberToString` | static/script.js:79 | A status is rendered as a non-empty run of decimal digits with no leading zero. |
| `JsText.DecimalRoundTrip` | static/script.js:79 | Reading back the rendered digits gives the number. |
| `JsText.NumberToStringInjective` | static/script.js:79 | Different statuses render as different texts. |
| `OutputLog.ClassName` | static/script.js:114-125 | Each style has its own CSS class: error-message, output-message or info-message. |
| `OutputLog.EntryFor` | static/script.js:111-127 | The element built for displayOutput carries the message verbatim, and its class is error-message for "error", output-message for "success" and info-message for any other type. |
| `OutputLog.StyleOf` | static/script.js:114-125 | "error" gives the error style, "success" the output style, and every other type (the default "info" included) the info style. |
| `Execution.Submit` | static/script.js:57-75 | A request is issued exactly when the text is not all whitespace. Its code is the trimmed text and is non-empty. Loading is then set and the log is exactly the running notice. Otherwise loading is unchanged and one "No code to run!" error is appended to the existing log. |
| `Execution.SubmitSendsCore` | static/script.js:58-75 | The request carries the editor text without its surrounding whitespace, and nothing else. |
| `Execution.SubmitTwice` | static/script.js:57-67 | Two submissions without a completion between them send the same request twice. Loading stays set and the log is the running notice. Blank text shows two error entries after the old log. |
| `Execution.Thrown` | static/script.js:78-96 | The catch block is reached exactly when fetch rejects, the status is not ok, or the body does not parse. A rejection or parse failure passes its own message through; a bad status throws a message starting "HTTP error! status: ". |
| `Execution.ReplyEntry` | static/script.js:78-96 | Every failure gives exactly one error entry: a rejected fetch, a non-ok status or a body that does not parse. Its text is "Network error: " followed by the thrown message. No reply ever renders in the info style. |
| `Execution.ReplyIsErrorIff` | static/script.js:84-96 | A reply renders as an error exactly when the request failed or the reply's error field is non-empty. |
| `Execution.ErrorTakesPrecedence` | static/script.js:86-87 | A non-empty error is shown as an error entry, whatever the output. |
| `Execution.OutputShownWhenErrorFalsy` | static/script.js:88-89 | With an absent or empty error, a non-empty output is shown as a success entry. |
| `Execution.SuccessNoticeWhenBothFalsy` | static/script.js:90-91 | With neither field non-empty, the entry is the success notice "Code executed successfully!". |
| `Execution.BadStatusNamesStatus` | static/script.js:78-96 | A non-ok status, whatever the body, gives an error entry "Network error: HTTP error! status: " followed by digits. Those digits read back as the status. |
| `Execution.ReplyExamples` | static/script.js:84-96 | Output "7" gives success "7"; error "boom" gives error "boom"; an empty object gives the success notice. |
| `Execution.ServerErrorExample` | static/script.js:78-96 | Status 500, whatever the body, gives exactly one error entry "Network error: HTTP error! status: 500". |
| `ExampleCatalog.ExampleSource` | static/script.js:147-234 | A program is found exactly for hello, factorial, fibonacci and calculator; it is the table's entry for that very name, and non-empty. |
| `ExampleCatalog.ExampleSourcesDistinct` | static/script.js:147-232 | Different example names give different programs. |
| `ExampleCatalog.LoadedNotice` | static/script.js:240 | The load notice begins "Loaded " followed by the example's name. |
| `ExampleCatalog.MenuSelection` | static/script.js:259-260 | A name is selected exactly when the answer exists and its lower-cased form is one of the four names. The selection is that lower-cased form and always has a program. |
| `ExampleCatalog.MenuIgnoresCase` | static/script.js:259 | Answers that differ only in ASCII letter case select the same example. |
| `ExampleCatalog.MenuExamples` | static/script.js:259-260 | "FiBoNaCci" selects fibonacci. A trailing space ("Hello ") selects nothing. A cancelled prompt selects nothing. |
| `PokeIde.TabSpliceShape` | static/script.js:309-314 | For a selection inside the text, the new length is the old one minus the selection plus four. The text before and after the selection is kept, four spaces replace it, and the caret lies within the new text. |
| `PokeIde.PokeIDE.constructor` | static/script.js:3-14 | The controller starts with the given editor text, an empty log and an enabled button, with nothing in flight. |
| `PokeIde.PokeIDE.SetLoading` | static/script.js:134-143 | Afterwards loading equals the argument, whatever it was before; the button invariant is kept (setting it needs a run in flight). |
| `PokeIde.PokeIDE.ClearOutput` | static/script.js:107-109 | The log is empty afterwards, from any log; so clearing twice is clearing once. |
| `PokeIde.PokeIDE.DisplayOutput` | static/script.js:111-132 | Exactly one entry, styled by the type, is appended after the unchanged earlier entries. |
| `PokeIde.PokeIDE.ClearCode` | static/script.js:102-105 | The editor text becomes empty; nothing else changes. |
| `PokeIde.PokeIDE.BeginRun` | static/script.js:57-76 | The request, log and loading flag are those `Submit` gives for the old editor text, log and flag. The in-flight count grows by the number of requests issued, and the button invariant is kept. |
| `PokeIde.PokeIDE.CompleteRun` | static/script.js:77-99 | On every path (reply, bad status, rejected fetch, unparsable body) the log becomes exactly `[ReplyEntry(resp)]` and loading becomes false. One fewer request is in flight. |
| `PokeIde.PokeIDE.RunCode` | static/script.js:57-100 | An uninterrupted run sends what `Submit` decides. With nothing sent, it appends the no-code error and leaves loading alone. Otherwise it ends with the single reply entry and loading cleared. |
| `PokeIde.PokeIDE.ClickRun` | static/script.js:17 | A click while the button is disabled does nothing. Otherwise it submits as `Submit` says. |
| `PokeIde.PokeIDE.LoadExample` | static/script.js:146-242 | A known name sets the editor to exactly its program and the log to exactly the load notice. Any other name changes neither. |
| `PokeIde.PokeIDE.ShowExampleMenu` | static/script.js:244-262 | When the answer selects an example, that example is loaded. A cancelled, empty or unknown answer changes neither the editor nor the log. |
| `PokeIde.PokeIDE.InsertTab` | static/script.js:306-316 | The editor becomes the text before the selection, four spaces, then the text after it. The caret is placed at start + 4. |
| `PokeIde.PokeIDE.DocumentKeyDown` | static/script.js:42-54 | Ctrl/Cmd+Enter submits as `Submit` says. Ctrl/Cmd+k empties the log without touching loading. Any other key changes nothing. |
| `PokeIde.PokeIDE.EditorKeyDown` | static/script.js:23-28 | A keydown in the editor runs the run listener, then the Tab listener, then the document's listener. Ctrl/Cmd+Enter submits twice in a row. Tab splices four spaces. Ctrl/Cmd+k empties the log. Other keys change nothing. |
| `PokeIde.CtrlEnterInEditor` | static/script.js:23-27 | One Ctrl+Enter on non-blank text sends two identical requests of the trimmed text. After the first settles the button is enabled again while exactly one request is still outstanding (the ghost result `outstandingBetween`). The log finally shows only the second reply. |

## Left out

- `ExampleCatalog.ExampleSource`: in the source the table is a plain object. A key inherited from `Object.prototype` (for example `toString`) would pass its truthiness test, and the editor would receive that member's text. The model treats such keys as unknown names. No modelled caller reaches them: the menu filters to the four names. The example cards pass names taken from the page markup, which is not part of this model.
- `JsText.ToLowerCase`: only ASCII letters are lower-cased, not full Unicode case mapping. The menu's decision is still exact. The only non-ASCII character that lower-cases to an ASCII letter is the Kelvin sign, which becomes `k`, and no example name contains `k`.
- The four example programs are abbreviated to their heading lines. They are distinct, non-empty constants, which is all the controller relies on; the Poke language itself is not modelled.
- `fetch` and `response.json()` are network I/O. They become the `Response` value: a rejection with its message, or a status with a body that is parsed JSON or a parse failure with its message. The texts of host-generated messages are parameters.
- Reply fields are modelled as strings or absent. Other JSON values (numbers, objects, `null`) in `error` or `output` are not modelled; the service only sends strings.
- `prompt()` is UI I/O: the answer is a parameter of `ShowExampleMenu`. The menu's option text is not modelled.
- `PokeIde.PokeIDE.InsertTab`: JavaScript's selection offsets and `substring` count UTF-16 code units, while a Dafny `string` counts Unicode scalar values. Start, end and caret therefore differ from the browser's once the text before them holds a character outside the Basic Multilingual Plane, such as the emoji in the hello program.
- `PokeIde.PokeIDE.InsertTab`: the caret is reported as `start + 4` without the browser's clamping. The browser keeps the selection inside the text, and `TabSpliceShape` shows that under that condition the caret never needs clamping.
- DOM plumbing is not modelled:
  - listener registration and the example-card wiring (lines 16-39);
  - `focus()`;
  - auto-scroll;
  - the run button's `loading` class and its label markup, which follow `loading` one for one;
  - the caret a browser moves when the editor's value is replaced.
- The syntax highlighter stub (lines 266-288) builds two keyword lists and discards them.
- Not modelled because they are presentation and browser APIs:
  - textarea auto-resize;
  - scroll animations;
  - console banners;
  - the global error handler;
  - the service-worker stub (lines 291-358).
- `app.py` is not part of this model. It wraps the Poke interpreter, which is not available here, in a Flask route.
- `shell.py` is not part of this model. It is a terminal read-eval-print loop over the same interpreter.
