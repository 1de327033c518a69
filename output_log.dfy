/**
 * The output panel's entries. Each entry is a rendered line of text together with the
 * CSS class displayOutput gives it; the log itself is a field of the PokeIDE class.
 */
module OutputLog {

  /** The three CSS classes an entry can carry. */
  datatype Style = ErrorMessage | OutputMessage | InfoMessage

  datatype Entry = Entry(style: Style, text: string)

  /** The class name set on the rendered element: the rendering of a Style. */
  function ClassName(s: Style): (name: string)
    ensures name == "error-message" <==> s == ErrorMessage
    ensures name == "output-message" <==> s == OutputMessage
    ensures name == "info-message" <==> s == InfoMessage
  {
    match s
    case ErrorMessage => "error-message"
    case OutputMessage => "output-message"
    case InfoMessage => "info-message"
  }

  /** displayOutput's type argument when the caller leaves it out. */
  const DefaultKind: string := "info"

  /** The switch on displayOutput's type argument: "error", "success", anything else. */
  function StyleOf(kind: string): (s: Style)
    ensures s == ErrorMessage <==> kind == "error"
    ensures s == OutputMessage <==> kind == "success"
    ensures s == InfoMessage <==> kind != "error" && kind != "success"
  {
    if kind == "error" then ErrorMessage
    else if kind == "success" then OutputMessage
    else InfoMessage
  }

  /** The entry displayOutput(message, kind) appends: the message verbatim, styled by kind. */
  function EntryFor(message: string, kind: string): (e: Entry)
    ensures e.text == message
    ensures ClassName(e.style) == if kind == "error" then "error-message"
                                  else if kind == "success" then "output-message"
                                  else "info-message"
  {
    Entry(StyleOf(kind), message)
  }
}
