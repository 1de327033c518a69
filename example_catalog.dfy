/**
 * The fixed table of example programs loadExample consults, and the filter
 * showExampleMenu applies to the name typed at its prompt.
 */
module ExampleCatalog {
  import opened Wrappers
  import opened JsText

  /** The example programs, each abbreviated to its heading line. */
  const HelloSource: string := "# Hello World Example"
  const FactorialSource: string := "# Factorial Function Example"
  const FibonacciSource: string := "# Fibonacci Sequence Example"
  const CalculatorSource: string := "# Simple Calculator Example"

  const Examples: map<string, string> := map[
    "hello" := HelloSource,
    "factorial" := FactorialSource,
    "fibonacci" := FibonacciSource,
    "calculator" := CalculatorSource
  ]

  /** The names the menu accepts, in the order it lists them. */
  const MenuNames: seq<string> := ["hello", "factorial", "fibonacci", "calculator"]

  /**
   * The table lookup with its truthiness test: a program for the four names, nothing
   * for any other.
   */
  function ExampleSource(name: string): (r: Option<string>)
    ensures r.Some? <==> name in MenuNames
    ensures r.Some? ==> r.value != [] && name in Examples && r.value == Examples[name]
  {
    if name in Examples && Examples[name] != "" then Some(Examples[name]) else None
  }

  /** Different example names load different programs. */
  lemma ExampleSourcesDistinct(a: string, b: string)
    requires ExampleSource(a).Some? && ExampleSource(b).Some? && a != b
    ensures ExampleSource(a).value != ExampleSource(b).value
  {
  }

  /** The info line loadExample shows after replacing the editor text. */
  function LoadedNotice(name: string): (m: string)
    ensures 7 + |name| <= |m| && m[..7] == "Loaded " && m[7..7 + |name|] == name
  {
    "Loaded " + name + " example. Click \"Run Code\" to execute!"
  }

  /**
   * showExampleMenu's filter on the prompt's answer (None when the prompt is cancelled):
   * the lower-cased answer when it is one of the menu's names, otherwise nothing.
   */
  function MenuSelection(choice: Option<string>): (r: Option<string>)
    ensures r.Some? <==> choice.Some? && ToLowerCase(choice.value) in MenuNames
    ensures r.Some? ==> r.value == ToLowerCase(choice.value) && ExampleSource(r.value).Some?
  {
    if choice.Some? && choice.value != "" && ToLowerCase(choice.value) in MenuNames
    then Some(ToLowerCase(choice.value))
    else None
  }

  /** The answer is matched without regard to the case of its ASCII letters. */
  lemma MenuIgnoresCase(a: string, b: string)
    requires ToLowerCase(a) == ToLowerCase(b)
    ensures MenuSelection(Some(a)) == MenuSelection(Some(b))
  {
  }

  lemma MenuExamples()
    ensures MenuSelection(Some("FiBoNaCci")) == Some("fibonacci")
    ensures MenuSelection(Some("Hello ")) == None
    ensures MenuSelection(None) == None
  {
    assert ToLowerCase("FiBoNaCci") == "fibonacci";
    assert |ToLowerCase("Hello ")| == 6;
  }
}
