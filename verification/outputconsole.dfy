/** The console panel of `src/components/OutputConsole.jsx`: its own
    `isExecuting` and `currentOutput` state next to the `output`, `loading`,
    `language` and `code` props, the manual run behind its Run button, Clear,
    and the choice of what the panel body shows. */
module OutputConsole {
  import opened Wrappers
  import opened Strings
  import opened Execution
  import Constants
  import CodeEditor

  /** The props the panel receives. */
  datatype Props = Props(output: string, loading: bool, language: string, code: string)

  /** The panel's own state. */
  datatype Console = Console(isExecuting: bool, currentOutput: string)

  /** The first render: not executing, and `currentOutput` seeded from the
      `output` prop of that render (later prop values do not reach it). */
  function Mount(p: Props): (c: Console)
    ensures !c.isExecuting && c.currentOutput == p.output
  {
    Console(false, p.output)
  }

  // ---------------------------------------------------------------------------
  // runCode
  // ---------------------------------------------------------------------------

  /** A state update the manual run performs. */
  datatype Write = SetExecuting(on: bool) | SetCurrentOutput(text: string)

  /** `run.output || run.stderr || "No output"`, or `Error: <message>` on failure. */
  function ConsoleOutput(outcome: ExecOutcome): (text: string)
    ensures outcome.Rejected? ==> text == "Error: " + outcome.message
    ensures outcome.Resolved? ==>
      if Truthy(RunOutput(outcome.run)) then text == RunOutput(outcome.run).value
      else if Truthy(RunStderr(outcome.run)) then text == RunStderr(outcome.run).value
      else text == "No output"
  {
    match outcome
    case Rejected(message) => "Error: " + message
    case Resolved(run) => OrElse(RunOutput(run), OrElse(RunStderr(run), "No output"))
  }

  /** The run does nothing for white-space-only code or a web language. */
  predicate Skips(p: Props) {
    Trim(p.code) == "" || Constants.IsWebLanguage(p.language)
  }

  /** The updates `runCode` makes, in order, when `executeCode` ends with
      `outcome`. */
  function ManualRunWrites(p: Props, outcome: ExecOutcome): (ws: seq<Write>)
    ensures ws == [] <==> IsBlank(p.code) || Constants.IsWebLanguage(p.language)
    ensures ws != [] ==> ws == [SetExecuting(true), SetCurrentOutput(ConsoleOutput(outcome)), SetExecuting(false)]
  {
    TrimEmptyIffBlank(p.code);
    if Skips(p) then []
    else [SetExecuting(true), SetCurrentOutput(ConsoleOutput(outcome)), SetExecuting(false)]
  }

  function Apply(c: Console, ws: seq<Write>): Console
    decreases |ws|
  {
    if ws == [] then c
    else
      var c' := match ws[0]
        case SetExecuting(on) => c.(isExecuting := on)
        case SetCurrentOutput(text) => c.(currentOutput := text);
      Apply(c', ws[1..])
  }

  /** `clearOutput`. */
  function Clear(c: Console): (c': Console)
    ensures c'.currentOutput == "" && c'.isExecuting == c.isExecuting
  {
    c.(currentOutput := "")
  }

  /** The manual run: `isExecuting` is on while the call is outstanding and off
      after it on both outcomes, and the panel's own output becomes the call's
      result; it is a no-op for white-space-only code and for web languages. */
  lemma ManualRun(c: Console, p: Props, outcome: ExecOutcome)
    ensures var ws := ManualRunWrites(p, outcome);
            && (IsBlank(p.code) || Constants.IsWebLanguage(p.language) ==> Apply(c, ws) == c)
            && (ws != [] ==> Apply(c, ws[..1]).isExecuting)
            && (ws != [] ==> Apply(c, ws) == Console(false, ConsoleOutput(outcome)))
  {
    var ws := ManualRunWrites(p, outcome);
    if ws != [] {
      var text := ConsoleOutput(outcome);
      assert ws[..1] == [SetExecuting(true)];
      assert Apply(c, ws[..1]) == Apply(c.(isExecuting := true), []);
      assert ws[1..] == [SetCurrentOutput(text), SetExecuting(false)];
      assert ws[1..][1..] == [SetExecuting(false)];
      assert Apply(c.(isExecuting := true, currentOutput := text), [SetExecuting(false)]) == Console(false, text);
    }
  }

  /** The two run paths read the same response differently: where the call
      printed something they agree, but the editor ignores `stderr`, spells its
      fallback `No Output`, and reports failures without the message. */
  lemma OutputRulesCompared(run: RunRecord, message: string)
    ensures Truthy(run.output) ==>
      ConsoleOutput(Resolved(Some(run))) == CodeEditor.EditorOutput(Resolved(Some(run)))
    ensures !Truthy(run.output) && Truthy(run.stderr) ==>
      ConsoleOutput(Resolved(Some(run))) == run.stderr.value && CodeEditor.EditorOutput(Resolved(Some(run))) == "No Output"
    ensures ConsoleOutput(Resolved(None)) == "No output" != CodeEditor.EditorOutput(Resolved(None))
    ensures ConsoleOutput(Rejected(message)) != CodeEditor.EditorOutput(Rejected(message))
  {
    assert ConsoleOutput(Rejected(message))[..7] == "Error: ";
    assert CodeEditor.EditorOutput(Rejected(message))[..7] == "Error e";
  }

  // ---------------------------------------------------------------------------
  // Derived values and the panel body
  // ---------------------------------------------------------------------------

  /** `currentOutput || output`. */
  function DisplayOutput(c: Console, p: Props): string {
    if c.currentOutput != "" then c.currentOutput else p.output
  }

  /** `loading || isExecuting`. */
  predicate IsLoading(c: Console, p: Props) {
    p.loading || c.isExecuting
  }

  /** After Clear the panel shows the `output` prop again. */
  lemma ClearShowsProp(c: Console, p: Props)
    ensures DisplayOutput(Clear(c), p) == p.output
  {
  }

  /** A non-empty `output` prop at mount keeps showing until Clear or a manual
      run, whatever the prop later becomes. */
  lemma MountedOutputPersists(first: Props, later: Props)
    requires first.output != ""
    ensures DisplayOutput(Mount(first), later) == first.output
  {
  }

  const WebPlaceholder: string := "Web languages show live preview in the Preview tab"
  const RunPlaceholder: string := "Click \"Run\" to execute your code or start typing to see auto-execution results"

  /** What the panel body shows. */
  datatype Body = Spinner | OutputText(text: string, red: bool) | Placeholder(message: string)

  function RenderBody(c: Console, p: Props): (b: Body)
    ensures b.Spinner? <==> IsLoading(c, p)
    ensures b.OutputText? <==> !IsLoading(c, p) && DisplayOutput(c, p) != ""
    ensures b.OutputText? ==> b.text == DisplayOutput(c, p) && (b.red <==> Contains(b.text, "Error"))
    ensures b.Placeholder? ==> (b.message == WebPlaceholder <==> Constants.IsWebLanguage(p.language))
  {
    var text := DisplayOutput(c, p);
    if IsLoading(c, p) then Spinner
    else if text != "" then OutputText(text, Contains(text, "Error"))
    else if Constants.IsWebLanguage(p.language) then Placeholder(WebPlaceholder)
    else Placeholder(RunPlaceholder)
  }

  /** `"Error"` occurs in a failure report. */
  lemma ErrorReportMentionsError(message: string)
    ensures Contains("Error: " + message, "Error")
  {
    assert OccursAt("Error: " + message, "Error", 0);
  }

  /** A failed manual run, once the props stop loading, leaves the report on
      screen in red. */
  lemma FailedRunShowsRed(c: Console, p: Props, message: string)
    requires !p.loading && !IsBlank(p.code) && !Constants.IsWebLanguage(p.language)
    ensures RenderBody(Apply(c, ManualRunWrites(p, Rejected(message))), p) == OutputText("Error: " + message, true)
  {
    ManualRun(c, p, Rejected(message));
    ErrorReportMentionsError(message);
  }

  /** The Run button is shown exactly for non-web languages. */
  predicate HasRunButton(p: Props) {
    !Constants.IsWebLanguage(p.language)
  }

  /** The Run button is present exactly when pressing it on non-blank code does
      something. */
  lemma RunButtonIffRunActs(p: Props, outcome: ExecOutcome)
    requires !IsBlank(p.code)
    ensures HasRunButton(p) <==> ManualRunWrites(p, outcome) != []
  {
  }
}
