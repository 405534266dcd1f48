/** The auto-running editor of `src/components/CodeEditor.jsx`: its own language,
    code, output and loading state, the debounced run scheduled by the effect on
    every change of code or language, and the run itself. The debounce timer is a
    one-slot pending request that a `Fire` step releases. */
module CodeEditor {
  import opened Wrappers
  import opened Strings
  import opened Execution
  import Constants

  const DefaultLanguage: string := "python"

  /** The languages the editor's own `languageSnippets` table (distinct from
      `CODE_SNIPPETS`) has a snippet for, and the snippets in the same order. */
  const SnippetLanguages: seq<string> := ["python", "javascript", "cpp", "java", "c", "typescript"]

  const SnippetTexts: seq<string> := [
    "print(\"Hello from Python\")",
    "console.log(\"Hello from JavaScript\");",
    "#include <iostream>\nint main() {\n  std::cout << \"Hello from C++\";\n  return 0;\n}",
    "public class Main {\n  public static void main(String[] args) {\n    System.out.println(\"Hello from Java\");\n  }\n}",
    "#include <stdio.h>\nint main() {\n  printf(\"Hello from C\");\n  return 0;\n}",
    "console.log(\"Hello from TypeScript\");"
  ]

  const LanguageSnippets: Constants.Entries<string> := Constants.Zip(SnippetLanguages, SnippetTexts)

  /** `languageSnippets[lang] || ""`: the snippet exactly for the languages of the
      table, the empty string for every other. */
  function SnippetFor(language: string): (code: string)
    ensures language in SnippetLanguages <==> code != ""
  {
    SnippetTableShape();
    Constants.Lookup(LanguageSnippets, language).GetOr("")
  }

  lemma SnippetTableShape()
    ensures Constants.Keys(LanguageSnippets) == SnippetLanguages
    ensures forall i | 0 <= i < |LanguageSnippets| :: LanguageSnippets[i].1 != ""
  {
    SnippetTextsNonEmpty();
  }

  lemma SnippetTextsNonEmpty()
    ensures forall i | 0 <= i < |SnippetTexts| :: SnippetTexts[i] != ""
  {
  }

  /** The selector's languages split into those with an editor snippet and the
      four without one. */
  lemma LanguagesWithoutSnippet(language: string)
    requires language in Constants.Languages
    ensures SnippetFor(language) == "" <==> language in ["csharp", "php", "html", "css"]
  {
    SnippetLanguagesSplit(language);
  }

  lemma SnippetLanguagesSplit(language: string)
    requires language in Constants.Languages
    ensures language !in SnippetLanguages <==> language in ["csharp", "php", "html", "css"]
  {
  }

  // ---------------------------------------------------------------------------
  // runCode
  // ---------------------------------------------------------------------------

  /** A state update `runCode` performs. */
  datatype Write = SetLoading(on: bool) | SetOutput(text: string)

  /** The output text for a completed call: `run.output` when non-empty, else
      `"No Output"`; any failure gives a fixed message. */
  function EditorOutput(outcome: ExecOutcome): (text: string)
    ensures outcome.Rejected? ==> text == "Error executing code."
    ensures outcome.Resolved? && Truthy(RunOutput(outcome.run)) ==> text == RunOutput(outcome.run).value
    ensures outcome.Resolved? && !Truthy(RunOutput(outcome.run)) ==> text == "No Output"
  {
    match outcome
    case Rejected(_) => "Error executing code."
    case Resolved(run) => OrElse(RunOutput(run), "No Output")
  }

  /** The output never depends on `stderr`. */
  lemma StderrIgnored(output: Option<string>, e1: Option<string>, e2: Option<string>)
    ensures EditorOutput(Resolved(Some(RunRecord(output, e1)))) == EditorOutput(Resolved(Some(RunRecord(output, e2))))
  {
  }

  /** The updates `runCode(lang, src)` makes, in order, when the call ends with
      `outcome`: none for white-space-only code; otherwise loading on, the output,
      loading off, on success and on failure alike. */
  function RunCodeWrites(src: string, outcome: ExecOutcome): (ws: seq<Write>)
    ensures ws == [] <==> IsBlank(src)
    ensures ws != [] ==> ws == [SetLoading(true), SetOutput(EditorOutput(outcome)), SetLoading(false)]
  {
    TrimEmptyIffBlank(src);
    if Trim(src) == "" then []
    else [SetLoading(true), SetOutput(EditorOutput(outcome)), SetLoading(false)]
  }

  // ---------------------------------------------------------------------------
  // Editor state and the debounce slot
  // ---------------------------------------------------------------------------

  /** A scheduled run: the arguments the debounced call was made with. */
  datatype Request = Request(language: string, code: string)

  /** The component's state and the one pending debounced call, if any. */
  datatype Editor = Editor(language: string, code: string, output: string, loading: bool, pending: Option<Request>)

  /** The first render: python and its snippet, and the mount effect has already
      scheduled a run of them. */
  function Initial(): (s: Editor)
    ensures s.language == "python" && s.code == SnippetFor("python") && s.code != ""
    ensures s.pending == Some(Request(s.language, s.code))
    ensures s.output == "" && !s.loading
  {
    Editor(DefaultLanguage, SnippetFor(DefaultLanguage), "", false, Some(Request(DefaultLanguage, SnippetFor(DefaultLanguage))))
  }

  function Apply(s: Editor, ws: seq<Write>): Editor
    decreases |ws|
  {
    if ws == [] then s
    else
      var s' := match ws[0]
        case SetLoading(on) => s.(loading := on)
        case SetOutput(text) => s.(output := text);
      Apply(s', ws[1..])
  }

  /** A render with new `(language, code)`. The effect depends on both, so it
      re-runs only when one of them changed: its cleanup cancels the pending call
      and it schedules a call with the new values. */
  function Render(s: Editor, language: string, code: string): (s': Editor)
    ensures s'.language == language && s'.code == code
    ensures s'.output == s.output && s'.loading == s.loading
    ensures (language, code) != (s.language, s.code) ==> s'.pending == Some(Request(language, code))
    ensures (language, code) == (s.language, s.code) ==> s'.pending == s.pending
  {
    if language == s.language && code == s.code then s
    else s.(language := language, code := code, pending := Some(Request(language, code)))
  }

  /** An edit in the editor widget. */
  function Edit(s: Editor, code: string): Editor {
    Render(s, s.language, code)
  }

  /** `handleLanguageChange`: both state updates land in one render. */
  function ChangeLanguage(s: Editor, language: string): (s': Editor)
    ensures s'.language == language && s'.code == SnippetFor(language)
  {
    Render(s, language, SnippetFor(language))
  }

  /** The quiet period elapses: the pending call runs to completion with the given
      outcome of `executeCode`. Nothing happens when no call is pending. */
  function Fire(s: Editor, outcome: ExecOutcome): Editor {
    match s.pending
    case None => s
    case Some(r) => Apply(s.(pending := None), RunCodeWrites(r.code, outcome))
  }

  /** The pending call, if any, carries the current language and code. */
  predicate Consistent(s: Editor) {
    s.pending.Some? ==> s.pending.value == Request(s.language, s.code)
  }

  /** An input event: an edit, a language change, or the timer firing. */
  datatype Input = TypeCode(code: string) | SelectLanguage(language: string) | TimerFires(outcome: ExecOutcome)

  function Step(s: Editor, input: Input): Editor {
    match input
    case TypeCode(code) => Edit(s, code)
    case SelectLanguage(language) => ChangeLanguage(s, language)
    case TimerFires(outcome) => Fire(s, outcome)
  }

  function RunInputs(s: Editor, inputs: seq<Input>): Editor
    decreases |inputs|
  {
    if inputs == [] then s else Step(RunInputs(s, inputs[..|inputs| - 1]), inputs[|inputs| - 1])
  }

  lemma ApplyRunCode(s: Editor, src: string, outcome: ExecOutcome)
    ensures IsBlank(src) ==> Apply(s, RunCodeWrites(src, outcome)) == s
    ensures !IsBlank(src) ==> Apply(s, RunCodeWrites(src, outcome))
                              == s.(output := EditorOutput(outcome), loading := false)
  {
    if !IsBlank(src) {
      var text := EditorOutput(outcome);
      var ws := [SetLoading(true), SetOutput(text), SetLoading(false)];
      assert RunCodeWrites(src, outcome) == ws;
      assert ws[1..] == [SetOutput(text), SetLoading(false)];
      assert ws[1..][1..] == [SetLoading(false)];
      assert Apply(s.(loading := true, output := text), [SetLoading(false)]) == s.(output := text, loading := false);
    }
  }

  /** Firing runs the current language and code: white-space-only code leaves
      output and loading alone, anything else ends with the call's output and
      loading cleared. No call is left pending. */
  lemma FireRunsCurrent(s: Editor, outcome: ExecOutcome)
    requires Consistent(s) && s.pending.Some?
    ensures var s' := Fire(s, outcome);
            && s'.pending.None? && s'.language == s.language && s'.code == s.code
            && (IsBlank(s.code) ==> s'.output == s.output && s'.loading == s.loading)
            && (!IsBlank(s.code) ==> s'.output == EditorOutput(outcome) && !s'.loading)
  {
    ApplyRunCode(s.(pending := None), s.code, outcome);
  }

  /** Every input keeps the pending call in step with the current inputs. */
  lemma StepConsistent(s: Editor, input: Input)
    requires Consistent(s)
    ensures Consistent(Step(s, input))
  {
    match input
    case TypeCode(code) =>
    case SelectLanguage(language) =>
    case TimerFires(outcome) =>
      if s.pending.Some? {
        ApplyRunCode(s.(pending := None), s.pending.value.code, outcome);
      }
  }

  /** Debounce: after a burst of edits and language changes with no firing in
      between, at most one call is pending, and it is the call for the final code
      and language: the last edit wins. No call is pending only when none was
      pending before and no point of the burst changed the code or language, even
      for a moment. */
  lemma {:induction false} BurstLeavesLatest(s: Editor, inputs: seq<Input>)
    requires Consistent(s)
    requires forall i | 0 <= i < |inputs| :: !inputs[i].TimerFires?
    ensures var s' := RunInputs(s, inputs);
            && Consistent(s')
            && ((s'.language, s'.code) != (s.language, s.code) ==> s'.pending == Some(Request(s'.language, s'.code)))
            && (s'.pending.None? ==> s.pending.None?)
    ensures RunInputs(s, inputs).pending.None? ==>
              forall k | 0 <= k <= |inputs| ::
                (RunInputs(s, inputs[..k]).language, RunInputs(s, inputs[..k]).code) == (s.language, s.code)
    decreases |inputs|
  {
    if inputs != [] {
      var init := inputs[..|inputs| - 1];
      BurstLeavesLatest(s, init);
      StepConsistent(RunInputs(s, init), inputs[|inputs| - 1]);
    }
    QuietBurst(s, inputs);
  }

  /** A burst that ends with nothing pending started with nothing pending and
      never moved the code or language. */
  lemma {:induction false} QuietBurst(s: Editor, inputs: seq<Input>)
    requires forall i | 0 <= i < |inputs| :: !inputs[i].TimerFires?
    ensures RunInputs(s, inputs).pending.None? ==>
              s.pending.None? && forall k | 0 <= k <= |inputs| ::
                (RunInputs(s, inputs[..k]).language, RunInputs(s, inputs[..k]).code) == (s.language, s.code)
    decreases |inputs|
  {
    if inputs != [] && RunInputs(s, inputs).pending.None? {
      var n := |inputs|;
      var init := inputs[..n - 1];
      QuietBurst(s, init);
      var mid := RunInputs(s, init);
      assert RunInputs(s, inputs) == Step(mid, inputs[n - 1]);
      QuietStep(mid, inputs[n - 1]);
      forall k | 0 <= k <= n
        ensures (RunInputs(s, inputs[..k]).language, RunInputs(s, inputs[..k]).code) == (s.language, s.code)
      {
        if k < n {
          assert inputs[..k] == init[..k];
        } else {
          assert inputs[..k] == inputs;
        }
      }
    }
  }

  /** An edit or language change that leaves nothing pending found nothing
      pending and changed neither code nor language. */
  lemma QuietStep(m: Editor, input: Input)
    requires !input.TimerFires?
    ensures var m' := Step(m, input);
            m'.pending.None? ==> m.pending.None? && m'.language == m.language && m'.code == m.code
  {
    match input
    case TypeCode(code) =>
    case SelectLanguage(language) =>
      var m' := ChangeLanguage(m, language);
      assert m' == Render(m, language, SnippetFor(language));
  }

  /** Typing something else and then the original text again still leaves a run
      pending, for the original code: the effect re-ran at each change. */
  lemma RetypedCodeStaysScheduled(s: Editor, other: string)
    requires Consistent(s) && s.pending.None? && other != s.code
    ensures RunInputs(s, [TypeCode(other), TypeCode(s.code)]).pending == Some(Request(s.language, s.code))
  {
    var inputs := [TypeCode(other), TypeCode(s.code)];
    BurstLeavesLatest(s, inputs);
    var one := inputs[..1];
    assert one[..0] == [];
    assert RunInputs(s, one) == Step(RunInputs(s, []), TypeCode(other));
    assert RunInputs(s, inputs[..1]).code == other;
  }

  /** Choosing a language without an editor snippet clears the code, so the run
      it schedules changes neither output nor loading. */
  lemma LanguageWithoutSnippetRunsNothing(s: Editor, language: string, outcome: ExecOutcome)
    requires Consistent(s)
    requires language in ["csharp", "php", "html", "css"]
    ensures var s' := ChangeLanguage(s, language);
            && s'.code == ""
            && var f := Fire(s', outcome); f.output == s.output && f.loading == s.loading
  {
    assert language !in SnippetLanguages;
    var s' := ChangeLanguage(s, language);
    assert s'.code == "";
    StepConsistent(s, SelectLanguage(language));
    if s'.pending.Some? {
      assert IsBlank(s'.pending.value.code);
      ApplyRunCode(s'.(pending := None), s'.pending.value.code, outcome);
    }
  }

  // ---------------------------------------------------------------------------
  // View
  // ---------------------------------------------------------------------------

  /** The console box shows a spinner while loading, the output otherwise. */
  datatype OutputView = Spinner | OutputText(text: string)

  function ViewOutput(s: Editor): (v: OutputView)
    ensures v.Spinner? <==> s.loading
    ensures v.OutputText? ==> v.text == s.output
  {
    if s.loading then Spinner else OutputText(s.output)
  }

  /** The selector lists the keys of the version table, in table order, each
      labelled by its own id. */
  function LanguageOptions(): (opts: seq<(string, string)>)
    ensures |opts| == |Constants.Languages|
    ensures forall i | 0 <= i < |opts| :: opts[i] == (Constants.Languages[i], Constants.Languages[i])
  {
    seq(|Constants.Languages|, i requires 0 <= i < |Constants.Languages| => (Constants.Languages[i], Constants.Languages[i]))
  }
}
