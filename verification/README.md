# Live code playground: execution and preview core

This project models the behaviour of a browser code playground that is written in React. It covers these parts:

- **Preview document builder** (`WebPreview`). For `html`, `css` and `javascript` it builds the document shown in the preview. For JavaScript, the user code is escaped by a chain of seven `.replace` passes and pasted into `eval('...')`. The page script then captures `console.log`, `console.warn` and `console.error` into an append-only log. The escaper is modelled pass by pass (`JsLiteral`). It is proved against a scanner for the single-quoted string literals of ECMA-262 (section 12.9.4, String Literals, 2023 edition).
- **Auto-run editor** (`CodeEditor`). This is the editor's own state. An effect on `(code, language)` schedules a debounced run of the current inputs. The debounce keeps one pending call, and a later change cancels and replaces it. The run skips white-space-only code, sets `loading` before the remote call and clears it after. It reports `run.output`, `"No Output"` or a fixed error text.
- **Output console** (`OutputConsole`). It keeps its own `isExecuting`/`currentOutput` state beside its props. It has a manual Run that never runs web languages and prefers `output`, then `stderr`, then `"No output"`. It also has Clear, and a choice of body: spinner, output (red when it mentions `Error`) or a placeholder.
- **Routing tables** (`Constants`, `Header`, `PreviewPanel`). These cover the language/version table, the starter snippets, the web-language list and the device presets, modelled as ordered entry lists with their coverage invariants. They also cover the language selector and its change handler, and the tab and panel lists that depend on whether the language is a web language.
- **Resizable splitter** (`Splitter`). It is an idle/resizing machine over the left panel's width in percent. It includes the document listeners and body styles that exist only while resizing, the clamp into `[minWidth, maxWidth]`, and the two panel widths that sum to 100. As written, the move handler throws on every move (see Findings). The model gives the intended move and, beside it, the move as written.

The remote `executeCode` call is an input: a resolved record `{run?: {output?, stderr?}}` or a rejection with a message (`Execution`). An asynchronous run is modelled as the ordered list of state writes it performs. The debounce timer is a pending slot that a `Fire`/`TimerFires` step releases. `eval` of user code is replaced by an abstract trace of console calls plus an outcome: normal completion, a thrown value with its `message` as a string, or a thrown `null` or `undefined`.

Files: `wrappers.dfy` (Option), `strings.dfy` (JavaScript `trim`, `join`, `includes`, ASCII upper-casing), `constants.dfy`, `execution.dfy`, `js_literal.dfy`, `webpreview.dfy`, `splitter.dfy`, `codeeditor.dfy`, `outputconsole.dfy`, `header.dfy`, `previewpanel.dfy`.

## Model

| member | source | states |
|---|---|---|
| Strings.Trim | src/components/CodeEditor.jsx:38 | `trim` removes exactly a run of JavaScript white space at each end. The result is a contiguous slice whose first and last characters are not white space. |
| Strings.TrimEmptyIffBlank | src/components/OutputConsole.jsx:27 | `!code.trim()` holds exactly when every character is JavaScript white space (WhiteSpace or LineTerminator). |
| Strings.Join | src/components/WebPreview.jsx:102 | `args.join(' ')`: empty for no arguments, the argument itself for one. Its length is the pieces' total length plus one separator between each pair of neighbours. |
| Strings.JoinAppend | src/components/WebPreview.jsx:102 | Joining one more argument appends the separator and that argument, so the arguments appear in order with exactly one separator between neighbours. |
| Strings.AsciiUpper | src/components/Header.jsx:71 | Upper-casing keeps the length and maps each lower-case ASCII letter to its capital, leaving every other character alone. |
| Execution.OrElse | src/components/CodeEditor.jsx:42 | The JavaScript or-default of an optional string gives `x` exactly when it is present and non-empty, and the fallback otherwise. |
| Constants.Lookup | src/components/Header.jsx:29 | Indexing the table by one of its own distinct keys finds that key's value, and any other key gives `undefined`. |
| Constants.VersionKeys | src/constants.js:1-12 | `Object.keys(LANGUAGE_VERSIONS)` is the ten language ids in declaration order. |
| Constants.WebLanguagesHaveVersions | src/constants.js:145 | Every member of `WEB_LANGUAGES` is a key of `LANGUAGE_VERSIONS`. |
| Constants.LanguageTableShape | src/constants.js:1-12 | `LANGUAGE_VERSIONS` has exactly ten keys, all distinct, each mapped to a non-empty version string. |
| Constants.SnippetKeysAreLanguages | src/constants.js:14-143 | `CODE_SNIPPETS` has the same keys as `LANGUAGE_VERSIONS`, in the same order. |
| Constants.EveryLanguageHasSnippet | src/constants.js:14-143 | Every language key has a `CODE_SNIPPETS` entry, and its text is non-empty. |
| Constants.DefaultDevicesExist | src/constants.js:147-153 | `desktop` and `mobile`, the two defaults the preview uses, are keys of `DEVICE_PRESETS`, and the preset keys are distinct. |
| Constants.OnlyDesktopIsFullSize | src/constants.js:147-153 | A preset has width and height `100%` if and only if it is `desktop`. Every other preset has pixel dimensions. |
| JsLiteral.EscapeNewlines | src/components/WebPreview.jsx:41 | After the newline pass no raw LF is left. |
| JsLiteral.EscapeIsEscapeRef | src/components/WebPreview.jsx:35-42 | The seven passes, in source order, equal one left-to-right pass: CR LF and LF become `\n`, tab becomes `\t`, the `$` of `${` gets a backslash, and each of `\`, `'`, `"` and a backtick gets one backslash. |
| JsLiteral.ScanLiteralBody | src/components/WebPreview.jsx:119 | Reading the body of the `'...'` literal either fails or stops at a quote character inside the text. |
| JsLiteral.EscapeRoundTrip | src/components/WebPreview.jsx:35-42 | For code without a lone CR, reading the escaped code followed by a quote as a single-quoted literal gives back the code with each CR LF turned into LF. The literal closes exactly at the appended quote. |
| JsLiteral.LoneCarriageReturnIsRejected | src/components/WebPreview.jsx:41 | A CR anywhere in the code that is not followed by LF passes through the chain raw, and the literal then fails to read. |
| JsLiteral.ReadsBackIffNoLoneCR | src/components/WebPreview.jsx:35-42 | The emitted literal reads at all exactly when the code has no lone CR, and then it reads back the code with each CR LF turned into LF. |
| JsLiteral.EscapedQuotesAreOddlyPrefixed | src/components/WebPreview.jsx:35-42 | For every input, the escaped code has no raw LF, and every `'` in it follows an odd run of backslashes. |
| WebPreview.BuildPreview | src/components/WebPreview.jsx:15-136 | The effect builds a document exactly for the members of `WEB_LANGUAGES`. |
| WebPreview.PreviewContent | src/components/WebPreview.jsx:15-136 | For any other language the preview content keeps its previous value. |
| WebPreview.HtmlPassesThrough | src/components/WebPreview.jsx:16-17 | For `html` the preview is the code unchanged. |
| WebPreview.CssEmbedsCodeVerbatim | src/components/WebPreview.jsx:18-32 | For `css` the document is a fixed prefix, then `<style>`, the code verbatim, `</style>`, and a fixed suffix. |
| WebPreview.JsPageShape | src/components/WebPreview.jsx:33-134 | For `javascript` and any code, the document is the fixed page with the escaped code between `eval('` and `'); `. |
| WebPreview.JsEvalReceivesCode | src/components/WebPreview.jsx:119 | For code without a lone CR, the literal opened at `eval('` reads back as the code, with each CR LF turned into LF, and closes at the quote of `'); `. |
| WebPreview.ContentIsLastBuilt | src/components/WebPreview.jsx:8-136 | The content is `''` when no run built anything, and otherwise the value built by the last run that built one. |
| WebPreview.PreviewIsLastBuilt | src/components/WebPreview.jsx:8-136 | After any sequence of `(language, code)` updates, the preview holds the document for the last update in a web language, or `''` if there was none. |
| WebPreview.Prefix | src/components/WebPreview.jsx:93 | The prefix is `❌ ` for `error`, `⚠️ ` for `warn` and `📝 ` for `log`. |
| WebPreview.PrefixesDistinct | src/components/WebPreview.jsx:93 | The error, warning and log prefixes are pairwise different, so every line shows its channel. |
| WebPreview.ReplayAppendsTranscript | src/components/WebPreview.jsx:92-113 | The overridden `log`/`warn`/`error` calls append one line each, in call order: prefix, arguments joined by a space, newline. Other console methods append nothing. |
| WebPreview.ReplaySetsErrorStyle | src/components/WebPreview.jsx:92-113 | The `error` class is on after the calls exactly when it was on before or some call went to `console.error`. |
| WebPreview.TranscriptEmptyIffNothingCaptured | src/components/WebPreview.jsx:122-125 | The log stays empty exactly when no call was captured. |
| WebPreview.TranscriptAppend | src/components/WebPreview.jsx:92-113 | The log is append-only: the log of a longer trace extends the log of its prefix. |
| WebPreview.CaptureRun | src/components/WebPreview.jsx:81-130 | The run clears the console and writes the captured lines. A normal completion adds the success line only when nothing was captured. A throw adds `Error: <message>` on the error channel after the earlier lines. A thrown `null` or `undefined` makes the `catch` block itself throw, which leaves only the earlier lines. The error style is on exactly for a non-nullish throw or an error-channel call. |
| WebPreview.RenderDevice | src/components/WebPreview.jsx:172-260 | The device lookup is defined exactly for the preset keys, and the frame uses the `DEVICE_PRESETS` entry declared under the selected key. The phone top bar shows for every device except `desktop`, and the iframe height is `100%` or `calc(100% - 20px)` to match. |
| WebPreview.DeviceLookupStaysDefined | src/components/WebPreview.jsx:192-198 | Starting from `desktop` or `mobile`, after any sequence of device-button presses the lookup stays defined. |
| Splitter.Init | src/components/ResizableSplitter.jsx:4-12 | The first render is idle with no listeners. The width is the initial prop, and it is not clamped. |
| Splitter.Clamp | src/components/ResizableSplitter.jsx:37 | `Math.min(Math.max(p, lo), hi)` lies in `[lo, hi]` when the bounds are ordered. It leaves `p` alone inside the bounds and gives the bound at or beyond them. |
| Splitter.PointerPercent | src/components/ResizableSplitter.jsx:34 | The pointer percentage exceeds 100 right of the container, is below 0 left of it, and lies in `[0, 100]` inside it. |
| Splitter.DownThenUp | src/components/ResizableSplitter.jsx:18-55 | Mouse-down starts resizing, attaching the listeners and setting `col-resize` and no selection. Mouse-up then stops it, detaching them and resetting both styles to `""`. The width is unchanged. |
| Splitter.MoveWhileIdle | src/components/ResizableSplitter.jsx:27-28 | A move while idle changes nothing. |
| Splitter.MoveWhileResizing | src/components/ResizableSplitter.jsx:27-39 | A move while resizing sets the width to the clamped pointer percentage, which lies within the bounds when they are ordered. |
| Splitter.PastTheEdges | src/components/ResizableSplitter.jsx:33-38 | A pointer right of the container gives exactly `maxWidth`, and one left of it exactly `minWidth`. |
| Splitter.StepPreserves | src/components/ResizableSplitter.jsx:18-55 | Every event keeps two invariants. First, listeners are attached exactly while resizing, with the resize body style. Second, the width is the initial value or lies within the bounds. |
| Splitter.RunInvariant | src/components/ResizableSplitter.jsx:11-55 | From the first render, any event sequence keeps both invariants and leaves the body style as the host set it or reset to `""` whenever idle. |
| Splitter.StepAsWritten | src/components/ResizableSplitter.jsx:27-39 | As written, a move never changes the state, because `resize` throws at the `closest` call on every move that passes the `isResizing` guard. Presses and releases act as in the corrected step. |
| Splitter.AsWrittenWidthNeverMoves | src/components/ResizableSplitter.jsx:11-55 | As written, after any event sequence the width is still `initialLeftWidth`. |
| Splitter.DragLostAsWritten | src/components/ResizableSplitter.jsx:27-39 | With the default props, a press and a move to 30% of a container put the divider at 30% in the corrected model and leave it at 50% as written. |
| Splitter.Panels | src/components/ResizableSplitter.jsx:66-121 | The two panel widths sum to 100. The right panel's bounds are the complements of the left's, so it is in bounds whenever the left one is. Width changes are animated exactly while idle. |
| CodeEditor.SnippetFor | src/components/CodeEditor.jsx:21-28 | The editor's snippet lookup, with `""` as the default, is non-empty exactly for the six languages of the editor's own table. |
| CodeEditor.SnippetTableShape | src/components/CodeEditor.jsx:21-28 | The editor's snippet table has the keys python, javascript, cpp, java, c and typescript, all with non-empty text. |
| CodeEditor.LanguagesWithoutSnippet | src/components/CodeEditor.jsx:21-28 | Among the selectable languages, exactly csharp, php, html and css get `""`. |
| CodeEditor.EditorOutput | src/components/CodeEditor.jsx:40-45 | Success shows `run.output` when it is non-empty and `"No Output"` otherwise. Any failure shows `"Error executing code."`. |
| CodeEditor.StderrIgnored | src/components/CodeEditor.jsx:42 | The editor's output never depends on `stderr`. |
| CodeEditor.RunCodeWrites | src/components/CodeEditor.jsx:37-47 | White-space-only code writes nothing. Otherwise the run writes loading on, then the output, then loading off, on both outcomes. |
| CodeEditor.ApplyRunCode | src/components/CodeEditor.jsx:37-47 | Applied to the state, a skipped run leaves it unchanged. Any other run leaves the call's output with loading off and touches nothing else. |
| CodeEditor.Initial | src/components/CodeEditor.jsx:30-54 | The first render has python with its snippet, empty output and loading off, and the mount effect has scheduled a run of exactly those inputs. |
| CodeEditor.Render | src/components/CodeEditor.jsx:51-54 | A render that changes code or language cancels the pending call and schedules one with the new values. A render with the same values leaves the pending call alone. |
| CodeEditor.ChangeLanguage | src/components/CodeEditor.jsx:56-60 | A language change sets the language and replaces the code with that language's snippet or `""`. |
| CodeEditor.FireRunsCurrent | src/components/CodeEditor.jsx:37-54 | When the quiet period ends, the pending call runs the current language and code and nothing stays pending. Blank code leaves output and loading alone. Other code ends with the call's output and loading off. |
| CodeEditor.StepConsistent | src/components/CodeEditor.jsx:49-60 | Every edit, language change or timer firing keeps the pending call, if any, equal to the current language and code. |
| CodeEditor.BurstLeavesLatest | src/components/CodeEditor.jsx:49-54 | After a burst of edits and language changes, at most one call is pending, and it is for the final inputs: the last edit wins. No call is pending only if none was before and no point of the burst changed the code or language. |
| CodeEditor.RetypedCodeStaysScheduled | src/components/CodeEditor.jsx:49-54 | From an idle editor, typing other text and then the original text again leaves a call pending for the original code. |
| CodeEditor.LanguageWithoutSnippetRunsNothing | src/components/CodeEditor.jsx:56-60 | Selecting csharp, php, html or css empties the code, so the run it schedules changes neither output nor loading. |
| CodeEditor.ViewOutput | src/components/CodeEditor.jsx:119 | The console box shows a spinner exactly while loading, and the output otherwise. |
| CodeEditor.LanguageOptions | src/components/CodeEditor.jsx:77-81 | The editor's selector offers the language ids in table order, each labelled by its id. |
| OutputConsole.Mount | src/components/OutputConsole.jsx:18-20 | The console starts not executing, with `currentOutput` seeded from the first `output` prop. |
| OutputConsole.ConsoleOutput | src/components/OutputConsole.jsx:30-35 | Success shows `run.output`, else `run.stderr`, else `"No output"`. Failure shows `Error: ` followed by the message. |
| OutputConsole.ManualRunWrites | src/components/OutputConsole.jsx:26-37 | The manual run writes nothing exactly for white-space-only code or a web language. Otherwise it writes executing on, the output, executing off. |
| OutputConsole.ManualRun | src/components/OutputConsole.jsx:26-37 | A skipped run is a no-op. Otherwise `isExecuting` is on while the call is outstanding, and the console ends not executing and holding the call's output, on both outcomes. |
| OutputConsole.OutputRulesCompared | src/components/OutputConsole.jsx:30-35 | The two run paths agree when the call printed output. They differ when only `stderr` is set, when there is no run record, and on failure. |
| OutputConsole.Clear | src/components/OutputConsole.jsx:39-41 | Clear empties `currentOutput` and leaves `isExecuting` alone. |
| OutputConsole.ClearShowsProp | src/components/OutputConsole.jsx:39-43 | After Clear the displayed text is the `output` prop. |
| OutputConsole.MountedOutputPersists | src/components/OutputConsole.jsx:20-43 | A non-empty `output` at mount keeps showing whatever the prop later becomes, until Clear or a manual run. |
| OutputConsole.RenderBody | src/components/OutputConsole.jsx:99-128 | The body shows the spinner exactly while the `loading` prop or `isExecuting` is on. Otherwise it shows non-empty text, red exactly when it contains `Error`. Otherwise it shows a placeholder that names the Preview tab exactly for web languages. |
| OutputConsole.ErrorReportMentionsError | src/components/OutputConsole.jsx:34 | A failure report contains `Error`. |
| OutputConsole.FailedRunShowsRed | src/components/OutputConsole.jsx:26-117 | A failed manual run, once the props are not loading, shows `Error: <message>` in red. |
| OutputConsole.RunButtonIffRunActs | src/components/OutputConsole.jsx:64-76 | On non-blank code, the Run button is shown exactly when pressing it would run. |
| Header.HandleLanguageChange | src/components/Header.jsx:26-30 | The handler reports the selected id, then the code `CODE_SNIPPETS[id]`, or `""` when there is none. |
| Header.Options | src/components/Header.jsx:69-73 | One option per language id, in table order. |
| Header.OptionsAreVersionKeys | src/components/Header.jsx:69 | The option values are exactly `Object.keys(LANGUAGE_VERSIONS)`, in order. |
| Header.ListedOptionHasCode | src/components/Header.jsx:26-30 | Choosing any listed option reports that id and a non-empty code. |
| Header.OptionLabels | src/components/Header.jsx:71 | The label is `C++` for `cpp` and the id in capitals otherwise, letter by letter. |
| Header.LanguagesAreLowerCase | src/constants.js:1-12 | Every language id is a non-empty word of lower-case ASCII letters. |
| PreviewPanel.TabsByLanguage | src/components/PreviewPanel.jsx:16-29 | The Preview and Mobile tabs appear exactly for members of `WEB_LANGUAGES`, and the Output tab always. |
| PreviewPanel.PanelsMatchTabs | src/components/PreviewPanel.jsx:31-52 | The panels match the tabs one to one, in order. The Output panel gets exactly the panel's `output`, `loading`, `language` and `code`. The previews get the code and language, on the default device or `mobile`. |
| PreviewPanel.PreviewDevicesExist | src/components/PreviewPanel.jsx:34-49 | Both preview panels' devices have presets, so their device lookups are defined. |

## Left out

- The iframe effect (`src/components/WebPreview.jsx:138-170`): `document.write` into the iframe, the load listener, the 100 ms fallback timer and the guard that skips empty content. This is DOM plumbing with no decision beyond "non-empty content is written".
- Real `eval` and the page's forwarding to the original console methods. User code is a trace of console calls plus an outcome. Only `log`, `warn` and `error` are overridden, so every other console method is the `Other` channel and writes nothing. Arguments are taken as already converted to strings.
- `executeCode` itself (the `../api` module), the network and the version lookup it may perform. A resolved value whose `run` is not an object is not modelled.
- Overlapping asynchronous runs. Neither `runCode` guards against stale responses: an older response can still overwrite a newer one or clear `loading` early. The model runs each call to completion as one step (`Fire`, `ManualRun`) and claims no ordering between concurrent calls.
- Wall-clock time in `lodash.debounce`. The 1000 ms quiet period is a `TimerFires` input. Cancelling the pending call on unmount is not modelled.
- Splitter.PointerPercent: requires a container of positive width and uses exact reals. IEEE rounding and a zero-width container (which gives `Infinity` or `NaN` in JavaScript) are left out.
- Splitter.MoveWhileResizing, Splitter.PastTheEdges: in the code as written, line 30 of `src/components/ResizableSplitter.jsx` throws on every move. `resize` is attached to `document`, so `e.currentTarget` is the document, and the document has no `closest` method. The width therefore stays at `initialLeftWidth`; `Splitter.StepAsWritten` models this, and it is listed under Findings. These two lemmas and the rest of the model describe the move as intended, once the container is found. The rectangle arrives with each move event, and `None` stands for a failed lookup.
- Constants.Lookup: it is exact only for keys the table declares once, and it returns the first entry. JavaScript indexing also finds inherited `Object.prototype` members such as `constructor`, and it keeps the last of duplicate keys. Every key reaching these lookups is a language id from a selector, or a device key from the `defaultDevice` prop or the device buttons. None is an `Object.prototype` member, and each table's keys are distinct (`Constants.LanguageTableShape`, `Constants.SnippetKeysAreLanguages`, `Constants.DefaultDevicesExist`, `CodeEditor.SnippetTableShape`).
- Splitter.StepPreserves and Splitter.RunInvariant: the width invariant allows the unclamped initial width. The code never clamps `initialLeftWidth`.
- CodeEditor.EditorOutput: follows the code, which ignores `stderr` and reports failures with a fixed text. Falling back from `output` to `stderr` and then to `"No output"` is what only the output console does.
- JsLiteral.ReadEscape: legacy octal escapes, `\8`/`\9`, `\u{...}` and `\u` escapes naming a lone surrogate are rejected rather than read. The escaper never produces them, so the round trip does not depend on them.
- JsLiteral.EscapeRoundTrip: the round trip holds only without lone CRs, as `JsLiteral.LoneCarriageReturnIsRejected` shows. A `</script>` sequence in the user code ends the enclosing script element at the HTML level before JavaScript sees the literal, and that is outside this model.
- Strings.AsciiUpper: `toUpperCase` is modelled for ASCII only. The language ids are lower-case ASCII (`Header.LanguagesAreLowerCase`), so this is exact for every option.
- Strings are sequences of Unicode code points, not UTF-16 code units. This matters only for the lengths of non-BMP text, which nothing here depends on.
- The `textTransform="capitalize"` styling of the header selector, the Chakra button's disabling while loading, colour modes and layout.
- `src/App.jsx` and `src/components/CodeEditorPage.jsx` are not part of this model. They wire `output`/`loading` props and callbacks that `CodeEditor` ignores, because it takes no props.

## Findings

| source | as written | input that shows it | evidently intended | confidence | as-written member | corrected member |
|---|---|---|---|---|---|---|
| src/components/ResizableSplitter.jsx:30 | `e.currentTarget.closest(...)` inside a listener attached to `document`, where `currentTarget` is the document, which has no `closest`: every move throws before `setLeftWidth` | press the handle, then move the pointer to 30% of the container with the default props: the width stays 50 | the move measures against the `[data-resizable-container]` element and sets the clamped percentage (proved of `Splitter.Step` by `Splitter.MoveWhileResizing`; `Splitter.DragLostAsWritten` shows the difference) | high, not executed | Splitter.StepAsWritten | Splitter.Step |
