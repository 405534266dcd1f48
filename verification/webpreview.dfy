/** The preview of `src/components/WebPreview.jsx`: the document built for each
    web language, the console capture of the JavaScript page (over an abstract
    trace of console calls instead of a real `eval`), and device selection. */
module WebPreview {
  import opened Wrappers
  import opened Strings
  import opened JsLiteral
  import Constants

  // ---------------------------------------------------------------------------
  // Document templates
  // ---------------------------------------------------------------------------

  /** The CSS shell up to the opening `<style>` tag. */
  const CssShellOpen: string :=
    "\n"
    + "        <!DOCTYPE html>\n"
    + "        <html>\n"
    + "        <head>\n"
    + "          "

  /** The CSS shell after the closing `</style>` tag: the fixed page body. */
  const CssShellClose: string :=
    "\n"
    + "        </head>\n"
    + "        <body>\n"
    + "          <div class=\"card\">\n"
    + "            <h1 class=\"title\">CSS Preview</h1>\n"
    + "            <p>Your CSS styles are applied here. Add HTML elements to see the full effect.</p>\n"
    + "          </div>\n"
    + "        </body>\n"
    + "        </html>\n"
    + "      "

  /** The JavaScript page up to the opening quote of `eval('`: styles, the console
      element and the capture script. */
  const JsPageOpen: string :=
    "\n"
    + "        <!DOCTYPE html>\n"
    + "        <html>\n"
    + "        <head>\n"
    + "          <style>\n"
    + "            body { \n"
    + "              font-family: Arial, sans-serif; \n"
    + "              padding: 20px; \n"
    + "              background: #f5f5f5;\n"
    + "              margin: 0;\n"
    + "            }\n"
    + "            .console {\n"
    + "              background: #1e1e1e;\n"
    + "              color: #00ff00;\n"
    + "              padding: 15px;\n"
    + "              border-radius: 8px;\n"
    + "              font-family: monospace;\n"
    + "              white-space: pre-wrap;\n"
    + "              margin-top: 10px;\n"
    + "              max-height: 400px;\n"
    + "              overflow-y: auto;\n"
    + "            }\n"
    + "            .title {\n"
    + "              color: #333;\n"
    + "              margin-bottom: 10px;\n"
    + "            }\n"
    + "            .error {\n"
    + "              color: #ff6b6b !important;\n"
    + "            }\n"
    + "          </style>\n"
    + "        </head>\n"
    + "        <body>\n"
    + "          <h2 class=\"title\">JavaScript Preview</h2>\n"
    + "          <p>Check the console output below:</p>\n"
    + "          <div id=\"console\" class=\"console\">Ready to execute JavaScript...\\n</div>\n"
    + "          \n"
    + "          <script>\n"
    + "            (function() {\n"
    + "              // Clear previous output\n"
    + "              const consoleDiv = document.getElementById('console');\n"
    + "              consoleDiv.textContent = '';\n"
    + "              consoleDiv.className = 'console';\n"
    + "              \n"
    + "              // Override console methods to display in the preview\n"
    + "              const originalLog = console.log;\n"
    + "              const originalError = console.error;\n"
    + "              const originalWarn = console.warn;\n"
    + "              \n"
    + "              function addToConsole(message, type = 'log') {\n"
    + "                const prefix = type === 'error' ? '\U{274C} ' : type === 'warn' ? '\U{26A0}\U{FE0F} ' : '\U{1F4DD} ';\n"
    + "                consoleDiv.textContent += prefix + message + '\\n';\n"
    + "                if (type === 'error') {\n"
    + "                  consoleDiv.classList.add('error');\n"
    + "                }\n"
    + "              }\n"
    + "              \n"
    + "              console.log = function(...args) {\n"
    + "                originalLog.apply(console, arguments);\n"
    + "                addToConsole(args.join(' '), 'log');\n"
    + "              };\n"
    + "              \n"
    + "              console.error = function(...args) {\n"
    + "                originalError.apply(console, arguments);\n"
    + "                addToConsole(args.join(' '), 'error');\n"
    + "              };\n"
    + "              \n"
    + "              console.warn = function(...args) {\n"
    + "                originalWarn.apply(console, arguments);\n"
    + "                addToConsole(args.join(' '), 'warn');\n"
    + "              };\n"
    + "              \n"
    + "              // Execute user code with proper error handling\n"
    + "              try {\n"
    + "                // Use eval instead of Function constructor for better compatibility\n"
    + "                (function() { \n"
    + "                  "

  /** The JavaScript page after `'); `: the success line, the catch block and the
      closing markup. */
  const JsPageClose: string :=
    "\n"
    + "                })();\n"
    + "                \n"
    + "                // If no output was generated, show a success message\n"
    + "                if (consoleDiv.textContent === '') {\n"
    + "                  addToConsole('Code executed successfully (no output)', 'log');\n"
    + "                }\n"
    + "              } catch (error) {\n"
    + "                addToConsole('Error: ' + error.message, 'error');\n"
    + "                originalError('JavaScript execution error:', error);\n"
    + "              }\n"
    + "            })();\n"
    + "          </script>\n"
    + "        </body>\n"
    + "        </html>\n"
    + "      "

  /** The document for `css`: the code as an inline stylesheet in a fixed shell. */
  function CssDocument(code: string): string {
    CssShellOpen + "<style>" + code + "</style>" + CssShellClose
  }

  /** The document for `javascript`: the escaped code between the quotes of
      `eval('...')` inside the capture script. */
  function JsDocument(code: string): string {
    JsPageOpen + "eval('" + Escape(code) + "'); " + JsPageClose
  }

  /** The document built for a language, `None` for a language the effect ignores. */
  function BuildPreview(language: string, code: string): (r: Option<string>)
    ensures r.Some? <==> Constants.IsWebLanguage(language)
  {
    if language == "html" then Some(code)
    else if language == "css" then Some(CssDocument(code))
    else if language == "javascript" then Some(JsDocument(code))
    else None
  }

  /** The preview-content effect, run on each change of `code` or `language`. */
  function PreviewContent(previous: string, language: string, code: string): (content: string)
    ensures !Constants.IsWebLanguage(language) ==> content == previous
  {
    BuildPreview(language, code).GetOr(previous)
  }

  /** The content state after a run of the effect per update, given what each
      run built: it starts at `''` and a run that builds nothing keeps it. */
  function ContentAfter(builds: seq<Option<string>>): string
    decreases |builds|
  {
    if builds == [] then ""
    else builds[|builds| - 1].GetOr(ContentAfter(builds[..|builds| - 1]))
  }

  /** What the effect builds for each update, in order. */
  function Builds(updates: seq<(string, string)>): (bs: seq<Option<string>>)
    ensures |bs| == |updates|
    ensures forall i | 0 <= i < |updates| :: bs[i] == BuildPreview(updates[i].0, updates[i].1)
  {
    seq(|updates|, i requires 0 <= i < |updates| => BuildPreview(updates[i].0, updates[i].1))
  }

  /** The preview content after a sequence of `(language, code)` updates. */
  function PreviewAfter(updates: seq<(string, string)>): string {
    ContentAfter(Builds(updates))
  }

  /** For `html` the preview is the code itself. */
  lemma HtmlPassesThrough(previous: string, code: string)
    ensures PreviewContent(previous, "html", code) == code
  {
  }

  /** For `css` the code sits verbatim between `<style>` and `</style>`, and
      everything around it is the same for every input. */
  lemma CssEmbedsCodeVerbatim(previous: string, code: string)
    ensures PreviewContent(previous, "css", code) == CssShellOpen + "<style>" + code + "</style>" + CssShellClose
  {
  }

  /** For `javascript`, whatever the code, the page is the same fixed document
      with the escaped code pasted between `eval('` and `'); `. */
  lemma JsPageShape(previous: string, code: string)
    ensures PreviewContent(previous, "javascript", code) == JsPageOpen + "eval('" + Escape(code) + "'); " + JsPageClose
  {
  }

  /** The string literal opened at `eval('` reads back as the code (CR LF pairs
      as LF) and closes exactly at the quote of `'); `, for every code without a
      lone CR. */
  lemma JsEvalReceivesCode(code: string)
    requires NoLoneCR(code)
    ensures ScanLiteralBody(Escape(code) + "'); " + JsPageClose) == Some(Scanned(NormalizeNewlines(code), |Escape(code)|))
  {
    var e := Escape(code);
    var rest := "); " + JsPageClose;
    EscapeRoundTrip(code, rest);
    QuoteThenRest(e, JsPageClose);
  }

  lemma QuoteThenRest(e: string, close: string)
    ensures e + [Quote] + ("); " + close) == e + "'); " + close
  {
    assert "'); " == [Quote] + "); ";
  }

  /** `builds[i]` is the last run that built a document. */
  predicate LastSomeAt(builds: seq<Option<string>>, i: int) {
    && 0 <= i < |builds|
    && builds[i].Some?
    && forall j | i < j < |builds| :: builds[j].None?
  }

  lemma {:induction false} ContentIsLastBuilt(builds: seq<Option<string>>)
    ensures (forall i | 0 <= i < |builds| :: builds[i].None?) ==> ContentAfter(builds) == ""
    ensures forall i | LastSomeAt(builds, i) :: ContentAfter(builds) == builds[i].value
    decreases |builds|
  {
    if builds != [] {
      var n := |builds|;
      var init := builds[..n - 1];
      ContentIsLastBuilt(init);
      assert forall i | 0 <= i < n - 1 :: init[i] == builds[i];
      forall i | LastSomeAt(builds, i)
        ensures ContentAfter(builds) == builds[i].value
      {
        if i < n - 1 {
          assert LastSomeAt(init, i);
        }
      }
    }
  }

  /** After any sequence of updates the preview holds the document built from the
      last update in a web language, or `''` when there was none: a change to
      another language leaves the previous content in place. */
  lemma PreviewIsLastBuilt(updates: seq<(string, string)>)
    ensures (forall i | 0 <= i < |updates| :: !Constants.IsWebLanguage(updates[i].0)) ==> PreviewAfter(updates) == ""
    ensures forall i | 0 <= i < |updates| && Constants.IsWebLanguage(updates[i].0)
                       && (forall j | i < j < |updates| :: !Constants.IsWebLanguage(updates[j].0))
              :: PreviewAfter(updates) == BuildPreview(updates[i].0, updates[i].1).value
  {
    var bs := Builds(updates);
    ContentIsLastBuilt(bs);
    forall i | 0 <= i < |updates| && Constants.IsWebLanguage(updates[i].0)
               && (forall j | i < j < |updates| :: !Constants.IsWebLanguage(updates[j].0))
      ensures LastSomeAt(bs, i)
    {
    }
  }

  // ---------------------------------------------------------------------------
  // Console capture
  // ---------------------------------------------------------------------------

  /** The console method a call goes to; `Other` stands for every method the
      page does not override (`console.info`, `console.debug`, ...). */
  datatype Channel = Log | Warn | Error | Other

  /** One console call made by the user code, with its arguments as strings. */
  datatype ConsoleCall = ConsoleCall(channel: Channel, args: seq<string>)

  /** How the evaluated code ended: normally; by throwing a value whose
      `message`, converted to a string, is `message` (an `Error`, or any other
      non-nullish value, for which it reads `undefined`); or by throwing `null` or
      `undefined`, whose `.message` itself throws inside the `catch`. */
  datatype RunOutcome = Completed | Threw(message: string) | ThrewNullish

  /** The `#console` element: its text and whether it carries the `error` class. */
  datatype ConsoleView = ConsoleView(text: string, errorStyle: bool)

  const SuccessMessage: string := "Code executed successfully (no output)"

  /** The prefix `addToConsole` writes for a message type. */
  function Prefix(channel: Channel): (p: string)
    ensures channel == Error ==> p == "\U{274C} "
    ensures channel == Warn ==> p == "\U{26A0}\U{FE0F} "
    ensures channel == Log ==> p == "\U{1F4DD} "
  {
    if channel == Error then "\U{274C} "
    else if channel == Warn then "\U{26A0}\U{FE0F} "
    else "\U{1F4DD} "
  }

  /** The three captured channels write three different prefixes. */
  lemma PrefixesDistinct()
    ensures Prefix(Error) != Prefix(Warn) && Prefix(Error) != Prefix(Log) && Prefix(Warn) != Prefix(Log)
  {
    assert Prefix(Error)[0] != Prefix(Warn)[0];
    assert Prefix(Error)[0] != Prefix(Log)[0];
    assert Prefix(Warn)[0] != Prefix(Log)[0];
  }

  /** One line of the console: prefix, message and a newline. */
  function Line(channel: Channel, message: string): string {
    Prefix(channel) + message + "\n"
  }

  /** `addToConsole(message, type)`. */
  function AddToConsole(view: ConsoleView, message: string, channel: Channel): ConsoleView {
    ConsoleView(view.text + Line(channel, message), view.errorStyle || channel == Error)
  }

  /** One console call: the overridden `log`, `warn` and `error` go through
      `addToConsole` with the arguments joined by a space; any other method leaves
      the element alone. */
  function Intercept(view: ConsoleView, call: ConsoleCall): ConsoleView {
    if call.channel == Other then view else AddToConsole(view, Join(call.args, " "), call.channel)
  }

  /** The overridden console methods, applied to the calls in order. */
  function ReplayCalls(view: ConsoleView, calls: seq<ConsoleCall>): ConsoleView
    decreases |calls|
  {
    if calls == [] then view else ReplayCalls(Intercept(view, calls[0]), calls[1..])
  }

  /** The line a call leaves in the log, empty for a method that is not overridden. */
  function LineOf(call: ConsoleCall): string {
    if call.channel == Other then "" else Line(call.channel, Join(call.args, " "))
  }

  /** The captured lines of a call trace, as a reference definition. */
  function Transcript(calls: seq<ConsoleCall>): string
    decreases |calls|
  {
    if calls == [] then "" else LineOf(calls[0]) + Transcript(calls[1..])
  }

  predicate Captured(call: ConsoleCall) {
    call.channel != Other
  }

  /** Replaying calls appends their transcript to the element's text. */
  lemma {:induction false} ReplayAppendsTranscript(view: ConsoleView, calls: seq<ConsoleCall>)
    ensures ReplayCalls(view, calls).text == view.text + Transcript(calls)
    decreases |calls|
  {
    if calls != [] {
      var next := Intercept(view, calls[0]);
      InterceptAppends(view, calls[0]);
      ReplayAppendsTranscript(next, calls[1..]);
      Regroup(ReplayCalls(next, calls[1..]).text, view.text, LineOf(calls[0]), Transcript(calls[1..]));
    }
  }

  lemma Regroup(r: string, a: string, b: string, c: string)
    requires r == (a + b) + c
    ensures r == a + (b + c)
  {
  }

  lemma InterceptAppends(view: ConsoleView, call: ConsoleCall)
    ensures Intercept(view, call).text == view.text + LineOf(call)
  {
    if call.channel == Other {
      assert view.text + [] == view.text;
    }
  }

  /** Replaying calls turns the error style on exactly when one of them is on
      the error channel, and never turns it off. */
  lemma {:induction false} ReplaySetsErrorStyle(view: ConsoleView, calls: seq<ConsoleCall>)
    ensures ReplayCalls(view, calls).errorStyle
        <==> view.errorStyle || exists i | 0 <= i < |calls| :: calls[i].channel == Error
    decreases |calls|
  {
    if calls != [] {
      var next := Intercept(view, calls[0]);
      assert next.errorStyle <==> view.errorStyle || calls[0].channel == Error;
      ReplaySetsErrorStyle(next, calls[1..]);
      assert forall i | 1 <= i < |calls| :: calls[i] == calls[1..][i - 1];
    }
  }

  lemma {:induction false} TranscriptEmptyIffNothingCaptured(calls: seq<ConsoleCall>)
    ensures Transcript(calls) == "" <==> forall i | 0 <= i < |calls| :: !Captured(calls[i])
    decreases |calls|
  {
    if calls != [] {
      TranscriptEmptyIffNothingCaptured(calls[1..]);
      assert forall i | 1 <= i < |calls| :: calls[i] == calls[1..][i - 1];
    }
  }

  /** The page script run on a trace: the console is cleared, the captured
      calls are written in order, then either the success line is added (when
      nothing was captured) or the thrown error is reported on the error channel,
      after the lines logged before the throw. A thrown `null` or `undefined`
      makes the `catch` block throw before `addToConsole`, so only the lines
      logged before it remain. What the element held before plays no part. */
  function CaptureRun(before: ConsoleView, calls: seq<ConsoleCall>, outcome: RunOutcome): (view: ConsoleView)
    ensures outcome.Completed? ==>
      view.text == Transcript(calls)
                   + (if forall i | 0 <= i < |calls| :: !Captured(calls[i]) then Line(Log, SuccessMessage) else "")
    ensures outcome.Threw? ==> view.text == Transcript(calls) + Line(Error, "Error: " + outcome.message)
    ensures outcome.ThrewNullish? ==> view.text == Transcript(calls)
    ensures view.errorStyle <==> outcome.Threw? || exists i | 0 <= i < |calls| :: calls[i].channel == Error
  {
    var ran := ReplayCalls(ConsoleView("", false), calls);
    RunFromCleared(calls);
    TranscriptEmptyIffNothingCaptured(calls);
    match outcome
    case Completed =>
      SuccessLineIfQuiet(ran, forall i | 0 <= i < |calls| :: !Captured(calls[i]));
      if ran.text == "" then AddToConsole(ran, SuccessMessage, Log) else ran
    case Threw(message) => AddToConsole(ran, "Error: " + message, Error)
    case ThrewNullish => ran
  }

  lemma RunFromCleared(calls: seq<ConsoleCall>)
    ensures ReplayCalls(ConsoleView("", false), calls).text == Transcript(calls)
    ensures ReplayCalls(ConsoleView("", false), calls).errorStyle
        <==> exists i | 0 <= i < |calls| :: calls[i].channel == Error
  {
    ReplayAppendsTranscript(ConsoleView("", false), calls);
    ReplaySetsErrorStyle(ConsoleView("", false), calls);
    assert "" + Transcript(calls) == Transcript(calls);
  }

  /** The success line is added exactly when the log is still empty. */
  lemma SuccessLineIfQuiet(ran: ConsoleView, quiet: bool)
    requires ran.text == "" <==> quiet
    ensures var v := if ran.text == "" then AddToConsole(ran, SuccessMessage, Log) else ran;
            v.text == ran.text + (if quiet then Line(Log, SuccessMessage) else "") && v.errorStyle == ran.errorStyle
  {
    if !quiet {
      assert ran.text + "" == ran.text;
    }
  }

  /** The log is append-only and keeps call order: the transcript of a longer
      trace extends the transcript of its prefix. */
  lemma {:induction false} TranscriptAppend(a: seq<ConsoleCall>, b: seq<ConsoleCall>)
    ensures Transcript(a + b) == Transcript(a) + Transcript(b)
    decreases |a|
  {
    if a == [] {
      assert a + b == b;
    } else {
      assert (a + b)[0] == a[0];
      assert (a + b)[1..] == a[1..] + b;
      TranscriptAppend(a[1..], b);
    }
  }

  // ---------------------------------------------------------------------------
  // Device selection
  // ---------------------------------------------------------------------------

  /** The device buttons, one per preset in table order. */
  const DeviceButtons: seq<string> := Constants.Keys(Constants.DevicePresets)

  /** The frame drawn for the selected device: the preset's box, whether the
      phone-style top bar is shown, and the iframe height. */
  datatype DeviceFrame = DeviceFrame(preset: Constants.DevicePreset, topBar: bool, iframeHeight: string)

  /** `DEVICE_PRESETS[selectedDevice]` and the frame built from it; `None` when the
      key is missing, where the render would fail reading `device.name`. */
  function RenderDevice(selected: string): (r: Option<DeviceFrame>)
    ensures r.Some? <==> selected in DeviceButtons
    ensures r.Some? ==> r.value.preset == Constants.PresetOf(selected).value
    ensures r.Some? ==> exists i | 0 <= i < |Constants.DevicePresets| :: Constants.DevicePresets[i] == (selected, r.value.preset)
    ensures r.Some? ==> (r.value.topBar <==> selected != "desktop")
    ensures r.Some? ==> r.value.iframeHeight == (if selected == "desktop" then "100%" else "calc(100% - 20px)")
  {
    match Constants.PresetOf(selected)
    case None => None
    case Some(p) =>
      Some(DeviceFrame(p, selected != "desktop", if selected != "desktop" then "calc(100% - 20px)" else "100%"))
  }

  /** Starting from either default and pressing any sequence of device buttons
      the lookup stays defined. */
  lemma {:induction false} DeviceLookupStaysDefined(defaultDevice: string, presses: seq<nat>)
    requires defaultDevice == "desktop" || defaultDevice == "mobile"
    requires forall i | 0 <= i < |presses| :: presses[i] < |DeviceButtons|
    ensures RenderDevice(SelectedAfter(defaultDevice, presses)).Some?
    decreases |presses|
  {
    Constants.DefaultDevicesExist();
    if presses != [] {
      DeviceLookupStaysDefined(defaultDevice, presses[..|presses| - 1]);
    }
  }

  /** `selectedDevice` after pressing the buttons with the given indices. */
  function SelectedAfter(defaultDevice: string, presses: seq<nat>): string
    requires forall i | 0 <= i < |presses| :: presses[i] < |DeviceButtons|
    decreases |presses|
  {
    if presses == [] then defaultDevice else DeviceButtons[presses[|presses| - 1]]
  }
}
