/** The right-hand panel of `src/components/PreviewPanel.jsx`: a tab list and a
    matching list of panels, both decided by whether the language is a web
    language. */
module PreviewPanel {
  import Constants
  import WebPreview
  import OutputConsole

  datatype Tab = PreviewTab | OutputTab | MobileTab

  /** A tab's panel: a live preview on a given device, or the output console
      with the props it is handed. */
  datatype Panel = Preview(code: string, language: string, device: string) | Output(props: OutputConsole.Props)

  /** The default of `WebPreview`'s `defaultDevice` prop. */
  const DefaultDevice: string := "desktop"

  function Tabs(language: string): seq<Tab> {
    if Constants.IsWebLanguage(language) then [PreviewTab, OutputTab, MobileTab] else [OutputTab]
  }

  function Panels(language: string, code: string, output: string, loading: bool): seq<Panel> {
    var console := Output(OutputConsole.Props(output, loading, language, code));
    if Constants.IsWebLanguage(language)
    then [Preview(code, language, DefaultDevice), console, Preview(code, language, "mobile")]
    else [console]
  }

  /** The tab a panel belongs to. */
  function TabOf(p: Panel): Tab {
    match p
    case Output(_) => OutputTab
    case Preview(_, _, device) => if device == "mobile" then MobileTab else PreviewTab
  }

  /** The tab list depends only on membership in `WEB_LANGUAGES`: all three tabs
      for a web language, the Output tab alone otherwise. */
  lemma TabsByLanguage(language: string)
    ensures PreviewTab in Tabs(language) <==> Constants.IsWebLanguage(language)
    ensures MobileTab in Tabs(language) <==> Constants.IsWebLanguage(language)
    ensures OutputTab in Tabs(language)
  {
  }

  /** Panels and tabs correspond one to one, in order; the Output panel gets
      exactly the panel's own props, and the previews use the default device or
      `mobile`. */
  lemma PanelsMatchTabs(language: string, code: string, output: string, loading: bool)
    ensures var panels := Panels(language, code, output, loading);
            && |panels| == |Tabs(language)|
            && (forall i | 0 <= i < |panels| :: TabOf(panels[i]) == Tabs(language)[i])
            && (forall i | 0 <= i < |panels| && panels[i].Output? ::
                  panels[i].props == OutputConsole.Props(output, loading, language, code))
            && (forall i | 0 <= i < |panels| && panels[i].Preview? ::
                  panels[i].code == code && panels[i].language == language
                  && (panels[i].device == DefaultDevice || panels[i].device == "mobile"))
  {
    var panels := Panels(language, code, output, loading);
    if Constants.IsWebLanguage(language) {
      assert panels[1] == Output(OutputConsole.Props(output, loading, language, code));
      assert TabOf(panels[0]) == PreviewTab && TabOf(panels[2]) == MobileTab;
    } else {
      assert panels == [Output(OutputConsole.Props(output, loading, language, code))];
    }
  }

  /** Both devices the previews ask for have a preset, so their device lookup
      is defined. */
  lemma PreviewDevicesExist()
    ensures WebPreview.RenderDevice(DefaultDevice).Some? && WebPreview.RenderDevice("mobile").Some?
  {
    Constants.DefaultDevicesExist();
  }
}
