/** The static configuration tables of `src/constants.js`: language versions,
    starter snippets, the web-language list and the device presets. A JavaScript
    object literal is modelled as its list of entries in declaration order, which
    is the order `Object.keys` and `Object.entries` report. */
module Constants {
  import opened Wrappers

  /** A JavaScript object literal with string keys. */
  type Entries<V> = seq<(string, V)>

  /** `Object.keys(entries)`. */
  function Keys<V>(entries: Entries<V>): (ks: seq<string>)
    ensures |ks| == |entries|
    ensures forall i | 0 <= i < |entries| :: ks[i] == entries[i].0
  {
    if entries == [] then [] else [entries[0].0] + Keys(entries[1..])
  }

  /** `entries[key]`, `None` standing for `undefined`. */
  function Lookup<V>(entries: Entries<V>, key: string): (r: Option<V>)
    ensures r.Some? <==> key in Keys(entries)
    ensures r.Some? ==> exists i | 0 <= i < |entries| :: entries[i] == (key, r.value)
  {
    if entries == [] then None
    else if entries[0].0 == key then Some(entries[0].1)
    else Lookup(entries[1..], key)
  }

  /** The object literal whose keys and values are given in two parallel lists. */
  function Zip<V>(keys: seq<string>, values: seq<V>): (entries: Entries<V>)
    requires |keys| == |values|
    ensures Keys(entries) == keys
    ensures |entries| == |keys| && forall i | 0 <= i < |keys| :: entries[i] == (keys[i], values[i])
  {
    if keys == [] then [] else [(keys[0], values[0])] + Zip(keys[1..], values[1..])
  }

  /** No key is declared twice. */
  predicate DistinctKeys<V>(entries: Entries<V>) {
    forall i, j | 0 <= i < j < |entries| :: entries[i].0 != entries[j].0
  }

  // ---------------------------------------------------------------------------
  // LANGUAGE_VERSIONS
  // ---------------------------------------------------------------------------

  /** The language identifiers, in table order: the options the selectors offer. */
  const Languages: seq<string> :=
    ["javascript", "typescript", "python", "java", "csharp", "php", "c", "cpp", "html", "css"]

  const Versions: seq<string> :=
    ["18.15.0", "5.0.3", "3.10.0", "15.0.2", "6.12.0", "8.2.3", "10.2.0", "10.2.0", "5.0.0", "3.0.0"]

  const LanguageVersions: Entries<string> := Zip(Languages, Versions)

  function VersionOf(language: string): Option<string> {
    Lookup(LanguageVersions, language)
  }

  // ---------------------------------------------------------------------------
  // WEB_LANGUAGES
  // ---------------------------------------------------------------------------

  const WebLanguages: seq<string> := ["html", "css", "javascript"]

  /** `WEB_LANGUAGES.includes(language)`. */
  predicate IsWebLanguage(language: string) {
    language in WebLanguages
  }

  // ---------------------------------------------------------------------------
  // CODE_SNIPPETS
  // ---------------------------------------------------------------------------

  const JavascriptSnippet: string :=
    "function greet(name) {\n"
    + "  console.log(\"Hello, \" + name + \"!\");\n"
    + "}\n"
    + "\n"
    + "greet(\"World\");"

  const TypescriptSnippet: string :=
    "type Params = {\n"
    + "  name: string;\n"
    + "}\n"
    + "\n"
    + "function greet(data: Params) {\n"
    + "  console.log(\"Hello, \" + data.name + \"!\");\n"
    + "}\n"
    + "\n"
    + "greet({ name: \"World\" });"

  const PythonSnippet: string :=
    "def greet(name):\n"
    + "    print(\"Hello, \" + name + \"!\")\n"
    + "\n"
    + "greet(\"World\")"

  const JavaSnippet: string :=
    "public class HelloWorld {\n"
    + "    public static void main(String[] args) {\n"
    + "        System.out.println(\"Hello World\");\n"
    + "    }\n"
    + "}"

  const CsharpSnippet: string :=
    "using System;\n"
    + "\n"
    + "namespace HelloWorld\n"
    + "{\n"
    + "    class Hello { \n"
    + "        static void Main(string[] args) {\n"
    + "            Console.WriteLine(\"Hello World in C#\");\n"
    + "        }\n"
    + "    }\n"
    + "}"

  const PhpSnippet: string :=
    "<?php\n"
    + "\n"
    + "$name = 'World';\n"
    + "echo \"Hello \" . $name . \"!\";"

  const CSnippet: string :=
    "#include <stdio.h>\n"
    + "\n"
    + "int main() {\n"
    + "    printf(\"Hello World from C!\");\n"
    + "    return 0;\n"
    + "}"

  const CppSnippet: string :=
    "#include <iostream>\n"
    + "using namespace std;\n"
    + "\n"
    + "int main() {\n"
    + "    cout << \"Hello World from C++!\" << endl;\n"
    + "    return 0;\n"
    + "}"

  const HtmlSnippet: string :=
    "<!DOCTYPE html>\n"
    + "<html lang=\"en\">\n"
    + "<head>\n"
    + "    <meta charset=\"UTF-8\">\n"
    + "    <meta name=\"viewport\" content=\"width=device-width, initial-scale=1.0\">\n"
    + "    <title>Hello World</title>\n"
    + "    <style>\n"
    + "        body {\n"
    + "            font-family: Arial, sans-serif;\n"
    + "            display: flex;\n"
    + "            justify-content: center;\n"
    + "            align-items: center;\n"
    + "            height: 100vh;\n"
    + "            margin: 0;\n"
    + "            background: linear-gradient(135deg, #667eea 0%, #764ba2 100%);\n"
    + "            color: white;\n"
    + "        }\n"
    + "        .container {\n"
    + "            text-align: center;\n"
    + "            padding: 2rem;\n"
    + "            border-radius: 10px;\n"
    + "            background: rgba(255, 255, 255, 0.1);\n"
    + "            backdrop-filter: blur(10px);\n"
    + "        }\n"
    + "    </style>\n"
    + "</head>\n"
    + "<body>\n"
    + "    <div class=\"container\">\n"
    + "        <h1>Hello World!</h1>\n"
    + "        <p>Welcome to the live preview!</p>\n"
    + "        <button onclick=\"changeColor()\">Change Color</button>\n"
    + "    </div>\n"
    + "    \n"
    + "    <script>\n"
    + "        function changeColor() {\n"
    + "            document.body.style.background = 'linear-gradient(135deg, #ff6b6b 0%, #4ecdc4 100%)';\n"
    + "        }\n"
    + "    </script>\n"
    + "</body>\n"
    + "</html>"

  const CssSnippet: string :=
    "/* Modern CSS Example */\n"
    + "body {\n"
    + "    font-family: 'Arial', sans-serif;\n"
    + "    margin: 0;\n"
    + "    padding: 20px;\n"
    + "    background: linear-gradient(135deg, #667eea 0%, #764ba2 100%);\n"
    + "    min-height: 100vh;\n"
    + "}\n"
    + "\n"
    + ".card {\n"
    + "    background: white;\n"
    + "    border-radius: 15px;\n"
    + "    padding: 2rem;\n"
    + "    max-width: 500px;\n"
    + "    margin: 2rem auto;\n"
    + "    box-shadow: 0 10px 30px rgba(0,0,0,0.2);\n"
    + "    transform: translateY(0);\n"
    + "    transition: transform 0.3s ease;\n"
    + "}\n"
    + "\n"
    + ".card:hover {\n"
    + "    transform: translateY(-5px);\n"
    + "}\n"
    + "\n"
    + ".title {\n"
    + "    color: #333;\n"
    + "    text-align: center;\n"
    + "    margin-bottom: 1rem;\n"
    + "}"

  /** The snippets, in the order of `Languages`. */
  const Snippets: seq<string> := [
    JavascriptSnippet, TypescriptSnippet, PythonSnippet, JavaSnippet, CsharpSnippet,
    PhpSnippet, CSnippet, CppSnippet, HtmlSnippet, CssSnippet
  ]

  const CodeSnippets: Entries<string> := Zip(Languages, Snippets)

  function SnippetOf(language: string): Option<string> {
    Lookup(CodeSnippets, language)
  }

  // ---------------------------------------------------------------------------
  // DEVICE_PRESETS
  // ---------------------------------------------------------------------------

  datatype DevicePreset = DevicePreset(width: string, height: string, name: string)

  const DevicePresets: Entries<DevicePreset> := [
    ("desktop", DevicePreset("100%", "100%", "Desktop")),
    ("tablet", DevicePreset("768px", "1024px", "Tablet")),
    ("mobile", DevicePreset("375px", "667px", "Mobile")),
    ("iphone", DevicePreset("414px", "736px", "iPhone")),
    ("ipad", DevicePreset("820px", "1180px", "iPad"))
  ]

  function PresetOf(device: string): Option<DevicePreset> {
    Lookup(DevicePresets, device)
  }

  /** A CSS length such as `375px`: decimal digits followed by `px`. */
  predicate IsPixelLength(s: string) {
    && |s| > 2
    && s[|s| - 2..] == "px"
    && forall i | 0 <= i < |s| - 2 :: '0' <= s[i] <= '9'
  }

  // ---------------------------------------------------------------------------
  // Cross-table invariants
  // ---------------------------------------------------------------------------

  /** `Object.keys(LANGUAGE_VERSIONS)` lists the language identifiers in order. */
  lemma VersionKeys()
    ensures Keys(LanguageVersions) == Languages
  {
    assert |Languages| == |Versions|;
  }

  /** Every web language has a version entry. */
  lemma WebLanguagesHaveVersions()
    ensures forall l | l in WebLanguages :: l in Languages && VersionOf(l).Some?
  {
  }

  /** The version table has ten distinct keys, each with a non-empty version. */
  lemma LanguageTableShape()
    ensures |Keys(LanguageVersions)| == 10 && DistinctKeys(LanguageVersions)
    ensures forall i | 0 <= i < |LanguageVersions| :: LanguageVersions[i].1 != ""
  {
    LanguageKeysDistinct();
    VersionsNonEmpty();
  }

  lemma LanguageKeysDistinct()
    ensures |Keys(LanguageVersions)| == 10 && DistinctKeys(LanguageVersions)
  {
    LanguagesDistinct();
    ZipDistinct(Languages, Versions);
  }

  lemma LanguagesDistinct()
    ensures forall i, j | 0 <= i < j < |Languages| :: Languages[i] != Languages[j]
  {
  }

  /** Distinct keys stay distinct when values are attached to them. */
  lemma ZipDistinct<V>(keys: seq<string>, values: seq<V>)
    requires |keys| == |values|
    requires forall i, j | 0 <= i < j < |keys| :: keys[i] != keys[j]
    ensures DistinctKeys(Zip(keys, values))
  {
  }

  lemma VersionsNonEmpty()
    ensures forall i | 0 <= i < |LanguageVersions| :: LanguageVersions[i].1 != ""
  {
    VersionStrings();
  }

  lemma VersionStrings()
    ensures forall i | 0 <= i < |Versions| :: Versions[i] != ""
  {
  }

  /** Every selectable language has a non-empty starter snippet. */
  lemma EveryLanguageHasSnippet()
    ensures forall l | l in Languages :: SnippetOf(l).Some? && SnippetOf(l).value != ""
  {
    SnippetKeysAreLanguages();
    SnippetsNonEmpty();
    forall l | l in Languages
      ensures SnippetOf(l).Some? && SnippetOf(l).value != ""
    {
      var i :| 0 <= i < |CodeSnippets| && CodeSnippets[i] == (l, SnippetOf(l).value);
    }
  }

  /** The snippet table lists the same languages as the version table, in the same order. */
  lemma SnippetKeysAreLanguages()
    ensures Keys(CodeSnippets) == Languages
  {
  }

  lemma SnippetsNonEmpty()
    ensures forall i | 0 <= i < |CodeSnippets| :: |CodeSnippets[i].1| > 0
  {
    SnippetTexts();
  }

  lemma SnippetTexts()
    ensures forall i | 0 <= i < |Snippets| :: |Snippets[i]| > 0
  {
    SnippetTextsNonEmpty();
  }

  lemma SnippetTextsNonEmpty()
    ensures |JavascriptSnippet| > 0 && |TypescriptSnippet| > 0 && |PythonSnippet| > 0
    ensures |JavaSnippet| > 0 && |CsharpSnippet| > 0 && |PhpSnippet| > 0 && |CSnippet| > 0
    ensures |CppSnippet| > 0 && |HtmlSnippet| > 0 && |CssSnippet| > 0
  {
  }

  /** The presets the preview uses by default exist. */
  lemma DefaultDevicesExist()
    ensures PresetOf("desktop").Some? && PresetOf("mobile").Some?
    ensures DistinctKeys(DevicePresets)
  {
  }

  /** `desktop` is the one full-size preset; every other has fixed pixel sizes. */
  lemma OnlyDesktopIsFullSize()
    ensures forall i | 0 <= i < |DevicePresets| ::
      (DevicePresets[i].1.width == "100%" && DevicePresets[i].1.height == "100%")
      <==> DevicePresets[i].0 == "desktop"
    ensures forall i | 0 <= i < |DevicePresets| && DevicePresets[i].0 != "desktop" ::
      IsPixelLength(DevicePresets[i].1.width) && IsPixelLength(DevicePresets[i].1.height)
  {
  }
}
