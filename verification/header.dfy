/** The language selector of `src/components/Header.jsx`: one option per key of
    `LANGUAGE_VERSIONS`, and the change handler that reports the chosen language
    and then replaces the code with its `CODE_SNIPPETS` entry. */
module Header {
  import opened Wrappers
  import opened Strings
  import Constants

  /** A callback the handler makes to its parent. */
  datatype Report = LanguageChanged(language: string) | CodeChanged(code: string)

  /** `handleLanguageChange`: `onLanguageChange(lang)`, then
      `onCodeChange(CODE_SNIPPETS[lang] || "")`. */
  function HandleLanguageChange(selected: string): (reports: seq<Report>)
    ensures |reports| == 2 && reports[0] == LanguageChanged(selected) && reports[1].CodeChanged?
    ensures Constants.SnippetOf(selected).Some? ==> reports[1].code == Constants.SnippetOf(selected).value
    ensures Constants.SnippetOf(selected).None? ==> reports[1].code == ""
  {
    [LanguageChanged(selected), CodeChanged(Constants.SnippetOf(selected).GetOr(""))]
  }

  /** An `<option>`: its value and its visible label. */
  datatype SelectOption = SelectOption(value: string, caption: string)

  /** `lang === 'cpp' ? 'C++' : lang.toUpperCase()`. */
  function OptionLabel(language: string): string {
    if language == "cpp" then "C++" else AsciiUpper(language)
  }

  /** The options, in the order of the version table. */
  function Options(): (opts: seq<SelectOption>)
    ensures |opts| == |Constants.Languages|
    ensures forall i | 0 <= i < |opts| :: opts[i].value == Constants.Languages[i]
  {
    seq(|Constants.Languages|, i requires 0 <= i < |Constants.Languages| =>
      SelectOption(Constants.Languages[i], OptionLabel(Constants.Languages[i])))
  }

  /** The option values are exactly the keys of the version table, in table
      order. */
  lemma OptionsAreVersionKeys()
    ensures |Options()| == |Constants.Keys(Constants.LanguageVersions)|
    ensures forall i | 0 <= i < |Options()| :: Options()[i].value == Constants.Keys(Constants.LanguageVersions)[i]
  {
    Constants.VersionKeys();
  }

  /** Choosing any listed option reports that language and a non-empty snippet. */
  lemma ListedOptionHasCode(i: nat)
    requires i < |Options()|
    ensures var reports := HandleLanguageChange(Options()[i].value);
            reports[0] == LanguageChanged(Constants.Languages[i]) && reports[1].code != ""
  {
    Constants.EveryLanguageHasSnippet();
    assert Constants.Languages[i] in Constants.Languages;
  }

  /** The labels: `C++` for `cpp`, and every other id upper-cased letter by letter
      (the ids are lower-case ASCII). */
  lemma OptionLabels()
    ensures forall i | 0 <= i < |Options()| && Options()[i].value != "cpp" ::
      |Options()[i].caption| == |Options()[i].value|
      && forall k | 0 <= k < |Options()[i].value| ::
           Options()[i].caption[k] as int == Options()[i].value[k] as int - 32
    ensures forall i | 0 <= i < |Options()| && Options()[i].value == "cpp" :: Options()[i].caption == "C++"
  {
    LanguagesAreLowerCase();
  }

  /** Every language id is a non-empty word of lower-case ASCII letters. */
  lemma LanguagesAreLowerCase()
    ensures forall i | 0 <= i < |Constants.Languages| ::
      |Constants.Languages[i]| > 0 && forall k | 0 <= k < |Constants.Languages[i]| :: 'a' <= Constants.Languages[i][k] <= 'z'
  {
  }
}
