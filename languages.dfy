/**
 * Choice of the source language of a recognized text: a forced language wins,
 * otherwise the detector's answer is kept if it is supported, and "en" is the
 * fallback for an unsupported answer and for a detector failure alike.
 */
module Languages {
  import opened Wrappers

  /** `SUPPORTED_LANGS`. */
  const SUPPORTED_LANGS: seq<string> := ["ar", "fa", "ur", "ps", "hi", "en"]

  /** `FORCE_LANG`, which is unset. */
  const FORCE_LANG: Option<string> := None

  /** `if FORCE_LANG:` tests truthiness: an unset or empty override does not force. */
  predicate Forced(forced: Option<string>) {
    forced.Some? && forced.value != ""
  }

  /** The chosen code, and whether the detector was consulted for it. */
  datatype LanguageChoice = LanguageChoice(code: string, detectorConsulted: bool)

  /** `detected` is the detector's outcome on the text (None when it raised);
      it is used only when no language is forced. */
  function ChooseLanguage(forced: Option<string>, detected: Option<string>): (r: LanguageChoice)
    ensures Forced(forced) ==> r.code == forced.value && !r.detectorConsulted
    ensures !Forced(forced) ==> r.detectorConsulted && r.code in SUPPORTED_LANGS
    ensures !Forced(forced) && detected.Some? && detected.value in SUPPORTED_LANGS ==>
              r.code == detected.value
    ensures !Forced(forced) && (detected.None? || detected.value !in SUPPORTED_LANGS) ==>
              r.code == "en"
  {
    if Forced(forced) then
      LanguageChoice(forced.value, false)
    else
      match detected
      case None => LanguageChoice("en", true)
      case Some(lang) => LanguageChoice(if lang in SUPPORTED_LANGS then lang else "en", true)
  }

  /** The chosen language is the forced one or a supported one. */
  lemma ChosenLanguageAllowed(forced: Option<string>, detected: Option<string>)
    ensures var r := ChooseLanguage(forced, detected);
            (Forced(forced) && r.code == forced.value) || r.code in SUPPORTED_LANGS
  {
  }

  /** A detector failure and an unsupported answer lead to the same choice. */
  lemma FailureAndUnsupportedCollapse(forced: Option<string>, lang: string)
    requires lang !in SUPPORTED_LANGS
    ensures ChooseLanguage(forced, None) == ChooseLanguage(forced, Some(lang))
  {
  }

  /** When a language is forced, the detector's outcome does not matter. */
  lemma ForcedIgnoresDetector(forced: Option<string>, d1: Option<string>, d2: Option<string>)
    requires Forced(forced)
    ensures ChooseLanguage(forced, d1) == ChooseLanguage(forced, d2)
  {
  }
}
