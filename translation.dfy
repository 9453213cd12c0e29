/**
 * `translate_to_english`: blank text gives "", English text is returned
 * unchanged, and otherwise the translator is called; if it fails, the original
 * text is returned.
 */
module Translation {
  import opened Text

  /** What the translator gives for the text, or that it raised. */
  datatype TranslatorOutcome = Translated(text: string) | TranslatorFailed

  /** The returned text and whether the translator was called to get it. */
  datatype Translation = Translation(text: string, translatorCalled: bool)

  /** `outcome` is what the translator would give for (`text`, `fromCode`). */
  function TranslateToEnglish(text: string, fromCode: string, outcome: TranslatorOutcome): (r: Translation)
    ensures r.translatorCalled <==> !Blank(text) && fromCode != "en"
    ensures Blank(text) ==> r.text == ""
    ensures !Blank(text) && fromCode == "en" ==> r.text == text
    ensures r.translatorCalled && outcome.TranslatorFailed? ==> r.text == text
    ensures r.translatorCalled && outcome.Translated? ==> r.text == outcome.text
  {
    if Blank(text) then
      Translation("", false)
    else if fromCode == "en" then
      Translation(text, false)
    else
      match outcome
      case Translated(t) => Translation(t, true)
      case TranslatorFailed => Translation(text, true)
  }

  /** Non-blank text is never lost: unless the translator succeeds, the
      result is the input text itself. */
  lemma TextKeptUnlessTranslated(text: string, fromCode: string, outcome: TranslatorOutcome)
    requires !Blank(text)
    requires fromCode == "en" || outcome.TranslatorFailed?
    ensures TranslateToEnglish(text, fromCode, outcome).text == text
  {
  }

  /** The translator's outcome matters only when the translator is called. */
  lemma OutcomeIrrelevantUnlessCalled(text: string, fromCode: string, o1: TranslatorOutcome, o2: TranslatorOutcome)
    requires Blank(text) || fromCode == "en"
    ensures TranslateToEnglish(text, fromCode, o1) == TranslateToEnglish(text, fromCode, o2)
  {
  }
}
