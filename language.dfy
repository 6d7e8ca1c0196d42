/**
 * The display-language hook. The saved preference is a field of the hook
 * object holding the raw text of the storage entry (`None` when there is
 * none).
 */
module LanguageHook {
  import opened Options

  datatype Language = Original | Ja {
    /** The stored spelling. */
    function Key(): string {
      match this
      case Original => "original"
      case Ja => "ja"
    }
  }

  /** The toggle: "ja" becomes "original" and anything else becomes "ja". */
  function Next(l: Language): (n: Language)
    ensures n != l
  {
    if l == Ja then Original else Ja
  }

  /** Toggling twice is the identity. */
  lemma NextTwice(l: Language)
    ensures Next(Next(l)) == l
  {
  }

  /** The mount effect: a saved value is adopted only when it is exactly "original" or "ja". */
  function Adopted(saved: Option<string>, current: Language): (l: Language)
    ensures saved == Some("original") ==> l == Original
    ensures saved == Some("ja") ==> l == Ja
    ensures saved != Some("original") && saved != Some("ja") ==> l == current
  {
    if saved == Some("original") then Original
    else if saved == Some("ja") then Ja
    else current
  }

  /** What is written is what a later load adopts. */
  lemma StoredRoundTrip(l: Language, current: Language)
    ensures Adopted(Some(l.Key()), current) == l
  {
  }

  class LanguagePreference {
    var language: Language
    var storage: Option<string>

    /** The first render: Japanese, whatever is saved. */
    constructor(storage: Option<string>)
      ensures language == Ja && this.storage == storage
    {
      language := Ja;
      this.storage := storage;
    }

    /** The mount effect. */
    method Load()
      modifies this
      ensures language == Adopted(storage, old(language))
      ensures storage == old(storage)
    {
      var saved := storage;
      if saved == Some("original") {
        language := Original;
      } else if saved == Some("ja") {
        language := Ja;
      }
    }

    /** `setLanguage`. */
    method SetLanguage(lang: Language)
      modifies this
      ensures language == lang && storage == Some(lang.Key())
    {
      language := lang;
      storage := Some(lang.Key());
    }

    /** `toggleLanguage`. */
    method ToggleLanguage()
      modifies this
      ensures language == Next(old(language)) && storage == Some(language.Key())
    {
      var next := if language == Ja then Original else Ja;
      storage := Some(next.Key());
      language := next;
    }
  }
}
