/** The language context of src/contexts/language-context.tsx: the translation lookup, the
    right-to-left test, and the state that switching or loading a language changes. */
module LanguageContext {
  import opened Wrappers

  datatype Language = Ar | En

  /** The text direction set on the document element. */
  datatype Direction = Rtl | Ltr

  /** One row of the translation table: the Arabic and the English text. */
  datatype Entry = Entry(ar: string, en: string)

  function InLanguage(e: Entry, language: Language): string {
    match language
    case Ar => e.ar
    case En => e.en
  }

  /** `t(key, fallback)`: the row's text in the current language when the key is in the table,
      and the fallback otherwise. */
  function Translate(table: map<string, Entry>, language: Language, key: string, fallback: string): (r: string)
    ensures key in table ==> r == InLanguage(table[key], language)
    ensures key !in table ==> r == fallback
  {
    if key in table then InLanguage(table[key], language) else fallback
  }

  /** The fallback only shows for keys missing from the table, and a key in the table gives
      its two texts in the two languages, whatever fallback is passed. */
  lemma TranslateIgnoresFallbackForKnownKeys(table: map<string, Entry>, key: string, f1: string, f2: string)
    requires key in table
    ensures Translate(table, Ar, key, f1) == Translate(table, Ar, key, f2) == table[key].ar
    ensures Translate(table, En, key, f1) == Translate(table, En, key, f2) == table[key].en
  {
  }

  /** `isRTL`: right-to-left exactly for Arabic. */
  function IsRtl(language: Language): (rtl: bool)
    ensures rtl <==> language == Ar
  {
    language == Ar
  }

  /** `lang === 'ar' ? 'rtl' : 'ltr'`. */
  function DirectionOf(language: Language): (d: Direction)
    ensures d == Rtl <==> IsRtl(language)
  {
    if language == Ar then Rtl else Ltr
  }

  /** What the request for the saved preference produced: the request or its body failed, the
      server answered with an error status, or it answered with the saved language (none when
      the body has no language). */
  datatype LoadResponse = RequestFailed | NotOk | Answered(saved: Option<Language>)

  /** The provider's state: the current language and the document element's `dir` and `lang`. */
  class LanguageProvider {
    var language: Language
    var dir: Direction
    var lang: Language

    /** The provider starts in Arabic; the document keeps the direction and language it has. */
    constructor (documentDir: Direction, documentLang: Language)
      ensures language == Ar && dir == documentDir && lang == documentLang
    {
      language, dir, lang := Ar, documentDir, documentLang;
    }

    /** The document agrees with the current language. */
    predicate InSync()
      reads this
    {
      dir == DirectionOf(language) && lang == language
    }

    function IsRTL(): (rtl: bool)
      reads this
      ensures rtl <==> language == Ar
    {
      IsRtl(language)
    }

    /** `handleSetLanguage`: the language is set and the document follows it, right-to-left
        exactly for Arabic. Saving the choice on the server does not affect the state. */
    method HandleSetLanguage(l: Language)
      modifies this
      ensures language == l && lang == l
      ensures dir == Rtl <==> l == Ar
      ensures InSync()
    {
      language := l;
      dir := if l == Ar then Rtl else Ltr;
      lang := l;
    }

    /** `loadLanguagePreference`: a saved language is applied as `handleSetLanguage` applies it;
        a failed request falls back to Arabic, right-to-left; an error status or an answer
        without a language changes nothing. */
    method LoadLanguagePreference(response: LoadResponse)
      modifies this
      ensures response.RequestFailed? ==> language == Ar && dir == Rtl && lang == Ar
      ensures response.Answered? && response.saved.Some? ==>
                language == response.saved.value && lang == language && dir == DirectionOf(language)
      ensures response.NotOk? || (response.Answered? && response.saved.None?) ==>
                language == old(language) && dir == old(dir) && lang == old(lang)
      ensures !response.NotOk? && !(response.Answered? && response.saved.None?) ==> InSync()
    {
      match response {
        case RequestFailed =>
          language, dir, lang := Ar, Rtl, Ar;
        case NotOk =>
        case Answered(saved) =>
          if saved.Some? {
            var savedLanguage := saved.value;
            language := savedLanguage;
            dir := if savedLanguage == Ar then Rtl else Ltr;
            lang := savedLanguage;
          }
      }
    }
  }
}
