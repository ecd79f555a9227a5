/** Nyaa's anime sub-category, chosen from what the language collaborator found in
    the release's audio and subtitle tracks. */
module Category {

  /** Anime - English-translated. */
  const EnglishTranslated := "1_2"
  /** Anime - Non-English-translated. */
  const NonEnglishTranslated := "1_3"
  /** Anime - Raw. */
  const Raw := "1_4"

  /** The answers of the language collaborator for the release's tracks. */
  datatype LanguageFacts = LanguageFacts(
    englishAudio: bool,
    englishSubtitles: bool,
    nonJapaneseAudio: bool,
    nonJapaneseSubtitles: bool)

  /** English in audio or subtitles wins; otherwise any language besides Japanese
      makes it a non-English translation; otherwise the release is raw. */
  function CategoryId(f: LanguageFacts): (id: string)
    ensures id in {EnglishTranslated, NonEnglishTranslated, Raw}
    ensures id == EnglishTranslated <==> f.englishAudio || f.englishSubtitles
    ensures id == NonEnglishTranslated <==>
      !(f.englishAudio || f.englishSubtitles) && (f.nonJapaneseAudio || f.nonJapaneseSubtitles)
    ensures id == Raw <==>
      !(f.englishAudio || f.englishSubtitles) && !(f.nonJapaneseAudio || f.nonJapaneseSubtitles)
  {
    var hasEnglishAudioOrSub := f.englishAudio || f.englishSubtitles;
    var hasNonJapanese := f.nonJapaneseAudio || f.nonJapaneseSubtitles;
    if hasEnglishAudioOrSub then EnglishTranslated
    else if hasNonJapanese then NonEnglishTranslated
    else Raw
  }
}
