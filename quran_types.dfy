/**
 * The records the application passes around: a surah with its ayahs and
 * their words, a bookmark and the reading settings. Optional fields of the
 * source are `Option`s; numbers are unbounded integers.
 */
module QuranTypes {
  import opened Wrappers

  /** The revelation period of a surah. */
  datatype Revelation = Makki | Madani

  /** One word of an ayah; `index` counts from 1 within the ayah. */
  datatype Word = Word(
    index: int,
    textAr: string,
    transliteration: Option<string>,
    wordMeaningBn: string,
    morph: Option<string>)

  /** One verse of a surah. */
  datatype Ayah = Ayah(
    ayahNumber: int,
    textAr: string,
    words: seq<Word>,
    translationBn: string,
    tafsirShortBn: Option<string>,
    tafsirFullBn: Option<string>,
    audioUrl: Option<string>)

  /** Where the text of a surah comes from. */
  datatype SurahMeta = SurahMeta(
    sourceAr: string,
    sourceTranslation: string,
    sourceTafsir: Option<string>,
    license: string)

  /** A surah: a list entry when `ayahs` is absent, a full record once fetched. */
  datatype Surah = Surah(
    surahNumber: int,
    name: string,
    nameBn: string,
    englishName: string,
    ayahCount: int,
    revelation: Option<Revelation>,
    ayahs: Option<seq<Ayah>>,
    meta: Option<SurahMeta>)

  /** A bookmark on an ayah; the id is chosen by the caller. */
  datatype Bookmark = Bookmark(
    id: string,
    surahNumber: int,
    ayahNumber: int,
    note: Option<string>,
    createdAt: int)

  /** The reading settings, stored as a single record. */
  datatype Settings = Settings(
    fontSize: int,
    showTransliteration: bool,
    showWordMeanings: bool,
    selectedTranslation: Option<string>,
    selectedTafsir: Option<string>)
}
