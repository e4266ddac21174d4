/**
 * Shaping of the remote responses into the application's records: the surah
 * list (with its built-in fallback list), the full surah record assembled from
 * the Arabic text, the Bangla translation and the word-by-word data, and the
 * small text helpers used on the way (short and full tafsir, word splitting,
 * word-meaning and surah-name tables).
 *
 * The network is not modelled: each remote response is an input value, and
 * `None` stands for a request or JSON decoding that threw.
 */
module QuranApi {
  import opened Wrappers
  import opened Text
  import opened QuranTypes

  // ---------------------------------------------------------------------
  // Remote responses
  // ---------------------------------------------------------------------

  /** One entry of the surah list endpoint. */
  datatype ApiSurahSummary = ApiSurahSummary(
    number: int,
    name: string,
    englishName: string,
    numberOfAyahs: int,
    revelationType: string)

  datatype SurahListResponse = SurahListResponse(code: int, data: seq<ApiSurahSummary>)

  /** One ayah of the Arabic text endpoint; `number` counts across the whole Quran. */
  datatype ApiAyah = ApiAyah(number: int, numberInSurah: int, text: string)

  datatype ApiSurah = ApiSurah(
    number: int,
    name: string,
    englishName: string,
    numberOfAyahs: int,
    revelationType: string,
    ayahs: seq<ApiAyah>)

  datatype ArabicResponse = ArabicResponse(code: int, data: ApiSurah)

  /** One ayah of the Bangla translation endpoint. */
  datatype TranslatedAyah = TranslatedAyah(text: Option<string>)

  datatype TranslationResponse = TranslationResponse(code: int, ayahs: seq<TranslatedAyah>)

  /** One word of the word-by-word endpoint; `transliteration` and `translation` are the nested `text` fields. */
  datatype ApiWord = ApiWord(
    charTypeName: Option<string>,
    textUthmani: Option<string>,
    textImlaei: Option<string>,
    transliteration: Option<string>,
    translation: Option<string>)

  datatype ApiVerse = ApiVerse(verseNumber: int, words: Option<seq<ApiWord>>)

  datatype WordsResponse = WordsResponse(verses: Option<seq<ApiVerse>>)

  /** The three responses a surah detail is built from. */
  datatype RemoteDetail = RemoteDetail(
    arabic: Option<ArabicResponse>,
    bangla: Option<TranslationResponse>,
    words: Option<WordsResponse>)

  // ---------------------------------------------------------------------
  // Fixed strings and tables
  // ---------------------------------------------------------------------

  const NO_TRANSLATION: string := "অনুবাদ উপলব্ধ নেই"
  const NO_TAFSIR: string := "তাফসির উপলব্ধ নেই"
  const NO_FULL_TAFSIR: string := "এই আয়াতের বিস্তারিত তাফসির শীঘ্রই যুক্ত করা হবে। বর্তমানে শুধুমাত্র অনুবাদ উপলব্ধ।"
  const GENERIC_MEANING: string := "অর্থ"
  const BISMILLAH: string := "بِسۡمِ ٱللَّهِ ٱلرَّحۡمَـٰنِ ٱلرَّحِیمِ"
  const SHORT_TAFSIR_LIMIT: nat := 150
  const AUDIO_CDN: string := "https://cdn.islamic.network/quran/audio/128/ar.alafasy/"
  const DETAIL_META: SurahMeta := SurahMeta(
    "Al-Quran Cloud (Uthmani Script)",
    "Muhiuddin Khan Bangla Translation",
    Some("Context-based tafsir"),
    "Creative Commons - Public Domain")

  // The full-tafsir template around the translation and the surah name. Its
  // fixed explanatory paragraphs are abbreviated to their headings here.
  const FULL_TAFSIR_HEAD: string := "**আয়াতের মূল বিষয়বস্তু:**\n"
  const FULL_TAFSIR_CONTEXT: string := "\n\n**বিস্তারিত ব্যাখ্যা:** …\n\n**প্রসঙ্গ ও পটভূমি:**\nসূরা "
  const FULL_TAFSIR_SUMMARY: string := " এর এই আয়াতটি … \n\n**সারসংক্ষেপ:**\n\n"
  const FULL_TAFSIR_TAIL: string := " সূরার এই আয়াতটি … \n\n---\n\n**তথ্যসূত্র:** মুহিউদ্দীন খান বাংলা অনুবাদ ও প্রসঙ্গভিত্তিক ব্যাখ্যা।"

  /** A sample of the word-meaning table (Arabic word to Bangla meaning). */
  const COMMON_WORDS: map<string, string> :=
    map[
      "ٱللَّهِ" := "আল্লাহ",
      "ٱللَّهُ" := "আল্লাহ",
      "ٱللَّهَ" := "আল্লাহকে",
      "بِسۡمِ" := "নামে",
      "ٱلرَّحۡمَـٰنِ" := "পরম করুণাময়",
      "ٱلرَّحِیمِ" := "অতি দয়ালু",
      "ٱلۡحَمۡدُ" := "প্রশংসা",
      "رَبِّ" := "রব/প্রতিপালক",
      "ٱلۡعَـٰلَمِینَ" := "সকল জগতের",
      "مَـٰلِكِ" := "মালিক",
      SIRAT_DEFINITE := "পথ",
      SIRAT := "পথ",
      DHALIKA := "এটি"
    ]

  /** Three keys of the table hold a space before U+2060 WORD JOINER. */
  const SIRAT_DEFINITE: string := "ٱلصِّرَ ٰ\U{2060}طَ"
  const SIRAT: string := "صِرَ ٰ\U{2060}طَ"
  const DHALIKA: string := "ذَ ٰ\U{2060}لِكَ"

  /** A sample of the surah-name table (English transliterated name to Bangla name). */
  const SURAH_NAMES_BN: map<string, string> :=
    map[
      "Al-Faatiha" := "ফাতিহা",
      "Al-Baqara" := "বাকারা",
      "Aal-i-Imraan" := "আলে ইমরান",
      "Yaseen" := "ইয়াসিন"
    ]

  /** JavaScript truthiness of an optional string: present and non-empty. */
  predicate Truthy(s: Option<string>) {
    s.Some? && s.value != []
  }

  /** `s || fallback` on an optional string. */
  function OrElse(s: Option<string>, fallback: string): (r: string)
    ensures Truthy(s) ==> r == s.value
    ensures !Truthy(s) ==> r == fallback
  {
    if Truthy(s) then s.value else fallback
  }

  // ---------------------------------------------------------------------
  // Table lookups
  // ---------------------------------------------------------------------

  /**
   * The Bangla meaning of an Arabic word: the table entry for the trimmed
   * word, or the generic meaning. An absent word is looked up as "".
   */
  function WordMeaningFallback(arabicWord: Option<string>): (r: string)
    ensures r != []
    ensures r == GENERIC_MEANING || r in COMMON_WORDS.Values
    ensures var clean := if arabicWord.Some? then Trim(arabicWord.value) else [];
      && (clean in COMMON_WORDS && COMMON_WORDS[clean] != [] ==> r == COMMON_WORDS[clean])
      && (clean !in COMMON_WORDS ==> r == GENERIC_MEANING)
  {
    MeaningOf(if arabicWord.Some? then Trim(arabicWord.value) else [])
  }

  /** The table entry for an already trimmed word, when it is a non-empty string. */
  function MeaningOf(clean: string): string {
    if clean in COMMON_WORDS && COMMON_WORDS[clean] != [] then COMMON_WORDS[clean]
    else GENERIC_MEANING
  }

  /** Surrounding whitespace never changes the meaning found. */
  lemma WordMeaningIgnoresSurroundingSpace(w: string)
    ensures WordMeaningFallback(Some(w)) == WordMeaningFallback(Some(Trim(w)))
  {
    TrimIdempotent(w);
    assert MeaningOf(Trim(Trim(w))) == MeaningOf(Trim(w));
  }

  /** The Bangla name for a known English name; any other name is returned unchanged. */
  function BanglaSurahName(englishName: string): (r: string)
    ensures englishName in SURAH_NAMES_BN && SURAH_NAMES_BN[englishName] != [] ==> r == SURAH_NAMES_BN[englishName]
    ensures englishName !in SURAH_NAMES_BN ==> r == englishName
    ensures englishName != [] ==> r != []
  {
    if englishName in SURAH_NAMES_BN && SURAH_NAMES_BN[englishName] != [] then SURAH_NAMES_BN[englishName]
    else englishName
  }

  /** `"Meccan"` is Makki; every other revelation type, including unexpected ones, is Madani. */
  function RevelationOf(revelationType: string): (r: Revelation)
    ensures r == Makki <==> revelationType == "Meccan"
    ensures r == Madani <==> revelationType != "Meccan"
  {
    if revelationType == "Meccan" then Makki else Madani
  }

  // ---------------------------------------------------------------------
  // Tafsir texts
  // ---------------------------------------------------------------------

  predicate IsSentenceEnd(c: char) {
    c == '।' || c == '.' || c == '!'
  }

  predicate NoSentenceEnd(s: string) {
    forall k :: 0 <= k < |s| ==> !IsSentenceEnd(s[k])
  }

  /** `t.split(/[।.!]/)[0]`: the text before the first sentence delimiter, or all of it. */
  function FirstSentence(t: string): (f: string)
    ensures IsPrefix(f, t) && NoSentenceEnd(f)
    ensures |f| < |t| ==> IsSentenceEnd(t[|f|])
  {
    if t == [] || IsSentenceEnd(t[0]) then [] else [t[0]] + FirstSentence(t[1..])
  }

  /**
   * The short tafsir of an ayah, derived from its translation: the first
   * sentence closed with `।`, or its first 150 characters followed by `...`
   * when the sentence is longer. A missing or empty translation gives a fixed
   * notice.
   */
  function ShortTafsir(translation: Option<string>): (r: string)
    ensures !Truthy(translation) ==> r == NO_TAFSIR
  {
    if !Truthy(translation) then NO_TAFSIR
    else
      var first := FirstSentence(translation.value);
      if |first| > SHORT_TAFSIR_LIMIT then first[..SHORT_TAFSIR_LIMIT] + "..." else first + "।"
  }

  /**
   * What a short tafsir is, stated without the recipe: a delimiter-free
   * prefix of the translation of at most 150 characters, followed by `।` when
   * that prefix is the whole first sentence, or by `...` when it is the first
   * 150 characters of a longer sentence.
   */
  lemma ShortTafsirIsFirstSentence(t: string)
    requires t != []
    ensures var r := ShortTafsir(Some(t));
      || (&& |r| >= 1 && r[|r| - 1] == '।'
          && var body := r[..|r| - 1];
             IsPrefix(body, t) && NoSentenceEnd(body) && |body| <= SHORT_TAFSIR_LIMIT
             && (|body| == |t| || IsSentenceEnd(t[|body|])))
      || (&& |r| >= 3 && r[|r| - 3..] == "..."
          && var body := r[..|r| - 3];
             |body| == SHORT_TAFSIR_LIMIT && |t| > SHORT_TAFSIR_LIMIT
             && IsPrefix(body, t) && NoSentenceEnd(t[..SHORT_TAFSIR_LIMIT + 1]))
  {
    var first := FirstSentence(t);
    var r := ShortTafsir(Some(t));
    if |first| > SHORT_TAFSIR_LIMIT {
      assert r[..|r| - 3] == first[..SHORT_TAFSIR_LIMIT];
      assert t[..SHORT_TAFSIR_LIMIT + 1] == first[..SHORT_TAFSIR_LIMIT + 1];
    } else {
      assert r[..|r| - 1] == first;
    }
  }

  /** Short tafsirs are bounded: at most 150 characters of text plus a 3-character marker. */
  lemma ShortTafsirBounded(translation: Option<string>)
    ensures |ShortTafsir(translation)| <= SHORT_TAFSIR_LIMIT + 3
  {
    if Truthy(translation) {
      ShortTafsirIsFirstSentence(translation.value);
    }
  }

  /**
   * The full tafsir: a fixed notice without a translation, else a template
   * around the translation and the surah name. The ayah number is not used.
   */
  function FullTafsir(ayahNumber: int, translation: Option<string>, surahName: string): (r: string)
    ensures !Truthy(translation) ==> r == NO_FULL_TAFSIR
  {
    if !Truthy(translation) then NO_FULL_TAFSIR
    else
      FULL_TAFSIR_HEAD + translation.value + FULL_TAFSIR_CONTEXT + surahName
        + FULL_TAFSIR_SUMMARY + surahName + FULL_TAFSIR_TAIL
  }

  /** A full tafsir built from a translation quotes the translation and names the surah. */
  lemma FullTafsirEmbeds(ayahNumber: int, t: string, surahName: string)
    requires t != []
    ensures Contains(FullTafsir(ayahNumber, Some(t), surahName), t)
    ensures Contains(FullTafsir(ayahNumber, Some(t), surahName), surahName)
  {
    var r := FullTafsir(ayahNumber, Some(t), surahName);
    var i := |FULL_TAFSIR_HEAD|;
    assert r[i..i + |t|] == t;
    assert OccursAt(r, t, i);
    var j := |FULL_TAFSIR_HEAD| + |t| + |FULL_TAFSIR_CONTEXT|;
    assert r[j..j + |surahName|] == surahName;
    assert OccursAt(r, surahName, j);
  }

  // ---------------------------------------------------------------------
  // Words
  // ---------------------------------------------------------------------

  /** The text with a leading Bismillah and the whitespace after it removed. */
  function StripBismillah(text: string): (r: string)
    ensures IsPrefix(BISMILLAH, text) ==>
      && |r| <= |text| - |BISMILLAH| && r == text[|text| - |r|..]
      && (forall k :: |BISMILLAH| <= k < |text| - |r| ==> IsSpace(text[k]))
      && (r == [] || !IsSpace(r[0]))
    ensures !IsPrefix(BISMILLAH, text) ==> r == text
  {
    if IsPrefix(BISMILLAH, text) then TrimStart(text[|BISMILLAH|..]) else text
  }

  /** The words of an ayah's Arabic text, when no word-by-word data is available. */
  function ParseWordsFromText(text: string): (r: seq<Word>)
    ensures forall k :: 0 <= k < |r| ==>
      && r[k].index == k + 1
      && r[k].textAr != [] && NoSpace(r[k].textAr)
      && r[k].transliteration == Some([]) && r[k].morph == Some([])
      && r[k].wordMeaningBn == WordMeaningFallback(Some(r[k].textAr))
  {
    var tokens := Tokens(Trim(StripBismillah(text)));
    seq(|tokens|, k requires 0 <= k < |tokens| => Word(k + 1, tokens[k], Some([]), WordMeaningFallback(Some(tokens[k])), Some([])))
  }

  function WordTexts(words: seq<Word>): (r: seq<string>)
    ensures |r| == |words|
  {
    seq(|words|, k requires 0 <= k < |words| => words[k].textAr)
  }

  lemma {:induction false} RemoveSpacesTrimEnd(s: string)
    ensures RemoveSpaces(TrimEnd(s)) == RemoveSpaces(s)
  {
    var t := TrimEnd(s);
    var tail := s[|t|..];
    assert s == t + tail;
    RemoveSpacesAppend(t, tail);
    AllSpacesRemoved(tail);
  }

  lemma {:induction false} AllSpacesRemoved(s: string)
    requires forall k :: 0 <= k < |s| ==> IsSpace(s[k])
    ensures RemoveSpaces(s) == []
  {
    if s != [] {
      AllSpacesRemoved(s[1..]);
    }
  }

  /** The split loses no letter: the words, glued together, are the non-space text after the Bismillah. */
  lemma ParsedWordsKeepText(text: string)
    ensures Concat(WordTexts(ParseWordsFromText(text))) == RemoveSpaces(StripBismillah(text))
  {
    var stripped := StripBismillah(text);
    var tokens := Tokens(Trim(stripped));
    assert WordTexts(ParseWordsFromText(text)) == tokens;
    TokensPreserveText(Trim(stripped));
    RemoveSpacesTrimEnd(TrimStart(stripped));
    RemoveSpacesTrimStart(stripped);
  }

  /**
   * The three table keys that hold a space are never the text of a word
   * split from an ayah's text, so the splitter never finds their meaning.
   */
  lemma SpacedKeysNeverMatchSplitWords(text: string)
    ensures SIRAT_DEFINITE in COMMON_WORDS && SIRAT in COMMON_WORDS && DHALIKA in COMMON_WORDS
    ensures forall w :: w in ParseWordsFromText(text) ==>
      w.textAr != SIRAT_DEFINITE && w.textAr != SIRAT && w.textAr != DHALIKA
  {
    assert IsSpace(SIRAT_DEFINITE[7]) && IsSpace(SIRAT[4]) && IsSpace(DHALIKA[2]);
    var r := ParseWordsFromText(text);
    forall w | w in r ensures w.textAr != SIRAT_DEFINITE && w.textAr != SIRAT && w.textAr != DHALIKA {
      var k :| 0 <= k < |r| && r[k] == w;
      assert NoSpace(r[k].textAr);
    }
  }

  /**
   * The same three keys are found when the lookup gets a whole API word
   * (`text_uthmani`), which is not split on whitespace.
   */
  lemma SpacedKeysMatchWholeWords()
    ensures WordMeaningFallback(Some(SIRAT_DEFINITE)) == COMMON_WORDS[SIRAT_DEFINITE]
    ensures WordMeaningFallback(Some(SIRAT)) == COMMON_WORDS[SIRAT]
    ensures WordMeaningFallback(Some(DHALIKA)) == COMMON_WORDS[DHALIKA]
  {
    assert !IsSpace(SIRAT_DEFINITE[0]) && !IsSpace(SIRAT_DEFINITE[|SIRAT_DEFINITE| - 1]);
    assert TrimStart(SIRAT_DEFINITE) == SIRAT_DEFINITE;
    assert !IsSpace(SIRAT[0]) && !IsSpace(SIRAT[|SIRAT| - 1]);
    assert TrimStart(SIRAT) == SIRAT;
    assert !IsSpace(DHALIKA[0]) && !IsSpace(DHALIKA[|DHALIKA| - 1]);
    assert TrimStart(DHALIKA) == DHALIKA;
  }

  /** The API words that are real words (`char_type_name` is "word"), in order. */
  function KeepWords(ws: seq<ApiWord>): (r: seq<ApiWord>)
    ensures |r| <= |ws|
    ensures forall k :: 0 <= k < |r| ==> r[k].charTypeName == Some("word") && r[k] in ws
    ensures forall w :: w in ws && w.charTypeName == Some("word") ==> w in r
  {
    if ws == [] then []
    else if ws[0].charTypeName == Some("word") then [ws[0]] + KeepWords(ws[1..])
    else KeepWords(ws[1..])
  }

  /** Filtering a concatenation filters each part: the kept words stay in API order. */
  lemma {:induction false} KeepWordsAppend(a: seq<ApiWord>, b: seq<ApiWord>)
    ensures KeepWords(a + b) == KeepWords(a) + KeepWords(b)
  {
    if a == [] {
      assert a + b == b;
    } else {
      assert (a + b)[0] == a[0];
      assert (a + b)[1..] == a[1..] + b;
      KeepWordsAppend(a[1..], b);
    }
  }

  /** One kept API word as a `Word` at 0-based position `k`. */
  function ConvertApiWord(w: ApiWord, k: nat): Word {
    Word(
      k + 1,
      OrElse(w.textUthmani, OrElse(w.textImlaei, [])),
      Some(OrElse(w.transliteration, [])),
      OrElse(w.translation, WordMeaningFallback(w.textUthmani)),
      Some(OrElse(w.charTypeName, [])))
  }

  /** The API words of an ayah, pause marks dropped, renumbered from 1. */
  function ApiWordsToWords(ayahWords: seq<ApiWord>): (r: seq<Word>)
    ensures |r| == |KeepWords(ayahWords)|
    ensures forall k :: 0 <= k < |r| ==>
      var w := KeepWords(ayahWords)[k];
      && r[k].index == k + 1
      && r[k].textAr == OrElse(w.textUthmani, OrElse(w.textImlaei, []))
      && r[k].transliteration == Some(OrElse(w.transliteration, []))
      && r[k].morph == Some("word")
      && (Truthy(w.translation) ==> r[k].wordMeaningBn == w.translation.value)
      && (!Truthy(w.translation) ==> r[k].wordMeaningBn == WordMeaningFallback(w.textUthmani))
  {
    var kept := KeepWords(ayahWords);
    seq(|kept|, k requires 0 <= k < |kept| => ConvertApiWord(kept[k], k))
  }

  /** The word-by-word entries stored for ayah `n`, or none. */
  function WordsFor(index: map<int, seq<ApiWord>>, n: int): seq<ApiWord> {
    if n in index then index[n] else []
  }

  /**
   * The words of one ayah: the API words when at least one of them is a
   * real word, otherwise the words split from the Arabic text.
   */
  function AyahWords(a: ApiAyah, index: map<int, seq<ApiWord>>): (r: seq<Word>)
    ensures forall k :: 0 <= k < |r| ==> r[k].index == k + 1
  {
    var ayahWords := WordsFor(index, a.numberInSurah);
    var fromApi := if |ayahWords| > 0 then ApiWordsToWords(ayahWords) else [];
    if |fromApi| == 0 then ParseWordsFromText(a.text) else fromApi
  }

  /** The splitter is used exactly when the API offers no real word for the ayah. */
  lemma AyahWordsSource(a: ApiAyah, index: map<int, seq<ApiWord>>)
    ensures |KeepWords(WordsFor(index, a.numberInSurah))| == 0 ==> AyahWords(a, index) == ParseWordsFromText(a.text)
    ensures |KeepWords(WordsFor(index, a.numberInSurah))| > 0 ==> AyahWords(a, index) == ApiWordsToWords(WordsFor(index, a.numberInSurah))
  {
  }

  // ---------------------------------------------------------------------
  // Surah list
  // ---------------------------------------------------------------------

  /** The built-in list used when the surah list cannot be fetched. */
  function CachedSurahList(): (r: seq<Surah>)
    ensures |r| == 3
    ensures r[0].surahNumber == 1 && r[1].surahNumber == 2 && r[2].surahNumber == 36
    ensures forall k :: 0 <= k < |r| ==> r[k].ayahs.None? && r[k].revelation.Some?
  {
    [
      Surah(1, "الفاتحة", "ফাতিহা", "Al-Faatiha", 7, Some(Makki), None, None),
      Surah(2, "البقرة", "বাকারা", "Al-Baqara", 286, Some(Madani), None, None),
      Surah(36, "يس", "ইয়াসিন", "Yaseen", 83, Some(Makki), None, None)
    ]
  }

  /** The built-in list agrees with the name table: each Bangla name is the one the table gives. */
  lemma CachedListAgreesWithNameTable()
    ensures forall k :: 0 <= k < |CachedSurahList()| ==>
      CachedSurahList()[k].nameBn == BanglaSurahName(CachedSurahList()[k].englishName)
  {
    var r := CachedSurahList();
    assert r[0].englishName in SURAH_NAMES_BN;
    assert r[1].englishName in SURAH_NAMES_BN;
    assert r[2].englishName in SURAH_NAMES_BN;
  }

  function SurahFromSummary(s: ApiSurahSummary): (r: Surah)
    ensures r.surahNumber == s.number && r.name == s.name && r.englishName == s.englishName
    ensures r.ayahCount == s.numberOfAyahs && r.nameBn == BanglaSurahName(s.englishName)
    ensures r.revelation.Some? && (r.revelation == Some(Makki) <==> s.revelationType == "Meccan")
    ensures r.ayahs.None? && r.meta.None?
  {
    Surah(s.number, s.name, BanglaSurahName(s.englishName), s.englishName, s.numberOfAyahs,
          Some(RevelationOf(s.revelationType)), None, None)
  }

  /**
   * The surah list: the response's entries, in order, when its code is 200;
   * the built-in list on any other code or when the request threw.
   */
  function FetchSurahList(response: Option<SurahListResponse>): (r: seq<Surah>)
    ensures response.None? || response.value.code != 200 ==> r == CachedSurahList()
    ensures response.Some? && response.value.code == 200 ==>
      var data := response.value.data;
      && |r| == |data|
      && forall k :: 0 <= k < |r| ==>
        && r[k].surahNumber == data[k].number
        && r[k].name == data[k].name
        && r[k].englishName == data[k].englishName
        && r[k].nameBn == BanglaSurahName(data[k].englishName)
        && r[k].ayahCount == data[k].numberOfAyahs
        && (r[k].revelation == Some(Makki) <==> data[k].revelationType == "Meccan")
        && r[k].revelation.Some? && r[k].ayahs.None?
  {
    if response.Some? && response.value.code == 200 then
      var data := response.value.data;
      seq(|data|, k requires 0 <= k < |data| => SurahFromSummary(data[k]))
    else
      CachedSurahList()
  }

  /** Every surah in a list, fetched or built in, carries a revelation period. */
  lemma SurahListAlwaysClassified(response: Option<SurahListResponse>)
    ensures forall s :: s in FetchSurahList(response) ==> s.revelation.Some?
  {
  }

  // ---------------------------------------------------------------------
  // Surah detail
  // ---------------------------------------------------------------------

  predicate HasWordsFor(v: ApiVerse, n: int) {
    v.verseNumber == n && v.words.Some?
  }

  /**
   * The word-by-word dictionary, filled verse by verse: a verse with words
   * sets the entry for its number, so a later verse with the same number wins.
   */
  function WordIndex(verses: seq<ApiVerse>): (m: map<int, seq<ApiWord>>)
    ensures forall n :: n in m <==> exists j :: 0 <= j < |verses| && HasWordsFor(verses[j], n)
  {
    if verses == [] then map[]
    else
      var m := WordIndex(verses[..|verses| - 1]);
      var last := verses[|verses| - 1];
      assert forall j :: 0 <= j < |verses| - 1 ==> verses[..|verses| - 1][j] == verses[j];
      if last.words.Some? then m[last.verseNumber := last.words.value] else m
  }

  /** The entry for a verse number holds the words of the last verse with that number. */
  lemma {:induction false} WordIndexLastWins(verses: seq<ApiVerse>, j: nat)
    requires j < |verses| && verses[j].words.Some?
    requires forall i :: j < i < |verses| ==> !HasWordsFor(verses[i], verses[j].verseNumber)
    ensures verses[j].verseNumber in WordIndex(verses)
    ensures WordIndex(verses)[verses[j].verseNumber] == verses[j].words.value
  {
    if j < |verses| - 1 {
      var init := verses[..|verses| - 1];
      assert init[j] == verses[j];
      assert forall i :: j < i < |init| ==> init[i] == verses[i];
      WordIndexLastWins(init, j);
    }
  }

  /** The dictionary the word-by-word response gives; empty when it threw or holds no verses. */
  function IndexOf(words: Option<WordsResponse>): map<int, seq<ApiWord>> {
    if words.Some? && words.value.verses.Some? then WordIndex(words.value.verses.value) else map[]
  }

  /** The translation at the same position as the `k`-th Arabic ayah, if any. */
  function TranslationAt(bangla: seq<TranslatedAyah>, k: nat): Option<string> {
    if k < |bangla| then bangla[k].text else None
  }

  function AssembleAyah(a: ApiAyah, k: nat, bangla: seq<TranslatedAyah>, index: map<int, seq<ApiWord>>, englishName: string): Ayah {
    var translation := TranslationAt(bangla, k);
    Ayah(
      a.numberInSurah,
      a.text,
      AyahWords(a, index),
      OrElse(translation, NO_TRANSLATION),
      Some(ShortTafsir(translation)),
      Some(FullTafsir(a.numberInSurah, translation, englishName)),
      Some(AUDIO_CDN + IntToString(a.number) + ".mp3"))
  }

  function AssembleSurah(s: ApiSurah, bangla: seq<TranslatedAyah>, index: map<int, seq<ApiWord>>): Surah {
    var ayahs := seq(|s.ayahs|, k requires 0 <= k < |s.ayahs| => AssembleAyah(s.ayahs[k], k, bangla, index, s.englishName));
    Surah(s.number, s.name, BanglaSurahName(s.englishName), s.englishName, s.numberOfAyahs,
          Some(RevelationOf(s.revelationType)), Some(ayahs), Some(DETAIL_META))
  }

  /** Whether both text responses arrived with code 200. */
  predicate BothTextsOk(remote: RemoteDetail) {
    && remote.arabic.Some? && remote.bangla.Some?
    && remote.arabic.value.code == 200 && remote.bangla.value.code == 200
  }

  /** The full surah record, or `None` when either text request failed or answered another code. */
  function SurahDetail(remote: RemoteDetail): (r: Option<Surah>)
    ensures r.Some? ==>
      && BothTextsOk(remote)
      && r.value.surahNumber == remote.arabic.value.data.number
      && r.value.ayahs.Some? && |r.value.ayahs.value| == |remote.arabic.value.data.ayahs|
  {
    if !BothTextsOk(remote) then None
    else Some(AssembleSurah(remote.arabic.value.data, remote.bangla.value.ayahs, IndexOf(remote.words)))
  }

  /**
   * Builds the surah record from the three responses, filling the
   * word-by-word dictionary one verse at a time.
   */
  method FetchSurahDetail(remote: RemoteDetail) returns (r: Option<Surah>)
    ensures r == SurahDetail(remote)
  {
    if remote.arabic.None? || remote.bangla.None? {
      return None;
    }
    var arabic := remote.arabic.value;
    var bangla := remote.bangla.value;
    if arabic.code != 200 || bangla.code != 200 {
      return None;
    }
    var index: map<int, seq<ApiWord>> := map[];
    if remote.words.Some? && remote.words.value.verses.Some? {
      var verses := remote.words.value.verses.value;
      var i := 0;
      while i < |verses|
        invariant 0 <= i <= |verses|
        invariant index == WordIndex(verses[..i])
      {
        assert verses[..i + 1][..i] == verses[..i];
        if verses[i].words.Some? {
          index := index[verses[i].verseNumber := verses[i].words.value];
        }
        i := i + 1;
      }
      assert verses[..|verses|] == verses;
    }
    r := Some(AssembleSurah(arabic.data, bangla.ayahs, index));
  }

  /** A detail is absent exactly when a text request failed or answered a code other than 200. */
  lemma SurahDetailAbsentIffTextFailure(remote: RemoteDetail)
    ensures SurahDetail(remote).None? <==> !BothTextsOk(remote)
  {
  }

  /**
   * What an assembled surah holds: one ayah per Arabic ayah, numbered as the
   * API numbers them within the surah, each paired with the translation at
   * the same position (or the fixed notice), each with words numbered from 1.
   */
  lemma SurahDetailShape(remote: RemoteDetail)
    requires BothTextsOk(remote)
    ensures var s := SurahDetail(remote).value;
      var api := remote.arabic.value.data;
      var bangla := remote.bangla.value.ayahs;
      && s.surahNumber == api.number
      && s.name == api.name && s.englishName == api.englishName
      && s.ayahCount == api.numberOfAyahs
      && s.nameBn == BanglaSurahName(api.englishName)
      && s.meta == Some(DETAIL_META)
      && (s.revelation == Some(Makki) <==> api.revelationType == "Meccan")
      && s.ayahs.Some? && |s.ayahs.value| == |api.ayahs|
      && forall k :: 0 <= k < |api.ayahs| ==>
        var a := s.ayahs.value[k];
        && a.ayahNumber == api.ayahs[k].numberInSurah
        && a.textAr == api.ayahs[k].text
        && (k < |bangla| && Truthy(bangla[k].text) ==> a.translationBn == bangla[k].text.value)
        && (!(k < |bangla| && Truthy(bangla[k].text)) ==> a.translationBn == NO_TRANSLATION)
        && a.tafsirShortBn == Some(ShortTafsir(TranslationAt(bangla, k)))
        && a.tafsirFullBn == Some(FullTafsir(api.ayahs[k].numberInSurah, TranslationAt(bangla, k), api.englishName))
        && a.words == AyahWords(api.ayahs[k], IndexOf(remote.words))
        && a.audioUrl == Some(AUDIO_CDN + IntToString(api.ayahs[k].number) + ".mp3")
        && (forall m :: 0 <= m < |a.words| ==> a.words[m].index == m + 1)
  {
  }
}
