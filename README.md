# Quran Bangla explorer: a Dafny model of the reader's core

The application shows the Quran word by word with a Bangla translation. It
fetches the surah list and each surah from two public APIs, builds the
ayah and word records and the short and full tafsir texts from those
answers, and caches whole surahs in an on-device IndexedDB database for
offline reading. It also plays each ayah's recitation from a CDN.

This project models that core in Dafny and proves properties of it.

| file | module | models |
|---|---|---|
| `wrappers.dfy` | `Wrappers` | `undefined`/`null` as `Option`, a rejected promise as `Result` |
| `text.dfy` | `Text` | the JavaScript string built-ins the core relies on: `trim`, `split(/\s+/)`, `includes`, `toLowerCase`, `String(n)`, `padStart`, `parseInt` |
| `quran_types.dfy` | `QuranTypes` | the `Surah`, `Ayah`, `Word`, `Bookmark` and `Settings` records |
| `quran_api.dfy` | `QuranApi` | `src/lib/quran-api.ts`: the surah list with its built-in fallback, the surah detail assembly, the word splitter and dictionary lookup, the tafsir texts |
| `offline_db.dfy` | `OfflineDb` | `src/lib/db.ts`: the database handle, the upgrade step, and the put/get/getAll/delete operations on the three object stores |
| `surah_detail_page.dfy` | `SurahDetailPage` | `loadSurah` and `handleDownload` of `src/pages/SurahDetail.tsx` |
| `index_page.dfy` | `IndexPage` | the search filter and the downloaded-surah set of `src/pages/Index.tsx` |
| `audio_player.dfy` | `AudioPlayer` | the `useAudioPlayer` hook of `src/hooks/use-audio-player.tsx` |

## How the model is built

- **Pure code becomes functions.** The helpers of `quran-api.ts` and the
  search filter are functions over datatypes. The API's JSON answers arrive
  as parameters (`Option<SurahListResponse>`, `RemoteDetail`). `None` stands
  for a request that threw.
- **Loops become methods.** The one loop of the core is the `forEach` that
  fills the word-by-word dictionary. `QuranApi.FetchSurahDetail` keeps it as
  a `while` loop and is proved equal to the function `QuranApi.SurahDetail`.
- **Stateful code becomes classes.**
  - `OfflineDb.OfflineStore` holds the module-level handle (`isOpen`), the
    database version and schema, and one map per object store.
  - `SurahDetailPage.SurahDetailView`, `IndexPage.IndexView` and
    `AudioPlayer.Player` hold the React state and refs of their component.
  - Each handler is a method whose `ensures` give the new value of every
    field it may change. For the store that includes its handle, version
    and schema, through `OfflineDb.OfflineStore.InitEffect`.
- **The storage engine is a parameter.** An `OfflineDb.Engine` value says
  whether opening the database and the request itself succeed. A failed
  operation rejects, and the store's records stay as they were.
- **Browser audio events are method calls.** An element's `loadeddata`,
  `ended` and `error` events arrive as calls on the `Player`. So does the
  rejection of its `play()` promise. Each call names its element, and the
  calls may come in any order.

Three behaviours are modelled as the code has them:

- **Concurrent `initDB`.** The code checks the handle before it awaits the
  open. Two calls made before the first open completes therefore each open
  a connection. The model runs operations one after another, so it proves
  that a second `initDB` reuses the handle
  (`OfflineDb.OpenTwice`).
- **Errors.** The code rejects with the engine's own error object. The model
  names that error by what failed: `InitError` when the open fails, then
  `ReadError` or `WriteError` for the request. A write whose open fails
  therefore rejects with `InitError`, not `WriteError`.
- **Settings.** `getSettings` strips the stored `key` field and returns the
  rest. Default settings are returned only when no record is stored.

Two behaviours of the code are stated in the contracts as they are:

- **Late events from a replaced audio element still change the state.** The
  hook pauses the old element when another ayah is pressed, but keeps its
  listeners. `AudioPlayer.ReplacedElementEndsNewerLoad` shows the effect:
  the first element's `play()` promise rejects after the pause, and that
  sends the player idle while the second ayah is still loading.
- **Three dictionary keys never match a word split from the text.** Three
  keys of the word-meaning table contain a space before U+2060. Words split
  from an ayah's text on whitespace never hold a space, so those three
  entries are never found for a split word
  (`QuranApi.SpacedKeysNeverMatchSplitWords`). The same lookup on a whole
  word of the word-by-word API is not split, and finds them
  (`QuranApi.SpacedKeysMatchWholeWords`).

## Model

| member | source | states |
|---|---|---|
| Text.Trim | src/lib/quran-api.ts:132 | the result is the input with its leading and trailing whitespace removed: it is a slice of the input, only whitespace was removed, and neither end is whitespace |
| Text.TrimIdempotent | src/lib/quran-api.ts:190 | trimming twice gives the same text as trimming once |
| Text.SplitOnSpaceRuns | src/lib/quran-api.ts:133 | splitting on whitespace runs gives at least one piece, and no piece holds whitespace |
| Text.Tokens | src/lib/quran-api.ts:133 | after dropping empty pieces, every token is non-empty and free of whitespace |
| Text.TokensOfLayout | src/lib/quran-api.ts:133 | non-empty words without whitespace, separated by runs of any whitespace and with optional whitespace before the first and after the last, tokenize back to exactly those words: the split falls at the whitespace between words and nowhere else |
| Text.TokensPreserveText | src/lib/quran-api.ts:133 | the tokens, glued back together, are exactly the input's non-whitespace characters in order: the split loses and invents nothing |
| Text.Contains | src/pages/Index.tsx:55-57 | `includes` is true exactly when the needle occurs at some position of the text |
| Text.AsciiLower | src/pages/Index.tsx:56 | lower-casing keeps the length and lower-cases each character in place |
| Text.AsciiLowerNormalizes | src/pages/Index.tsx:56 | lower-cased text holds no upper-case letter, and lower-casing it again changes nothing |
| Text.AsciiLowerChanges | src/pages/Index.tsx:56 | a character changes exactly when it is an upper-case letter, and then becomes its lower-case partner |
| Text.Decimal | src/hooks/use-audio-player.tsx:27 | `String(n)` is a non-empty run of digits with no leading zero, one digit exactly for n < 10 |
| Text.DecimalRoundTrip | src/pages/SurahDetail.tsx:29 | reading back the digits `String(n)` writes gives n |
| Text.DecimalInjective | src/hooks/use-audio-player.tsx:27 | distinct numbers are written differently |
| Text.IntToString | src/hooks/use-audio-player.tsx:27 | `String(i)` starts with a minus sign exactly when i is negative |
| Text.PadStart | src/hooks/use-audio-player.tsx:46-47 | `padStart` keeps the text as the suffix and fills the front with the pad character up to the length |
| Text.Padded3 | src/hooks/use-audio-player.tsx:46-47 | `String(n).padStart(3, '0')` is at least three characters, ends with the written number and has only zeros in front of it; `Text.Padded3RoundTrip` gives its value |
| Text.Padded3RoundTrip | src/hooks/use-audio-player.tsx:46-47 | below 1000, the padded number is three digits that read back as the number |
| Text.ParseInt | src/pages/SurahDetail.tsx:29 | blank text is NaN (`None`), and a negative result needs a leading minus sign; the value is stated by the lemmas below |
| Text.ParseIntSigned | src/pages/SurahDetail.tsx:29 | leading whitespace is skipped and one sign is applied to the unsigned reading of what follows |
| Text.ParseIntDecimalForm | src/pages/SurahDetail.tsx:29 | whitespace, an optional sign, a run of decimal digits and anything that does not continue it parse to the run's value, negated after a minus sign |
| Text.ParseIntHexForm | src/pages/SurahDetail.tsx:29 | whitespace, an optional sign, `0x` or `0X` and a run of hex digits parse to the run's base-16 value, negated after a minus sign |
| Text.ParseIntOfDecimal | src/pages/SurahDetail.tsx:29 | `parseInt(String(n)) == n`: a surah number written into the route reads back unchanged |
| Text.ParseIntNoDigits | src/pages/SurahDetail.tsx:29 | a route that starts with no sign and no digit parses to NaN |
| QuranApi.OrElse | src/lib/quran-api.ts:101 | `s \|\| fallback` is s when s is a non-empty string, else the fallback |
| QuranApi.WordMeaningFallback | src/lib/quran-api.ts:145-199 | the meaning is never empty; it is the table entry of the trimmed word when there is one, and the generic meaning for a word not in the table |
| QuranApi.WordMeaningIgnoresSurroundingSpace | src/lib/quran-api.ts:190-195 | whitespace around a word never changes the meaning found |
| QuranApi.BanglaSurahName | src/lib/quran-api.ts:265-384 | a known English name maps to its Bangla name; an unknown name is returned unchanged; a non-empty name never gives an empty one |
| QuranApi.RevelationOf | src/lib/quran-api.ts:22 | exactly "Meccan" is Makki; every other value, unexpected ones included, is Madani |
| QuranApi.FirstSentence | src/lib/quran-api.ts:206 | `split(/[।.!]/)[0]` is a delimiter-free prefix that stops at the first delimiter or at the end |
| QuranApi.ShortTafsir | src/lib/quran-api.ts:202-210 | a missing or empty translation gives the fixed "no tafsir" notice |
| QuranApi.ShortTafsirIsFirstSentence | src/lib/quran-api.ts:202-210 | a short tafsir is either the whole first sentence (at most 150 characters) closed with `।`, or the first 150 characters of a longer first sentence followed by `...` |
| QuranApi.ShortTafsirBounded | src/lib/quran-api.ts:206-209 | a short tafsir is at most 153 characters long |
| QuranApi.FullTafsir | src/lib/quran-api.ts:213-216 | a missing or empty translation gives the fixed "coming soon" notice |
| QuranApi.FullTafsirEmbeds | src/lib/quran-api.ts:219-261 | a full tafsir built from a translation quotes the translation and names the surah |
| QuranApi.StripBismillah | src/lib/quran-api.ts:132 | text that does not start with the Bismillah is kept; text that does loses the Bismillah and exactly the whitespace after it: the result is a suffix of the rest, everything dropped after the Bismillah is whitespace, and the result does not start with whitespace |
| QuranApi.ParseWordsFromText | src/lib/quran-api.ts:130-142 | the split words are numbered from 1, are non-empty and free of whitespace, and carry empty transliteration and morphology and the dictionary meaning of their own text |
| QuranApi.ParsedWordsKeepText | src/lib/quran-api.ts:132-133 | the split words, glued together, are the non-whitespace text after the Bismillah |
| QuranApi.SpacedKeysNeverMatchSplitWords | src/lib/quran-api.ts:164-177 | the three table keys holding a space are never the text of a word split from an ayah's text |
| QuranApi.SpacedKeysMatchWholeWords | src/lib/quran-api.ts:87 | a whole API word equal to one of those keys does find its table meaning |
| QuranApi.KeepWords | src/lib/quran-api.ts:82 | the kept entries are exactly the entries whose `char_type_name` is "word" |
| QuranApi.KeepWordsAppend | src/lib/quran-api.ts:82 | filtering a concatenation filters each part, so the kept words stay in API order |
| QuranApi.ApiWordsToWords | src/lib/quran-api.ts:80-90 | one word per kept entry, numbered from 1, with `text_uthmani`, else `text_imlaei`, else "" as its text, the transliteration or "", tagged "word", and the API translation as meaning when there is one and the dictionary meaning otherwise |
| QuranApi.AyahWords | src/lib/quran-api.ts:75-95 | an ayah's words are numbered from 1 whichever source they come from |
| QuranApi.AyahWordsSource | src/lib/quran-api.ts:80-95 | the text splitter is used exactly when the API offers no real word for the ayah |
| QuranApi.CachedSurahList | src/lib/quran-api.ts:387-393 | the built-in list holds surahs 1, 2 and 36, each with a revelation period and no ayahs |
| QuranApi.CachedListAgreesWithNameTable | src/lib/quran-api.ts:387-393 | each built-in entry's Bangla name is the one the name table gives for its English name |
| QuranApi.SurahFromSummary | src/lib/quran-api.ts:16-23 | a list entry keeps the summary's number, Arabic and English names and ayah count, takes its Bangla name from the name table, is Makki exactly for "Meccan" and Madani otherwise, and carries no ayahs and no metadata |
| QuranApi.FetchSurahList | src/lib/quran-api.ts:10-32 | with code 200 the list maps the response entry by entry, in order; on any other code or a thrown request it is the built-in list |
| QuranApi.SurahListAlwaysClassified | src/lib/quran-api.ts:15-30 | every surah in the list, fetched or built in, carries a revelation period |
| QuranApi.WordIndex | src/lib/quran-api.ts:61-67 | the dictionary has an entry for a verse number exactly when some verse with that number has words |
| QuranApi.WordIndexLastWins | src/lib/quran-api.ts:61-67 | the entry for a verse number holds the words of the last verse with that number |
| QuranApi.SurahDetail | src/lib/quran-api.ts:34-127 | a surah record is given only when both text answers are 200, and then keeps the API's surah number and has one ayah per Arabic ayah; `SurahDetailAbsentIffTextFailure` gives the converse and `SurahDetailShape` every field |
| QuranApi.FetchSurahDetail | src/lib/quran-api.ts:34-127 | the loop that fills the dictionary yields exactly the surah record that `SurahDetail` specifies |
| QuranApi.SurahDetailAbsentIffTextFailure | src/lib/quran-api.ts:45-47 | the detail is absent exactly when a text request failed or answered a code other than 200 |
| QuranApi.SurahDetailShape | src/lib/quran-api.ts:73-122 | an assembled surah keeps the API's number, Arabic and English names and ayah count, takes its Bangla name from the name table, carries the fixed source metadata and has one ayah per Arabic ayah; each ayah keeps its number and text, has the recitation address built from its global number, pairs with the translation at the same position (or the fixed notice) and the tafsirs made from it, and has the words `AyahWords` gives for it |
| OfflineDb.Upgrade | src/lib/db.ts:27-52 | the upgrade adds exactly the three stores, creates each missing one with its key path and index, and leaves existing stores untouched |
| OfflineDb.UpgradeIdempotent | src/lib/db.ts:31-51 | a second upgrade changes nothing |
| OfflineDb.SettingsFrom | src/lib/db.ts:162-174 | the stored settings when the "app" record exists, else the defaults |
| OfflineDb.DefaultSettingsValues | src/lib/db.ts:169-173 | with nothing saved, the settings are font size 16, no transliteration and word meanings shown |
| OfflineDb.ListValues | src/lib/db.ts:86-88 | `getAll` gives every stored record exactly once: as many as there are keys, each one stored, none repeated |
| OfflineDb.OfflineStore.Fresh | src/lib/db.ts:13 | a new device has no database, no handle and no records |
| OfflineDb.OfflineStore.Restart | src/lib/db.ts:13 | after a restart the handle is gone and every record is kept |
| OfflineDb.OfflineStore.InitDB | src/lib/db.ts:15-54 | with a handle, nothing changes; otherwise a failed open rejects with `InitError`, and a successful one upgrades an older database, keeps every record and makes one connection |
| OfflineDb.OfflineStore.SaveSurah | src/lib/db.ts:57-67 | success replaces the record under its number and touches no other store; a failed open or request rejects and changes nothing |
| OfflineDb.OfflineStore.GetSurah | src/lib/db.ts:69-79 | gives the stored record, or `None` (not an error) when there is none; it rejects only when the engine fails |
| OfflineDb.OfflineStore.GetAllSurahs | src/lib/db.ts:81-91 | lists every stored surah exactly once |
| OfflineDb.OfflineStore.DeleteSurah | src/lib/db.ts:93-103 | success removes the key, and an absent key is no error |
| OfflineDb.OfflineStore.SaveBookmark | src/lib/db.ts:106-116 | success replaces the bookmark under its id and leaves the surahs and settings untouched |
| OfflineDb.OfflineStore.GetBookmarks | src/lib/db.ts:118-128 | lists every stored bookmark exactly once |
| OfflineDb.OfflineStore.DeleteBookmark | src/lib/db.ts:130-140 | success removes the id, and an absent id is no error |
| OfflineDb.OfflineStore.SaveSettings | src/lib/db.ts:143-153 | success replaces the single record under "app" with the settings and that key |
| OfflineDb.OfflineStore.GetSettings | src/lib/db.ts:155-178 | gives the stored settings without their key, or the defaults |
| OfflineDb.OpenTwice | src/lib/db.ts:15-16 | opening twice makes at most one connection and leaves the full schema |
| OfflineDb.SaveSaveGetSurah | src/lib/db.ts:57-79 | after two saves under one number, reading gives the second record only |
| OfflineDb.DeleteTwiceThenGet | src/lib/db.ts:93-103 | deleting twice succeeds both times, the surah then reads as absent, and other surahs are kept |
| OfflineDb.SaveThenGetSettings | src/lib/db.ts:143-178 | saved settings read back exactly, not the defaults |
| OfflineDb.FreshStoreSettings | src/lib/db.ts:162-174 | a new device reads the default settings |
| OfflineDb.BookmarkSurvivesRestart | src/lib/db.ts:106-128 | a saved bookmark is listed again after a restart |
| OfflineDb.TwoBookmarksListed | src/lib/db.ts:106-128 | two bookmarks with different ids are both listed, each as written |
| SurahDetailPage.SurahDetailView.constructor | src/pages/SurahDetail.tsx:14-15 | the page starts with its spinner on and no surah |
| SurahDetailPage.SurahDetailView.LoadSurah | src/pages/SurahDetail.tsx:24-50 | without a route parameter nothing changes; otherwise the parsed number is loaded as `LoadNumber` states |
| SurahDetailPage.SurahDetailView.LoadNumber | src/pages/SurahDetail.tsx:27-49 | NaN or a failed read keeps the shown surah and raises an error notice; a cached surah is shown without asking the API; a miss is handled as `LoadMissing` states; the spinner is off afterwards and the store is opened once |
| SurahDetailPage.SurahDetailView.LoadKey | src/pages/SurahDetail.tsx:27-49 | for a number that parsed, a failed read keeps the shown surah and raises an error notice, and otherwise the lookup is handled as `ShowLookup` states; the store is opened once and the spinner is off afterwards |
| SurahDetailPage.SurahDetailView.ShowLookup | src/pages/SurahDetail.tsx:32-43 | on an open store, a cached surah is shown without asking the API and a miss is handled as `LoadMissing` states; the store's handle, version, schema and other stores are kept |
| SurahDetailPage.SurahDetailView.LoadMissing | src/pages/SurahDetail.tsx:34-43 | on a cache miss the API is asked once; an absent surah is shown as absent, a fetched one is shown only after it is saved, and a failed save raises an error notice and keeps the shown surah |
| SurahDetailPage.SurahDetailView.HandleDownload | src/pages/SurahDetail.tsx:52-62 | with no surah shown nothing happens; otherwise the shown surah is saved under its number, with a success or failure notice |
| SurahDetailPage.ReopenHitsCache | src/pages/SurahDetail.tsx:31-41 | once a fetched surah is saved under its route number, opening the route again shows it without a second API request |
| SurahDetailPage.DownloadThenReopen | src/pages/SurahDetail.tsx:52-62 | a downloaded surah is shown again on its route without an API request |
| IndexPage.Filter | src/pages/Index.tsx:53-58 | a surah is kept exactly when it is in the list and the query occurs in its Arabic name, its lower-cased English name or its Bangla name |
| IndexPage.FilterAppend | src/pages/Index.tsx:53-58 | filtering a concatenation filters each part, so the list order is kept |
| IndexPage.FilterEmptyQuery | src/pages/Index.tsx:53-58 | an empty search box shows the whole list |
| IndexPage.FilterIdempotent | src/pages/Index.tsx:53-58 | filtering again by the same query changes nothing |
| IndexPage.SurahNumbers | src/pages/Index.tsx:42 | a number is in the set exactly when some listed record has it |
| IndexPage.ListedNumbers | src/pages/Index.tsx:41-42 | the numbers of a complete listing are exactly the keys of the surah store |
| IndexPage.IndexView.constructor | src/pages/Index.tsx:13-18 | the page starts empty, loading, with an empty query and no downloaded surah |
| IndexPage.IndexView.FilteredSurahs | src/pages/Index.tsx:53-58 | the shown list is the loaded surahs that match the search box |
| IndexPage.IndexView.LoadSurahs | src/pages/Index.tsx:25-36 | the page shows the fetched list, or the built-in one; the spinner is off afterwards |
| IndexPage.IndexView.SetSearchQuery | src/pages/Index.tsx:15 | the search box holds the new query, and nothing else changes |
| IndexPage.IndexView.LoadDownloadedSurahs | src/pages/Index.tsx:38-46 | on success, the downloaded set is exactly the set of surah numbers in the store; a failure is swallowed and keeps the set |
| IndexPage.SavedSurahIsMarked | src/pages/Index.tsx:38-46 | a surah saved on the reading page is marked downloaded once the set is reloaded |
| IndexPage.FreshPageShowsAll | src/pages/Index.tsx:53-58 | on a fresh page with the list loaded, the empty search box shows the list unchanged |
| IndexPage.Matches | src/pages/Index.tsx:55-57 | an empty query matches every surah, and a query longer than all three names matches none; `IndexPage.Filter` gives the test in full |
| AudioPlayer.AyahKey | src/hooks/use-audio-player.tsx:27 | the key is the surah number, a colon, and the ayah number |
| AudioPlayer.AyahKeyInjective | src/hooks/use-audio-player.tsx:27-34 | two ayahs share a key only when they are the same ayah, so the pause toggle fires only for the ayah pressed again |
| AudioPlayer.IntToStringInjective | src/hooks/use-audio-player.tsx:27 | distinct integers, negative ones included, are written differently |
| AudioPlayer.AudioFileName | src/hooks/use-audio-player.tsx:46-48 | the file name is at least ten characters and ends in `.mp3`; `AudioPlayer.AudioFileNameInjective` gives its length and uniqueness below 1000 |
| AudioPlayer.AudioFileNameInjective | src/hooks/use-audio-player.tsx:46-48 | for numbers below 1000, the file name is ten characters and no two ayahs share a file |
| AudioPlayer.AudioUrl | src/hooks/use-audio-player.tsx:48 | the address is the reciter's directory followed by the ayah's file name |
| AudioPlayer.AudioUrlInjective | src/hooks/use-audio-player.tsx:46-50 | below 1000, two ayahs share a recitation address only when they are the same ayah, so each press loads its own ayah |
| AudioPlayer.Player.constructor | src/hooks/use-audio-player.tsx:10-15 | the player starts idle and holds no element |
| AudioPlayer.Player.Play | src/hooks/use-audio-player.tsx:26-70 | pressing the current ayah while an element is held pauses it and goes idle, keeping the element; any other press pauses and drops the held element, creates one for the ayah's file and shows that ayah loading; at most one element is left unpaused |
| AudioPlayer.Player.Stop | src/hooks/use-audio-player.tsx:72-78 | pauses and drops the held element and goes idle |
| AudioPlayer.Player.Unmount | src/hooks/use-audio-player.tsx:17-24 | the cleanup pauses and drops the held element, leaves the state as it is, and leaves every element paused |
| AudioPlayer.Player.OnLoadedData | src/hooks/use-audio-player.tsx:53-55 | shows the element's own ayah as playing, whichever created element fired |
| AudioPlayer.Player.OnFinished | src/hooks/use-audio-player.tsx:57-69 | `ended`, `error` or a rejected `play()` sends the player idle, whichever created element fired |
| AudioPlayer.PlayTwiceToggles | src/hooks/use-audio-player.tsx:29-34 | playing an ayah, letting it load, and pressing it again leaves the player idle with the element paused |
| AudioPlayer.SwitchAyah | src/hooks/use-audio-player.tsx:36-51 | pressing a different ayah loads the new file and pauses every earlier element |
| AudioPlayer.ReplacedElementEndsNewerLoad | src/hooks/use-audio-player.tsx:36-69 | a rejection from the replaced element sends the player idle while it holds the newer ayah's element |

## Left out

- Network and JSON: `fetch`, `response.json()` and the request URLs are not modelled. Each API answer is a parameter, and `None` stands for a request or parse that threw.
- The surah number passed to `fetchSurahDetail` only builds the request URLs, so it is not part of `QuranApi.SurahDetail`; the `RemoteDetail` parameter is the answers for that number.
- The IndexedDB engine is not modelled:
  - its transactions and request callbacks are left out;
  - the structured clone of records is left out;
  - its failures are the `Engine` parameter.
  - Every call runs to completion before the next, so two `initDB` calls racing before the first open completes are not modelled.
- `OfflineDb.ListValues`: `getAll` lists records in ascending key order (numbers for surahs, strings compared by code unit for bookmarks). The contract states only that each record appears exactly once, in an order the engine chooses.
- `OfflineDb.OfflineStore.GetAllSurahs`: the ascending surah-number order of the listing is not stated; the contract states only that each surah appears exactly once.
- `OfflineDb.OfflineStore.GetBookmarks`: the ascending id order of the listing, in which the bookmarks page shows them, is not stated; the contract states only that each bookmark appears exactly once.
- `Text.Trim`: `trim` and `split(/\s+/)` treat only ASCII whitespace as whitespace. JavaScript also counts Unicode spaces such as U+00A0 and U+3000.
- `Text.AsciiLower`: `toLowerCase` lower-cases ASCII letters only. English surah names are ASCII.
- `QuranApi.ShortTafsir`: lengths count characters, not UTF-16 code units. Bangla text lies in the Basic Multilingual Plane, where the two agree.
- The Arabic and Bangla literals of `src/lib/quran-api.ts` (the Bismillah pattern, the `[।.!]` sentence class, the table keys and the notices) are used as the decoded Unicode text they stand for, as opaque constants. As the file is stored, these literals appear mis-decoded (their UTF-8 bytes read as code page 866); the model does not reproduce that.
- The word-meaning table and the Bangla surah-name table are modelled with a sample of their entries. The lookups are stated for any table.
- `QuranApi.WordMeaningFallback`: a word that names an inherited object property (such as "constructor") looks up a function in the source table, which is then returned. The model looks up only the table's own entries.
- `QuranApi.BanglaSurahName`: the same holds for the surah-name table. `getBanglaSurahName("constructor")` returns a function in the source; the model returns the name unchanged.
- `QuranApi.FullTafsir`: the fixed paragraphs of the full-tafsir template are abbreviated. The model keeps their positions around the translation and the surah name.
- `Text.ParseInt`: JavaScript numbers lose precision above 2^53; the model's integers do not.
- React is not modelled:
  - rendering is left out;
  - effect scheduling and batching of state updates are left out;
  - each handler reads the latest state, not the state of the render that created it.
  - `selectedAyah`, `showTafsir` and `showWordMeanings` of the reading page are display toggles only.
- Toast texts are reduced to the `SurahDetailPage.Notice` kinds. `handleDownload` of the home page (`src/pages/Index.tsx:48-51`) only raises a "coming soon" toast and changes no state.
- Actual audio playback is not modelled. A `play()` promise that resolves has no effect on the state.
- The Settings, Bookmarks and About pages and the display components are not part of this model. Bookmark ids and timestamps are chosen there.
