/**
 * The home page: the surah list, the search box that filters it, and the
 * set of surah numbers saved for offline reading.
 */
module IndexPage {
  import opened Wrappers
  import opened Text
  import opened QuranTypes
  import opened QuranApi
  import opened OfflineDb

  /**
   * The search predicate: the query occurs in the Arabic name, in the
   * English name with both sides lower-cased, or in the Bangla name.
   */
  predicate Matches(s: Surah, query: string)
    ensures query == [] ==> Matches(s, query)
    ensures Matches(s, query) ==> |query| <= |s.name| || |query| <= |s.englishName| || |query| <= |s.nameBn|
  {
    || Contains(s.name, query)
    || Contains(AsciiLower(s.englishName), AsciiLower(query))
    || Contains(s.nameBn, query)
  }

  /** The surahs that match `query`, in list order. */
  function Filter(surahs: seq<Surah>, query: string): (r: seq<Surah>)
    ensures |r| <= |surahs|
    ensures forall s :: s in r <==> s in surahs && Matches(s, query)
  {
    if surahs == [] then []
    else
      var rest := Filter(surahs[1..], query);
      if Matches(surahs[0], query) then [surahs[0]] + rest else rest
  }

  /** Filtering a concatenation filters each part: the relative order of the list is kept. */
  lemma {:induction false} FilterAppend(a: seq<Surah>, b: seq<Surah>, query: string)
    ensures Filter(a + b, query) == Filter(a, query) + Filter(b, query)
  {
    if a == [] {
      assert a + b == b;
    } else {
      assert (a + b)[1..] == a[1..] + b;
      assert (a + b)[0] == a[0];
      FilterAppend(a[1..], b, query);
    }
  }

  /** Every surah matches the empty query, so an empty search box shows the whole list. */
  lemma {:induction false} FilterEmptyQuery(surahs: seq<Surah>)
    ensures Filter(surahs, "") == surahs
  {
    if surahs != [] {
      assert OccursAt(surahs[0].name, "", 0);
      FilterEmptyQuery(surahs[1..]);
    }
  }

  /** Filtering twice by the same query changes nothing more. */
  lemma {:induction false} FilterIdempotent(surahs: seq<Surah>, query: string)
    ensures Filter(Filter(surahs, query), query) == Filter(surahs, query)
  {
    if surahs != [] {
      FilterIdempotent(surahs[1..], query);
    }
  }

  /** The surah numbers of a list of records. */
  function SurahNumbers(cached: seq<Surah>): (r: set<int>)
    ensures forall n :: n in r <==> exists k :: 0 <= k < |cached| && cached[k].surahNumber == n
  {
    set k | 0 <= k < |cached| :: cached[k].surahNumber
  }

  /** The numbers of a complete listing of a surah store are the store's keys. */
  lemma ListedNumbers(rows: map<int, Surah>, all: seq<Surah>)
    requires forall n :: n in rows ==> rows[n].surahNumber == n
    requires forall s :: s in all <==> s in rows.Values
    ensures SurahNumbers(all) == rows.Keys
  {
    forall n | n in rows ensures n in SurahNumbers(all) {
      assert rows[n] in rows.Values;
      var k :| 0 <= k < |all| && all[k] == rows[n];
    }
    forall n | n in SurahNumbers(all) ensures n in rows {
      var k :| 0 <= k < |all| && all[k].surahNumber == n;
      assert all[k] in all;
      var m :| m in rows && rows[m] == all[k];
    }
  }

  class IndexView {
    var surahs: seq<Surah>
    var loading: bool
    var searchQuery: string
    /** The surahs saved for offline reading, by number. */
    var downloaded: set<int>

    /** The page as first mounted. */
    constructor ()
      ensures surahs == [] && loading && searchQuery == [] && downloaded == {}
    {
      surahs := [];
      loading := true;
      searchQuery := [];
      downloaded := {};
    }

    /** The list the page shows: the loaded surahs that match the search box. */
    function FilteredSurahs(): (r: seq<Surah>)
      reads this
      ensures forall s :: s in r <==> s in surahs && Matches(s, searchQuery)
    {
      Filter(surahs, searchQuery)
    }

    /** Whether the card of surah `n` shows the offline mark. */
    predicate IsDownloaded(n: int)
      reads this
    {
      n in downloaded
    }

    /**
     * `loadSurahs`: shows the fetched list, or the built-in list when the
     * list cannot be fetched; the spinner is off afterwards.
     */
    method LoadSurahs(response: Option<SurahListResponse>)
      modifies this
      ensures surahs == FetchSurahList(response) && !loading
      ensures searchQuery == old(searchQuery) && downloaded == old(downloaded)
    {
      loading := true;
      surahs := FetchSurahList(response);
      loading := false;
    }

    /** The search box changes. */
    method SetSearchQuery(query: string)
      modifies this
      ensures searchQuery == query
      ensures surahs == old(surahs) && loading == old(loading) && downloaded == old(downloaded)
    {
      searchQuery := query;
    }

    /**
     * `loadDownloadedSurahs`: opens the store, lists every saved surah and
     * records their numbers, which are then exactly the keys of the surah
     * store. A rejection is swallowed and leaves the set as it was.
     */
    method LoadDownloadedSurahs(store: OfflineStore, engine: Engine)
      requires store.Valid()
      modifies this, store
      ensures store.Valid() && store.InitEffect(engine)
      ensures store.surahs == old(store.surahs) && store.bookmarks == old(store.bookmarks)
      ensures store.settingsRows == old(store.settingsRows)
      ensures surahs == old(surahs) && loading == old(loading) && searchQuery == old(searchQuery)
      ensures Succeeds(old(store.isOpen), engine) ==> downloaded == store.surahs.Keys
      ensures !Succeeds(old(store.isOpen), engine) ==> downloaded == old(downloaded)
    {
      var opening := store.InitDB(engine);
      if opening.Err? {
        return;
      }
      var cached := store.GetAllSurahs(engine);
      if cached.Err? {
        return;
      }
      var all := cached.value;
      downloaded := SurahNumbers(all);
      ListedNumbers(store.surahs, all);
    }
  }

  /** A surah saved on the reading page shows the offline mark once the home page reloads the set. */
  method SavedSurahIsMarked(view: IndexView, store: OfflineStore, s: Surah)
    requires store.Valid()
    modifies view, store
    ensures store.Valid()
    ensures view.IsDownloaded(s.surahNumber)
  {
    var saved := store.SaveSurah(s, Accepts);
    view.LoadDownloadedSurahs(store, Accepts);
  }

  /** On a fresh page with the list loaded, the empty search box shows every surah. */
  method FreshPageShowsAll(response: Option<SurahListResponse>) returns (shown: seq<Surah>)
    ensures shown == FetchSurahList(response)
  {
    var view := new IndexView();
    view.LoadSurahs(response);
    FilterEmptyQuery(view.surahs);
    shown := view.FilteredSurahs();
  }
}
