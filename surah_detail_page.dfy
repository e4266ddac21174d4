/**
 * The surah reading page: loads one surah by its route parameter, from the
 * offline store first and from the remote API on a miss (saving what it
 * fetched), and saves the shown surah on request.
 *
 * The page's rendering state is reduced to the shown surah and the loading
 * flag; the toasts it raises are returned as a `Notice`.
 */
module SurahDetailPage {
  import opened Wrappers
  import opened Text
  import opened QuranTypes
  import opened QuranApi
  import opened OfflineDb

  /** The toast a handler raises, if any. */
  datatype Notice = Quiet | LoadFailed | Downloaded | DownloadFailed

  /** The route parameter is there and not empty (the handler returns at once otherwise). */
  predicate Present(param: Option<string>) {
    param.Some? && param.value != []
  }

  class SurahDetailView {
    /** The surah shown; `None` renders the "not found" page. */
    var surah: Option<Surah>
    /** The page shows its spinner. */
    var loading: bool
    /** How many times the remote API was asked for a surah. */
    ghost var remoteFetches: nat

    /** The page as first mounted: spinner on, nothing shown. */
    constructor ()
      ensures surah == None && loading && remoteFetches == 0
    {
      surah := None;
      loading := true;
      remoteFetches := 0;
    }

    /**
     * `loadSurah`: parses the route parameter, then loads that number as
     * `LoadNumber` says. Nothing happens without a parameter.
     */
    method LoadSurah(param: Option<string>, store: OfflineStore, remote: RemoteDetail, readEngine: Engine, writeEngine: Engine)
      returns (notice: Notice)
      requires store.Valid()
      modifies this, store
      ensures store.Valid()
      ensures !Present(param) ==> unchanged(this) && unchanged(store) && notice == Quiet
      ensures Present(param) ==> LoadEffect(ParseInt(param.value), store, remote, readEngine, writeEngine, notice)
    {
      if !Present(param) {
        return Quiet;
      }
      var number := ParseInt(param.value);
      notice := LoadNumber(number, store, remote, readEngine, writeEngine);
    }

    /**
     * What loading the parsed route number does. A number that is not one
     * (`NaN`, here `None`) is refused by the store as a key; a failed read is
     * caught; a cached surah is shown without asking the API; a miss asks the
     * API once and shows the fetched surah only once it is saved (a surah the
     * API does not give is shown as absent). The spinner is off afterwards,
     * only the surah store may change, and the store's handle, version and
     * schema are as opening it with the read engine leaves them.
     */
    twostate predicate LoadEffect(number: Option<int>, store: OfflineStore, remote: RemoteDetail, readEngine: Engine, writeEngine: Engine, notice: Notice)
      reads this, store
    {
      && !loading && store.InitEffect(readEngine)
      && store.bookmarks == old(store.bookmarks) && store.settingsRows == old(store.settingsRows)
      && (if number.None? || !Succeeds(old(store.isOpen), readEngine) then
            notice == LoadFailed && surah == old(surah)
            && store.surahs == old(store.surahs) && remoteFetches == old(remoteFetches)
          else if number.value in old(store.surahs) then
            notice == Quiet && surah == Some(old(store.surahs)[number.value])
            && store.surahs == old(store.surahs) && remoteFetches == old(remoteFetches)
          else
            MissEffect(store, remote, writeEngine, notice))
    }

    /**
     * What a cache miss does: the API is asked once; a surah it does not give
     * is shown as absent, and a fetched surah is shown only once it is saved.
     */
    twostate predicate MissEffect(store: OfflineStore, remote: RemoteDetail, writeEngine: Engine, notice: Notice)
      reads this, store
    {
      && remoteFetches == old(remoteFetches) + 1
      && match SurahDetail(remote)
        case None =>
          notice == Quiet && surah == None && store.surahs == old(store.surahs)
        case Some(fetched) =>
          if Succeeds(true, writeEngine) then
            notice == Quiet && surah == Some(fetched) && store.surahs == old(store.surahs)[fetched.surahNumber := fetched]
          else
            notice == LoadFailed && surah == old(surah) && store.surahs == old(store.surahs)
    }

    /** The body of `loadSurah` after `parseInt`, inside its `try`. */
    method LoadNumber(number: Option<int>, store: OfflineStore, remote: RemoteDetail, readEngine: Engine, writeEngine: Engine)
      returns (notice: Notice)
      requires store.Valid()
      modifies this, store
      ensures store.Valid()
      ensures LoadEffect(number, store, remote, readEngine, writeEngine, notice)
    {
      if number.None? {
        // the open completes, then the lookup with a NaN key is refused
        loading := true;
        var opening := store.InitDB(readEngine);
        loading := false;
        return LoadFailed;
      }
      notice := LoadKey(number.value, store, remote, readEngine, writeEngine);
    }

    /** `loadSurah` for a route number that parsed: the store lookup, then the hit or the miss. */
    method LoadKey(key: int, store: OfflineStore, remote: RemoteDetail, readEngine: Engine, writeEngine: Engine)
      returns (notice: Notice)
      requires store.Valid()
      modifies this, store
      ensures store.Valid()
      ensures LoadEffect(Some(key), store, remote, readEngine, writeEngine, notice)
    {
      loading := true;
      var cached := store.GetSurah(key, readEngine);
      if cached.Err? {
        loading := false;
        return LoadFailed;
      }
      assert store.surahs == old(store.surahs) && surah == old(surah) && remoteFetches == old(remoteFetches);
      notice := ShowLookup(key, cached.value, store, remote, writeEngine);
    }

    /** What the page does with the result of a lookup on an open store: a hit is shown, a miss goes to the API. */
    method ShowLookup(key: int, data: Option<Surah>, store: OfflineStore, remote: RemoteDetail, writeEngine: Engine)
      returns (notice: Notice)
      requires store.Valid() && store.isOpen
      requires data == if key in store.surahs then Some(store.surahs[key]) else None
      modifies this, store
      ensures store.Valid() && !loading
      ensures store.isOpen && store.version == old(store.version) && store.schema == old(store.schema)
      ensures store.connections == old(store.connections)
      ensures store.bookmarks == old(store.bookmarks) && store.settingsRows == old(store.settingsRows)
      ensures data.Some? ==>
        notice == Quiet && surah == data && store.surahs == old(store.surahs) && remoteFetches == old(remoteFetches)
      ensures data.None? ==> MissEffect(store, remote, writeEngine, notice)
    {
      if data.None? {
        notice := LoadMissing(store, remote, writeEngine);
        return;
      }
      surah := data;
      loading := false;
      notice := Quiet;
    }

    /** The cache-miss branch of `loadSurah`, on an open store. */
    method LoadMissing(store: OfflineStore, remote: RemoteDetail, writeEngine: Engine) returns (notice: Notice)
      requires store.Valid() && store.isOpen
      modifies this, store
      ensures store.Valid() && !loading && MissEffect(store, remote, writeEngine, notice)
      ensures store.isOpen && store.version == old(store.version) && store.schema == old(store.schema)
      ensures store.connections == old(store.connections)
      ensures store.bookmarks == old(store.bookmarks) && store.settingsRows == old(store.settingsRows)
    {
      var data := FetchSurahDetail(remote);
      remoteFetches := remoteFetches + 1;
      if data.Some? {
        var saved := store.SaveSurah(data.value, writeEngine);
        if saved.Err? {
          loading := false;
          return LoadFailed;
        }
      }
      surah := data;
      loading := false;
      notice := Quiet;
    }

    /** `handleDownload`: saves the shown surah for offline reading; nothing happens when none is shown. */
    method HandleDownload(store: OfflineStore, engine: Engine) returns (notice: Notice)
      requires store.Valid()
      modifies store
      ensures store.Valid()
      ensures store.bookmarks == old(store.bookmarks) && store.settingsRows == old(store.settingsRows)
      ensures surah.Some? ==> store.InitEffect(engine)
      ensures surah.None? ==> unchanged(store) && notice == Quiet
      ensures surah.Some? && Succeeds(old(store.isOpen), engine) ==>
        notice == Downloaded && store.surahs == old(store.surahs)[surah.value.surahNumber := surah.value]
      ensures surah.Some? && !Succeeds(old(store.isOpen), engine) ==>
        notice == DownloadFailed && store.surahs == old(store.surahs)
    {
      if surah.None? {
        return Quiet;
      }
      var saved := store.SaveSurah(surah.value, engine);
      notice := if saved.Ok? then Downloaded else DownloadFailed;
    }
  }

  /**
   * Cache first: once a surah fetched for a route that reads as `n` has been
   * saved under `n`, opening the same route again shows the same surah and
   * does not ask the API a second time.
   */
  method ReopenHitsCache(view: SurahDetailView, store: OfflineStore, route: string, remote: RemoteDetail)
    requires store.Valid()
    requires ParseInt(route).Some?
    requires SurahDetail(remote).Some? && SurahDetail(remote).value.surahNumber == ParseInt(route).value
    requires ParseInt(route).value !in store.surahs
    modifies view, store
    ensures store.Valid()
    ensures view.surah == SurahDetail(remote) && !view.loading
    ensures view.remoteFetches == old(view.remoteFetches) + 1
    ensures ParseInt(route).value in store.surahs
  {
    var n := ParseInt(route).value;
    assert Present(Some(route));
    assert Succeeds(store.isOpen, Accepts) && Succeeds(true, Accepts);
    var first := view.LoadSurah(Some(route), store, remote, Accepts, Accepts);
    assert view.surah == SurahDetail(remote);
    assert n in store.surahs;
    var second := view.LoadSurah(Some(route), store, remote, Accepts, Accepts);
  }

  /** A downloaded surah is what the page shows next time, again without the API. */
  method DownloadThenReopen(view: SurahDetailView, store: OfflineStore, remote: RemoteDetail)
    requires store.Valid()
    requires view.surah.Some? && view.surah.value.surahNumber >= 0
    modifies view, store
    ensures store.Valid()
    ensures view.surah == old(view.surah)
    ensures view.remoteFetches == old(view.remoteFetches)
  {
    var shown := view.surah.value;
    var saved := view.HandleDownload(store, Accepts);
    ParseIntOfDecimal(shown.surahNumber);
    var again := view.LoadSurah(Some(Decimal(shown.surahNumber)), store, remote, Accepts, Accepts);
  }
}
