/**
 * The offline store: one on-device database holding three object stores
 * (surahs keyed by `surahNumber`, bookmarks keyed by `id`, the settings
 * record under the key "app"), opened lazily through a process-wide handle.
 *
 * The storage engine itself is not modelled. Each operation takes an
 * `Engine` value saying whether the engine accepts it; a rejected operation
 * rejects with an error and leaves the stored records unchanged.
 */
module OfflineDb {
  import opened Wrappers
  import opened QuranTypes

  const DB_NAME: string := "QuranWordByWord"
  const DB_VERSION: nat := 1

  const SURAHS: string := "surahs"
  const BOOKMARKS: string := "bookmarks"
  const SETTINGS: string := "settings"

  /** The fixed key of the single settings record. */
  const APP_KEY: string := "app"

  /** The settings used when none were ever saved. */
  const DEFAULT_SETTINGS: Settings := Settings(16, false, true, None, None)

  /** What the storage engine does with the next operation. */
  datatype Engine =
    | Accepts        // the open (if one is needed) and the request succeed
    | OpenFails      // opening the database is rejected
    | RequestFails   // the database opens, the request itself fails

  datatype DbError = InitError | ReadError | WriteError

  /** An object store: its key path and its secondary indexes (index name to key path). */
  datatype StoreDef = StoreDef(keyPath: string, indexes: map<string, string>)

  /** The object stores of the database, by name. */
  type Schema = map<string, StoreDef>

  const SURAHS_DEF: StoreDef := StoreDef("surahNumber", map["name" := "name"])
  const BOOKMARKS_DEF: StoreDef := StoreDef("id", map["surahNumber" := "surahNumber"])
  const SETTINGS_DEF: StoreDef := StoreDef("key", map[])

  /**
   * The upgrade step: each of the three stores is created, with its key path
   * and index, only when the database does not have it yet.
   */
  function Upgrade(schema: Schema): (r: Schema)
    ensures r.Keys == schema.Keys + {SURAHS, BOOKMARKS, SETTINGS}
    ensures forall name :: name in schema ==> r[name] == schema[name]
    ensures SURAHS !in schema ==> r[SURAHS] == SURAHS_DEF
    ensures BOOKMARKS !in schema ==> r[BOOKMARKS] == BOOKMARKS_DEF
    ensures SETTINGS !in schema ==> r[SETTINGS] == SETTINGS_DEF
  {
    var s1 := if SURAHS in schema then schema else schema[SURAHS := SURAHS_DEF];
    var s2 := if BOOKMARKS in s1 then s1 else s1[BOOKMARKS := BOOKMARKS_DEF];
    if SETTINGS in s2 then s2 else s2[SETTINGS := SETTINGS_DEF]
  }

  /** A second upgrade changes nothing. */
  lemma UpgradeIdempotent(schema: Schema)
    ensures Upgrade(Upgrade(schema)) == Upgrade(schema)
  {
    var once := Upgrade(schema);
    assert Upgrade(once).Keys == once.Keys;
  }

  /** The schema a new database gets. */
  function FullSchema(): (r: Schema)
    ensures r == map[SURAHS := SURAHS_DEF, BOOKMARKS := BOOKMARKS_DEF, SETTINGS := SETTINGS_DEF]
  {
    Upgrade(map[])
  }

  /** The stored settings row: the settings with the fixed key added. */
  datatype SettingsRow = SettingsRow(key: string, settings: Settings)

  /** What `getSettings` resolves to: the stored record without its key, or the defaults. */
  function SettingsFrom(rows: map<string, SettingsRow>): (s: Settings)
    ensures APP_KEY !in rows ==> s == DEFAULT_SETTINGS
    ensures APP_KEY in rows ==> s == rows[APP_KEY].settings
  {
    if APP_KEY in rows then rows[APP_KEY].settings else DEFAULT_SETTINGS
  }

  /** With nothing saved the defaults are font size 16, no transliteration, word meanings shown. */
  lemma DefaultSettingsValues()
    ensures SettingsFrom(map[]) == Settings(16, false, true, None, None)
  {
  }

  /** Whether the handle is available after an operation begun with `wasOpen`. */
  predicate OpenSucceeds(wasOpen: bool, engine: Engine) {
    wasOpen || engine != OpenFails
  }

  /** Whether a whole store operation succeeds. */
  predicate Succeeds(wasOpen: bool, engine: Engine) {
    OpenSucceeds(wasOpen, engine) && engine != RequestFails
  }

  /** The error a failed read or write rejects with. */
  function FailureOf(wasOpen: bool, engine: Engine, write: bool): DbError {
    if !OpenSucceeds(wasOpen, engine) then InitError
    else if write then WriteError
    else ReadError
  }

  /**
   * Each record of `rows` exactly once, in the order the engine chooses:
   * as long as the map, every element a value of it and no value twice.
   * `injective` records that distinct keys hold distinct records.
   */
  method ListValues<K, V(==)>(rows: map<K, V>) returns (vs: seq<V>)
    requires forall k1, k2 :: k1 in rows && k2 in rows && k1 != k2 ==> rows[k1] != rows[k2]
    ensures |vs| == |rows.Keys|
    ensures forall v :: v in vs <==> v in rows.Values
    ensures forall i, j :: 0 <= i < j < |vs| ==> vs[i] != vs[j]
  {
    var rest := rows.Keys;
    vs := [];
    ghost var ks: seq<K> := [];
    while rest != {}
      invariant rest <= rows.Keys
      invariant |ks| == |vs| && |vs| + |rest| == |rows.Keys|
      invariant forall i :: 0 <= i < |ks| ==> ks[i] in rows && ks[i] !in rest && vs[i] == rows[ks[i]]
      invariant forall i, j :: 0 <= i < j < |ks| ==> ks[i] != ks[j]
      invariant forall k :: k in rows && k !in rest ==> rows[k] in vs
      decreases |rest|
    {
      var k :| k in rest;
      vs := vs + [rows[k]];
      ks := ks + [k];
      rest := rest - {k};
    }
    forall v | v in vs ensures v in rows.Values {
      var i :| 0 <= i < |vs| && vs[i] == v;
      assert rows[ks[i]] == v;
    }
    forall v | v in rows.Values ensures v in vs {
      var k :| k in rows && rows[k] == v;
    }
  }

  class OfflineStore {
    /** The process-wide handle has been obtained. */
    var isOpen: bool
    /** The version of the database on the device; 0 when there is none yet. */
    var version: nat
    var schema: Schema
    var surahs: map<int, Surah>
    var bookmarks: map<string, Bookmark>
    var settingsRows: map<string, SettingsRow>
    /** How many times the engine has produced a handle. */
    ghost var connections: nat

    ghost predicate Valid()
      reads this
    {
      && version <= DB_VERSION
      && (version == 0 ==> schema == map[] && surahs == map[] && bookmarks == map[] && settingsRows == map[])
      && (version == DB_VERSION ==> schema == FullSchema())
      && (isOpen ==> version == DB_VERSION)
      && (forall n :: n in surahs ==> surahs[n].surahNumber == n)
      && (forall id :: id in bookmarks ==> bookmarks[id].id == id)
      && (forall key :: key in settingsRows ==> settingsRows[key].key == key)
    }

    /** A device with no database yet. */
    constructor Fresh()
      ensures Valid() && !isOpen && version == 0
      ensures surahs == map[] && bookmarks == map[] && settingsRows == map[]
      ensures connections == 0
    {
      isOpen := false;
      version := 0;
      schema := map[];
      surahs := map[];
      bookmarks := map[];
      settingsRows := map[];
      connections := 0;
    }

    /** The application restarts: the handle is gone, the database stays. */
    method Restart()
      requires Valid()
      modifies this
      ensures Valid() && !isOpen
      ensures version == old(version) && schema == old(schema)
      ensures surahs == old(surahs) && bookmarks == old(bookmarks) && settingsRows == old(settingsRows)
      ensures connections == old(connections)
    {
      isOpen := false;
    }

    /** The open step every operation starts with, as seen by the records. */
    twostate predicate InitEffect(engine: Engine)
      reads this
    {
      if old(isOpen) then
        isOpen && version == old(version) && schema == old(schema) && connections == old(connections)
      else if engine == OpenFails then
        !isOpen && version == old(version) && schema == old(schema) && connections == old(connections)
      else
        && isOpen && version == DB_VERSION
        && schema == (if old(version) < DB_VERSION then Upgrade(old(schema)) else old(schema))
        && connections == old(connections) + 1
    }

    /**
     * `initDB`: returns the existing handle when there is one; otherwise
     * opens the database, running the upgrade step when the database on the
     * device is older than `DB_VERSION`.
     */
    method InitDB(engine: Engine) returns (r: Result<(), DbError>)
      requires Valid()
      modifies this
      ensures Valid() && InitEffect(engine)
      ensures r.Ok? <==> OpenSucceeds(old(isOpen), engine)
      ensures r.Err? ==> r.error == InitError
      ensures old(isOpen) ==> unchanged(this)
      ensures surahs == old(surahs) && bookmarks == old(bookmarks) && settingsRows == old(settingsRows)
    {
      if isOpen {
        return Ok(());
      }
      if engine == OpenFails {
        return Err(InitError);
      }
      if version < DB_VERSION {
        schema := Upgrade(schema);
        version := DB_VERSION;
      }
      isOpen := true;
      connections := connections + 1;
      r := Ok(());
    }

    /** `saveSurah`: inserts or fully replaces the record under its `surahNumber`. */
    method SaveSurah(s: Surah, engine: Engine) returns (r: Result<(), DbError>)
      requires Valid()
      modifies this
      ensures Valid() && InitEffect(engine)
      ensures r.Ok? <==> Succeeds(old(isOpen), engine)
      ensures r.Err? ==> r.error == FailureOf(old(isOpen), engine, true)
      ensures surahs == if r.Ok? then old(surahs)[s.surahNumber := s] else old(surahs)
      ensures bookmarks == old(bookmarks) && settingsRows == old(settingsRows)
    {
      r := InitDB(engine);
      if r.Err? {
        return;
      }
      if engine == RequestFails {
        return Err(WriteError);
      }
      surahs := surahs[s.surahNumber := s];
    }

    /** `getSurah`: the record stored under `surahNumber`, or `None` when there is none. */
    method GetSurah(surahNumber: int, engine: Engine) returns (r: Result<Option<Surah>, DbError>)
      requires Valid()
      modifies this
      ensures Valid() && InitEffect(engine)
      ensures r.Ok? <==> Succeeds(old(isOpen), engine)
      ensures r.Err? ==> r.error == FailureOf(old(isOpen), engine, false)
      ensures r.Ok? ==> r.value == if surahNumber in surahs then Some(surahs[surahNumber]) else None
      ensures surahs == old(surahs) && bookmarks == old(bookmarks) && settingsRows == old(settingsRows)
    {
      var opening := InitDB(engine);
      if opening.Err? {
        return Err(opening.error);
      }
      if engine == RequestFails {
        return Err(ReadError);
      }
      r := Ok(if surahNumber in surahs then Some(surahs[surahNumber]) else None);
    }

    /** `getAllSurahs`: every stored surah exactly once. */
    method GetAllSurahs(engine: Engine) returns (r: Result<seq<Surah>, DbError>)
      requires Valid()
      modifies this
      ensures Valid() && InitEffect(engine)
      ensures r.Ok? <==> Succeeds(old(isOpen), engine)
      ensures r.Err? ==> r.error == FailureOf(old(isOpen), engine, false)
      ensures r.Ok? ==>
        && |r.value| == |surahs.Keys|
        && (forall s :: s in r.value <==> s in surahs.Values)
        && (forall i, j :: 0 <= i < j < |r.value| ==> r.value[i] != r.value[j])
      ensures surahs == old(surahs) && bookmarks == old(bookmarks) && settingsRows == old(settingsRows)
    {
      var opening := InitDB(engine);
      if opening.Err? {
        return Err(opening.error);
      }
      if engine == RequestFails {
        return Err(ReadError);
      }
      forall k1, k2 | k1 in surahs && k2 in surahs && k1 != k2 ensures surahs[k1] != surahs[k2] {
        assert surahs[k1].surahNumber == k1 && surahs[k2].surahNumber == k2;
      }
      var all := ListValues(surahs);
      r := Ok(all);
    }

    /** `deleteSurah`: removes the record under `surahNumber`, if any. */
    method DeleteSurah(surahNumber: int, engine: Engine) returns (r: Result<(), DbError>)
      requires Valid()
      modifies this
      ensures Valid() && InitEffect(engine)
      ensures r.Ok? <==> Succeeds(old(isOpen), engine)
      ensures r.Err? ==> r.error == FailureOf(old(isOpen), engine, true)
      ensures surahs == if r.Ok? then old(surahs) - {surahNumber} else old(surahs)
      ensures bookmarks == old(bookmarks) && settingsRows == old(settingsRows)
    {
      r := InitDB(engine);
      if r.Err? {
        return;
      }
      if engine == RequestFails {
        return Err(WriteError);
      }
      surahs := surahs - {surahNumber};
    }

    /** `saveBookmark`: inserts or fully replaces the bookmark under its `id`. */
    method SaveBookmark(b: Bookmark, engine: Engine) returns (r: Result<(), DbError>)
      requires Valid()
      modifies this
      ensures Valid() && InitEffect(engine)
      ensures r.Ok? <==> Succeeds(old(isOpen), engine)
      ensures r.Err? ==> r.error == FailureOf(old(isOpen), engine, true)
      ensures bookmarks == if r.Ok? then old(bookmarks)[b.id := b] else old(bookmarks)
      ensures surahs == old(surahs) && settingsRows == old(settingsRows)
    {
      r := InitDB(engine);
      if r.Err? {
        return;
      }
      if engine == RequestFails {
        return Err(WriteError);
      }
      bookmarks := bookmarks[b.id := b];
    }

    /** `getBookmarks`: every stored bookmark exactly once. */
    method GetBookmarks(engine: Engine) returns (r: Result<seq<Bookmark>, DbError>)
      requires Valid()
      modifies this
      ensures Valid() && InitEffect(engine)
      ensures r.Ok? <==> Succeeds(old(isOpen), engine)
      ensures r.Err? ==> r.error == FailureOf(old(isOpen), engine, false)
      ensures r.Ok? ==>
        && |r.value| == |bookmarks.Keys|
        && (forall b :: b in r.value <==> b in bookmarks.Values)
        && (forall i, j :: 0 <= i < j < |r.value| ==> r.value[i] != r.value[j])
      ensures surahs == old(surahs) && bookmarks == old(bookmarks) && settingsRows == old(settingsRows)
    {
      var opening := InitDB(engine);
      if opening.Err? {
        return Err(opening.error);
      }
      if engine == RequestFails {
        return Err(ReadError);
      }
      forall k1, k2 | k1 in bookmarks && k2 in bookmarks && k1 != k2 ensures bookmarks[k1] != bookmarks[k2] {
        assert bookmarks[k1].id == k1 && bookmarks[k2].id == k2;
      }
      var all := ListValues(bookmarks);
      r := Ok(all);
    }

    /** `deleteBookmark`: removes the bookmark under `id`, if any. */
    method DeleteBookmark(id: string, engine: Engine) returns (r: Result<(), DbError>)
      requires Valid()
      modifies this
      ensures Valid() && InitEffect(engine)
      ensures r.Ok? <==> Succeeds(old(isOpen), engine)
      ensures r.Err? ==> r.error == FailureOf(old(isOpen), engine, true)
      ensures bookmarks == if r.Ok? then old(bookmarks) - {id} else old(bookmarks)
      ensures surahs == old(surahs) && settingsRows == old(settingsRows)
    {
      r := InitDB(engine);
      if r.Err? {
        return;
      }
      if engine == RequestFails {
        return Err(WriteError);
      }
      bookmarks := bookmarks - {id};
    }

    /** `saveSettings`: replaces the settings record, stored with the key "app". */
    method SaveSettings(s: Settings, engine: Engine) returns (r: Result<(), DbError>)
      requires Valid()
      modifies this
      ensures Valid() && InitEffect(engine)
      ensures r.Ok? <==> Succeeds(old(isOpen), engine)
      ensures r.Err? ==> r.error == FailureOf(old(isOpen), engine, true)
      ensures settingsRows == if r.Ok? then old(settingsRows)[APP_KEY := SettingsRow(APP_KEY, s)] else old(settingsRows)
      ensures surahs == old(surahs) && bookmarks == old(bookmarks)
    {
      r := InitDB(engine);
      if r.Err? {
        return;
      }
      if engine == RequestFails {
        return Err(WriteError);
      }
      settingsRows := settingsRows[APP_KEY := SettingsRow(APP_KEY, s)];
    }

    /** `getSettings`: the saved settings without their key, or the defaults. */
    method GetSettings(engine: Engine) returns (r: Result<Settings, DbError>)
      requires Valid()
      modifies this
      ensures Valid() && InitEffect(engine)
      ensures r.Ok? <==> Succeeds(old(isOpen), engine)
      ensures r.Err? ==> r.error == FailureOf(old(isOpen), engine, false)
      ensures r.Ok? ==> r.value == SettingsFrom(settingsRows)
      ensures surahs == old(surahs) && bookmarks == old(bookmarks) && settingsRows == old(settingsRows)
    {
      var opening := InitDB(engine);
      if opening.Err? {
        return Err(opening.error);
      }
      if engine == RequestFails {
        return Err(ReadError);
      }
      var row := if APP_KEY in settingsRows then Some(settingsRows[APP_KEY]) else None;
      match row {
        case Some(stored) => r := Ok(stored.settings);
        case None => r := Ok(DEFAULT_SETTINGS);
      }
    }
  }

  // -------------------------------------------------------------------------
  // Clients: what callers can rely on, from the contracts above alone.
  // -------------------------------------------------------------------------

  /** Opening twice produces one handle: the second call neither reopens nor upgrades. */
  method OpenTwice(store: OfflineStore, first: Engine, second: Engine)
    requires store.Valid()
    modifies store
    ensures store.Valid()
    ensures OpenSucceeds(old(store.isOpen), first) ==>
      && store.connections <= old(store.connections) + 1
      && store.schema == FullSchema()
  {
    var a := store.InitDB(first);
    ghost var afterFirst := store.connections;
    var b := store.InitDB(second);
    assert a.Ok? ==> b.Ok? && store.connections == afterFirst;
  }

  /** A saved surah reads back as exactly the last record saved under its number. */
  method SaveSaveGetSurah(store: OfflineStore, s1: Surah, s2: Surah) returns (got: Result<Option<Surah>, DbError>)
    requires store.Valid()
    requires s1.surahNumber == s2.surahNumber
    modifies store
    ensures store.Valid()
    ensures got == Ok(Some(s2))
  {
    var w1 := store.SaveSurah(s1, Accepts);
    var w2 := store.SaveSurah(s2, Accepts);
    got := store.GetSurah(s2.surahNumber, Accepts);
  }

  /** Deleting twice succeeds both times, and the surah is then absent. */
  method DeleteTwiceThenGet(store: OfflineStore, n: int) returns (d1: Result<(), DbError>, d2: Result<(), DbError>, got: Result<Option<Surah>, DbError>)
    requires store.Valid()
    modifies store
    ensures store.Valid()
    ensures d1.Ok? && d2.Ok? && got == Ok(None)
    ensures store.bookmarks == old(store.bookmarks) && store.settingsRows == old(store.settingsRows)
    ensures forall m :: m != n && m in old(store.surahs) ==> m in store.surahs && store.surahs[m] == old(store.surahs)[m]
  {
    d1 := store.DeleteSurah(n, Accepts);
    d2 := store.DeleteSurah(n, Accepts);
    got := store.GetSurah(n, Accepts);
  }

  /** Saved settings read back unchanged, not the defaults. */
  method SaveThenGetSettings(store: OfflineStore, s: Settings) returns (got: Result<Settings, DbError>)
    requires store.Valid()
    modifies store
    ensures store.Valid()
    ensures got == Ok(s)
  {
    var w := store.SaveSettings(s, Accepts);
    got := store.GetSettings(Accepts);
  }

  /** A new device reads the default settings. */
  method FreshStoreSettings() returns (got: Result<Settings, DbError>)
    ensures got == Ok(DEFAULT_SETTINGS)
  {
    var store := new OfflineStore.Fresh();
    got := store.GetSettings(Accepts);
  }

  /** Records survive a restart: after reopening, a saved bookmark is listed again. */
  method BookmarkSurvivesRestart(store: OfflineStore, b: Bookmark) returns (got: Result<seq<Bookmark>, DbError>)
    requires store.Valid()
    modifies store
    ensures store.Valid()
    ensures got.Ok? && b in got.value
    ensures store.surahs == old(store.surahs)
  {
    var w := store.SaveBookmark(b, Accepts);
    store.Restart();
    got := store.GetBookmarks(Accepts);
    assert store.bookmarks[b.id] == b;
  }

  /** Two bookmarks with different ids are both listed, each as it was written. */
  method TwoBookmarksListed(store: OfflineStore, b1: Bookmark, b2: Bookmark) returns (got: Result<seq<Bookmark>, DbError>)
    requires store.Valid()
    requires b1.id != b2.id
    modifies store
    ensures store.Valid()
    ensures got.Ok? && b1 in got.value && b2 in got.value
    ensures store.surahs == old(store.surahs)
  {
    var w1 := store.SaveBookmark(b1, Accepts);
    var w2 := store.SaveBookmark(b2, Accepts);
    got := store.GetBookmarks(Accepts);
    assert store.bookmarks[b1.id] == b1 && store.bookmarks[b2.id] == b2;
  }
}
