/** The dataset cache of `loadHistoryData`: three stored entries (the
    serialised dataset, the time it was saved, the cache version), the
    version check, the freshness test, and the fallback to stale data when
    the network fails. Storage and the network become parameters. */
module Cache {
  import opened Seqs

  /** The cache version the script writes and accepts. */
  const CacheVersion: string := "2.0"

  /** How long cached data stays fresh: 24 hours in milliseconds. */
  const CacheDuration: int := 24 * 60 * 60 * 1000

  /** The three stored entries. The saved time is kept as the number its
      stored text parses to; an entry that does not parse is absent here. */
  datatype Store = Store(data: Option<string>, time: Option<int>, version: Option<string>)

  /** Where the dataset came from on this load. `Unloaded` leaves the
      in-memory dataset as it was. */
  datatype Source = FromCache | FromNetwork | FromStaleCache | Unloaded

  /** What one load ends with: the data source and the stored entries. */
  datatype Loaded = Loaded(source: Source, store: Store)

  /** The outcome of the network request. On success: `JSON.stringify` of
      the received dataset, which is the text saved, and the clock reading
      when the response was handled, which is the time saved. A response
      that is not valid JSON fails like a network error. */
  datatype Fetched = Fetched(text: string, at: int) | FetchFailed

  /** The version check: a stored version other than `2.0` (or none) drops
      the cached data and time and stores the current version. */
  function CheckVersion(st: Store): (r: Store)
    ensures r.version == Some(CacheVersion)
    ensures st.version == Some(CacheVersion) ==> r == st
    ensures st.version != Some(CacheVersion) ==> r.data.None? && r.time.None?
  {
    if st.version == Some(CacheVersion) then st
    else Store(None, None, Some(CacheVersion))
  }

  /** A stored string is truthy when present and non-empty. */
  predicate Truthy(s: Option<string>) {
    s.Some? && s.value != ""
  }

  /** Cached data present, its time present, and `now - time` under the
      duration. */
  predicate IsFresh(st: Store, now: int) {
    Truthy(st.data) && st.time.Some? && now - st.time.value < CacheDuration
  }

  /** `loadHistoryData`. `now` is the clock at the start of the load,
      `parses` says whether the cached text is valid JSON, and `fetched` is
      the network outcome. Fresh, parsable cached data is used without a
      request. Otherwise the dataset is fetched and, on success, saved with
      the time the response was handled; on failure any cached text that
      parses is used even when stale. */
  function LoadHistoryData(st: Store, now: int, parses: bool, fetched: Fetched): (r: Loaded)
    ensures r.source == FromCache ==>
              && st.version == Some(CacheVersion)
              && st.time.Some? && now - st.time.value < CacheDuration
              && r.store == st
    ensures st.version == Some(CacheVersion) && IsFresh(st, now) && parses ==> r.source == FromCache
    ensures r.source == FromStaleCache ==>
              st.version == Some(CacheVersion) && Truthy(st.data) && fetched == FetchFailed && r.store == st
    ensures fetched == FetchFailed && st.version == Some(CacheVersion) && Truthy(st.data) && parses && !IsFresh(st, now) ==>
              r.source == FromStaleCache
    ensures r.source == FromNetwork <==>
              fetched.Fetched? && !(st.version == Some(CacheVersion) && IsFresh(st, now) && parses)
    ensures r.source == FromNetwork ==>
              r.store == Store(Some(fetched.text), Some(fetched.at), Some(CacheVersion))
    ensures r.store.version == Some(CacheVersion)
    ensures r.source != FromNetwork ==> r.store == CheckVersion(st)
  {
    var checked := CheckVersion(st);
    if IsFresh(checked, now) && parses then Loaded(FromCache, checked)
    else
      match fetched
      case Fetched(text, at) => Loaded(FromNetwork, Store(Some(text), Some(at), Some(CacheVersion)))
      case FetchFailed =>
        if Truthy(checked.data) && parses then Loaded(FromStaleCache, checked)
        else Loaded(Unloaded, checked)
  }

  /** When neither the cache nor the network yields data the in-memory
      dataset stays as it was: exactly when the cache is not usable and the
      request fails, and the stale text is missing, empty, of another
      version or unparsable. */
  lemma NothingLoaded(st: Store, now: int, parses: bool, fetched: Fetched)
    ensures LoadHistoryData(st, now, parses, fetched).source == Unloaded <==>
              fetched == FetchFailed && !(st.version == Some(CacheVersion) && Truthy(st.data) && parses)
  {
  }

  /** A cache written under another version is never read, fresh or not. */
  lemma OldVersionNeverRead(st: Store, now: int, parses: bool, fetched: Fetched)
    requires st.version != Some(CacheVersion)
    ensures LoadHistoryData(st, now, parses, fetched).source !in {FromCache, FromStaleCache}
    ensures fetched == FetchFailed ==> LoadHistoryData(st, now, parses, fetched).source == Unloaded
  {
  }

  /** A successful load is served from the cache on a reload within the
      duration, provided the saved text parses. */
  lemma SavedThenServed(st: Store, now: int, at: int, later: int, parses: bool, text: string, fetched: Fetched)
    requires text != "" && at <= later < at + CacheDuration
    requires LoadHistoryData(st, now, parses, Fetched(text, at)).source == FromNetwork
    ensures var saved := LoadHistoryData(st, now, parses, Fetched(text, at)).store;
            LoadHistoryData(saved, later, true, fetched) == Loaded(FromCache, saved)
  {
  }

  /** At the duration or later the cached data is stale and a request is
      made; a successful request replaces it. */
  lemma ExpiredRefetches(st: Store, now: int, parses: bool, text: string, at: int)
    requires st.time.Some? && now - st.time.value >= CacheDuration
    ensures LoadHistoryData(st, now, parses, Fetched(text, at)).source == FromNetwork
  {
  }
}
