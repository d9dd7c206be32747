/**
 * The search screen's state and the steps that change it: the one-time
 * catalog sync on mount, the remote fetch, the save loop that normalises and
 * upserts the fetched records, and the handler run on every keystroke.
 */
module SearchBar {
  import opened Catalog
  import opened TitleFilter
  import opened AnimeStore

  /** `netInfo.type`, as reported by the connectivity observer. */
  datatype ConnectionType = Unknown | NoConnection | Cellular | Wifi | Bluetooth | Ethernet | Wimax | Vpn | Other

  /**
   * What `axios.get(apiListAnime)` delivers: the `anime` array of the response
   * body, or a failure. A rejected request and a missing or `null` `data` or
   * `anime` both end in the `catch` before anything is written, so both are
   * `Failed`. An `anime` value that is not an array and has no `length` makes
   * the loop run zero times without an error, so it is `Received([])`.
   */
  datatype FetchResult = Received(anime: seq<RawAnime>) | Failed

  /** The screen: its React state, the local table it reads and writes, and a count of remote requests. */
  class Screen {
    var search: string
    var filteredDataSource: seq<Anime>
    var masterDataSource: seq<Anime>
    var loading: bool
    const realm: Store
    /** How many times the remote catalog was requested. */
    ghost var requests: nat

    /** The table is consistent and the shown list never has anything the master list lacks. */
    ghost predicate Valid()
      reads this, realm
    {
      realm.Valid() && IsSubsequence(filteredDataSource, masterDataSource)
    }

    /** The initial state: empty query, empty lists, not loading. */
    constructor (realm: Store)
      requires realm.Valid()
      ensures Valid() && this.realm == realm && requests == 0
      ensures search == "" && filteredDataSource == [] && masterDataSource == [] && !loading
    {
      this.realm := realm;
      search := "";
      filteredDataSource := [];
      masterDataSource := [];
      loading := false;
      requests := 0;
    }

    /**
     * `saveListAnime(animes)`: for each record in order, turn a null `episodes`
     * into 0 in the array itself, then upsert the five copied fields.
     */
    method SaveListAnime(animes: array<RawAnime>)
      requires realm.Valid()
      modifies animes, realm
      ensures realm.Valid()
      ensures animes[..] == FixAll(old(animes[..]))
      ensures realm.rows == Upserted(old(realm.rows), StoredEntries(old(animes[..])), animes.Length)
      ensures realm.order == UpsertedOrder(old(realm.rows), old(realm.order), StoredEntries(old(animes[..])), animes.Length)
    {
      ghost var input := animes[..];
      ghost var fixed, stored := FixAll(input), StoredEntries(input);
      ghost var rows0, order0 := realm.rows, realm.order;
      var aux := 0;
      while aux < animes.Length
        invariant 0 <= aux <= animes.Length
        invariant forall i :: 0 <= i < aux ==> animes[i] == fixed[i]
        invariant forall i :: aux <= i < animes.Length ==> animes[i] == input[i]
        invariant realm.rows == Upserted(rows0, stored, aux)
        invariant realm.order == UpsertedOrder(rows0, order0, stored, aux)
      {
        var anime := animes[aux];
        if anime.episodes == Null {
          anime := anime.(episodes := Present(0));
          animes[aux] := anime;
        }
        assert anime == fixed[aux];
        var data := ToEntry(anime);
        assert data == stored[aux];
        realm.Create(data);
        aux := aux + 1;
      }
      UpsertedKeepsWellKeyed(rows0, order0, stored, aux);
    }

    /**
     * `getListAnime()`: mark the screen as loading and request the catalog;
     * on success save the records (loading stays on), on failure write
     * nothing and turn loading off.
     */
    method GetListAnime(fetch: FetchResult)
      requires Valid()
      modifies this, realm
      ensures Valid()
      ensures requests == old(requests) + 1
      ensures search == old(search)
      ensures masterDataSource == old(masterDataSource) && filteredDataSource == old(filteredDataSource)
      ensures fetch.Failed? ==> !loading && realm.rows == old(realm.rows) && realm.order == old(realm.order)
      ensures fetch.Received? ==> loading
      ensures fetch.Received? ==> realm.rows == Upserted(old(realm.rows), StoredEntries(fetch.anime), |fetch.anime|)
      ensures fetch.Received? ==> realm.order == UpsertedOrder(old(realm.rows), old(realm.order), StoredEntries(fetch.anime), |fetch.anime|)
    {
      loading := true;
      requests := requests + 1;
      match fetch {
        case Failed =>
          loading := false;
        case Received(anime) =>
          var animes := new RawAnime[|anime|](i requires 0 <= i < |anime| => anime[i]);
          assert animes[..] == anime;
          SaveListAnime(animes);
      }
    }

    /**
     * `syncListAnime()`, run once when the screen mounts: on wifi with an
     * empty table, fetch and save the catalog and show the `results` of the
     * search hook; otherwise show the table's rows without any request.
     */
    method SyncListAnime(netType: ConnectionType, fetch: FetchResult, results: seq<Anime>)
      requires Valid()
      modifies this, realm
      ensures Valid()
      ensures search == old(search)
      ensures requests == old(requests) + if netType == Wifi && old(realm.Count()) == 0 then 1 else 0
      ensures netType == Wifi && old(realm.Count()) == 0 ==>
                masterDataSource == results && filteredDataSource == results && !loading
      ensures netType == Wifi && old(realm.Count()) == 0 && fetch.Received? ==>
                && realm.rows == Upserted(old(realm.rows), StoredEntries(fetch.anime), |fetch.anime|)
                && realm.order == UpsertedOrder(old(realm.rows), old(realm.order), StoredEntries(fetch.anime), |fetch.anime|)
      ensures netType == Wifi && old(realm.Count()) == 0 && fetch.Failed? ==>
                realm.rows == old(realm.rows) && realm.order == old(realm.order)
      ensures !(netType == Wifi && old(realm.Count()) == 0) ==>
                && masterDataSource == old(realm.Objects()) && filteredDataSource == masterDataSource
                && loading == old(loading) && realm.rows == old(realm.rows) && realm.order == old(realm.order)
    {
      var count := realm.Count();
      if netType == Wifi && count == 0 {
        GetListAnime(fetch);
        filteredDataSource := results;
        masterDataSource := results;
        loading := false;
      } else {
        var response := realm.Objects();
        filteredDataSource := response;
        masterDataSource := response;
      }
      IsSubsequenceReflexive(masterDataSource);
    }

    /**
     * `searchFilterFunction(text)`, run on every keystroke: show the title
     * matches of the master list, or the whole master list for an empty query,
     * and remember the query.
     */
    method SearchFilterFunction(text: string)
      requires Valid()
      modifies this
      ensures Valid()
      ensures filteredDataSource == SearchFilter(masterDataSource, text)
      ensures search == text
      ensures masterDataSource == old(masterDataSource) && loading == old(loading) && requests == old(requests)
    {
      if text != "" {
        var newData := Filter(masterDataSource, text);
        filteredDataSource := newData;
        search := text;
      } else {
        filteredDataSource := masterDataSource;
        search := text;
        IsSubsequenceReflexive(masterDataSource);
      }
    }
  }
}
