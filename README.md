# Search screen of the anime catalog app

A Dafny model of the logic inside the React Native search screen
`SearchBarComponent`. The model covers four pieces of that screen:

- The title filter run on every keystroke (`searchFilterFunction`). With a
  non-empty query it keeps the master-list entries whose upper-cased title
  contains the upper-cased query. With an empty query it shows the whole
  master list.
- The save loop (`saveListAnime`). It walks the fetched array by index. It
  turns an `episodes` that is exactly `null` into 0 in the array itself. It
  then upserts the five copied fields into the local `jikanRepository` table,
  where a row with the same `mal_id` is overwritten.
- The fetch (`getListAnime`). It turns `loading` on and requests the remote
  catalog. On success it saves the records; on failure it writes nothing and
  turns `loading` off.
- The sync run when the screen mounts (`syncListAnime`). On wifi with an
  empty table it fetches and then shows the search hook's `results`.
  Otherwise it shows the table's rows and makes no request.

Files and modules:

- `js_string.dfy` (`JsString`): `toUpperCase`, limited to ASCII, and `indexOf`, with positions counted in Unicode characters.
- `catalog.dfy` (`Catalog`): the raw record, the stored row, the `episodes` fix and the five-field copy.
- `title_filter.dfy` (`TitleFilter`): the filter, its subsequence and membership properties, and case-insensitivity.
- `anime_store.dfy` (`AnimeStore`): the table as a class `Store`. Its rows are a map by `mal_id` plus the insertion order of the keys. `Upserted` and `UpsertedOrder` define the table after the first `n` rows of a batch. The lemmas state last write wins, other keys untouched and growth by the new keys.
- `search_bar.dfy` (`SearchBar`): the screen as a class `Screen`. It holds the React state fields, the table, and a ghost count of remote requests. Its methods are the four functions above; `SaveListAnime` is a `while` loop over an `array`.

Inputs that come from outside the screen become parameters:

- the connection type reported by `useNetInfo`;
- the outcome of `axios.get` (`FetchResult`: the `anime` array, or a failure);
- the `results` value of the `useResults` hook.

## Model

| member | source | states |
|---|---|---|
| JsString.UpperChar | src/components/searchBar/SearchBarComponent.js:77-78 | a lower-case ASCII letter moves 32 code points down to its capital; every other character is kept; the result is never a lower-case ASCII letter |
| JsString.ToUpperCase | src/components/searchBar/SearchBarComponent.js:77-78 | `toUpperCase` keeps the length and upper-cases each character in place |
| JsString.ToUpperCaseIdempotent | src/components/searchBar/SearchBarComponent.js:77-78 | upper-casing an upper-cased string changes nothing |
| JsString.IndexOfFrom | src/components/searchBar/SearchBarComponent.js:79 | the result is -1 exactly when the query occurs nowhere at or after the start index; otherwise it is an occurrence with no earlier one |
| JsString.IndexOf | src/components/searchBar/SearchBarComponent.js:79 | `indexOf(...) > -1` holds exactly when the query is a substring; the index is then the first occurrence, counted in Unicode characters, and otherwise it is exactly -1 |
| Catalog.FixEpisodes | src/components/searchBar/SearchBarComponent.js:58-60 | only an `episodes` that is exactly `null` becomes 0; any other record is returned unchanged, missing `episodes` included |
| Catalog.FixEpisodesIdempotent | src/components/searchBar/SearchBarComponent.js:58-60 | a second pass of the fix changes nothing |
| Catalog.ToEntry | src/components/searchBar/SearchBarComponent.js:61-65 | the `data` object built for a record: its `mal_id`, `title`, `image_url`, `synopsis` and `episodes`, and no other field (defined directly; `StoredEntry` states the copy) |
| Catalog.StoredEntry | src/components/searchBar/SearchBarComponent.js:58-65 | the stored row has `mal_id`, `title`, `image_url` and `synopsis` of the record, and its `episodes` with `null` turned into 0 |
| TitleFilter.TitleText | src/components/searchBar/SearchBarComponent.js:77 | the text compared for an entry: its title, or `''` when the title is `null` or missing (defined directly; `UntitledNeverMatches` states the consequence) |
| TitleFilter.Matches | src/components/searchBar/SearchBarComponent.js:76-80 | the `Array.filter` callback holds iff the upper-cased title text includes the upper-cased query |
| TitleFilter.Filter | src/components/searchBar/SearchBarComponent.js:75-81 | the result is a subsequence of the master list; an entry is in it iff it is in the master list and matches; each matching entry occurs as often as in the master list and no other entry occurs |
| TitleFilter.SearchFilter | src/components/searchBar/SearchBarComponent.js:74-87 | an empty query gives the master list itself; any query gives a subsequence of it holding exactly its matching entries, each as often as in the master list |
| TitleFilter.SearchFilterMembership | src/components/searchBar/SearchBarComponent.js:74-81 | with a non-empty query, an entry is shown iff it is in the master list and its upper-cased title has the upper-cased query as a substring |
| TitleFilter.FilterEmptyQueryKeepsAll | src/components/searchBar/SearchBarComponent.js:84-85 | filtering with the empty query would keep every entry, so the empty-query branch agrees with filtering |
| TitleFilter.UntitledNeverMatches | src/components/searchBar/SearchBarComponent.js:77 | an entry whose title is missing or empty is never shown for a non-empty query |
| TitleFilter.FilterIgnoresQueryCase | src/components/searchBar/SearchBarComponent.js:78-79 | queries equal up to letter case filter alike |
| TitleFilter.SearchFilterIgnoresQueryCase | src/components/searchBar/SearchBarComponent.js:74-87 | queries equal up to letter case show the same list |
| TitleFilter.BleachMatchesBlea | src/components/searchBar/SearchBarComponent.js:77-79 | the title "Bleach" matches the query "blea" |
| TitleFilter.NarutoMissesBlea | src/components/searchBar/SearchBarComponent.js:77-79 | the title "Naruto" does not match the query "blea" |
| TitleFilter.SearchBleach | src/components/searchBar/SearchBarComponent.js:73-88 | the query "blea" over "Bleach" and "Naruto" shows "Bleach" alone |
| AnimeStore.Upserted | src/components/searchBar/SearchBarComponent.js:57-69 | the table after the first n rows of a batch, each upserted in batch order (defined directly; its properties are the `Upserted*` lemmas below) |
| AnimeStore.UpsertedOrder | src/components/searchBar/SearchBarComponent.js:57-69 | the key order after the first n rows: a key new to the table is appended, a held key keeps its place (defined directly; `UpsertedKeepsWellKeyed` states its agreement with the rows) |
| AnimeStore.UpsertedKeys | src/components/searchBar/SearchBarComponent.js:57-69 | after a batch the table's keys are its old keys plus the batch's `mal_id`s, and no others |
| AnimeStore.UpsertedLastWriteWins | src/components/searchBar/SearchBarComponent.js:57-69 | each `mal_id` of the batch maps to the last row of the batch with that id |
| AnimeStore.UpsertedKeepsOthers | src/components/searchBar/SearchBarComponent.js:57-69 | a key the batch does not mention keeps its row, or stays absent |
| AnimeStore.UpsertedSize | src/components/searchBar/SearchBarComponent.js:57-69 | the table grows by exactly the number of batch ids it did not hold |
| AnimeStore.UpsertExistingKeepsCount | src/components/searchBar/SearchBarComponent.js:68 | re-saving a row under a held key overwrites it and keeps the row count |
| AnimeStore.UpsertKeepsWellKeyed | src/components/searchBar/SearchBarComponent.js:68 | one `'modified'` create keeps rows and key order in agreement: a new key is appended, a held key keeps its place |
| AnimeStore.UpsertedKeepsWellKeyed | src/components/searchBar/SearchBarComponent.js:57-69 | a whole batch keeps rows and key order in agreement |
| AnimeStore.FirstSaveStoresNaruto | src/components/searchBar/SearchBarComponent.js:57-69 | saving one record (id 1, "Naruto", 220 episodes) into an empty table stores exactly that row |
| AnimeStore.Store.constructor | src/components/searchBar/SearchBarComponent.js:24 | a fresh table is empty and consistent |
| AnimeStore.Store.Objects | src/components/searchBar/SearchBarComponent.js:25 | `objects()` lists every row exactly once, and the model lists them in insertion order: entry i is the row under the i-th key, and an entry is listed iff it is the row under its key |
| AnimeStore.Store.Count | src/components/searchBar/SearchBarComponent.js:25-28 | `objects().length` is the number of rows, and 0 exactly when the table is empty |
| AnimeStore.Store.Create | src/components/searchBar/SearchBarComponent.js:68 | `create(..., 'modified')` puts the row under its `mal_id`, overwriting a held row; a new key goes at the end of the order, a held key keeps its place |
| SearchBar.Screen.constructor | src/components/searchBar/SearchBarComponent.js:16-19 | the initial state: empty query, empty lists, not loading |
| SearchBar.Screen.SaveListAnime | src/components/searchBar/SearchBarComponent.js:53-71 | afterwards the array holds each record with the `null`-episodes fix, and the table is the old table with the batch's stored rows upserted in order; the table stays consistent |
| SearchBar.Screen.GetListAnime | src/components/searchBar/SearchBarComponent.js:42-51 | one request is made; on success the batch is saved and `loading` stays on; on failure the table is untouched and `loading` ends off; the lists and the query are untouched |
| SearchBar.Screen.SyncListAnime | src/components/searchBar/SearchBarComponent.js:23-38 | a request is made iff the connection is wifi and the table is empty; then both lists become `results`, `loading` ends off and a received batch is upserted; otherwise both lists become the table's rows and nothing is written |
| SearchBar.Screen.SearchFilterFunction | src/components/searchBar/SearchBarComponent.js:73-88 | the shown list becomes the filter of the master list for the query, the query is remembered, and nothing else changes |

## Left out

- JsString.ToUpperCase: only ASCII letters are upper-cased. Full Unicode case mapping (such as `ß` to `SS`, which changes the length) is not modelled.
- JsString.IndexOf: positions count Unicode characters, not JavaScript's UTF-16 code units, so the index differs from JavaScript's when an astral-plane character (an emoji, say) comes before the match. The screen only tests `> -1`, which is unaffected. A lone surrogate, which a JavaScript string can hold, cannot be represented.
- Rendering is not modelled: the JSX, `renderFooter`, `renderItem`, `keyExtractor`, the list and search-bar widgets, and the styles. None of it holds logic to state.
- Async scheduling, `await`, React state batching and the `useEffect` dependency list are not modelled. Each function runs to completion in order. So the model does not capture that the effect reads the `netInfo` and `results` of the first render only.
- `useResults` (`src/hooks/useResults.js`) is not part of this model. Its `results` is an opaque parameter of `SyncListAnime`. After a fetch the screen shows that value, not the saved records, and the model claims no relation between the two.
- Network, storage engine and connectivity are inputs, not modelled: `axios.get`, `getRealm()` and `useNetInfo`. A rejected request, or a response whose `data` or `anime` is missing or `null`, throws before anything is written and is modelled as a failed fetch. An `anime` value that is not an array and has no `length` saves nothing and leaves `loading` on, which is the model's `Received([])`.
- Every record is assumed to carry a numeric `mal_id`. A record without `mal_id` would be rejected by the store as a write error, and that path is not modelled.
- The loop is assumed to run to its end. Two errors would stop it half way, after the earlier rows were written, and end in the `catch` that turns `loading` off: a Realm write error, and a `null` element of `anime`, whose `episodes` cannot be read. Neither is modelled; every element is a record.
- `objects()` is modelled as a snapshot in insertion order. Realm does not promise any order for unsorted results; the insertion order is a choice of the model, and the membership and length of `Objects` do not depend on it. The live, auto-updating results collection Realm returns is not modelled.
- The single reused `data` object and the sharing of array elements with the caller are not modelled. Records are values, and `create` copies the five fields.
- Realm's handling of an absent property in a `'modified'` update is not modelled. The model stores the absent field as absent, overwriting a held value; Realm may instead keep the stored value for a property that is not supplied, or give a new row its default. Only a payload that omits one of the five keys reaches this.
- An `episodes` field that is absent stays absent. The code tests `=== null`, so only `null` becomes 0.
- The `console.log` calls are not modelled.
