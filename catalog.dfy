/**
 * The catalog records of the search screen: the raw anime record the remote
 * catalog returns, and the five-field entry the local `jikanRepository` table
 * stores, keyed by `mal_id`.
 */
module Catalog {

  /** A JavaScript property value: `null`, absent (`undefined`), or a value. */
  datatype Field<T> = Null | Undefined | Present(value: T)

  /**
   * One element of `response.data.anime`. Besides the five fields the screen
   * copies, a record carries other properties; they are kept as text by name.
   */
  datatype RawAnime = RawAnime(
    malId: int,
    title: Field<string>,
    imageUrl: Field<string>,
    synopsis: Field<string>,
    episodes: Field<int>,
    otherFields: map<string, string>)

  /** One row of the `jikanRepository` table: the five copied fields. */
  datatype Anime = Anime(
    malId: int,
    title: Field<string>,
    imageUrl: Field<string>,
    synopsis: Field<string>,
    episodes: Field<int>)

  /**
   * The in-place fix applied to each raw record before it is stored: an
   * `episodes` that is exactly `null` becomes 0; an absent one stays absent.
   */
  function FixEpisodes(raw: RawAnime): (r: RawAnime)
    ensures r.episodes != Null
    ensures raw.episodes != Null ==> r == raw
    ensures raw.episodes == Null ==> r == raw.(episodes := Present(0))
  {
    if raw.episodes == Null then raw.(episodes := Present(0)) else raw
  }

  /** A record that went through `FixEpisodes` is left alone by a second pass. */
  lemma FixEpisodesIdempotent(raw: RawAnime)
    ensures FixEpisodes(FixEpisodes(raw)) == FixEpisodes(raw)
  {
  }

  /** The `data` object built from a record: its five stored fields, nothing else. */
  function ToEntry(raw: RawAnime): Anime
  {
    Anime(raw.malId, raw.title, raw.imageUrl, raw.synopsis, raw.episodes)
  }

  /** The row stored for a raw record: its fields with `episodes` null-coalesced to 0. */
  function StoredEntry(raw: RawAnime): (e: Anime)
    ensures e.episodes != Null
    ensures e.episodes == (if raw.episodes == Null then Present(0) else raw.episodes)
    ensures e.malId == raw.malId && e.title == raw.title && e.imageUrl == raw.imageUrl
    ensures e.synopsis == raw.synopsis
  {
    ToEntry(FixEpisodes(raw))
  }

  /** The rows stored for a batch of raw records, in batch order. */
  function StoredEntries(xs: seq<RawAnime>): seq<Anime>
  {
    seq(|xs|, i requires 0 <= i < |xs| => StoredEntry(xs[i]))
  }

  /** The batch after the in-place fix: every record through `FixEpisodes`. */
  function FixAll(xs: seq<RawAnime>): seq<RawAnime>
  {
    seq(|xs|, i requires 0 <= i < |xs| => FixEpisodes(xs[i]))
  }
}
