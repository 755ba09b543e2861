/** The catalog client (src/api.rs): the shape of a catalog entry and the
    two-step lookup, search by name and then fetch the details of the first
    hit. The two HTTP round trips are inputs: `search` answers the decoded
    search result for a name, `detail` the decoded entry for an id. */
module Catalog {
  import opened Types

  datatype Genre = Genre(name: string, russian: Option<string>)

  /** The fields of a catalog entry the bot reads (the poster image is never
      read and is left out). */
  datatype AnimeResponse = AnimeResponse(
    id: int32,
    name: string,
    russian: Option<string>,
    episodes: Option<int32>,
    episodesAired: Option<int32>,
    status: string,
    description: Option<string>,
    score: Option<string>,
    genres: Option<seq<Genre>>)

  /** The remote catalog as seen from one process: what each search-by-name
      and each detail-by-id request comes back with, transport and decoding
      failures included. */
  datatype Catalog = Catalog(
    search: string -> Result<seq<AnimeResponse>>,
    detail: int32 -> Result<AnimeResponse>)

  /** A title's name as the bot shows and stores it: the Russian name when
      the catalog gives one, the original name otherwise. */
  function DisplayName(a: AnimeResponse): string {
    a.russian.GetOr(a.name)
  }

  /** `check_anime_exists`: no hit is `None`; a hit yields the details of the
      first one; the first step that fails decides the error. */
  function CheckAnimeExists(c: Catalog, name: string): (r: Result<Option<AnimeResponse>>)
    ensures r == Ok(None) <==> c.search(name) == Ok([])
    ensures c.search(name).Err? ==> r == Err(c.search(name).error)
    ensures r.Ok? && r.value.Some? <==>
              c.search(name).Ok? && c.search(name).value != [] && c.detail(c.search(name).value[0].id).Ok?
    ensures r.Ok? && r.value.Some? ==> Ok(r.value.value) == c.detail(c.search(name).value[0].id)
    ensures c.search(name).Ok? && c.search(name).value != [] && c.detail(c.search(name).value[0].id).Err? ==>
              r == Err(c.detail(c.search(name).value[0].id).error)
  {
    match c.search(name)
    case Err(e) => Err(e)
    case Ok(animes) =>
      if animes == [] then Ok(None)
      else
        match c.detail(animes[0].id)
        case Err(e) => Err(e)
        case Ok(details) => Ok(Some(details))
  }
}
