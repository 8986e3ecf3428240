/**
 * The catalog client of services/api.ts: which request URL each operation issues,
 * how a failed response becomes an error, and which video key is chosen as the
 * trailer. The HTTP exchange itself is a parameter `server` that maps the request
 * URL to the response (status flag, status text and the parsed body).
 */
module Catalog {
  import opened Wrappers
  import opened UriEncoding
  import Seqs

  const BASE_URL := "https://api.themoviedb.org/3"
  const SEARCH_PATH := "/search/movie?query="
  const DISCOVER_PATH := "/discover/movie?sort_by=popularity.desc"
  /** The image host prefix for poster paths, used by the movie card and the trending records. */
  const POSTER_BASE_URL := "https://image.tmdb.org/t/p/w500"

  /** A catalog movie: `poster_path` and `release_date` may be null. */
  datatype Movie = Movie(id: int, title: string, posterPath: Option<string>, releaseDate: Option<string>)

  /** One entry of a movie's video list. */
  datatype Video = Video(key: string, kind: string, site: string, official: bool)

  /** A fetched response: `response.ok`, `response.statusText` and the parsed JSON body. */
  datatype Response<T> = Response(ok: bool, statusText: string, body: T)

  /** The request URL of `fetchMovies`: a text search for a non-empty query, else popularity discovery. */
  function MoviesEndpoint(query: string): (url: string)
    ensures query == "" ==> url == BASE_URL + DISCOVER_PATH
    ensures query != "" ==> url == BASE_URL + SEARCH_PATH + EncodeURIComponent(query)
  {
    if query != "" then BASE_URL + SEARCH_PATH + EncodeURIComponent(query)
    else BASE_URL + DISCOVER_PATH
  }

  /** The request URL of `fetchMovieDetails`; the id is inserted without encoding. */
  function DetailsEndpoint(movieId: string): string {
    BASE_URL + "/movie/" + movieId
  }

  /** The request URL of `fetchMovieTrailer`. */
  function VideosEndpoint(movieId: string): string {
    DetailsEndpoint(movieId) + "/videos"
  }

  /**
   * A search request carries the query as its last component, and the service
   * decodes that component back to exactly the query the user typed.
   */
  lemma SearchCarriesQuery(query: string)
    requires query != ""
    ensures |BASE_URL + SEARCH_PATH| <= |MoviesEndpoint(query)|
    ensures MoviesEndpoint(query)[..|BASE_URL + SEARCH_PATH|] == BASE_URL + SEARCH_PATH
    ensures DecodeComponent(MoviesEndpoint(query)[|BASE_URL + SEARCH_PATH|..]) == Some(query)
  {
    var prefix := BASE_URL + SEARCH_PATH;
    var url := MoviesEndpoint(query);
    assert url[|prefix|..] == EncodeURIComponent(query);
    EncodeDecodeRoundTrip(query);
  }

  /** The encoded query cannot add parameters: it holds no '&', '=', '#' or '?'. */
  lemma SearchQueryAddsNoParameters(query: string)
    requires query != ""
    ensures forall i :: |BASE_URL + SEARCH_PATH| <= i < |MoviesEndpoint(query)| ==>
      MoviesEndpoint(query)[i] !in {'&', '=', '#', '?', '+', ' '}
  {
    var prefix := BASE_URL + SEARCH_PATH;
    var e := EncodeURIComponent(query);
    forall i | |prefix| <= i < |MoviesEndpoint(query)|
      ensures MoviesEndpoint(query)[i] !in {'&', '=', '#', '?', '+', ' '}
    {
      assert MoviesEndpoint(query)[i] == e[i - |prefix|];
    }
  }

  /** The empty query and a non-empty one never issue the same request. */
  lemma SearchAndDiscoverDiffer(query: string)
    requires query != ""
    ensures MoviesEndpoint(query) != MoviesEndpoint("")
  {
    var k := |BASE_URL| + 1;
    assert MoviesEndpoint(query)[k] == 's';
    assert MoviesEndpoint("")[k] == 'd';
  }

  /** `fetchMovies`: the results of the search or discovery response, or the error it throws. */
  function FetchMovies(query: string, server: string -> Response<seq<Movie>>): (r: Result<seq<Movie>, string>)
    ensures server(MoviesEndpoint(query)).ok <==> r.Ok?
    ensures r.Ok? ==> r.value == server(MoviesEndpoint(query)).body
    ensures r.Err? ==> r.error == "Failed to fetch movies: " + server(MoviesEndpoint(query)).statusText
  {
    var response := server(MoviesEndpoint(query));
    if !response.ok then Err("Failed to fetch movies: " + response.statusText)
    else Ok(response.body)
  }

  /** `fetchMovieDetails`: the parsed details body, or the error it throws. */
  function FetchMovieDetails<D>(movieId: string, server: string -> Response<D>): (r: Result<D, string>)
    ensures server(DetailsEndpoint(movieId)).ok <==> r.Ok?
    ensures r.Ok? ==> r.value == server(DetailsEndpoint(movieId)).body
    ensures r.Err? ==> r.error == "Failed to fetch movie details: " + server(DetailsEndpoint(movieId)).statusText
  {
    var response := server(DetailsEndpoint(movieId));
    if !response.ok then Err("Failed to fetch movie details: " + response.statusText)
    else Ok(response.body)
  }

  predicate IsYouTubeTrailer(v: Video) {
    v.kind == "Trailer" && v.site == "YouTube"
  }

  predicate IsOfficialYouTubeTrailer(v: Video) {
    IsYouTubeTrailer(v) && v.official
  }

  /** `key || null`: an empty key counts as no key. */
  function KeyOrNull(key: string): Option<string> {
    if key == "" then None else Some(key)
  }

  /**
   * The trailer policy of `fetchMovieTrailer`: the first official YouTube trailer,
   * else the first YouTube trailer, else none; the chosen video's empty key gives none.
   */
  function SelectTrailer(videos: seq<Video>): (r: Option<string>)
    ensures r.Some? ==> r.value != ""
    ensures r.Some? ==> exists j :: 0 <= j < |videos| && IsYouTubeTrailer(videos[j]) && videos[j].key == r.value
  {
    match Seqs.Find(videos, IsOfficialYouTubeTrailer)
    case Some(trailer) => KeyOrNull(trailer.key)
    case None =>
      match Seqs.Find(videos, IsYouTubeTrailer)
      case Some(fallback) => KeyOrNull(fallback.key)
      case None => None
  }

  /** An official YouTube trailer wins: the first one's key is chosen. */
  lemma OfficialTrailerFirst(videos: seq<Video>, k: nat)
    requires k < |videos| && IsOfficialYouTubeTrailer(videos[k])
    requires forall j :: 0 <= j < k ==> !IsOfficialYouTubeTrailer(videos[j])
    ensures SelectTrailer(videos) == KeyOrNull(videos[k].key)
  {
  }

  /** Without an official one, the first YouTube trailer of any kind is chosen. */
  lemma FallbackTrailerFirst(videos: seq<Video>, k: nat)
    requires forall j :: 0 <= j < |videos| ==> !IsOfficialYouTubeTrailer(videos[j])
    requires k < |videos| && IsYouTubeTrailer(videos[k])
    requires forall j :: 0 <= j < k ==> !IsYouTubeTrailer(videos[j])
    ensures SelectTrailer(videos) == KeyOrNull(videos[k].key)
  {
  }

  /** Without any YouTube trailer there is no trailer key. */
  lemma NoTrailerNoKey(videos: seq<Video>)
    requires forall j :: 0 <= j < |videos| ==> !IsYouTubeTrailer(videos[j])
    ensures SelectTrailer(videos) == None
  {
  }

  /** `fetchMovieTrailer`: the selected key of a successful video-list response, or the error it throws. */
  function FetchMovieTrailer(movieId: string, server: string -> Response<seq<Video>>): (r: Result<Option<string>, string>)
    ensures server(VideosEndpoint(movieId)).ok <==> r.Ok?
    ensures r.Ok? ==> r.value == SelectTrailer(server(VideosEndpoint(movieId)).body)
    ensures r.Err? ==> r.error == "Failed to fetch movie videos"
  {
    var response := server(VideosEndpoint(movieId));
    if !response.ok then Err("Failed to fetch movie videos")
    else Ok(SelectTrailer(response.body))
  }
}
