/**
 * The values a movie card of components/MovieCard.tsx derives from a catalog
 * movie: the poster image URI, the link target and the release year text.
 */
module MovieCard {
  import opened Wrappers
  import JsText
  import Catalog

  const PLACEHOLDER_POSTER := "https://placehold.co/600x400/1a1a1a/FFFFFF.png"
  const MOVIE_ROUTE := "/movie/"

  /** A non-empty poster path on the image host, else the placeholder image. */
  function PosterUri(posterPath: Option<string>): (uri: string)
    ensures posterPath.Some? && posterPath.value != "" ==> uri == Catalog.POSTER_BASE_URL + posterPath.value
    ensures posterPath.None? || posterPath.value == "" ==> uri == PLACEHOLDER_POSTER
  {
    match posterPath
    case Some(path) => if path != "" then Catalog.POSTER_BASE_URL + path else PLACEHOLDER_POSTER
    case None => PLACEHOLDER_POSTER
  }

  /** The card's link, `/movie/${id}`. */
  function Href(id: int): (href: string)
    ensures |MOVIE_ROUTE| < |href| && href[..|MOVIE_ROUTE|] == MOVIE_ROUTE
  {
    MOVIE_ROUTE + JsText.IntText(id)
  }

  /** Different movies link to different detail routes. */
  lemma HrefIdentifiesMovie(m: int, n: int)
    requires Href(m) == Href(n)
    ensures m == n
  {
    assert JsText.IntText(m) == Href(m)[|MOVIE_ROUTE|..];
    assert JsText.IntText(n) == Href(n)[|MOVIE_ROUTE|..];
    JsText.IntTextInjective(m, n);
  }

  /** `s.split("-")[0]`: the text before the first '-', or all of it. */
  function BeforeDash(s: string): (r: string)
    ensures |r| <= |s| && r == s[..|r|]
    ensures forall i :: 0 <= i < |r| ==> r[i] != '-'
    ensures |r| < |s| ==> s[|r|] == '-'
  {
    if s == [] || s[0] == '-' then [] else [s[0]] + BeforeDash(s[1..])
  }

  /** `release_date?.split("-")[0]`: nothing for an absent date, else the year part. */
  function ReleaseYear(releaseDate: Option<string>): (year: Option<string>)
    ensures year.None? <==> releaseDate.None?
    ensures year.Some? ==> year.value == BeforeDash(releaseDate.value)
  {
    match releaseDate
    case None => None
    case Some(date) => Some(BeforeDash(date))
  }
}
