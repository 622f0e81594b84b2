/** The movie catalogue (src/pages/Movies.tsx): the genre chips, the search
    and genre filter, and the conversion of a `movies` row for the movie
    card. Case folding is ASCII only. */
module Movies {
  import opened Types
  import Text
  import Collections

  /** A `movies` row as the catalogue loads it. */
  datatype MovieRow = MovieRow(id: string, title: string, poster: string, backdrop: Option<string>,
                               genre: seq<string>, duration: int, rating: Option<real>, releaseDate: string,
                               description: string, director: string, castMembers: seq<string>,
                               language: string, trailerUrl: Option<string>)

  /** The movie as the card receives it. */
  datatype CardMovie = CardMovie(id: string, title: string, poster: string, backdrop: Option<string>,
                                 genre: seq<string>, duration: int, rating: real, releaseDate: string,
                                 description: string, director: string, cast: seq<string>,
                                 language: string, trailerUrl: Option<string>)

  /** The search box and the selected genre chips. */
  datatype Filters = Filters(query: string, selectedGenres: seq<string>)

  // ------------------------------------------------------------- genres

  /** `movies.flatMap(movie => movie.genre)` */
  function AllGenres(movies: seq<MovieRow>): (all: seq<string>)
    ensures forall g :: g in all <==> exists i :: 0 <= i < |movies| && g in movies[i].genre
  {
    if movies == [] then []
    else
      var rest := AllGenres(movies[1..]);
      assert forall i :: 1 <= i < |movies| ==> movies[i] == movies[1..][i - 1];
      movies[0].genre + rest
  }

  /** `[...new Set(allGenres)]` */
  function Genres(movies: seq<MovieRow>): seq<string>
  {
    Collections.Dedupe(AllGenres(movies))
  }

  /** The chips list every genre of every movie once, in the order of
      first appearance. */
  lemma GenresListEachOnce(movies: seq<MovieRow>)
    ensures forall g :: g in Genres(movies) <==> exists i :: 0 <= i < |movies| && g in movies[i].genre
    ensures Collections.Distinct(Genres(movies))
    ensures forall i, j :: 0 <= i < j < |Genres(movies)| ==>
              Collections.FirstIndex(AllGenres(movies), Genres(movies)[i])
              < Collections.FirstIndex(AllGenres(movies), Genres(movies)[j])
  {
    Collections.DedupeFirstAppearance(AllGenres(movies));
    var all := AllGenres(movies);
    forall g ensures g in Genres(movies) <==> g in all {
      if g in all {
        var k :| 0 <= k < |all| && all[k] == g;
      }
    }
  }

  // ------------------------------------------------------------ filtering

  /** The title or director contains the query, ignoring case. */
  predicate MatchesSearch(movie: MovieRow, query: string)
  {
    Text.Includes(Text.ToLower(movie.title), Text.ToLower(query))
    || Text.Includes(Text.ToLower(movie.director), Text.ToLower(query))
  }

  /** No genre selected, or the movie has one of the selected genres. */
  predicate MatchesGenre(movie: MovieRow, selectedGenres: seq<string>)
  {
    |selectedGenres| == 0 || exists i :: 0 <= i < |movie.genre| && movie.genre[i] in selectedGenres
  }

  function Keep(filters: Filters): MovieRow -> bool
  {
    (m: MovieRow) => MatchesSearch(m, filters.query) && MatchesGenre(m, filters.selectedGenres)
  }

  /** `filteredMovies` */
  function FilteredMovies(movies: seq<MovieRow>, filters: Filters): seq<MovieRow>
  {
    Collections.Filter(movies, Keep(filters))
  }

  /** The list shown keeps the catalogue's order and holds exactly the
      movies that match both the search and the genre filter. */
  lemma FilteredMoviesExact(movies: seq<MovieRow>, filters: Filters, m: MovieRow)
    ensures Collections.IsSubsequence(FilteredMovies(movies, filters), movies)
    ensures m in FilteredMovies(movies, filters) <==>
              m in movies && MatchesSearch(m, filters.query) && MatchesGenre(m, filters.selectedGenres)
  {
    Collections.FilterIsSubsequence(movies, Keep(filters));
    Collections.FilterMembers(movies, Keep(filters), m);
  }

  /** `clearFilters`: an empty query and no selected genre. */
  function ClearFilters(): (f: Filters)
    ensures f.query == "" && f.selectedGenres == []
  {
    Filters("", [])
  }

  /** With the filters cleared, the whole catalogue is shown. */
  lemma ClearedFiltersShowAll(movies: seq<MovieRow>)
    ensures FilteredMovies(movies, ClearFilters()) == movies
  {
    forall i | 0 <= i < |movies| ensures Keep(ClearFilters())(movies[i]) {
      Text.IncludesEmpty(Text.ToLower(movies[i].title));
    }
    Collections.FilterKeepsAll(movies, Keep(ClearFilters()));
  }

  // ------------------------------------------------------------- chips

  function NotGenre(genre: string): string -> bool
  {
    (g: string) => g != genre
  }

  /** `toggleGenre(genre)`: a selected genre is removed (every copy), any
      other is appended. */
  function ToggleGenre(prev: seq<string>, genre: string): (next: seq<string>)
    ensures genre in prev ==> next == Collections.Filter(prev, NotGenre(genre))
    ensures genre !in prev ==> next == prev + [genre]
  {
    if genre in prev then Collections.Filter(prev, NotGenre(genre)) else prev + [genre]
  }

  /** A toggle flips exactly the toggled genre and keeps the chips distinct. */
  lemma ToggleGenreFlips(prev: seq<string>, genre: string)
    requires Collections.Distinct(prev)
    ensures genre in ToggleGenre(prev, genre) <==> genre !in prev
    ensures forall g :: g != genre ==> (g in ToggleGenre(prev, genre) <==> g in prev)
    ensures Collections.Distinct(ToggleGenre(prev, genre))
  {
    var next := ToggleGenre(prev, genre);
    forall g ensures g in next <==> (if g == genre then genre !in prev else g in prev) {
      if genre in prev {
        Collections.FilterMembers(prev, NotGenre(genre), g);
      }
    }
    if genre in prev {
      FilterKeepsDistinct(prev, NotGenre(genre));
    }
  }

  lemma {:induction false} FilterKeepsDistinct(xs: seq<string>, keep: string -> bool)
    requires Collections.Distinct(xs)
    ensures Collections.Distinct(Collections.Filter(xs, keep))
  {
    if xs != [] {
      FilterKeepsDistinct(xs[1..], keep);
      var r := Collections.Filter(xs[1..], keep);
      if keep(xs[0]) {
        Collections.FilterMembers(xs[1..], keep, xs[0]);
        assert xs[0] !in xs[1..];
        assert xs[0] !in r;
      }
    }
  }

  /** Toggling the same genre twice selects the same genres again; starting
      from an unselected genre it restores the very same list. */
  lemma ToggleGenreTwice(prev: seq<string>, genre: string)
    requires Collections.Distinct(prev)
    ensures forall g :: g in ToggleGenre(ToggleGenre(prev, genre), genre) <==> g in prev
    ensures genre !in prev ==> ToggleGenre(ToggleGenre(prev, genre), genre) == prev
  {
    ToggleGenreFlips(prev, genre);
    ToggleGenreFlips(ToggleGenre(prev, genre), genre);
    if genre !in prev {
      Collections.FilterAppend(prev, [genre], NotGenre(genre));
      Collections.FilterKeepsAll(prev, NotGenre(genre));
      assert Collections.Filter([genre], NotGenre(genre)) == [];
    }
  }

  // ---------------------------------------------------------- transform

  /** `transformMovie`: the card's fields under their card names, with a
      missing rating shown as 0. */
  function TransformMovie(m: MovieRow): (c: CardMovie)
    ensures m.rating.None? ==> c.rating == 0.0
    ensures m.rating.Some? ==> c.rating == m.rating.value
    ensures c.id == m.id && c.title == m.title && c.genre == m.genre && c.cast == m.castMembers
    ensures c.releaseDate == m.releaseDate && c.director == m.director && c.duration == m.duration
  {
    CardMovie(m.id, m.title, m.poster, m.backdrop, m.genre, m.duration,
              if m.rating.Some? then m.rating.value else 0.0,
              m.releaseDate, m.description, m.director, m.castMembers, m.language, m.trailerUrl)
  }
}
