/**
 * The movie list of the router-based home page (`src/pages/HomePage.jsx`): the genre and text
 * filters over the fetched movies, the genre list offered as filter buttons, and the duration
 * label. The movies come from a mock JSON server, not from the database, so they have their
 * own record here with a text description.
 */
module HomePage {
  import opened JsLib
  import opened Grouping

  datatype MovieCard = MovieCard(id: int, title: string, description: string, genre: string, duration: int)

  /** The genre button that turns the genre filter off. */
  const AllGenres := "all"

  function GenreOf(m: MovieCard): string { m.genre }

  /** The genre filter's condition. */
  function GenreIs(genre: string): MovieCard -> bool {
    (m: MovieCard) => m.genre == genre
  }

  /** The text filter's condition, for a query already lower-cased. */
  function MentionsQuery(query: string): MovieCard -> bool {
    (m: MovieCard) => Contains(ToLower(m.title), query) || Contains(ToLower(m.description), query)
         || Contains(ToLower(m.genre), query)
  }

  /**
   * The filter effect: the genre filter unless "all" is selected, then the text filter unless
   * the search text is only white space. The query is lower-cased but not trimmed.
   */
  function FilteredMovies(movies: seq<MovieCard>, selectedGenre: string, searchQuery: string): seq<MovieCard> {
    var byGenre := if selectedGenre != AllGenres then Filter(movies, GenreIs(selectedGenre)) else movies;
    if Trim(searchQuery) != [] then Filter(byGenre, MentionsQuery(ToLower(searchQuery))) else byGenre
  }

  /** Whether a movie is shown: it passes both filters. */
  predicate Shown(selectedGenre: string, searchQuery: string, m: MovieCard) {
    && (selectedGenre == AllGenres || m.genre == selectedGenre)
    && (Trim(searchQuery) == [] || MentionsQuery(ToLower(searchQuery))(m))
  }

  function ShownBy(selectedGenre: string, searchQuery: string): MovieCard -> bool {
    (m: MovieCard) => Shown(selectedGenre, searchQuery, m)
  }

  /**
   * The two filters together keep, in their original order, exactly the movies that pass both:
   * "all" with a blank search keeps every movie, and a genre alone keeps that genre's movies.
   */
  lemma FilteredMoviesSpec(movies: seq<MovieCard>, selectedGenre: string, searchQuery: string)
    ensures FilteredMovies(movies, selectedGenre, searchQuery) == Filter(movies, ShownBy(selectedGenre, searchQuery))
    ensures forall m :: m in FilteredMovies(movies, selectedGenre, searchQuery) <==> m in movies && Shown(selectedGenre, searchQuery, m)
    ensures selectedGenre == AllGenres && Trim(searchQuery) == [] ==> FilteredMovies(movies, selectedGenre, searchQuery) == movies
    ensures Trim(searchQuery) == [] ==>
      FilteredMovies(movies, selectedGenre, searchQuery) == if selectedGenre == AllGenres then movies else Filter(movies, GenreIs(selectedGenre))
  {
    var shown := ShownBy(selectedGenre, searchQuery);
    var query := MentionsQuery(ToLower(searchQuery));
    if selectedGenre == AllGenres {
      if Trim(searchQuery) == [] {
        FilterAll(movies, shown);
      } else {
        FilterSame(movies, query, shown);
      }
    } else {
      var genre := GenreIs(selectedGenre);
      if Trim(searchQuery) == [] {
        FilterSame(movies, genre, shown);
      } else {
        FilterFilter(movies, genre, query, shown);
      }
    }
    var r := FilteredMovies(movies, selectedGenre, searchQuery);
    forall m | m in movies && Shown(selectedGenre, searchQuery, m) ensures m in r {
      var i :| 0 <= i < |movies| && movies[i] == m;
    }
  }

  /** `Array.from(new Set(data.map(movie => movie.genre)))`. */
  function UniqueGenres(movies: seq<MovieCard>): seq<string> {
    DistinctKeys(movies, GenreOf)
  }

  /**
   * Every genre of the fetched movies is listed exactly once, nothing else is listed, and the
   * genres of the first `j` movies come first: the list is in order of first appearance.
   */
  lemma UniqueGenresSpec(movies: seq<MovieCard>, j: nat)
    requires j <= |movies|
    ensures forall g :: g in UniqueGenres(movies) <==> exists i :: 0 <= i < |movies| && movies[i].genre == g
    ensures NoDuplicates(UniqueGenres(movies))
    ensures UniqueGenres(movies[..j]) <= UniqueGenres(movies)
  {
    DistinctKeysPrefix(movies, GenreOf, j);
    forall g | exists i :: 0 <= i < |movies| && movies[i].genre == g ensures g in UniqueGenres(movies) {
      var i :| 0 <= i < |movies| && movies[i].genre == g;
      assert GenreOf(movies[i]) == g;
    }
  }

  /** The text `${hours}h ${mins}m`. */
  function DurationText(hours: int, mins: int): (r: string)
    ensures |r| == |IntToString(hours)| + 3 + |IntToString(mins)|
  {
    var r := IntToString(hours) + ['h', ' '] + IntToString(mins) + ['m'];
    assert |r| == |IntToString(hours)| + 3 + |IntToString(mins)|;
    r
  }

  /** `parseInt` reads the hours from the text, and the minutes from what follows "h ". */
  lemma DurationTextReadsBack(hours: int, mins: int)
    ensures ParseInt(DurationText(hours, mins)) == Some(hours)
    ensures DurationText(hours, mins)[|IntToString(hours)|..|IntToString(hours)| + 2] == "h "
    ensures ParseInt(DurationText(hours, mins)[|IntToString(hours)| + 2..]) == Some(mins)
  {
    var hoursText, minsText := IntToString(hours), IntToString(mins);
    assert DurationText(hours, mins) == hoursText + ['h', ' '] + minsText + ['m'];
    HoursReadBack(hours, minsText);
    MinutesReadBack(hoursText, mins);
    Separator(hoursText, minsText);
  }

  lemma HoursReadBack(hours: int, minsText: string)
    ensures ParseInt(IntToString(hours) + ['h', ' '] + minsText + ['m']) == Some(hours)
  {
    assert IntToString(hours) + ['h', ' '] + minsText + ['m'] == IntToString(hours) + (['h', ' '] + minsText + ['m']);
    ParseIntOfIntToStringThen(hours, ['h', ' '] + minsText + ['m']);
  }

  lemma MinutesReadBack(hoursText: string, mins: int)
    ensures ParseInt((hoursText + ['h', ' '] + IntToString(mins) + ['m'])[|hoursText| + 2..]) == Some(mins)
  {
    assert (hoursText + ['h', ' '] + IntToString(mins) + ['m'])[|hoursText| + 2..] == IntToString(mins) + ['m'];
    ParseIntOfIntToStringThen(mins, ['m']);
  }

  lemma Separator(hoursText: string, minsText: string)
    ensures (hoursText + ['h', ' '] + minsText + ['m'])[|hoursText|..|hoursText| + 2] == "h "
  {
    var text := hoursText + ['h', ' '] + minsText + ['m'];
    assert text[|hoursText|..|hoursText| + 2] == ['h', ' '];
  }

  /** `formatDuration`: whole hours (`Math.floor`) and the JavaScript remainder of the minutes. */
  function FormatDuration(minutes: int): string {
    DurationText(minutes / 60, JsRem(minutes, 60))
  }

  /**
   * The label reads back as the hours and the minutes: `parseInt` of the label is the floored
   * hour count, and of the text after "h " the minutes. For a non-negative duration they make
   * up the duration with fewer than 60 minutes; a negative one shows a minute count with the
   * duration's sign.
   */
  lemma FormatDurationSpec(minutes: int)
    ensures var n := |IntToString(minutes / 60)|;
      && ParseInt(FormatDuration(minutes)) == Some(minutes / 60)
      && FormatDuration(minutes)[n..n + 2] == "h "
      && ParseInt(FormatDuration(minutes)[n + 2..]) == Some(JsRem(minutes, 60))
    ensures minutes >= 0 ==> (minutes / 60) * 60 + JsRem(minutes, 60) == minutes && 0 <= JsRem(minutes, 60) < 60
    ensures minutes < 0 ==> -60 < JsRem(minutes, 60) <= 0
  {
    DurationTextReadsBack(minutes / 60, JsRem(minutes, 60));
  }
}
