/** The bot's callback store (ShikiBotDB): the row it keeps per sent title
    and `get_genres_ready`, which turns the genre list into the one text
    column the row holds. */
module CallbackProxy {
  import opened PyStr

  const GenreSeparator := ", "

  /** `get_genres_ready(genres)`: `', '.join(genres)`. */
  function GenresReady(genres: seq<string>): string {
    Join(genres, GenreSeparator)
  }

  /** Total length of the pieces. */
  function TotalLength(xs: seq<string>): nat {
    if xs == [] then 0 else |xs[0]| + TotalLength(xs[1..])
  }

  /** The joined text is as long as the genres together plus two characters
      per separator. */
  lemma {:induction false} GenresReadyLength(genres: seq<string>)
    requires |genres| > 0
    ensures |GenresReady(genres)| == TotalLength(genres) + 2 * (|genres| - 1)
    decreases |genres|
  {
    if |genres| > 1 {
      GenresReadyLength(genres[1..]);
    }
  }

  /** The docstring's example, the empty list and a single genre. */
  lemma GenresReadyExamples(genre: string)
    ensures GenresReady([]) == ""
    ensures GenresReady([genre]) == genre
    ensures GenresReady(["first", "second", "third"]) == "first, second, third"
  {
    assert ["first", "second", "third"][1..] == ["second", "third"];
    assert ["second", "third"][1..] == ["third"];
  }

  /** The text is empty exactly when there is no genre or one empty genre. */
  lemma GenresReadyEmpty(genres: seq<string>)
    ensures GenresReady(genres) == "" <==> genres == [] || genres == [""]
  {
    if |genres| > 1 {
      GenresReadyLength(genres);
    }
  }

  /** When no genre contains ", ", splitting the text on ", " gives back the
      list, in order and with repetitions. */
  lemma GenresReadyRoundTrip(genres: seq<string>)
    requires |genres| > 0
    requires forall k :: 0 <= k < |genres| ==> !Contains(genres[k], GenreSeparator)
    ensures Split(GenresReady(genres), GenreSeparator) == genres
  {
    forall k | 0 <= k < |genres|
      ensures SplitSafe(genres[k], GenreSeparator)
    {
      CommaSpaceSafe(genres[k]);
    }
    SplitJoin(genres, GenreSeparator);
  }

  /** One stored callback row. The score column holds a float; the model
      keeps the text `str()` gives for it. */
  datatype Callback = Callback(chatId: int, titleName: string, titleScore: string, titleSynopsis: string, titleGenres: string)

  /** The row `add_callback` stores: every field as given, except that the
      genre list is stored as its joined text, which is empty exactly when
      the list has nothing to show and splits back into the list when no
      genre holds the separator. */
  function NewCallback(chatId: int, titleName: string, titleScore: string, titleSynopsis: string, titleGenres: seq<string>): (c: Callback)
    ensures c.chatId == chatId && c.titleName == titleName && c.titleScore == titleScore && c.titleSynopsis == titleSynopsis
    ensures c.titleGenres == "" <==> titleGenres == [] || titleGenres == [""]
    ensures |titleGenres| > 0 && (forall k :: 0 <= k < |titleGenres| ==> !Contains(titleGenres[k], GenreSeparator))
            ==> Split(c.titleGenres, GenreSeparator) == titleGenres
  {
    GenresReadyEmpty(titleGenres);
    var c := Callback(chatId, titleName, titleScore, titleSynopsis, GenresReady(titleGenres));
    if |titleGenres| > 0 && (forall k :: 0 <= k < |titleGenres| ==> !Contains(titleGenres[k], GenreSeparator)) then
      GenresReadyRoundTrip(titleGenres);
      c
    else
      c
  }
}
