/**
 * The result keyboard of the movie search: one button per search result, its
 * label `"{title} ({year})"` and its callback data `"movie_{id}"`, and the
 * decoding of that callback data when a button is pressed.
 */
module Search {
  import opened Wrappers
  import opened Text

  /** One entry of the search API's `results` list; `releaseDate` is absent when the key is missing. */
  datatype MovieResult = MovieResult(id: int, title: string, releaseDate: Option<string>)

  /** An inline keyboard button: the text shown and the data sent back when it is pressed. */
  datatype Button = Button(text: string, callbackData: string)

  /** The reply to a search query: a keyboard with one row per result, or "nothing found". */
  datatype SearchReply = Choose(keyboard: seq<seq<Button>>) | NothingFound

  /** The prefix that both the encoder and the button-press route use. */
  const CallbackPrefix: string := "movie_"

  /**
   * The year shown in a label: the release date cut to at most four characters
   * (Python's `[:4]`), or `"????"` when the result has no release date.
   */
  function Year(releaseDate: Option<string>): (y: string)
    ensures releaseDate.None? ==> y == "????"
    ensures releaseDate.Some? ==> y <= releaseDate.value
    ensures releaseDate.Some? ==> |y| == if |releaseDate.value| < 4 then |releaseDate.value| else 4
  {
    var date := releaseDate.GetOr("????");
    if |date| <= 4 then date else date[..4]
  }

  /** The button label `"{title} ({year})"`: the title, then the year in parentheses. */
  function Label(title: string, releaseDate: Option<string>): (text: string)
    ensures |title| + 3 <= |text| <= |title| + 7
    ensures text[..|title|] == title && text[|text| - 1] == ')'
    ensures text[|title|..|title| + 2] == " (" && text[|title| + 2..|text| - 1] == Year(releaseDate)
  {
    title + " (" + Year(releaseDate) + ")"
  }

  /** The callback data `"movie_{id}"` of the button for movie `id`. */
  function CallbackData(id: int): (data: string)
    ensures |data| > |CallbackPrefix| && data[..|CallbackPrefix|] == CallbackPrefix
  {
    CallbackPrefix + IntToDecimal(id)
  }

  /**
   * What the selection handler reads out of the callback data: the second
   * `_`-separated field (`data.split("_")[1]`), or None where Python raises
   * `IndexError` because there is no `_` at all.
   */
  function DecodeCallback(data: string): (id: Option<string>)
    ensures id.Some? <==> '_' in data
    ensures id.Some? ==> '_' !in id.value
  {
    var parts := Split(data, '_');
    SplitFindsSeparator(data, '_');
    if |parts| >= 2 then Some(parts[1]) else None
  }

  /** The button for one search result. */
  function ButtonFor(m: MovieResult): Button {
    Button(Label(m.title, m.releaseDate), CallbackData(m.id))
  }

  /** Decoding the callback data of movie `id` gives back the decimal numeral of `id`. */
  lemma CallbackRoundTrip(id: int)
    ensures DecodeCallback(CallbackData(id)) == Some(IntToDecimal(id))
    ensures ParseInt(DecodeCallback(CallbackData(id)).value) == id
  {
    var digits := IntToDecimal(id);
    assert '_' !in digits;
    assert CallbackData(id) == "movie" + ['_'] + digits;
    SplitAtFirst("movie", '_', digits);
    SplitWithoutSeparator(digits, '_');
    IntRoundTrip(id);
  }

  /** Distinct movies get distinct callback data, so a pressed button names exactly one movie. */
  lemma CallbackDataInjective(a: int, b: int)
    ensures CallbackData(a) == CallbackData(b) ==> a == b
  {
    if CallbackData(a) == CallbackData(b) {
      CallbackRoundTrip(a);
      CallbackRoundTrip(b);
    }
  }

  /**
   * Any data the button-press route accepts (it starts with `movie_`) decodes
   * without an `IndexError`, to the text between the first and second `_`.
   */
  lemma RoutedDataDecodes(data: string)
    requires |data| >= |CallbackPrefix| && data[..|CallbackPrefix|] == CallbackPrefix
    ensures DecodeCallback(data) == Some(Split(data[|CallbackPrefix|..], '_')[0])
  {
    var rest := data[|CallbackPrefix|..];
    assert data == "movie" + ['_'] + rest;
    SplitAtFirst("movie", '_', rest);
  }

  /**
   * The search handler: when the response has a non-empty `results` list,
   * build the keyboard one row per result, in result order; otherwise reply
   * "nothing found".
   */
  method SearchMovie(results: Option<seq<MovieResult>>) returns (reply: SearchReply)
    ensures reply.NothingFound? <==> results.None? || results.value == []
    ensures reply.Choose? ==> |reply.keyboard| == |results.value|
    ensures reply.Choose? ==> forall i :: 0 <= i < |reply.keyboard| ==>
              reply.keyboard[i] == [ButtonFor(results.value[i])]
    ensures reply.Choose? ==> forall i :: 0 <= i < |reply.keyboard| ==>
              DecodeCallback(reply.keyboard[i][0].callbackData) == Some(IntToDecimal(results.value[i].id))
  {
    if results.None? || results.value == [] {
      return NothingFound;
    }
    var movies := results.value;
    var keyboard: seq<seq<Button>> := [];
    for k := 0 to |movies|
      invariant |keyboard| == k
      invariant forall i :: 0 <= i < k ==> keyboard[i] == [ButtonFor(movies[i])]
    {
      var movie := movies[k];
      var button := Button(Label(movie.title, movie.releaseDate), CallbackData(movie.id));
      keyboard := keyboard + [[button]];
    }
    forall i | 0 <= i < |keyboard|
      ensures DecodeCallback(keyboard[i][0].callbackData) == Some(IntToDecimal(movies[i].id))
    {
      CallbackRoundTrip(movies[i].id);
    }
    reply := Choose(keyboard);
  }
}
