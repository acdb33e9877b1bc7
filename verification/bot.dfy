/** The Telegram side of the bot (main.py): which messages start a search,
    the `id|context` data carried by the three inline buttons, the reply
    chosen when a button is pressed, and the text of that reply. */
module Bot {
  import opened Wrappers
  import opened PyStr
  import opened CallbackProxy

  /** `TITLE_NAME_STARTS`: the title begins after the five-letter command
      word and one more character. */
  const TitleNameStarts: nat := 6

  const AnimeWord := "аниме"
  const MangaWord := "манга"

  const Star := "\U{2B50}"
  const Cloud := "\U{1F4AD}"
  const ClapperBoard := "\U{1F3AC}"
  const CheckMark := "\U{2705}"
  const CrossMark := "\U{274C}"

  const NoSynopsis := "Описание отсутсвует"
  const NoScore := "У тайтла пока нет рейтинга"
  const NoGenres := "У тайтла не указаны жанры"

  // ---------------------------------------------------------------------
  // Routing of a text message

  datatype SearchCommand = SearchCommand(titleName: string, isAnime: bool)

  /** Lines 152-157 of `search_title`: a message whose lowered first five
      characters are a command word starts a search for the rest of the
      original text from index 6; `is_anime` tells which word it was. */
  function Route(text: string): Option<SearchCommand> {
    var messageText := Lower(text);
    if SliceTo(messageText, TitleNameStarts - 1) in [AnimeWord, MangaWord] then
      Some(SearchCommand(SliceFrom(text, TitleNameStarts), StartsWith(messageText, AnimeWord)))
    else None
  }

  /** The routing rule in terms of the message itself: a search exactly when
      the message has five characters that lower to a command word; an
      anime search exactly when that word is `аниме`; the title keeps its
      case. */
  lemma RouteRule(text: string)
    ensures Route(text).Some? <==> |text| >= 5 && Lower(text[..5]) in [AnimeWord, MangaWord]
    ensures Route(text).Some? ==> Route(text).value.titleName == SliceFrom(text, TitleNameStarts)
    ensures Route(text).Some? ==> (Route(text).value.isAnime <==> Lower(text[..5]) == AnimeWord)
  {
    if |text| >= 5 {
      LowerPrefix(text, 5);
    } else {
      assert |SliceTo(Lower(text), 5)| < 5;
    }
  }

  /** The character after the command word is dropped whatever it is. */
  lemma RouteDropsSixthCharacter(word: string, c: char, rest: string)
    requires |word| == 5 && Lower(word) in [AnimeWord, MangaWord]
    ensures Route(word + [c] + rest) == Some(SearchCommand(rest, Lower(word) == AnimeWord))
  {
    var text := word + [c] + rest;
    assert text[..5] == word;
    assert text[6..] == rest;
    RouteRule(text);
  }

  /** A capitalised command word routes, and the title keeps its case. */
  lemma RouteCapitalisedExample()
    ensures Route("Аниме Claymore") == Some(SearchCommand("Claymore", true))
  {
    assert Lower("Аниме") == AnimeWord by {
      assert forall i :: 0 <= i < 5 ==> Lower("Аниме")[i] == AnimeWord[i];
    }
    RouteDropsSixthCharacter("Аниме", ' ', "Claymore");
    assert "Аниме Claymore" == "Аниме" + [' '] + "Claymore";
  }

  /** An upper-case command word routes too. */
  lemma RouteUpperCaseExample()
    ensures Route("МАНГА Berserk") == Some(SearchCommand("Berserk", false))
  {
    assert Lower("МАНГА") == MangaWord by {
      assert forall i :: 0 <= i < 5 ==> Lower("МАНГА")[i] == MangaWord[i];
    }
    RouteDropsSixthCharacter("МАНГА", ' ', "Berserk");
    assert "МАНГА Berserk" == "МАНГА" + [' '] + "Berserk";
  }

  /** The bare command word routes with an empty title, and a greeting does
      not route. */
  lemma RouteEdgeExamples()
    ensures Route("аниме") == Some(SearchCommand("", true))
    ensures Route("Привет") == None
  {
    assert Lower("аниме") == AnimeWord by {
      assert forall i :: 0 <= i < 5 ==> Lower("аниме")[i] == AnimeWord[i];
    }
    assert "аниме"[..5] == "аниме";
    RouteRule("аниме");
    assert Lower("Привет"[..5]) == "приве";
    RouteRule("Привет");
  }

  // ---------------------------------------------------------------------
  // Callback data of the inline keyboard

  datatype ButtonContext = SynopsisButton | ScoreButton | GenreButton

  const Contexts := [SynopsisButton, ScoreButton, GenreButton]

  function ContextName(ctx: ButtonContext): string {
    match ctx
    case SynopsisButton => "synopsis"
    case ScoreButton => "score"
    case GenreButton => "genre"
  }

  /** `f'{callback_id}|{context}'` */
  function CallbackData(callbackId: int, ctx: ButtonContext): string {
    IntToString(callbackId) + "|" + ContextName(ctx)
  }

  /** Lines 200-201: split on `|` and take the first two pieces; fewer than
      two pieces raise IndexError. */
  function SplitCallbackData(data: string): Result<(string, string), PyException> {
    var splitted := Split(data, "|");
    if |splitted| < 2 then Failure(IndexError) else Success((splitted[0], splitted[1]))
  }

  /** Splitting fails exactly when the data holds no `|`. */
  lemma SplitCallbackDataFails(data: string)
    ensures SplitCallbackData(data).Failure? <==> !Contains(data, "|")
  {
  }

  /** The data of a button splits back into the id's text, which reads back
      as the id, and the context's name. */
  lemma CallbackDataRoundTrip(callbackId: int, ctx: ButtonContext)
    ensures SplitCallbackData(CallbackData(callbackId, ctx)) == Success((IntToString(callbackId), ContextName(ctx)))
    ensures IntValue(IntToString(callbackId)) == callbackId
  {
    var id := IntToString(callbackId);
    var name := ContextName(ctx);
    IntToStringRoundTrip(callbackId);
    CharSafe(id, '|');
    CharSafe(name, '|');
    var parts := [id, name];
    assert parts[1..] == [name];
    assert Join(parts, "|") == CallbackData(callbackId, ctx);
    SplitJoin(parts, "|");
  }

  datatype Button = Button(text: string, callbackData: string)

  function Label(ctx: ButtonContext): string {
    match ctx
    case SynopsisButton => Cloud + " Описание " + Cloud
    case ScoreButton => Star + " Рейтинг " + Star
    case GenreButton => ClapperBoard + " Жанры " + ClapperBoard
  }

  /** `get_inline_keyboard(callback_id)`: one button per context, one per
      row, each carrying data that splits back into the id and its own
      context. */
  function InlineKeyboard(callbackId: int): (markup: seq<Button>)
    ensures |markup| == |Contexts|
    ensures forall k :: 0 <= k < |markup| ==>
      SplitCallbackData(markup[k].callbackData) == Success((IntToString(callbackId), ContextName(Contexts[k])))
  {
    forall k | 0 <= k < |Contexts|
      ensures SplitCallbackData(CallbackData(callbackId, Contexts[k])) == Success((IntToString(callbackId), ContextName(Contexts[k])))
    {
      CallbackDataRoundTrip(callbackId, Contexts[k]);
    }
    seq(|Contexts|, k requires 0 <= k < |Contexts| => Button(Label(Contexts[k]), CallbackData(callbackId, Contexts[k])))
  }

  /** The three contexts have different names, so each button is told apart. */
  lemma ContextNamesDistinct(a: ButtonContext, b: ButtonContext)
    ensures ContextName(a) == ContextName(b) <==> a == b
  {
  }

  // ---------------------------------------------------------------------
  // Reply selection

  /** A stored score is falsy when it is zero. */
  predicate ScoreTruthy(score: string) {
    score != "0.0" && score != "-0.0"
  }

  /** Lines 203-229: `(title_info, title_error)` for a row and the pressed
      button's context. */
  function Selection(callback: Callback, buttonContext: string): (string, string) {
    if buttonContext == "synopsis" then
      if callback.titleSynopsis != "" then (callback.titleSynopsis, "") else ("", NoSynopsis)
    else if buttonContext == "score" then
      if ScoreTruthy(callback.titleScore) then (callback.titleScore + " " + Star, "") else ("", NoScore)
    else if buttonContext == "genre" then
      if callback.titleGenres != "" then (callback.titleGenres, "") else ("", NoGenres)
    else ("", "")
  }

  /** The message for a context when its field is missing. */
  function MissingMessage(ctx: ButtonContext): string {
    match ctx
    case SynopsisButton => NoSynopsis
    case ScoreButton => NoScore
    case GenreButton => NoGenres
  }

  /** Whether the row has something to show for a context. */
  predicate HasField(callback: Callback, ctx: ButtonContext) {
    match ctx
    case SynopsisButton => callback.titleSynopsis != ""
    case ScoreButton => ScoreTruthy(callback.titleScore)
    case GenreButton => callback.titleGenres != ""
  }

  /** For every button exactly one of info and error is set: the info when
      the row has the field, that context's message otherwise. The score
      info is the stored text followed by a star; a zero score gives the
      no-score message. */
  lemma SelectionTable(callback: Callback, ctx: ButtonContext)
    ensures var (info, error) := Selection(callback, ContextName(ctx));
      && ((info == "") <==> (error != ""))
      && (error == "" <==> HasField(callback, ctx))
      && (error != "" ==> error == MissingMessage(ctx))
      && (ctx == SynopsisButton && error == "" ==> info == callback.titleSynopsis)
      && (ctx == GenreButton && error == "" ==> info == callback.titleGenres)
      && (ctx == ScoreButton && error == "" ==> info == callback.titleScore + " " + Star)
  {
  }

  /** Any other context leaves both empty. */
  lemma UnknownContextSelectsNothing(callback: Callback, buttonContext: string)
    requires forall ctx :: ContextName(ctx) != buttonContext
    ensures Selection(callback, buttonContext) == ("", "")
  {
    assert ContextName(SynopsisButton) != buttonContext;
    assert ContextName(ScoreButton) != buttonContext;
    assert ContextName(GenreButton) != buttonContext;
  }

  // ---------------------------------------------------------------------
  // Message text

  /** `construct_message(title_name, title_info)` */
  function ConstructMessage(titleName: string, titleInfo: string): string {
    "*" + titleName + "*\n\n" + titleInfo
  }

  /** Reads the bold first line and the body back from a message. */
  function ReadMessage(m: string): Option<(string, string)> {
    if |m| > 0 && m[0] == '*' then
      var k := IndexOf(m[1..], "*");
      if k >= 0 && StartsWith(m[1 + k..], "*\n\n") then Some((m[1..1 + k], m[4 + k..])) else None
    else None
  }

  /** A title name without `*` and any body are read back from the message. */
  lemma ConstructMessageRoundTrip(titleName: string, titleInfo: string)
    requires forall i :: 0 <= i < |titleName| ==> titleName[i] != '*'
    ensures ReadMessage(ConstructMessage(titleName, titleInfo)) == Some((titleName, titleInfo))
  {
    var m := ConstructMessage(titleName, titleInfo);
    var rest := m[1..];
    assert rest == titleName + "*\n\n" + titleInfo;
    forall j | 0 <= j < |titleName|
      ensures !OccursAt(rest, "*", j)
    {
      assert rest[j] == titleName[j];
    }
    assert OccursAt(rest, "*", |titleName|) by {
      assert rest[|titleName|] == '*';
    }
    FindIs(rest, "*", |titleName|);
    var k := |titleName|;
    assert m[1 + k..] == "*\n\n" + titleInfo;
    assert m[1..1 + k] == titleName;
    assert m[4 + k..] == titleInfo;
  }

  /** `send_message` as written: the title line gets a check mark when
      there is no error and a cross otherwise, and the body is the info
      alone, so the error text never reaches the user. */
  function SendMessageTextAsWritten(titleName: string, titleInfo: string, titleError: string): string {
    var titleNameCheck := titleName + " " + (if titleError == "" then CheckMark else CrossMark);
    ConstructMessage(titleNameCheck, titleInfo)
  }

  /** The reply the button handler's docstring describes: the error text is
      the body when there is one. */
  function SendMessageText(titleName: string, titleInfo: string, titleError: string): string {
    var titleNameCheck := titleName + " " + (if titleError == "" then CheckMark else CrossMark);
    ConstructMessage(titleNameCheck, if titleError == "" then titleInfo else titleError)
  }

  /** As written, which error was found makes no difference to the text,
      and a missing synopsis is answered by the title line alone. */
  lemma ErrorTextDroppedAsWritten(titleName: string, titleInfo: string, e1: string, e2: string)
    requires e1 != "" && e2 != ""
    ensures SendMessageTextAsWritten(titleName, titleInfo, e1) == SendMessageTextAsWritten(titleName, titleInfo, e2)
    ensures SendMessageTextAsWritten("Claymore", "", NoSynopsis) == "*Claymore " + CrossMark + "*\n\n"
    ensures !Contains(SendMessageTextAsWritten("Claymore", "", NoSynopsis), NoSynopsis)
  {
    var m := SendMessageTextAsWritten("Claymore", "", NoSynopsis);
    assert |m| < |NoSynopsis|;
  }

  /** The title line: the name, a space and the mark; it holds a `*` only
      where the name does. */
  lemma TitleLineHasNoStar(titleName: string, mark: string)
    requires forall i :: 0 <= i < |titleName| ==> titleName[i] != '*'
    requires mark == CheckMark || mark == CrossMark
    ensures forall i :: 0 <= i < |titleName + " " + mark| ==> (titleName + " " + mark)[i] != '*'
  {
    var line := titleName + " " + mark;
    assert forall i :: 0 <= i < |titleName| ==> line[i] == titleName[i];
  }

  /** As written, the reply marks success exactly when there is no error,
      and its body is the info whatever the error: a title without `*` and
      the info are read back from it. */
  lemma SendMessageTextAsWrittenShows(titleName: string, titleInfo: string, titleError: string)
    requires forall i :: 0 <= i < |titleName| ==> titleName[i] != '*'
    ensures var mark := if titleError == "" then CheckMark else CrossMark;
      ReadMessage(SendMessageTextAsWritten(titleName, titleInfo, titleError)) == Some((titleName + " " + mark, titleInfo))
  {
    var mark := if titleError == "" then CheckMark else CrossMark;
    TitleLineHasNoStar(titleName, mark);
    ConstructMessageRoundTrip(titleName + " " + mark, titleInfo);
  }

  /** The reply marks success exactly when there is no error, and its body
      is the info then and the error text otherwise; a title without `*`
      is read back from it. */
  lemma SendMessageTextShows(titleName: string, titleInfo: string, titleError: string)
    requires forall i :: 0 <= i < |titleName| ==> titleName[i] != '*'
    ensures var mark := if titleError == "" then CheckMark else CrossMark;
      ReadMessage(SendMessageText(titleName, titleInfo, titleError))
        == Some((titleName + " " + mark, if titleError == "" then titleInfo else titleError))
  {
    var mark := if titleError == "" then CheckMark else CrossMark;
    TitleLineHasNoStar(titleName, mark);
    ConstructMessageRoundTrip(titleName + " " + mark, if titleError == "" then titleInfo else titleError);
  }

  /** Whatever the title, an error's text is part of the reply. */
  lemma SendMessageTextHasError(titleName: string, titleInfo: string, titleError: string)
    requires titleError != ""
    ensures Contains(SendMessageText(titleName, titleInfo, titleError), titleError)
  {
    var m := SendMessageText(titleName, titleInfo, titleError);
    assert m[|m| - |titleError|..] == titleError;
    assert OccursAt(m, titleError, |m| - |titleError|);
  }

  /** `send_message(chat_id, title_name, title_info, title_error)` with its
      correction: the title line is built by reassigning it as the source
      does, and the body is the error text when there is one (the source
      always sends the info). */
  method SendMessage(chatId: int, titleName: string, titleInfo: string, titleError: string) returns (sent: Outcome)
    ensures sent == Sent(chatId, SendMessageText(titleName, titleInfo, titleError))
  {
    var titleNameCheck;
    var body := titleInfo;
    if titleError == "" {
      titleNameCheck := titleName + " " + CheckMark;
    } else {
      titleNameCheck := titleName + " " + CrossMark;
      body := titleError;
    }
    sent := Sent(chatId, ConstructMessage(titleNameCheck, body));
  }

  // ---------------------------------------------------------------------
  // The button handler

  /** What pressing a button leads to: a message sent to a chat, nothing,
      or an exception escaping the handler. */
  datatype Outcome = Sent(chatId: int, text: string) | Ignored | Crash(exception: PyException)

  /** `callback_title` as written: a row missing from the store makes the
      warning at line 207 read `chat_id` from None. `lookup` is
      `get_callback_by_id`. */
  function CallbackTitleAsWritten(data: string, lookup: string -> Option<Callback>): Outcome {
    match SplitCallbackData(data)
    case Failure(e) => Crash(e)
    case Success((callbackId, buttonContext)) =>
      var callback := lookup(callbackId);
      if callback.None? then Crash(AttributeError)
      else
        var (info, error) := Selection(callback.value, buttonContext);
        Sent(callback.value.chatId, SendMessageTextAsWritten(callback.value.titleName, info, error))
  }

  /** The handler as its code means it: a missing row ends the handler
      without a reply, and a missing field is reported with its message. */
  function CallbackReply(data: string, lookup: string -> Option<Callback>): Outcome {
    match SplitCallbackData(data)
    case Failure(e) => Crash(e)
    case Success((callbackId, buttonContext)) =>
      var callback := lookup(callbackId);
      if callback.None? then Ignored
      else
        var (info, error) := Selection(callback.value, buttonContext);
        Sent(callback.value.chatId, SendMessageText(callback.value.titleName, info, error))
  }

  /** As written, any button whose row is gone raises AttributeError; the
      intended handler sends nothing. */
  lemma MissCrashesAsWritten(callbackId: int, ctx: ButtonContext, lookup: string -> Option<Callback>)
    requires lookup(IntToString(callbackId)).None?
    ensures CallbackTitleAsWritten(CallbackData(callbackId, ctx), lookup) == Crash(AttributeError)
    ensures CallbackReply(CallbackData(callbackId, ctx), lookup) == Ignored
  {
    CallbackDataRoundTrip(callbackId, ctx);
  }

  /** The written and the intended handler send the same text whenever the
      row has the field asked for, and the intended one names the missing
      field otherwise. */
  lemma HandlersAgreeOnHits(callbackId: int, ctx: ButtonContext, lookup: string -> Option<Callback>)
    requires lookup(IntToString(callbackId)).Some?
    ensures var callback := lookup(IntToString(callbackId)).value;
      var r := CallbackReply(CallbackData(callbackId, ctx), lookup);
      && r.Sent? && r.chatId == callback.chatId
      && (HasField(callback, ctx) ==> r == CallbackTitleAsWritten(CallbackData(callbackId, ctx), lookup))
      && (!HasField(callback, ctx) ==> Contains(r.text, MissingMessage(ctx)))
  {
    CallbackDataRoundTrip(callbackId, ctx);
    var callback := lookup(IntToString(callbackId)).value;
    SelectionTable(callback, ctx);
    var (info, error) := Selection(callback, ContextName(ctx));
    if error != "" {
      SendMessageTextHasError(callback.titleName, info, error);
    }
  }

  /** `callback_title(call)` as intended: the if-chain of the source
      reassigns `title_info` and `title_error`, then the reply is sent. */
  method CallbackTitle(data: string, lookup: string -> Option<Callback>) returns (outcome: Outcome)
    ensures outcome == CallbackReply(data, lookup)
  {
    var splitted := Split(data, "|");
    if |splitted| < 2 {
      return Crash(IndexError);
    }
    var callbackId, buttonContext := splitted[0], splitted[1];
    var found := lookup(callbackId);
    var titleInfo := "";
    var titleError := "";
    if found.None? {
      return Ignored;
    }
    var callback := found.value;
    if buttonContext == "synopsis" {
      if callback.titleSynopsis != "" {
        titleInfo := callback.titleSynopsis;
      } else {
        titleError := NoSynopsis;
      }
    }
    if buttonContext == "score" {
      if ScoreTruthy(callback.titleScore) {
        titleInfo := callback.titleScore + " " + Star;
      } else {
        titleError := NoScore;
      }
    }
    if buttonContext == "genre" {
      if callback.titleGenres != "" {
        titleInfo := callback.titleGenres;
      } else {
        titleError := NoGenres;
      }
    }
    assert (titleInfo, titleError) == Selection(callback, buttonContext);
    outcome := SendMessage(callback.chatId, callback.titleName, titleInfo, titleError);
  }
}
