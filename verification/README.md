# ShikiBot: title resolution and bot protocol, in Dafny

ShikiBot is a Telegram bot that looks up anime and manga on the Shikimori
catalog (https://shikimori.one). A user writes `Аниме <title>` or
`Манга <title>`. The bot then:

- validates the title and searches the catalog for it;
- recognises whether the answer is already the title page or a list of
  results;
- loads the title page and reads off its name, image, score, genres and
  synopsis;
- stores them as a callback row and answers with a photo and three inline
  buttons (synopsis, score, genres).

Pressing a button sends the stored field, or a message saying that it is
missing.

This project models that core:

- `title_validator.dfy` (`TitleValidator`): the full-match title pattern of
  `ShikiParser.is_title_valid`. It is written as a grammar of words and
  single whitespace separators, and proved equal to a character-level
  description.
- `parser.dfy` (`Parser`): the search pattern, the search URL,
  `is_already_title`, the three-way decision on a search answer, and the
  whole of `search_title`.
  - `Resolve` states the result of `search_title` and the requests it
    issues, as a function.
  - The class `ShikiParser` performs the same steps on its `headers` field.
- `manga.dfy` (`MangaPage`): how a title page becomes a record (`ExtractRecord`,
  with its rules in `ExtractionOutcome` and one lemma per field), and the class `Manga`. The class's
  constructor and property setters assign its fields one at a time, as the
  Python class does.
- `http.dfy` (`Http`): header maps, requests, and the user-agent rotation
  both classes perform.
- `document.dfy` (`Document`): the parsed page as a sequence of elements
  (tag, classes, attributes, text). `find_all` is the matching elements in
  document order, and `find` is the first of them.
- `parser_errors.dfy` (`ParserErrors`): `TitleNameFormatError` and
  `TitleNotFoundError` and their messages.
- `callback_proxy.dfy` (`CallbackProxy`): `get_genres_ready` and the stored
  callback row.
- `bot.dfy` (`Bot`): the command routing, the `id|context` callback data,
  the reply chosen per button, and the reply text.
- `pystr.dfy` (`PyStr`) and `wrappers.dfy` (`Wrappers`) hold the helpers.
  - `PyStr` models the Python `str` operations the code uses: `lower`,
    `replace`, `find`, `split`, `join`, `startswith`, `endswith`, slicing
    and `str(int)`.
  - `Wrappers` holds `Option`, `Result`, and `PyException`, the exceptions
    the code lets escape.

The network, the HTML parser and the random draw are inputs:

- **Network:** `server(url, headers)` gives the body of a GET.
- **HTML parser:** `parse(html)` gives the element sequence BeautifulSoup
  would produce.
- **Random draw:** `pick` is the index `randint` returned.
- **Request log:** a ghost log of requests records which fetches happen.

Exceptions the code does not catch are modelled as outcomes:

- a page without `h1` gives `AttributeError`;
- a result link without `href` gives `KeyError`;
- an image without `src` gives `KeyError`;
- an empty user-agent pool gives `ValueError`;
- callback data without `|` gives `IndexError`.

Behaviours of the code worth noting:

- The title pattern's `\s` accepts any whitespace character (tab, newline,
  Unicode spaces), not only a space. A tab survives into the search pattern
  unchanged.
- The score is the raw text of the score element, never a number. It is
  the integer 0 (`NoScore`) when the element is missing.
- A page that cannot be read (no heading, or an image without a source)
  raises a built-in exception, not a dedicated extraction error.
- The title name is not required to be non-empty: the text of an empty
  `h1` is accepted.

## Model

| member | source | states |
|---|---|---|
| TitleValidator.IsTitleValid | ShikiParser/Parser.py:78-86 | the result is true exactly when the whole title is matched by the pattern: repeated groups of a word and at most one whitespace character, then a final word |
| TitleValidator.PatternIffWellSpaced | ShikiParser/Parser.py:78-86 | the pattern accepts exactly the strings that are non-empty, have no whitespace at either end and no two adjacent whitespace characters, and have every other character in `[a-zA-Zа-яА-Я0-9]` |
| TitleValidator.ClaymoreIsValid | ShikiParser/Tests.py:33-34 | "Claymore" is a valid title |
| TitleValidator.MadeInAbyssIsValid | ShikiParser/Tests.py:55 | "Made in Abyss" is a valid title |
| TitleValidator.CyrillicExample | ShikiParser/Parser.py:86 | a Cyrillic title with a digit is valid |
| TitleValidator.TabExample | ShikiParser/Parser.py:86 | two words separated by a tab are a valid title |
| TitleValidator.RejectedExamples | ShikiParser/Tests.py:11-16 | "Not;.valid-title", the empty title, a title with `ё`, a leading space and a doubled space are all invalid |
| Parser.SearchPattern | ShikiParser/Parser.py:32 | the pattern has the title's length and contains no space; it has `+` exactly where the title had a space or a `+`; every other character is the lowered title character |
| Parser.ValidTitlePattern | ShikiParser/Parser.py:29-32 | for a valid title, `+` marks exactly its spaces, and replacing each `+` by a space gives the lowered title |
| Parser.SearchUrl | ShikiParser/Parser.py:55-65 | the URL starts with the site address and ends with the pattern, unchanged |
| Parser.SearchUrlRoundTrip | ShikiParser/Parser.py:55-65 | the anime or manga path and the pattern can be read back from the search URL |
| Parser.Classify | ShikiParser/Parser.py:38-44 | no contract of its own; `ClassifyTable` states its decision table |
| Parser.IsAlreadyTitle | ShikiParser/Parser.py:67-76 | raises AttributeError exactly when the page has no `h1`; otherwise true exactly when the lowered title occurs in the lowered text of the first `h1` |
| Parser.ClassifyTable | ShikiParser/Parser.py:38-44 | no `h1` raises; a miss needs both no heading match and no `a.title`; a heading match means the page is the title page, even when an `a.title` exists; otherwise the href of the first `a.title` is followed |
| Parser.SearchRequest | ShikiParser/Parser.py:32-36 | the search request ends with the title's pattern and carries the drawn user agent |
| Parser.ValidTitleSearches | ShikiParser/Parser.py:29-36 | a valid title with a non-empty pool goes on to that search request |
| Parser.SearchedRequests | ShikiParser/Parser.py:36-44 | after the search request at most one more request is made, with the headers of the new Manga |
| Parser.LoadTitle | ShikiParser/Manga.py:10-23 | no contract of its own: the constructor as a value, giving the page requests and the record or the exception; `NewManga` is proved to match it |
| Parser.Searched | ShikiParser/Parser.py:36-44 | no contract of its own; `SearchedRequests`, `ClassifyTable` and `FollowSearch` state it |
| Parser.SearchedUrl | ShikiParser/Parser.py:42-44 | no contract of its own: the result link followed, if any; `FollowSearch` and `SearchTitle` state that the returned Manga's `url` is it |
| Parser.Resolve | ShikiParser/Parser.py:21-44 | no contract of its own; `is_anime` defaults to true. `InvalidTitleFailsFirst`, `ValidTitleSearches`, `SearchRequests`, `MissRaisesNotFound`, `DirectHitUsesSearchPage` and `DirectAndFollowedAgree` state it |
| Parser.InvalidTitleFailsFirst | ShikiParser/Parser.py:29-30 | an invalid title fails with TitleNameFormatError carrying that title, and no request is made |
| Parser.SearchRequests | ShikiParser/Parser.py:32-36 | for a valid title, the first request goes to the search URL of its pattern with the drawn user agent; at most one more request follows, and it uses the second draw |
| Parser.MissRaisesNotFound | ShikiParser/Parser.py:40-41 | no heading match and no result link give TitleNotFoundError with the requested title, after exactly one request |
| Parser.DirectHitUsesSearchPage | ShikiParser/Tests.py:25-36 | on a heading match, the record is read from the search answer itself, with no second request, and it succeeds exactly when that page can be read |
| Parser.FollowedLinkLoadsPage | ShikiParser/Parser.py:42-44 | when the answer leads to a result link, the requests are the search and then a GET of that link with the new Manga's headers; the outcome is the record of the linked page, or its exception |
| Parser.DirectAndFollowedAgree | ShikiParser/Parser.py:42-44 | a title reached directly and one reached through a result link to the same page give the same record or the same failure |
| Parser.ShikiParser.constructor | ShikiParser/Parser.py:14-19 | the headers start as `{'User-Agent': ''}` |
| Parser.ShikiParser.ChangeUserAgent | ShikiParser/Parser.py:46-53 | an empty pool fails and changes nothing; otherwise the headers become the old headers with the drawn agent under User-Agent |
| Parser.ShikiParser.SearchTitle | ShikiParser/Parser.py:21-44 | returns the record or failure that `Resolve` gives, with the same requests; a returned Manga is fresh, carries the second draw's headers, and has `url` set exactly when a result link was followed, to that link; `is_anime` defaults to true; the parser's headers change only when the title is valid and the pool is non-empty |
| Parser.FollowSearch | ShikiParser/Parser.py:36-44 | fetching the search answer and deciding on it gives the record or failure that `Searched` gives, with the same requests; a returned Manga has the second draw's headers, and its `url` is the followed link, or unset on a heading match |
| Parser.NewManga | ShikiParser/Parser.py:43-44 | builds the Manga for a page, or reports the exception its constructor would raise, with the requests that `LoadTitle` gives; a returned Manga has the rotated headers, `url` set only when no HTML was given, and the HTML it was built from |
| Http.WithUserAgent | ShikiParser/Parser.py:46-53 | fails with ValueError exactly when the pool is empty; otherwise User-Agent holds some pool entry's agent, and every other key keeps its presence and value |
| Http.RotationReachesEveryAgent | ShikiParser/Manga.py:81-88 | every pool entry can be drawn, and two draws of different agents give different headers |
| MangaPage.ExtractRecord | ShikiParser/Manga.py:19-23 | no contract of its own; `ExtractionOutcome` and the four field-rule lemmas state it |
| MangaPage.Manga.Synopsis | ShikiParser/Manga.py:70-78 | no contract of its own; `SynopsisRule` states what it returns for the stored page |
| Document.FindAll | ShikiParser/Manga.py:23 | the result has at most as many elements as the page, and each of them matches the query |
| Document.Find | ShikiParser/Manga.py:20-22 | no contract of its own; `FindIsFirst` states it |
| Document.FindIsFirst | ShikiParser/Manga.py:20-22 | `find` gives None exactly when nothing matches, and otherwise the first matching element in document order |
| Document.FindAllEmpty | ShikiParser/Manga.py:23 | `find_all` finds nothing exactly when no element matches |
| Document.FindAllAppend | ShikiParser/Manga.py:23 | `find_all` keeps document order across a split of the page |
| Document.FindAllCounts | ShikiParser/Manga.py:23 | every matching element is found as often as it occurs in the page, and nothing else is found |
| MangaPage.ExtractionOutcome | ShikiParser/Manga.py:19-23 | a page loads exactly when it has an `h1` and its first `img`, if any, has a `src`; without an `h1` it fails with AttributeError |
| MangaPage.NameAndImageRules | ShikiParser/Manga.py:20-21 | the name is the first `h1` text; the image is the first `img` src, or the placeholder when there is no `img` |
| MangaPage.ScoreRule | ShikiParser/Manga.py:41-45 | the score is the first `div.score-value` text, and 0 exactly when there is none |
| MangaPage.GenresRule | ShikiParser/Manga.py:47-56 | the genres are every `span.genre-ru` text in document order, and empty exactly when there are none |
| MangaPage.SynopsisRule | ShikiParser/Manga.py:70-78 | the synopsis is the first `div.b-text_with_paragraphs` text, or '' when there is none |
| MangaPage.BareHeadingDefaults | ShikiParser/Manga.py:41-78 | a page holding only a heading gets the placeholder image, score 0, no genres and an empty synopsis |
| MangaPage.Manga.constructor | ShikiParser/Manga.py:10-23 | headers are `{'User-Agent': ''}` after one rotation. Given HTML: no request, and `url` is unset. Otherwise one GET of the URL with those headers, and `url` is set. The stored page is the parse of that HTML, and the properties are the page's record |
| MangaPage.Manga.LoadPage | ShikiParser/Manga.py:13-17 | given HTML is kept with no request and `url` unset; otherwise the URL is fetched once with the current headers and remembered |
| MangaPage.Manga.ParsePage | ShikiParser/Manga.py:19-23 | the stored page is the parse of the stored HTML, and the properties are that page's record |
| MangaPage.Manga.ReadProperties | ShikiParser/Manga.py:19-23 | the name and the three setters leave the properties equal to the record of the stored page |
| MangaPage.Manga.ChangeUserAgent | ShikiParser/Manga.py:81-88 | an empty pool fails and changes nothing; otherwise User-Agent becomes the drawn agent |
| MangaPage.Manga.SetImageUrl | ShikiParser/Manga.py:59-67 | the image URL is the element's src, or the placeholder when there is no element |
| MangaPage.Manga.SetScore | ShikiParser/Manga.py:41-45 | the score is the element's text, or 0 when there is no element |
| MangaPage.Manga.SetGenres | ShikiParser/Manga.py:47-56 | the genres are the texts of the found elements, one each, in order |
| ParserErrors.Message | ShikiParser/ParserErrors.py:8-20 | no contract of its own; `MessageRoundTrip` and `MessageInjective` state it |
| ParserErrors.MessageRoundTrip | ShikiParser/ParserErrors.py:1-20 | the message is 'Title ' + title + ' has wrong format.' or ' not found.', and the kind and the exact title can be read back from it |
| ParserErrors.MessageInjective | ShikiParser/ParserErrors.py:8-20 | different errors never give the same message |
| ParserErrors.DefaultMessages | ShikiParser/ParserErrors.py:5-6 | without an argument, both errors carry the empty title and print with it |
| CallbackProxy.GenresReady | ShikiBotDB/CallbackProxy.py:62-70 | no contract of its own; `GenresReadyLength`, `GenresReadyEmpty` and `GenresReadyRoundTrip` state it |
| CallbackProxy.GenresReadyExamples | ShikiBotDB/CallbackProxy.py:62-70 | `[]` gives '', one genre gives itself, and ['first', 'second', 'third'] gives 'first, second, third' |
| CallbackProxy.GenresReadyLength | ShikiBotDB/CallbackProxy.py:70 | the text is as long as the genres together plus 2·(n−1) |
| CallbackProxy.GenresReadyEmpty | ShikiBotDB/CallbackProxy.py:70 | the text is empty exactly when there are no genres or one empty genre |
| CallbackProxy.GenresReadyRoundTrip | ShikiBotDB/CallbackProxy.py:70 | for a non-empty list with no genre containing ', ', splitting the text on ', ' gives back the list |
| CallbackProxy.NewCallback | ShikiBotDB/CallbackProxy.py:22-35 | the row keeps the chat, name, score and synopsis, and stores the genres as their joined text; that text is empty exactly when there is nothing to show, and it splits back into the list |
| Bot.Route | main.py:152-157 | no contract of its own; `RouteRule` and `RouteDropsSixthCharacter` state it |
| Bot.RouteRule | main.py:152-157 | a message starts a search exactly when its first five characters lower to 'аниме' or 'манга'; it is an anime search exactly for 'аниме'; the title is the original text from index 6 |
| Bot.RouteDropsSixthCharacter | main.py:156 | the character after the command word is dropped whatever it is, and the rest keeps its case |
| Bot.RouteCapitalisedExample | main.py:152-157 | 'Аниме Claymore' is an anime search for 'Claymore' |
| Bot.RouteUpperCaseExample | main.py:152-157 | 'МАНГА Berserk' is a manga search for 'Berserk' |
| Bot.RouteEdgeExamples | main.py:152-157 | 'аниме' alone routes with an empty title, and 'Привет' does not route |
| Bot.CallbackData | main.py:95-101 | no contract of its own; `CallbackDataRoundTrip` states that `SplitCallbackData` inverts it |
| Bot.SplitCallbackData | main.py:200-201 | no contract of its own; `SplitCallbackDataFails` and `CallbackDataRoundTrip` state it |
| Bot.CallbackDataRoundTrip | main.py:95-101 | the data (the id, a bar, the context name) splits back into the id's text, which reads back as the id, and the context name |
| Bot.SplitCallbackDataFails | main.py:200-201 | reading the data raises IndexError exactly when it has no bar character |
| Bot.InlineKeyboard | main.py:80-104 | three buttons, and each one's data splits back into the id and that button's own context |
| Bot.ContextNamesDistinct | main.py:95-101 | the three contexts have different names |
| Bot.Selection | main.py:203-229 | no contract of its own; `SelectionTable` and `UnknownContextSelectsNothing` state it |
| Bot.SelectionTable | main.py:209-229 | per button, exactly one of info and error is set. Info is set when the row has the field; otherwise error is that button's message. A score of 0 gives the no-score message, and a score's info is exactly its text, a space and a star |
| Bot.UnknownContextSelectsNothing | main.py:203-229 | any other context leaves both info and error empty |
| Bot.ConstructMessage | main.py:107-108 | no contract of its own; `ConstructMessageRoundTrip` states that `ReadMessage` inverts it |
| Bot.ConstructMessageRoundTrip | main.py:107-108 | a title without `*` and the body can be read back from the message |
| Bot.SendMessageTextAsWritten | main.py:111-122 | no contract of its own: `send_message` as written; `SendMessageTextAsWrittenShows` and `ErrorTextDroppedAsWritten` state it |
| Bot.SendMessageText | main.py:111-122 | no contract of its own: the corrected reply; `SendMessageTextShows` and `SendMessageTextHasError` state it |
| Bot.SendMessageTextShows | main.py:111-122 | the title line ends with ✅ exactly when there is no error, and ❌ otherwise |
| Bot.SendMessageTextHasError | main.py:190-196 | with the correction, the error text is part of the reply |
| Bot.SendMessageTextAsWrittenShows | main.py:111-122 | as written, for any title without `*`, the reply reads back as the title line with ✅ exactly when there is no error and ❌ otherwise, and the body is the info whatever the error |
| Bot.ErrorTextDroppedAsWritten | main.py:111-122 | as written, which error was found does not change the text, and a missing synopsis is answered by the title line alone |
| Bot.SendMessage | main.py:111-122 | the corrected `send_message` of the main.py:111-122 finding: it builds the title line by reassignment and sends `SendMessageText`, whose body is the error text when there is one, to the chat |
| Bot.CallbackTitleAsWritten | main.py:188-232 | no contract of its own: `callback_title` as written; `MissCrashesAsWritten` and `HandlersAgreeOnHits` state it |
| Bot.CallbackReply | main.py:188-232 | no contract of its own: the corrected handler; `MissCrashesAsWritten` and `HandlersAgreeOnHits` state it |
| Bot.MissCrashesAsWritten | main.py:206-208 | as written, a button whose row is gone raises AttributeError; the corrected handler sends nothing |
| Bot.HandlersAgreeOnHits | main.py:188-232 | for a stored row the corrected handler replies to the row's chat. It sends the same text as the written one when the field exists, and names the missing field otherwise |
| Bot.CallbackTitle | main.py:188-232 | the if-chain over the button context gives the corrected handler's outcome |

## Left out

- The network: `requests.get`, timeouts and HTTP errors are not modelled. A fetch is a function from URL and headers to a body.
- BeautifulSoup's HTML tokenizer is not modelled. The parsed page is an input, and `find`/`find_all` are modelled on it.
- Reading `user-agents.json` and `randint`: the pool and the drawn index are parameters.
- SQLAlchemy persistence is not modelled: the session, `get_callback_by_id`, `delete_old_callbacks`, `datetime.now()` and the table schema. `get_callback_by_id` is a lookup parameter; `add_callback` is modelled only as the row it builds.
- Telegram and Flask I/O are not modelled: sending photos and messages, webhooks, the token file, logging and the `/start` text. A reply is returned as a value.
- `float(title.score)` when a row is stored is not modelled. A stored score is the text `str()` gives for the float, falsy exactly when it is "0.0" or "-0.0".
- ShikiParser/Anime.py is not part of this model: an anime search builds its record with the Manga rules.
- `PyStr.Lower`: lowers ASCII, Latin-1 and basic Cyrillic (U+0400-U+042F) letters only; other scripts, and lowerings that change the length, are not modelled.
- TitleValidator.IsTitleValid: states which strings match, not the backtracking cost of Python's regex engine.
- MangaPage.Manga.constructor: requires a readable page. When the page has no `h1`, or its first `img` has no `src`, the Python constructor raises; here `Parser.NewManga` reports that exception instead of calling the constructor.
- Concurrency is not modelled: the model is sequential. The bot keeps one global `ShikiParser` (main.py:77) that every search handler uses, and the bot library runs handlers on a worker pool, so a concurrent search can overwrite the shared `HEADERS` between `change_user_agent()` and the GET that reads them (ShikiParser/Parser.py:35-36). `Parser.SearchRequests` and the headers ensures of `Parser.ShikiParser.SearchTitle` hold only when one search runs at a time.
- Bot routing covers lines 152-157 only. The try/except that answers TitleNotFoundError and TitleNameFormatError with fixed messages is left out, because it only wraps I/O.

## Findings

| source | as written | input that shows it | evidently intended | confidence | as-written member | corrected member |
|---|---|---|---|---|---|---|
| main.py:111-122 | `send_message` uses `title_error` only to pick the ❌ mark, so the reply never contains the error text | pressing "Описание" for a row with an empty synopsis sends `*Claymore ❌*` and an empty body | the handler's docstring says it sends the no-synopsis (or no-score) message, so the error text should be the body | medium, not executed | Bot.ErrorTextDroppedAsWritten | Bot.SendMessage |
| main.py:206-208 | on a lookup miss, the warning reads `callback.chat_id` with `callback` None and raises AttributeError before `return` | pressing the score button of row 5 after row 5 has been deleted | log the miss and return without replying | high, not executed | Bot.MissCrashesAsWritten | Bot.CallbackTitle |
